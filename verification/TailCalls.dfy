/** Tail positions (section 3.5 of R5RS): compiled for a tail position, an expression either computes its
    value or reaches the procedure it calls last with the continuation chain it was entered with. */
module TailCalls {
  import opened Options
  import opened Exptype
  import opened Svm
  import opened Compiler
  import opened LabelPlaces
  import opened Semantics
  import opened CompilerCorrect
  import opened ProcedureCalls

  // ---- Calls in tail position ----------------------------------------------------------------

  /** Expressions whose procedure calls all stand in tail position. */
  predicate TailForm(e: Expr)
    decreases e, 0
  {
    CallFree(e) || SimpleCall(e) ||
    match e
    case Sequence(exps) => TailSeq(exps)
    case Branch(test, thn, els) => CallFree(test) && TailForm(thn) && TailForm(els)
    case Cond(clauses) => TailClauses(clauses)
    case And(exps) => exps != [] && TailSeq(exps)
    case Or(exps) => exps != [] && TailSeq(exps)
    case _ => false
  }

  /** All but the last call nothing. */
  predicate TailSeq(es: seq<Expr>)
    decreases es, 0
  {
    es == [] || (if |es| == 1 then TailForm(es[0]) else CallFree(es[0]) && TailSeq(es[1..]))
  }

  predicate TailClauses(cs: seq<Clause>)
    decreases cs, 0
  {
    cs == [] || (CallFree(cs[0].test) && TailSeq(cs[0].body) && TailClauses(cs[1..]))
  }

  /** What comes of such an expression: a value, or the call of the procedure that is the value of c. */
  datatype TailResult = Computed(c: Config) | Called(args: seq<Value>, c: Config)

  function EvalTail(prims: Prims, e: Expr, c: Config): TailResult
    requires TailForm(e)
    decreases e, 0
  {
    if CallFree(e) then Computed(Eval(prims, e, c))
    else if SimpleCall(e) then
      var (args, c1) := CallParts(prims, e, c);
      Called(args, c1)
    else
      match e
      case Sequence(exps) => EvalTailSeq(prims, exps, c)
      case Branch(test, thn, els) =>
        var c1 := Eval(prims, test, c);
        if Truthy(c1.value) then EvalTail(prims, thn, c1) else EvalTail(prims, els, c1)
      case Cond(clauses) => EvalTailCond(prims, clauses, c)
      case And(exps) => EvalTailTests(prims, exps, c, true)
      case Or(exps) => EvalTailTests(prims, exps, c, false)
  }

  function EvalTailSeq(prims: Prims, es: seq<Expr>, c: Config): TailResult
    requires TailSeq(es)
    decreases es, 0
  {
    if es == [] then Computed(c)
    else if |es| == 1 then EvalTail(prims, es[0], c)
    else EvalTailSeq(prims, es[1..], Eval(prims, es[0], c))
  }

  function EvalTailCond(prims: Prims, cs: seq<Clause>, c: Config): TailResult
    requires TailClauses(cs)
    decreases cs, 0
  {
    if cs == [] then Computed(c.(value := Data(Void)))
    else
      var c1 := Eval(prims, cs[0].test, c);
      if Truthy(c1.value) then EvalTailSeq(prims, cs[0].body, c1) else EvalTailCond(prims, cs[1..], c1)
  }

  function EvalTailTests(prims: Prims, es: seq<Expr>, c: Config, conj: bool): TailResult
    requires es != [] && TailSeq(es)
    decreases es, 0
  {
    if |es| == 1 then EvalTail(prims, es[0], c)
    else
      var c1 := Eval(prims, es[0], c);
      if Truthy(c1.value) == conj then EvalTailTests(prims, es[1..], c1, conj) else Computed(c1)
  }

  function TailNeed(e: Expr): nat
    requires TailForm(e)
    decreases e, 0
  {
    if CallFree(e) then Need(e)
    else if SimpleCall(e) then CallNeed(e)
    else
      match e
      case Sequence(exps) => TailNeedSeq(exps)
      case Branch(test, thn, els) => Max(Need(test), Max(TailNeed(thn), TailNeed(els)))
      case Cond(clauses) => TailNeedCond(clauses)
      case And(exps) => TailNeedSeq(exps)
      case Or(exps) => TailNeedSeq(exps)
  }

  function TailNeedSeq(es: seq<Expr>): nat
    requires TailSeq(es)
    decreases es, 0
  {
    if es == [] then 0 else if |es| == 1 then TailNeed(es[0]) else Max(Need(es[0]), TailNeedSeq(es[1..]))
  }

  function TailNeedCond(cs: seq<Clause>): nat
    requires TailClauses(cs)
    decreases cs, 0
  {
    if cs == [] then 0 else Max(Need(cs[0].test), Max(TailNeedSeq(cs[0].body), TailNeedCond(cs[1..])))
  }

  lemma {:induction false} TailSupported(e: Expr)
    requires TailForm(e)
    ensures Supported(e)
    decreases e, 0
  {
    if CallFree(e) {
      CallFreeSupported(e);
    } else if SimpleCall(e) {
      SimpleCallSupported(e);
    } else {
      match e {
        case Sequence(exps) => TailSeqSupported(exps);
        case Branch(test, thn, els) =>
          CallFreeSupported(test);
          TailSupported(thn);
          TailSupported(els);
        case Cond(clauses) => TailClausesSupported(clauses);
        case And(exps) => TailSeqSupported(exps);
        case Or(exps) => TailSeqSupported(exps);
      }
    }
  }

  lemma {:induction false} TailSeqSupported(es: seq<Expr>)
    requires TailSeq(es)
    ensures AllSupported(es)
    decreases es, 0
  {
    if |es| == 1 {
      TailSupported(es[0]);
    } else if es != [] {
      CallFreeSupported(es[0]);
      TailSeqSupported(es[1..]);
    }
  }

  lemma {:induction false} TailClausesSupported(cs: seq<Clause>)
    requires TailClauses(cs)
    ensures ClausesSupported(cs)
    decreases cs, 0
  {
    if cs != [] {
      CallFreeSupported(cs[0].test);
      TailSeqSupported(cs[0].body);
      TailClausesSupported(cs[1..]);
    }
  }

  // ---- Arriving ------------------------------------------------------------------------------

  /** From state t the machine comes to `rest` with the value, or to the procedure called, on the chain
      and the stack of s. */
  ghost predicate Arrives(vm: Vm, s: State, t: State, r: TailResult, rest: seq<Code>) {
    match r
    case Computed(c) => Runs(vm, t, Load(s, rest, c))
    case Called(args, c) => c.value.Closure? ==> Runs(vm, t, Entry(s, c.value, c.vars, args, s.cont))
  }

  lemma ArrivesAfter(vm: Vm, s: State, t: State, u: State, r: TailResult, rest: seq<Code>)
    requires Runs(vm, t, u) && Arrives(vm, s, u, r, rest)
    ensures Arrives(vm, s, t, r, rest)
  {
    match r {
      case Computed(c) => RunsTrans(vm, t, u, Load(s, rest, c));
      case Called(args, c) =>
        if c.value.Closure? {
          RunsTrans(vm, t, u, Entry(s, c.value, c.vars, args, s.cont));
        }
    }
  }

  lemma ArrivesThen(vm: Vm, s: State, t: State, r: TailResult, mid: seq<Code>, rest: seq<Code>)
    requires Arrives(vm, s, t, r, mid)
    requires r.Computed? ==> Runs(vm, Load(s, mid, r.c), Load(s, rest, r.c))
    ensures Arrives(vm, s, t, r, rest)
  {
    if r.Computed? {
      RunsTrans(vm, t, Load(s, mid, r.c), Load(s, rest, r.c));
    }
  }

  lemma ArrivesRefl(vm: Vm, s: State, c: Config, rest: seq<Code>)
    ensures Arrives(vm, s, Load(s, rest, c), Computed(c), rest)
  {
    RunsRefl(vm, Load(s, rest, c));
  }

  /** The code whose value decides, and the block it chooses. */
  lemma TestRuns(vm: Vm, s: State, code: seq<Code>, i: Code, a: seq<Code>, b: seq<Code>, taken: bool,
                 after: seq<Code>, c: Config, c1: Config)
    requires Computes(vm, s, code, [i] + after, c, c1)
    requires (i == IfTrue(a, b) && taken == Truthy(c1.value)) || (i == IfFalse(a, b) && taken == !Truthy(c1.value))
    ensures Runs(vm, Load(s, code + ([i] + after), c), Load(s, (if taken then a else b) + after, c1))
  {
    var t := Load(s, (if taken then a else b) + after, c1);
    RunsRefl(vm, t);
    ComputesTest(vm, s, code, i, a, b, taken, after, c, c1, t);
  }

  // ---- The forms -----------------------------------------------------------------------------

  lemma SeqCode(es: seq<Expr>, k: nat)
    requires es != [] && AllSupported(es)
    ensures AllSupported(es[1..])
    ensures |es| == 1 ==> Concat(CompileSeq(true, es, k).1) == CompileExpr(true, es[0], k).1
    ensures |es| > 1 ==>
      var (k1, code) := CompileExpr(false, es[0], k);
      Concat(CompileSeq(true, es, k).1) == code + Concat(CompileSeq(true, es[1..], k1).1)
  {
    hide CompileExpr, AllSupported;
    AllParts(es);
    var codes := CompileSeq(true, es, k).1;
    if |es| == 1 {
      assert codes[0] + Concat(codes[1..]) == codes[0];
    } else {
      var (k1, code) := CompileExpr(false, es[0], k);
      assert codes[1..] == CompileSeq(true, es[1..], k1).1;
    }
  }

  lemma AllParts(es: seq<Expr>)
    requires es != [] && AllSupported(es)
    ensures Supported(es[0]) && AllSupported(es[1..])
  {
  }

  lemma SeqParts(vm: Vm, s: State, es: seq<Expr>, c: Config)
    requires es != [] && TailSeq(es)
    ensures |es| == 1 ==>
      TailForm(es[0]) && EvalTailSeq(vm.prims, es, c) == EvalTail(vm.prims, es[0], c) &&
      (Room(vm, s, TailNeedSeq(es)) ==> Room(vm, s, TailNeed(es[0])))
    ensures |es| > 1 ==>
      CallFree(es[0]) && TailSeq(es[1..]) &&
      EvalTailSeq(vm.prims, es, c) == EvalTailSeq(vm.prims, es[1..], Eval(vm.prims, es[0], c)) &&
      (Room(vm, s, TailNeedSeq(es)) ==> Room(vm, s, Need(es[0])) && Room(vm, s, TailNeedSeq(es[1..])))
  {
  }

  lemma {:induction false} SeqTail(vm: Vm, s: State, es: seq<Expr>, k: nat, rest: seq<Code>, c: Config)
    requires TailSeq(es) && AllSupported(es) && Room(vm, s, TailNeedSeq(es))
    requires Located(vm.prog, Concat(CompileSeq(true, es, k).1), rest)
    ensures Arrives(vm, s, Load(s, Concat(CompileSeq(true, es, k).1) + rest, c), EvalTailSeq(vm.prims, es, c), rest)
    decreases es, 0
  {
    hide *;
    if es == [] {
      NoSeq(vm.prims, k, rest, c);
      ArrivesRefl(vm, s, c, rest);
    } else {
      SeqCode(es, k);
      SeqParts(vm, s, es, c);
      AllParts(es);
      if |es| == 1 {
        TailCorrect(vm, s, es[0], k, rest, c);
      } else {
        var (k1, code) := CompileExpr(false, es[0], k);
        var more := Concat(CompileSeq(true, es[1..], k1).1);
        LocatedConcat(vm.prog, code, more, rest);
        var c1 := Eval(vm.prims, es[0], c);
        ExprCorrect(vm, s, false, es[0], k, more + rest, c);
        RunsComputes(vm, s, code, more + rest, c, c1);
        SeqTail(vm, s, es[1..], k1, rest, c1);
        assert code + more + rest == code + (more + rest);
        ArrivesAfter(vm, s, Load(s, code + (more + rest), c), Load(s, more + rest, c1),
                     EvalTailSeq(vm.prims, es[1..], c1), rest);
      }
    }
  }

  lemma NoSeq(prims: Prims, k: nat, rest: seq<Code>, c: Config)
    ensures AllSupported([]) && TailSeq([])
    ensures Concat(CompileSeq(true, [], k).1) + rest == rest && EvalTailSeq(prims, [], c) == Computed(c)
  {
    assert [] + rest == rest;
  }

  lemma ClauseParts(vm: Vm, s: State, cs: seq<Clause>, end: string, k: nat, c: Config)
    requires cs != [] && TailClauses(cs) && ClausesSupported(cs)
    ensures CallFree(cs[0].test) && TailSeq(cs[0].body) && TailClauses(cs[1..])
    ensures Supported(cs[0].test) && AllSupported(cs[0].body) && ClausesSupported(cs[1..])
    ensures var c1 := Eval(vm.prims, cs[0].test, c);
            EvalTailCond(vm.prims, cs, c) ==
            if Truthy(c1.value) then EvalTailSeq(vm.prims, cs[0].body, c1) else EvalTailCond(vm.prims, cs[1..], c1)
    ensures Room(vm, s, TailNeedCond(cs)) ==>
      Room(vm, s, Need(cs[0].test)) && Room(vm, s, TailNeedSeq(cs[0].body)) && Room(vm, s, TailNeedCond(cs[1..]))
    ensures var (k1, t) := CompileExpr(false, cs[0].test, k);
            var (k2, a) := CompileSeq(true, cs[0].body, k1);
            CompileClauses(true, cs, end, k).1 ==
            t + [IfTrue(Concat(a) + [Goto(end)], [])] + CompileClauses(true, cs[1..], end, k2).1
  {
    hide CompileExpr, CompileSeq, Concat;
  }

  lemma {:induction false} ClausesTail(vm: Vm, s: State, cs: seq<Clause>, end: string, k: nat, rest: seq<Code>,
                                       c: Config)
    requires TailClauses(cs) && ClausesSupported(cs) && Room(vm, s, TailNeedCond(cs))
    requires Located(vm.prog, CompileClauses(true, cs, end, k).1, [FetchConst(Void), Label(end)] + rest)
    requires Resolve(vm.prog, end) == Some(rest)
    ensures Arrives(vm, s, Load(s, CompileClauses(true, cs, end, k).1 + ([FetchConst(Void), Label(end)] + rest), c),
                    EvalTailCond(vm.prims, cs, c), rest)
    decreases cs, 0
  {
    hide *;
    var last := [FetchConst(Void), Label(end)];
    if cs == [] {
      NoClauses(vm, s, end, k, rest, c);
    } else {
      ClauseParts(vm, s, cs, end, k, c);
      var (k1, t) := CompileExpr(false, cs[0].test, k);
      var (k2, a) := CompileSeq(true, cs[0].body, k1);
      var more := CompileClauses(true, cs[1..], end, k2).1;
      var body := Concat(a) + [Goto(end)];
      var after := more + (last + rest);
      ClauseLocated(vm.prog, t, Concat(a), end, more, last + rest);
      var c1 := Eval(vm.prims, cs[0].test, c);
      ExprCorrect(vm, s, false, cs[0].test, k, [IfTrue(body, [])] + after, c);
      TestRuns(vm, s, t, IfTrue(body, []), body, [], Truthy(c1.value), after, c, c1);
      ClauseText(t, body, more, last + rest);
      if Truthy(c1.value) {
        SeqTail(vm, s, cs[0].body, k1, [Goto(end)] + after, c1);
        LeaveTail(vm, s, Concat(a), end, after, rest, c1, EvalTailSeq(vm.prims, cs[0].body, c1));
        ArrivesAfter(vm, s, Load(s, t + ([IfTrue(body, [])] + after), c), Load(s, body + after, c1),
                     EvalTailSeq(vm.prims, cs[0].body, c1), rest);
      } else {
        ClausesTail(vm, s, cs[1..], end, k2, rest, c1);
        ArrivesAfter(vm, s, Load(s, t + ([IfTrue(body, [])] + after), c), Load(s, after, c1),
                     EvalTailCond(vm.prims, cs[1..], c1), rest);
      }
    }
  }

  lemma ClauseText(t: seq<Code>, body: seq<Code>, more: seq<Code>, last: seq<Code>)
    ensures t + [IfTrue(body, [])] + more + last == t + ([IfTrue(body, [])] + (more + last))
    ensures [] + (more + last) == more + last
  {
  }

  lemma NoClauses(vm: Vm, s: State, end: string, k: nat, rest: seq<Code>, c: Config)
    requires Resolve(vm.prog, end) == Some(rest)
    ensures ClausesSupported([]) && TailClauses([])
    ensures Arrives(vm, s, Load(s, CompileClauses(true, [], end, k).1 + ([FetchConst(Void), Label(end)] + rest), c),
                    EvalTailCond(vm.prims, [], c), rest)
  {
    var c1 := c.(value := Data(Void));
    ComputesOne(vm, s, FetchConst(Void), [Label(end)] + rest, c, c1);
    ComputesSkip(vm, s, Label(end), rest, c1);
    ComputesThen(vm, s, [FetchConst(Void)], [Label(end)], rest, c, c1, c1);
    assert [FetchConst(Void)] + [Label(end)] + rest == [] + ([FetchConst(Void), Label(end)] + rest);
  }

  /** A block in tail position that leaves for a label when it is done. */
  lemma LeaveTail(vm: Vm, s: State, a: seq<Code>, end: string, after: seq<Code>, rest: seq<Code>, c: Config,
                  r: TailResult)
    requires Arrives(vm, s, Load(s, a + ([Goto(end)] + after), c), r, [Goto(end)] + after)
    requires Resolve(vm.prog, end) == Some(rest)
    ensures Arrives(vm, s, Load(s, (a + [Goto(end)]) + after, c), r, rest)
  {
    assert (a + [Goto(end)]) + after == a + ([Goto(end)] + after);
    if r.Computed? {
      RunsRefl(vm, Load(s, [Goto(end)] + after, r.c));
      assert [] + ([Goto(end)] + after) == [Goto(end)] + after && [] + [Goto(end)] == [Goto(end)];
      ComputesLeave(vm, s, [], end, after, rest, r.c, r.c);
    }
    ArrivesThen(vm, s, Load(s, a + ([Goto(end)] + after), c), r, [Goto(end)] + after, rest);
  }

  lemma TestsParts(vm: Vm, s: State, es: seq<Expr>, c: Config, conj: bool)
    requires es != [] && TailSeq(es)
    ensures |es| == 1 ==> EvalTailTests(vm.prims, es, c, conj) == EvalTail(vm.prims, es[0], c)
    ensures |es| > 1 ==>
      var c1 := Eval(vm.prims, es[0], c);
      EvalTailTests(vm.prims, es, c, conj) ==
      if Truthy(c1.value) == conj then EvalTailTests(vm.prims, es[1..], c1, conj) else Computed(c1)
  {
  }

  lemma TestsCodes(es: seq<Expr>, k: nat)
    requires es != [] && AllSupported(es)
    ensures AllSupported(es[1..])
    ensures var codes := CompileSeq(true, es, k).1;
            var (k1, code) := CompileExpr(|es| == 1, es[0], k);
            |codes| == |es| && codes[0] == code && codes[1..] == CompileSeq(true, es[1..], k1).1
  {
    hide CompileExpr;
  }

  lemma {:induction false} TestsTail(vm: Vm, s: State, es: seq<Expr>, k: nat, end: string, conj: bool,
                                     rest: seq<Code>, c: Config)
    requires es != [] && TailSeq(es) && AllSupported(es) && Room(vm, s, TailNeedSeq(es))
    requires Located(vm.prog, Tests(CompileSeq(true, es, k).1, end, conj), [Label(end)] + rest)
    requires Resolve(vm.prog, end) == Some(rest)
    ensures Arrives(vm, s, Load(s, Tests(CompileSeq(true, es, k).1, end, conj) + ([Label(end)] + rest), c),
                    EvalTailTests(vm.prims, es, c, conj), rest)
    decreases es, 0
  {
    hide *;
    TestsCodes(es, k);
    AllParts(es);
    SeqParts(vm, s, es, c);
    TestsParts(vm, s, es, c, conj);
    var codes := CompileSeq(true, es, k).1;
    var (k1, code) := CompileExpr(|es| == 1, es[0], k);
    var last := [Label(end)] + rest;
    TestsLocated(vm.prog, codes, end, conj, last);
    if |es| == 1 {
      TailCorrect(vm, s, es[0], k, last, c);
      LabelTail(vm, s, code, end, rest, c, EvalTail(vm.prims, es[0], c));
    } else {
      var after := Tests(codes[1..], end, conj) + last;
      var c1 := Eval(vm.prims, es[0], c);
      ExprCorrect(vm, s, false, es[0], k, [TestCode(end, conj)] + after, c);
      if Truthy(c1.value) == conj {
        TestsTail(vm, s, es[1..], k1, end, conj, rest, c1);
        GoesOn(vm, s, code, end, conj, after, c, c1);
        ArrivesAfter(vm, s, Load(s, code + ([TestCode(end, conj)] + after), c), Load(s, after, c1),
                     EvalTailTests(vm.prims, es[1..], c1, conj), rest);
      } else {
        TestsStep(vm, s, code, end, conj, after, rest, c, c1, Load(s, rest, c1));
        Computing(vm, s, Load(s, code + ([TestCode(end, conj)] + after), c), c1, rest);
      }
    }
  }

  lemma Computing(vm: Vm, s: State, t: State, c: Config, rest: seq<Code>)
    requires Runs(vm, t, Load(s, rest, c))
    ensures Arrives(vm, s, t, Computed(c), rest)
  {
  }

  lemma GoesOn(vm: Vm, s: State, code: seq<Code>, end: string, conj: bool, after: seq<Code>, c: Config, c1: Config)
    requires Computes(vm, s, code, [TestCode(end, conj)] + after, c, c1) && Truthy(c1.value) == conj
    ensures Runs(vm, Load(s, code + ([TestCode(end, conj)] + after), c), Load(s, after, c1))
  {
    TestRuns(vm, s, code, TestCode(end, conj), [Goto(end)], [], false, after, c, c1);
    assert [] + after == after;
  }

  lemma LabelTail(vm: Vm, s: State, code: seq<Code>, end: string, rest: seq<Code>, c: Config, r: TailResult)
    requires Arrives(vm, s, Load(s, code + ([Label(end)] + rest), c), r, [Label(end)] + rest)
    ensures Arrives(vm, s, Load(s, code + ([Label(end)] + rest), c), r, rest)
  {
    if r.Computed? {
      ComputesSkip(vm, s, Label(end), rest, r.c);
    }
    ArrivesThen(vm, s, Load(s, code + ([Label(end)] + rest), c), r, [Label(end)] + rest, rest);
  }

  // ---- Main theorem --------------------------------------------------------------------------

  /** Any expression whose calls stand in tail position, compiled for a tail position. */
  lemma {:induction false} TailCorrect(vm: Vm, s: State, e: Expr, k: nat, rest: seq<Code>, c: Config)
    requires TailForm(e) && Supported(e) && Room(vm, s, TailNeed(e))
    requires Located(vm.prog, CompileExpr(true, e, k).1, rest)
    ensures Arrives(vm, s, Load(s, CompileExpr(true, e, k).1 + rest, c), EvalTail(vm.prims, e, c), rest)
    decreases e, 1
  {
    if CallFree(e) {
      FreeTail(vm, s, e, k, rest, c);
    } else if SimpleCall(e) {
      CallTail(vm, s, e, k, rest, c);
    } else {
      match e {
        case Sequence(exps) =>
          SequenceParts(vm, s, e, k, c);
          hide *;
          SeqTail(vm, s, exps, k, rest, c);
        case Branch(_, _, _) => BranchTail(vm, s, e, k, rest, c);
        case Cond(_) => CondTail(vm, s, e, k, rest, c);
        case And(_) => TestsFormTail(vm, s, e, k, rest, c);
        case Or(_) => TestsFormTail(vm, s, e, k, rest, c);
      }
    }
  }

  lemma FreeTail(vm: Vm, s: State, e: Expr, k: nat, rest: seq<Code>, c: Config)
    requires CallFree(e) && TailForm(e) && Supported(e) && Room(vm, s, TailNeed(e))
    requires Located(vm.prog, CompileExpr(true, e, k).1, rest)
    ensures Arrives(vm, s, Load(s, CompileExpr(true, e, k).1 + rest, c), EvalTail(vm.prims, e, c), rest)
  {
    hide CompileExpr, Located, Supported, CallFree, Eval, Need, Runs, Load;
    ExprCorrect(vm, s, true, e, k, rest, c);
  }

  lemma CallTail(vm: Vm, s: State, e: Expr, k: nat, rest: seq<Code>, c: Config)
    requires !CallFree(e) && SimpleCall(e) && TailForm(e) && Supported(e) && Room(vm, s, TailNeed(e))
    requires Located(vm.prog, CompileExpr(true, e, k).1, rest)
    ensures Arrives(vm, s, Load(s, CompileExpr(true, e, k).1 + rest, c), EvalTail(vm.prims, e, c), rest)
  {
    hide CompileExpr, Located, Supported, CallFree, SimpleCall, CallNeed, CallParts, Runs, Load, Entry;
    if CallParts(vm.prims, e, c).1.value.Closure? {
      CallReaches(vm, s, true, e, k, rest, c);
    }
  }

  lemma SequenceParts(vm: Vm, s: State, e: Expr, k: nat, c: Config)
    requires e.Sequence? && !CallFree(e) && TailForm(e) && Supported(e)
    ensures TailSeq(e.exps) && AllSupported(e.exps) && EvalTail(vm.prims, e, c) == EvalTailSeq(vm.prims, e.exps, c)
    ensures CompileExpr(true, e, k).1 == Concat(CompileSeq(true, e.exps, k).1)
    ensures Room(vm, s, TailNeed(e)) ==> Room(vm, s, TailNeedSeq(e.exps))
  {
    hide CompileSeq, Concat;
  }

  lemma BranchParts(vm: Vm, s: State, e: Expr, k: nat, c: Config)
    requires e.Branch? && !CallFree(e) && TailForm(e) && Supported(e)
    ensures CallFree(e.test) && TailForm(e.thn) && TailForm(e.els)
    ensures Supported(e.test) && Supported(e.thn) && Supported(e.els)
    ensures var c1 := Eval(vm.prims, e.test, c);
            EvalTail(vm.prims, e, c) ==
            if Truthy(c1.value) then EvalTail(vm.prims, e.thn, c1) else EvalTail(vm.prims, e.els, c1)
    ensures Room(vm, s, TailNeed(e)) ==>
      Room(vm, s, Need(e.test)) && Room(vm, s, TailNeed(e.thn)) && Room(vm, s, TailNeed(e.els))
    ensures var (k1, cTest) := CompileExpr(false, e.test, k);
            var (k2, cThen) := CompileExpr(true, e.thn, k1);
            var (k3, cElse) := CompileExpr(true, e.els, k2);
            CompileExpr(true, e, k).1 == cTest + [IfTrue(cThen, cElse)]
  {
  }

  lemma {:induction false} BranchTail(vm: Vm, s: State, e: Expr, k: nat, rest: seq<Code>, c: Config)
    requires e.Branch? && !CallFree(e) && TailForm(e) && Supported(e) && Room(vm, s, TailNeed(e))
    requires Located(vm.prog, CompileExpr(true, e, k).1, rest)
    ensures Arrives(vm, s, Load(s, CompileExpr(true, e, k).1 + rest, c), EvalTail(vm.prims, e, c), rest)
    decreases e, 0
  {
    hide *;
    BranchParts(vm, s, e, k, c);
    var (k1, cTest) := CompileExpr(false, e.test, k);
    var (k2, cThen) := CompileExpr(true, e.thn, k1);
    var (k3, cElse) := CompileExpr(true, e.els, k2);
    BranchLocated(vm.prog, cTest, cThen, cElse, rest);
    var c1 := Eval(vm.prims, e.test, c);
    ExprCorrect(vm, s, false, e.test, k, [IfTrue(cThen, cElse)] + rest, c);
    TestRuns(vm, s, cTest, IfTrue(cThen, cElse), cThen, cElse, Truthy(c1.value), rest, c, c1);
    if Truthy(c1.value) {
      TailCorrect(vm, s, e.thn, k1, rest, c1);
      ArrivesAfter(vm, s, Load(s, cTest + ([IfTrue(cThen, cElse)] + rest), c), Load(s, cThen + rest, c1),
                   EvalTail(vm.prims, e.thn, c1), rest);
    } else {
      TailCorrect(vm, s, e.els, k2, rest, c1);
      ArrivesAfter(vm, s, Load(s, cTest + ([IfTrue(cThen, cElse)] + rest), c), Load(s, cElse + rest, c1),
                   EvalTail(vm.prims, e.els, c1), rest);
    }
  }

  lemma BranchLocated(prog: seq<Code>, test: seq<Code>, a: seq<Code>, b: seq<Code>, rest: seq<Code>)
    requires Located(prog, test + [IfTrue(a, b)], rest)
    ensures Located(prog, test, [IfTrue(a, b)] + rest) && Located(prog, a, rest) && Located(prog, b, rest)
    ensures test + [IfTrue(a, b)] + rest == test + ([IfTrue(a, b)] + rest)
  {
    LocatedConcat(prog, test, [IfTrue(a, b)], rest);
    assert [IfTrue(a, b)][1..] + rest == rest;
  }

  lemma CondTailParts(vm: Vm, s: State, e: Expr, k: nat, c: Config)
    requires e.Cond? && !CallFree(e) && TailForm(e) && Supported(e)
    ensures TailClauses(e.clauses) && ClausesSupported(e.clauses)
    ensures EvalTail(vm.prims, e, c) == EvalTailCond(vm.prims, e.clauses, c)
    ensures Room(vm, s, TailNeed(e)) ==> Room(vm, s, TailNeedCond(e.clauses))
    ensures CompileExpr(true, e, k).1 ==
      CompileClauses(true, e.clauses, LabelName(k), k + 1).1 + [FetchConst(Void), Label(LabelName(k))]
  {
  }

  lemma {:induction false} CondTail(vm: Vm, s: State, e: Expr, k: nat, rest: seq<Code>, c: Config)
    requires e.Cond? && !CallFree(e) && TailForm(e) && Supported(e) && Room(vm, s, TailNeed(e))
    requires Located(vm.prog, CompileExpr(true, e, k).1, rest)
    ensures Arrives(vm, s, Load(s, CompileExpr(true, e, k).1 + rest, c), EvalTail(vm.prims, e, c), rest)
    decreases e, 0
  {
    hide *;
    CondTailParts(vm, s, e, k, c);
    var end := LabelName(k);
    var clauses := CompileClauses(true, e.clauses, end, k + 1).1;
    var last := [FetchConst(Void), Label(end)];
    LocatedConcat(vm.prog, clauses, last, rest);
    CondEnd(vm.prog, end, rest);
    ClausesTail(vm, s, e.clauses, end, k + 1, rest, c);
    assert clauses + last + rest == clauses + (last + rest);
  }

  lemma TestsFormParts(vm: Vm, s: State, e: Expr, k: nat, c: Config)
    requires (e.And? || e.Or?) && !CallFree(e) && TailForm(e) && Supported(e)
    ensures e.exps != [] && TailSeq(e.exps) && AllSupported(e.exps)
    ensures EvalTail(vm.prims, e, c) == EvalTailTests(vm.prims, e.exps, c, e.And?)
    ensures Room(vm, s, TailNeed(e)) ==> Room(vm, s, TailNeedSeq(e.exps))
  {
  }

  lemma {:induction false} TestsFormTail(vm: Vm, s: State, e: Expr, k: nat, rest: seq<Code>, c: Config)
    requires (e.And? || e.Or?) && !CallFree(e) && TailForm(e) && Supported(e) && Room(vm, s, TailNeed(e))
    requires Located(vm.prog, CompileExpr(true, e, k).1, rest)
    ensures Arrives(vm, s, Load(s, CompileExpr(true, e, k).1 + rest, c), EvalTail(vm.prims, e, c), rest)
    decreases e, 0
  {
    hide *;
    TestsFormParts(vm, s, e, k, c);
    TestsForm(true, e, k);
    var (k1, codes) := CompileSeq(true, e.exps, k);
    var end := LabelName(k1);
    var tests := Tests(codes, end, e.And?);
    LocatedConcat(vm.prog, tests, [Label(end)], rest);
    LabelHere(vm.prog, end, rest);
    TestsTail(vm, s, e.exps, k, end, e.And?, rest, c);
    assert tests + [Label(end)] + rest == tests + ([Label(end)] + rest);
  }

  /** A procedure whose calls all stand in tail position, from its entry: it returns to its caller, or it
      reaches the next procedure with the chain it was entered with. So a loop of such procedures runs on
      one chain, however often it goes around. */
  lemma ProcedureTail(vm: Vm, s: State, params: seq<Sym>, exps: seq<Expr>, k: nat) returns (c: Config)
    requires TailSeq(exps) && AllSupported(exps) && s.pc == ProcCode(params, exps, k)
    requires Located(vm.prog, s.pc, []) && s.envt in s.envs && s.cont != []
    requires |params| <= |s.stack| && Room(vm, s, TailNeedSeq(exps))
    ensures ParametersAre(s.envs[s.envt], c.vars, params, s.stack[..|params|])
    ensures match EvalTailSeq(vm.prims, exps, c)
            case Computed(c1) => Runs(vm, s, Returned(s, c1))
            case Called(args, c1) =>
              c1.value.Closure? ==> Runs(vm, s, Entry(s, c1.value, c1.vars, args, s.cont))
  {
    hide *;
    ProcedureParts(vm.prog, params, exps, k);
    var body := Concat(CompileSeq(true, exps, k).1);
    var header := ParameterHeader(params, 0);
    Loaded(s);
    c := HeaderRuns(vm, s, params, 0, body + [LeaveProc], Config(s.value, s.envs[s.envt]));
    assert s.stack[0..0 + |params|] == s.stack[..|params|];
    SeqTail(vm, s, exps, k, [LeaveProc], c);
    var r := EvalTailSeq(vm.prims, exps, c);
    ArrivesAfter(vm, s, s, Load(s, body + [LeaveProc], c), r, [LeaveProc]);
    ArrivesMeans(vm, s, r);
  }

  lemma ArrivesMeans(vm: Vm, s: State, r: TailResult)
    requires s.cont != [] && Arrives(vm, s, s, r, [LeaveProc])
    ensures match r
            case Computed(c1) => Runs(vm, s, Returned(s, c1))
            case Called(args, c1) =>
              c1.value.Closure? ==> Runs(vm, s, Entry(s, c1.value, c1.vars, args, s.cont))
  {
    if r.Computed? {
      RunsLeave(vm, s, r.c);
      RunsTrans(vm, s, Load(s, [LeaveProc], r.c), Returned(s, r.c));
    }
  }
}
