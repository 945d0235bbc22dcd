/** Meaning preservation: compiled call-free code computes the source value and the source effects,
    leaves the stack as it found it, and continues with what follows it. */
module CompilerCorrect {
  import opened Options
  import opened Exptype
  import opened Svm
  import opened Compiler
  import opened CompilerLabels
  import opened LabelPlaces
  import opened Semantics

  /** Machine state s with code pc to run and configuration c loaded. */
  function Load(s: State, pc: seq<Code>, c: Config): State {
    s.(pc := pc, value := c.value, envs := s.envs[s.envt := c.vars])
  }

  function Pushed(s: State, vs: seq<Value>): State {
    s.(stack := vs + s.stack)
  }

  /** Code that takes configuration c to c' and then runs `rest`, on any stack. */
  ghost predicate Computes(vm: Vm, s: State, code: seq<Code>, rest: seq<Code>, c: Config, c': Config) {
    Runs(vm, Load(s, code + rest, c), Load(s, rest, c'))
  }

  ghost predicate Room(vm: Vm, s: State, need: nat) {
    |s.stack| + need <= vm.capacity
  }

  lemma ComputesThen(vm: Vm, s: State, a: seq<Code>, b: seq<Code>, rest: seq<Code>,
                     c: Config, c1: Config, c2: Config)
    requires Computes(vm, s, a, b + rest, c, c1) && Computes(vm, s, b, rest, c1, c2)
    ensures Computes(vm, s, a + b, rest, c, c2)
  {
    assert a + b + rest == a + (b + rest);
    RunsTrans(vm, Load(s, a + (b + rest), c), Load(s, b + rest, c1), Load(s, rest, c2));
  }

  /** One instruction that only changes the configuration. */
  lemma ComputesOne(vm: Vm, s: State, i: Code, rest: seq<Code>, c: Config, c': Config)
    requires Step(vm, Load(s, [i] + rest, c)) == Next(Load(s, rest, c'))
    ensures Computes(vm, s, [i], rest, c, c')
  {
    RunsRefl(vm, Load(s, rest, c'));
    RunsStep(vm, Load(s, [i] + rest, c), Load(s, rest, c'), Load(s, rest, c'));
  }

  lemma ComputesSkip(vm: Vm, s: State, i: Code, rest: seq<Code>, c: Config)
    requires i.Label? || i == BlankLn || i == Nop
    ensures Computes(vm, s, [i], rest, c, c)
  {
    ComputesOne(vm, s, i, rest, c, c);
  }

  lemma ComputesBind(vm: Vm, s: State, i: Code, rest: seq<Code>, c: Config, name: Sym)
    requires i == NewBind(name) || i == ReBind(name)
    ensures Computes(vm, s, [i, Nop], rest, c, c.(vars := c.vars[name := c.value]))
  {
    var c' := c.(vars := c.vars[name := c.value]);
    var t := Load(s, [i] + ([Nop] + rest), c);
    assert t.pc[1..] == [Nop] + rest;
    assert t.envs[t.envt := t.Bindings()[name := t.value]] == s.envs[s.envt := c'.vars];
    ComputesOne(vm, s, i, [Nop] + rest, c, c');
    ComputesSkip(vm, s, Nop, rest, c');
    ComputesThen(vm, s, [i], [Nop], rest, c, c', c');
    assert [i] + [Nop] == [i, Nop];
  }

  /** Code whose value decides which block of a conditional runs. */
  lemma ComputesTest(vm: Vm, s: State, code: seq<Code>, i: Code, a: seq<Code>, b: seq<Code>, taken: bool,
                     rest: seq<Code>, c: Config, c1: Config, t: State)
    requires Computes(vm, s, code, [i] + rest, c, c1)
    requires (i == IfTrue(a, b) && taken == Truthy(c1.value)) || (i == IfFalse(a, b) && taken == !Truthy(c1.value))
    requires Runs(vm, Load(s, (if taken then a else b) + rest, c1), t)
    ensures Runs(vm, Load(s, code + ([i] + rest), c), t)
    ensures Runs(vm, Load(s, code + [i] + rest, c), t)
  {
    var u := Load(s, [i] + rest, c1);
    assert u.pc[1..] == rest;
    RunsStep(vm, u, Load(s, (if taken then a else b) + rest, c1), t);
    RunsTrans(vm, Load(s, code + ([i] + rest), c), u, t);
    assert code + [i] + rest == code + ([i] + rest);
  }

  /** A block that leaves for a label when it is done. */
  lemma ComputesLeave(vm: Vm, s: State, a: seq<Code>, l: string, after: seq<Code>, rest: seq<Code>,
                      c: Config, c': Config)
    requires Computes(vm, s, a, [Goto(l)] + after, c, c')
    requires Resolve(vm.prog, l) == Some(rest)
    ensures Runs(vm, Load(s, (a + [Goto(l)]) + after, c), Load(s, rest, c'))
  {
    RunsRefl(vm, Load(s, rest, c'));
    RunsStep(vm, Load(s, [Goto(l)] + after, c'), Load(s, rest, c'), Load(s, rest, c'));
    assert (a + [Goto(l)]) + after == a + ([Goto(l)] + after);
    RunsTrans(vm, Load(s, a + ([Goto(l)] + after), c), Load(s, [Goto(l)] + after, c'), Load(s, rest, c'));
  }

  lemma {:induction false} SeqCorrect(vm: Vm, s: State, tail: bool, es: seq<Expr>, k: nat, rest: seq<Code>, c: Config)
    requires AllCallFree(es) && AllSupported(es)
    requires Located(vm.prog, Concat(CompileSeq(tail, es, k).1), rest)
    requires Room(vm, s, NeedSeq(es))
    ensures Computes(vm, s, Concat(CompileSeq(tail, es, k).1), rest, c, EvalSeq(vm.prims, es, c))
    decreases es, 0
  {
    var codes := CompileSeq(tail, es, k).1;
    if es == [] {
      RunsRefl(vm, Load(s, rest, c));
      assert Concat(codes) + rest == rest;
    } else {
      var t := tail && |es| == 1;
      var (k1, code) := CompileExpr(t, es[0], k);
      var codes' := CompileSeq(tail, es[1..], k1).1;
      assert codes[1..] == codes';
      LocatedConcat(vm.prog, code, Concat(codes'), rest);
      var c1 := Eval(vm.prims, es[0], c);
      ExprCorrect(vm, s, t, es[0], k, Concat(codes') + rest, c);
      SeqCorrect(vm, s, tail, es[1..], k1, rest, c1);
      ComputesThen(vm, s, code, Concat(codes'), rest, c, c1, EvalSeq(vm.prims, es[1..], c1));
    }
  }

  /** Operand code leaves the operands on the stack, the first one of the source on top. */
  lemma {:induction false} OperandsCorrect(vm: Vm, s: State, es: seq<Expr>, k: nat, rest: seq<Code>, c: Config)
    requires AllCallFree(es) && AllSupported(es)
    requires Located(vm.prog, PushAll(CompileSeq(false, es, k).1), rest)
    requires Room(vm, s, NeedOperands(es))
    ensures var (args, c') := EvalOperands(vm.prims, es, c);
            Runs(vm, Load(s, PushAll(CompileSeq(false, es, k).1) + rest, c), Load(Pushed(s, args), rest, c'))
    decreases es, 0
  {
    hide CompileExpr, Runs, Load;
    var codes := CompileSeq(false, es, k).1;
    var (args, c') := EvalOperands(vm.prims, es, c);
    if es == [] {
      RunsRefl(vm, Load(s, rest, c));
      assert PushAll(codes) + rest == rest && [] + s.stack == s.stack;
    } else {
      var (k1, code) := CompileExpr(false, es[0], k);
      var codes' := CompileSeq(false, es[1..], k1).1;
      assert codes[1..] == codes';
      var after := PushAll(codes') + rest;
      LocatedConcat(vm.prog, code + [Push, BlankLn], PushAll(codes'), rest);
      LocatedConcat(vm.prog, code, [Push, BlankLn], after);
      var c1 := Eval(vm.prims, es[0], c);
      ExprCorrect(vm, s, false, es[0], k, [Push, BlankLn] + after, c);
      var s1 := Pushed(s, [c1.value]);
      assert PushAll(codes) + rest == code + ([Push, BlankLn] + after);
      RunsPush(vm, s, after, c1);
      RunsTrans(vm, Load(s, PushAll(codes) + rest, c), Load(s, [Push, BlankLn] + after, c1), Load(s1, after, c1));
      var (args', c2) := EvalOperands(vm.prims, es[1..], c1);
      OperandsCorrect(vm, s1, es[1..], k1, rest, c1);
      assert args' + s1.stack == args + s.stack;
      RunsTrans(vm, Load(s, PushAll(codes) + rest, c), Load(s1, after, c1), Load(Pushed(s, args), rest, c'));
    }
  }

  lemma RunsPush(vm: Vm, s: State, after: seq<Code>, c: Config)
    requires |s.stack| < vm.capacity
    ensures Runs(vm, Load(s, [Push, BlankLn] + after, c), Load(Pushed(s, [c.value]), after, c))
  {
    var s1 := Pushed(s, [c.value]);
    var t := Load(s, [Push, BlankLn] + after, c);
    assert t.pc[1..] == [BlankLn] + after;
    ComputesSkip(vm, s1, BlankLn, after, c);
    RunsStep(vm, t, Load(s1, [BlankLn] + after, c), Load(s1, after, c));
  }

  /** The call of a builtin sees operand i at stack offset i, and its operands are popped after it. */
  lemma RunsBuiltin(vm: Vm, s: State, f: Sym, args: seq<Value>, rest: seq<Code>, c: Config)
    ensures Runs(vm, Load(Pushed(s, args), [CallBuiltin(f, |args|), MoveSp(|args|), BlankLn] + rest, c),
                 Load(s, rest, c.(value := vm.prims(f, args))))
  {
    var n := |args|;
    var c' := c.(value := vm.prims(f, args));
    var p := Pushed(s, args);
    var t0 := Load(p, [CallBuiltin(f, n), MoveSp(n), BlankLn] + rest, c);
    var t1 := Load(p, [MoveSp(n), BlankLn] + rest, c');
    var t2 := Load(s, [BlankLn] + rest, c');
    assert t0.pc[1..] == t1.pc && t1.pc[1..] == t2.pc;
    assert p.stack[..n] == args && p.stack[n..] == s.stack;
    ComputesSkip(vm, s, BlankLn, rest, c');
    RunsStep(vm, t1, t2, Load(s, rest, c'));
    RunsStep(vm, t0, t1, Load(s, rest, c'));
  }

  lemma {:induction false} CallCorrect(vm: Vm, s: State, tail: bool, e: Expr, k: nat, rest: seq<Code>, c: Config)
    requires e.ProcCall? && CallFree(e) && Supported(e)
    requires Located(vm.prog, CompileExpr(tail, e, k).1, rest)
    requires Room(vm, s, Need(e))
    ensures Computes(vm, s, CompileExpr(tail, e, k).1, rest, c, Eval(vm.prims, e, c))
    decreases e, 0
  {
    var ProcCall(func, operands) := e;
    var k0 := if tail then k else k + 1;
    var pushes := PushAll(CompileSeq(false, operands, k0).1);
    var n := |operands|;
    var call := [CallBuiltin(func.sym, n), MoveSp(n), BlankLn];
    assert CompileExpr(tail, e, k).1 == pushes + call;
    LocatedConcat(vm.prog, pushes, call, rest);
    OperandsCorrect(vm, s, operands, k0, call + rest, c);
    var (args, c1) := EvalOperands(vm.prims, operands, c);
    RunsBuiltin(vm, s, func.sym, args, rest, c1);
    assert pushes + call + rest == pushes + (call + rest);
    RunsTrans(vm, Load(s, pushes + call + rest, c), Load(Pushed(s, args), call + rest, c1),
              Load(s, rest, Eval(vm.prims, e, c)));
  }

  lemma {:induction false} ClausesCorrect(vm: Vm, s: State, tail: bool, cs: seq<Clause>, end: string, k: nat,
                                          rest: seq<Code>, c: Config)
    requires ClausesCallFree(cs) && ClausesSupported(cs)
    requires Located(vm.prog, CompileClauses(tail, cs, end, k).1, [FetchConst(Void), Label(end)] + rest)
    requires Resolve(vm.prog, end) == Some(rest)
    requires Room(vm, s, NeedCond(cs))
    ensures Runs(vm, Load(s, CompileClauses(tail, cs, end, k).1 + ([FetchConst(Void), Label(end)] + rest), c),
                 Load(s, rest, EvalCond(vm.prims, cs, c)))
    decreases cs, 0
  {
    hide CompileExpr, CompileSeq, Concat;
    var code := CompileClauses(tail, cs, end, k).1;
    var last := [FetchConst(Void), Label(end)];
    var done := Load(s, rest, EvalCond(vm.prims, cs, c));
    if cs == [] {
      var c1 := c.(value := Data(Void));
      assert code + (last + rest) == [FetchConst(Void)] + ([Label(end)] + rest);
      ComputesOne(vm, s, FetchConst(Void), [Label(end)] + rest, c, c1);
      ComputesSkip(vm, s, Label(end), rest, c1);
      RunsTrans(vm, Load(s, code + (last + rest), c), Load(s, [Label(end)] + rest, c1), done);
    } else {
      var (k1, t) := CompileExpr(false, cs[0].test, k);
      var (k2, a) := CompileSeq(tail, cs[0].body, k1);
      var more := CompileClauses(tail, cs[1..], end, k2).1;
      var body := Concat(a) + [Goto(end)];
      var after := more + (last + rest);
      assert code + (last + rest) == t + ([IfTrue(body, [])] + after);
      ClauseLocated(vm.prog, t, Concat(a), end, more, last + rest);
      var c1 := Eval(vm.prims, cs[0].test, c);
      ExprCorrect(vm, s, false, cs[0].test, k, [IfTrue(body, [])] + after, c);
      if Truthy(c1.value) {
        SeqCorrect(vm, s, tail, cs[0].body, k1, [Goto(end)] + after, c1);
        ComputesLeave(vm, s, Concat(a), end, after, rest, c1, EvalSeq(vm.prims, cs[0].body, c1));
      } else {
        ClausesCorrect(vm, s, tail, cs[1..], end, k2, rest, c1);
        assert [] + after == after;
      }
      ComputesTest(vm, s, t, IfTrue(body, []), body, [], Truthy(c1.value), after, c, c1, done);
    }
  }

  lemma LabelHere(prog: seq<Code>, l: string, rest: seq<Code>)
    requires Located(prog, [Label(l)], rest)
    ensures Resolve(prog, l) == Some(rest)
  {
    assert [Label(l)][1..] + rest == rest;
  }

  lemma ClauseLocated(prog: seq<Code>, t: seq<Code>, a: seq<Code>, end: string, more: seq<Code>, rest: seq<Code>)
    requires Located(prog, t + [IfTrue(a + [Goto(end)], [])] + more, rest)
    ensures Located(prog, t, [IfTrue(a + [Goto(end)], [])] + (more + rest))
    ensures Located(prog, a, [Goto(end)] + (more + rest))
    ensures Located(prog, more, rest)
  {
    var test := [IfTrue(a + [Goto(end)], [])];
    LocatedConcat(prog, t + test, more, rest);
    LocatedConcat(prog, t, test, more + rest);
    assert test[1..] + (more + rest) == more + rest;
    LocatedConcat(prog, a, [Goto(end)], more + rest);
  }

  /** The code of `and` and `or` without its end label. */
  function Tests(codes: seq<seq<Code>>, end: string, conj: bool): seq<Code> {
    RemoveLast(TestAll(codes, TestCode(end, conj)))
  }

  function TestCode(end: string, conj: bool): Code {
    if conj then IfFalse([Goto(end)], []) else IfTrue([Goto(end)], [])
  }

  lemma TestsLocated(prog: seq<Code>, codes: seq<seq<Code>>, end: string, conj: bool, last: seq<Code>)
    requires codes != [] && Located(prog, Tests(codes, end, conj), last)
    ensures |codes| == 1 ==> Tests(codes, end, conj) == codes[0] && Located(prog, codes[0], last)
    ensures |codes| > 1 ==>
      var after := Tests(codes[1..], end, conj) + last;
      Tests(codes, end, conj) + last == codes[0] + ([TestCode(end, conj)] + after) &&
      Located(prog, codes[0], [TestCode(end, conj)] + after) && Located(prog, Tests(codes[1..], end, conj), last)
  {
    var test := TestCode(end, conj);
    RemoveLastTest(codes, test);
    hide TestAll, RemoveLast, TestCode;
    if |codes| > 1 {
      var more := Tests(codes[1..], end, conj);
      LocatedConcat(prog, codes[0], [test] + more, last);
      LocatedConcat(prog, [test], more, last);
      assert [test] + more + last == [test] + (more + last);
    }
  }

  lemma {:induction false} TestsCorrect(vm: Vm, s: State, tail: bool, es: seq<Expr>, k: nat, end: string, conj: bool,
                                        rest: seq<Code>, c: Config)
    requires es != [] && AllCallFree(es) && AllSupported(es)
    requires Located(vm.prog, Tests(CompileSeq(tail, es, k).1, end, conj), [Label(end)] + rest)
    requires Resolve(vm.prog, end) == Some(rest)
    requires Room(vm, s, NeedSeq(es))
    ensures Runs(vm, Load(s, Tests(CompileSeq(tail, es, k).1, end, conj) + ([Label(end)] + rest), c),
                 Load(s, rest, EvalTests(vm.prims, es, c, conj)))
    decreases es, 0
  {
    var codes := CompileSeq(tail, es, k).1;
    var t := tail && |es| == 1;
    var (k1, code) := CompileExpr(t, es[0], k);
    var c1 := Eval(vm.prims, es[0], c);
    var last := [Label(end)] + rest;
    assert codes[0] == code;
    TestsLocated(vm.prog, codes, end, conj, last);
    if |es| == 1 {
      ExprCorrect(vm, s, t, es[0], k, last, c);
      ComputesSkip(vm, s, Label(end), rest, c1);
      RunsTrans(vm, Load(s, code + last, c), Load(s, last, c1), Load(s, rest, c1));
    } else {
      assert codes[1..] == CompileSeq(tail, es[1..], k1).1;
      var after := Tests(codes[1..], end, conj) + last;
      ExprCorrect(vm, s, t, es[0], k, [TestCode(end, conj)] + after, c);
      if Truthy(c1.value) == conj {
        TestsCorrect(vm, s, tail, es[1..], k1, end, conj, rest, c1);
      }
      TestsStep(vm, s, code, end, conj, after, rest, c, c1, Load(s, rest, EvalTests(vm.prims, es, c, conj)));
    }
  }

  lemma TestsStep(vm: Vm, s: State, code: seq<Code>, end: string, conj: bool, after: seq<Code>, rest: seq<Code>,
                  c: Config, c1: Config, done: State)
    requires Computes(vm, s, code, [TestCode(end, conj)] + after, c, c1)
    requires Resolve(vm.prog, end) == Some(rest)
    requires if Truthy(c1.value) == conj then Runs(vm, Load(s, after, c1), done) else done == Load(s, rest, c1)
    ensures Runs(vm, Load(s, code + ([TestCode(end, conj)] + after), c), done)
  {
    var leave := Truthy(c1.value) != conj;
    if leave {
      RunsRefl(vm, Load(s, [Goto(end)] + after, c1));
      assert [] + ([Goto(end)] + after) == [Goto(end)] + after && [] + [Goto(end)] == [Goto(end)];
      ComputesLeave(vm, s, [], end, after, rest, c1, c1);
    } else {
      assert [] + after == after;
    }
    ComputesTest(vm, s, code, TestCode(end, conj), [Goto(end)], [], leave, after, c, c1, done);
  }

  lemma TestsForm(tail: bool, e: Expr, k: nat)
    requires (e.And? || e.Or?) && e.exps != [] && Supported(e)
    ensures var (k1, codes) := CompileSeq(tail, e.exps, k);
            CompileExpr(tail, e, k).1 == Tests(codes, LabelName(k1), e.And?) + [Label(LabelName(k1))]
  {
  }

  lemma {:induction false} TestsFormCorrect(vm: Vm, s: State, tail: bool, e: Expr, k: nat, rest: seq<Code>, c: Config)
    requires (e.And? || e.Or?) && e.exps != [] && CallFree(e) && Supported(e)
    requires Located(vm.prog, CompileExpr(tail, e, k).1, rest)
    requires Room(vm, s, Need(e))
    ensures Computes(vm, s, CompileExpr(tail, e, k).1, rest, c, EvalTests(vm.prims, e.exps, c, e.And?))
    decreases e, 0
  {
    TestsParts(e);
    TestsForm(tail, e, k);
    hide *;
    var (k1, codes) := CompileSeq(tail, e.exps, k);
    var end := LabelName(k1);
    var tests := Tests(codes, end, e.And?);
    LocatedConcat(vm.prog, tests, [Label(end)], rest);
    LabelHere(vm.prog, end, rest);
    SameRoom(vm, s, e);
    TestsCorrect(vm, s, tail, e.exps, k, end, e.And?, rest, c);
    assert tests + [Label(end)] + rest == tests + ([Label(end)] + rest);
    RunsComputes(vm, s, tests + [Label(end)], rest, c, EvalTests(vm.prims, e.exps, c, e.And?));
  }

  lemma TestsParts(e: Expr)
    requires (e.And? || e.Or?) && CallFree(e) && Supported(e)
    ensures AllCallFree(e.exps) && AllSupported(e.exps)
  {
  }

  lemma SameRoom(vm: Vm, s: State, e: Expr)
    requires (e.And? || e.Or?) && CallFree(e) && Room(vm, s, Need(e))
    ensures AllCallFree(e.exps) && Room(vm, s, NeedSeq(e.exps))
  {
  }

  lemma RunsComputes(vm: Vm, s: State, code: seq<Code>, rest: seq<Code>, c: Config, c': Config)
    ensures Computes(vm, s, code, rest, c, c') <==> Runs(vm, Load(s, code + rest, c), Load(s, rest, c'))
  {
  }

  lemma {:induction false} CondCorrect(vm: Vm, s: State, tail: bool, e: Expr, k: nat, rest: seq<Code>, c: Config)
    requires e.Cond? && CallFree(e) && Supported(e)
    requires Located(vm.prog, CompileExpr(tail, e, k).1, rest)
    requires Room(vm, s, Need(e))
    ensures Computes(vm, s, CompileExpr(tail, e, k).1, rest, c, Eval(vm.prims, e, c))
    decreases e, 0
  {
    hide *;
    CondParts(vm, s, tail, e, k, c);
    var end := LabelName(k);
    var clauses := CompileClauses(tail, e.clauses, end, k + 1).1;
    var last := [FetchConst(Void), Label(end)];
    LocatedConcat(vm.prog, clauses, last, rest);
    CondEnd(vm.prog, end, rest);
    ClausesCorrect(vm, s, tail, e.clauses, end, k + 1, rest, c);
    assert clauses + last + rest == clauses + (last + rest);
    RunsComputes(vm, s, clauses + last, rest, c, EvalCond(vm.prims, e.clauses, c));
  }

  lemma CondParts(vm: Vm, s: State, tail: bool, e: Expr, k: nat, c: Config)
    requires e.Cond? && CallFree(e) && Supported(e)
    ensures ClausesCallFree(e.clauses) && ClausesSupported(e.clauses)
    ensures Room(vm, s, Need(e)) ==> Room(vm, s, NeedCond(e.clauses))
    ensures CompileExpr(tail, e, k).1 ==
      CompileClauses(tail, e.clauses, LabelName(k), k + 1).1 + [FetchConst(Void), Label(LabelName(k))]
    ensures Eval(vm.prims, e, c) == EvalCond(vm.prims, e.clauses, c)
  {
  }

  lemma CondEnd(prog: seq<Code>, end: string, rest: seq<Code>)
    requires Located(prog, [FetchConst(Void), Label(end)], rest)
    ensures Resolve(prog, end) == Some(rest)
  {
    LocatedConcat(prog, [FetchConst(Void)], [Label(end)], rest);
    assert [FetchConst(Void)] + [Label(end)] == [FetchConst(Void), Label(end)];
    LabelHere(prog, end, rest);
  }

  lemma {:induction false} BranchCorrect(vm: Vm, s: State, tail: bool, e: Expr, k: nat, rest: seq<Code>, c: Config)
    requires e.Branch? && CallFree(e) && Supported(e)
    requires Located(vm.prog, CompileExpr(tail, e, k).1, rest)
    requires Room(vm, s, Need(e))
    ensures Computes(vm, s, CompileExpr(tail, e, k).1, rest, c, Eval(vm.prims, e, c))
    decreases e, 0
  {
    var Branch(test, thn, els) := e;
    var (k1, cTest) := CompileExpr(false, test, k);
    var (k2, cThen) := CompileExpr(tail, thn, k1);
    var (k3, cElse) := CompileExpr(tail, els, k2);
    var branch := [IfTrue(cThen, cElse)];
    LocatedConcat(vm.prog, cTest, branch, rest);
    assert branch[1..] + rest == rest;
    var c1 := Eval(vm.prims, test, c);
    ExprCorrect(vm, s, false, test, k, branch + rest, c);
    var done := Load(s, rest, Eval(vm.prims, e, c));
    if Truthy(c1.value) {
      ExprCorrect(vm, s, tail, thn, k1, rest, c1);
    } else {
      ExprCorrect(vm, s, tail, els, k2, rest, c1);
    }
    ComputesTest(vm, s, cTest, branch[0], cThen, cElse, Truthy(c1.value), rest, c, c1, done);
  }

  lemma {:induction false} BindCorrect(vm: Vm, s: State, tail: bool, e: Expr, k: nat, rest: seq<Code>, c: Config)
    requires (e.Defvar? || e.Assign?) && CallFree(e) && Supported(e)
    requires Located(vm.prog, CompileExpr(tail, e, k).1, rest)
    requires Room(vm, s, Need(e))
    ensures Computes(vm, s, CompileExpr(tail, e, k).1, rest, c, Eval(vm.prims, e, c))
    decreases e, 0
  {
    var code := CompileExpr(false, e.exp, k).1;
    var bind := [if e.Defvar? then NewBind(e.name) else ReBind(e.name), Nop];
    assert CompileExpr(tail, e, k).1 == code + bind;
    LocatedConcat(vm.prog, code, bind, rest);
    var c1 := Eval(vm.prims, e.exp, c);
    ExprCorrect(vm, s, false, e.exp, k, bind + rest, c);
    ComputesBind(vm, s, bind[0], rest, c1, e.name);
    ComputesThen(vm, s, code, bind, rest, c, c1, Eval(vm.prims, e, c));
  }

  /** Main result: any call-free expression, tail position or not, any label counter, any machine
      state whose stack has the room the expression needs. */
  lemma {:induction false} ExprCorrect(vm: Vm, s: State, tail: bool, e: Expr, k: nat, rest: seq<Code>, c: Config)
    requires CallFree(e) && Supported(e)
    requires Located(vm.prog, CompileExpr(tail, e, k).1, rest)
    requires Room(vm, s, Need(e))
    ensures Computes(vm, s, CompileExpr(tail, e, k).1, rest, c, Eval(vm.prims, e, c))
    decreases e, 1
  {
    var c' := Eval(vm.prims, e, c);
    match e {
      case Variable(sym) => ComputesOne(vm, s, LookupVar(sym), rest, c, c');
      case Quote(d) => ComputesOne(vm, s, FetchConst(d), rest, c, c');
      case SelfEval(d) => ComputesOne(vm, s, FetchConst(d), rest, c, c');
      case ProcCall(_, _) => CallCorrect(vm, s, tail, e, k, rest, c);
      case Sequence(exps) => SeqCorrect(vm, s, tail, exps, k, rest, c);
      case Defvar(_, _) => BindCorrect(vm, s, tail, e, k, rest, c);
      case Assign(_, _) => BindCorrect(vm, s, tail, e, k, rest, c);
      case Branch(_, _, _) => BranchCorrect(vm, s, tail, e, k, rest, c);
      case Cond(_) => CondCorrect(vm, s, tail, e, k, rest, c);
      case And(exps) =>
        if exps == [] {
          ComputesOne(vm, s, FetchConst(Boolean(true)), rest, c, c');
        } else {
          TestsFormCorrect(vm, s, tail, e, k, rest, c);
        }
      case Or(exps) =>
        if exps == [] {
          ComputesOne(vm, s, FetchConst(Boolean(false)), rest, c, c');
        } else {
          TestsFormCorrect(vm, s, tail, e, k, rest, c);
        }
    }
  }

  /** A whole call-free program from any state with its code loaded: it runs to its end without a
      stack overflow, with the source value, the source bindings, and all other state untouched. */
  lemma ProgramCorrect(vm: Vm, s: State, es: seq<Expr>)
    requires AllCallFree(es) && Compile(es) == Some(vm.prog)
    requires s.pc == vm.prog && s.envt in s.envs && |s.stack| + NeedSeq(es) <= vm.capacity
    ensures var c := EvalSeq(vm.prims, es, Config(s.value, s.envs[s.envt]));
            Runs(vm, s, s.(pc := [], value := c.value, envs := s.envs[s.envt := c.vars]))
  {
    ProgramLabels(es);
    ProgramLocated(vm.prog);
    var c := Config(s.value, s.envs[s.envt]);
    SeqCorrect(vm, s, true, es, 0, [], c);
    assert vm.prog + [] == vm.prog;
    assert s.envs[s.envt := c.vars] == s.envs;
    assert Load(s, vm.prog, c) == s;
  }
}
