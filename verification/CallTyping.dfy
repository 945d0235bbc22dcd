/** The continuation discipline of compiled code, checked statically: which continuations the
    running procedure has pushed at every point of its body. */
module CallTyping {
  import opened Options
  import opened Exptype
  import opened Svm
  import opened Compiler
  import opened CompilerLabels
  import opened LabelPlaces

  function Size(code: seq<Code>): nat {
    if code == [] then 0 else SizeIn(code[0]) + Size(code[1..])
  }

  function SizeIn(c: Code): (n: nat)
    ensures n > 0
  {
    match c
    case IfTrue(a, b) => 1 + Size(a) + Size(b)
    case IfFalse(a, b) => 1 + Size(a) + Size(b)
    case MakeClosure(_, _, body) => 1 + Size(body)
    case _ => 1
  }

  lemma {:induction false} SizeConcat(a: seq<Code>, b: seq<Code>)
    ensures Size(a + b) == Size(a) + Size(b)
  {
    if a == [] {
      assert a + b == b;
    } else {
      assert (a + b)[1..] == a[1..] + b;
      SizeConcat(a[1..], b);
    }
  }

  /** What follows the first label l of the block. */
  function After(code: seq<Code>, l: string): (r: Option<seq<Code>>)
    ensures r.Some? ==> Size(r.value) < Size(code)
  {
    if code == [] then None
    else if code[0] == Label(l) then Some(code[1..])
    else After(code[1..], l)
  }

  /** An Apply is a tail call unless its own resume label stands right behind it. */
  predicate IsTailCall(pc: seq<Code>) {
    pc != [] && pc[0].Apply? && !(|pc| > 1 && pc[1].Label?)
  }

  /** pc is code of a procedure body to be run while the procedure has the continuations for the
      labels `pend` pushed, the latest first: a non-tail call finds its own label on top and
      stands right before it, a tail call and a return find nothing pushed. */
  ghost predicate Typed(pc: seq<Code>, pend: seq<string>)
    decreases Size(pc)
  {
    if pc == [] then pend == []
    else
      var r := pc[1..];
      assert Size(pc) == SizeIn(pc[0]) + Size(r);
      match pc[0]
      case PushCont(l) =>
        var resume := After(r, l);
        resume.Some? && Typed(resume.value, pend) && Typed(r, [l] + pend)
      case Goto(l) =>
        var target := After(r, l);
        target.Some? && Typed(target.value, pend)
      case IfTrue(a, b) =>
        assert SizeIn(pc[0]) == 1 + Size(a) + Size(b);
        SizeConcat(a, r);
        SizeConcat(b, r);
        Typed(a + r, pend) && Typed(b + r, pend)
      case IfFalse(a, b) =>
        assert SizeIn(pc[0]) == 1 + Size(a) + Size(b);
        SizeConcat(a, r);
        SizeConcat(b, r);
        Typed(a + r, pend) && Typed(b + r, pend)
      case Apply =>
        if IsTailCall(pc) then pend == []
        else pend != [] && r[0] == Label(pend[0]) && Typed(r[1..], pend[1..])
      case LeaveProc => pend == []
      case MakeClosure(_, _, body) =>
        assert SizeIn(pc[0]) == 1 + Size(body);
        Typed(body, []) && Typed(r, pend)
      case _ => Typed(r, pend)
  }

  lemma {:induction false} AfterSkip(a: seq<Code>, l: string, b: seq<Code>)
    requires l !in Here(a)
    ensures After(a + ([Label(l)] + b), l) == Some(b)
  {
    var code := a + ([Label(l)] + b);
    if a == [] {
      assert code == [Label(l)] + b;
      assert code[1..] == b;
    } else {
      assert code[1..] == a[1..] + ([Label(l)] + b);
      AfterSkip(a[1..], l, b);
    }
  }

  /** Code emitted for a counter range holds no label of a counter outside the range. */
  lemma {:induction false} NotHere(code: seq<Code>, k: nat, lo: nat, hi: nat)
    requires LabelsFrom(Defined(code), lo, hi) && !(lo <= k < hi)
    ensures LabelName(k) !in Here(code)
  {
    HereDefined(code);
    if LabelName(k) in Here(code) {
      var n: nat :| lo <= n < hi && LabelName(k) == LabelName(n);
      LabelNameInjective(k, n);
    }
  }

  /** Jumps out of located code lead to the label that After finds. */
  lemma {:induction false} AfterResolve(prog: seq<Code>, code: seq<Code>, l: string)
    requires Located(prog, code, []) && After(code, l).Some?
    ensures Resolve(prog, l) == After(code, l) && Located(prog, After(code, l).value, [])
  {
    assert code[1..] + [] == code[1..];
    if code[0] != Label(l) {
      AfterResolve(prog, code[1..], l);
    }
  }

  /** Code that may be put in front of any typed continuation of the same procedure. */
  lemma TypedPlain(i: Code, rest: seq<Code>, pend: seq<string>)
    requires Plain(i) || i.Label?
    requires !i.Apply? && !i.LeaveProc?
    requires Typed(rest, pend)
    ensures Typed([i] + rest, pend)
  {
    assert ([i] + rest)[1..] == rest;
  }

  lemma TypedTest(i: Code, a: seq<Code>, b: seq<Code>, rest: seq<Code>, pend: seq<string>)
    requires i == IfTrue(a, b) || i == IfFalse(a, b)
    requires Typed(a + rest, pend) && Typed(b + rest, pend)
    ensures Typed([i] + rest, pend)
  {
    assert ([i] + rest)[1..] == rest;
  }

  lemma TypedLeave(a: seq<Code>, l: string, b: seq<Code>, pend: seq<string>)
    requires l !in Here(a) && Typed(b, pend)
    ensures Typed([Goto(l)] + (a + ([Label(l)] + b)), pend)
  {
    var r := a + ([Label(l)] + b);
    assert ([Goto(l)] + r)[1..] == r;
    AfterSkip(a, l, b);
  }

  lemma {:induction false} TypedSeq(tail: bool, es: seq<Expr>, k: nat, rest: seq<Code>, pend: seq<string>)
    requires AllSupported(es) && Typed(rest, pend) && (tail ==> pend == [])
    ensures Typed(Concat(CompileSeq(tail, es, k).1) + rest, pend)
    decreases es, 0
  {
    hide Typed, CompileExpr;
    var codes := CompileSeq(tail, es, k).1;
    if es == [] {
      assert Concat(codes) + rest == rest;
    } else {
      var t := tail && |es| == 1;
      var (k1, code) := CompileExpr(t, es[0], k);
      assert codes[1..] == CompileSeq(tail, es[1..], k1).1;
      TypedSeq(tail, es[1..], k1, rest, pend);
      TypedExpr(t, es[0], k, Concat(codes[1..]) + rest, pend);
      assert Concat(codes) + rest == code + (Concat(codes[1..]) + rest);
    }
  }

  lemma {:induction false} TypedOperands(es: seq<Expr>, k: nat, rest: seq<Code>, pend: seq<string>)
    requires AllSupported(es) && Typed(rest, pend)
    ensures Typed(PushAll(CompileSeq(false, es, k).1) + rest, pend)
    decreases es, 0
  {
    OperandsForm(es, k, rest);
    if es != [] {
      hide *;
      var (k1, code) := CompileExpr(false, es[0], k);
      var after := PushAll(CompileSeq(false, es[1..], k1).1) + rest;
      TypedOperands(es[1..], k1, rest, pend);
      TypedPlain(BlankLn, after, pend);
      TypedPlain(Push, [BlankLn] + after, pend);
      TypedExpr(false, es[0], k, [Push] + ([BlankLn] + after), pend);
    }
  }

  lemma OperandsForm(es: seq<Expr>, k: nat, rest: seq<Code>)
    requires AllSupported(es)
    ensures es == [] ==> PushAll(CompileSeq(false, es, k).1) + rest == rest
    ensures es != [] ==>
      var (k1, code) := CompileExpr(false, es[0], k);
      PushAll(CompileSeq(false, es, k).1) + rest ==
        code + ([Push] + ([BlankLn] + (PushAll(CompileSeq(false, es[1..], k1).1) + rest)))
    ensures es != [] ==> Supported(es[0]) && AllSupported(es[1..])
  {
    hide CompileExpr, Supported;
    var codes := CompileSeq(false, es, k).1;
    if es == [] {
      assert PushAll(codes) + rest == rest;
    } else {
      var (k1, code) := CompileExpr(false, es[0], k);
      assert codes[1..] == CompileSeq(false, es[1..], k1).1;
      PushAllForm(codes, rest);
    }
  }

  lemma PushAllForm(codes: seq<seq<Code>>, rest: seq<Code>)
    requires codes != []
    ensures PushAll(codes) + rest == codes[0] + ([Push] + ([BlankLn] + (PushAll(codes[1..]) + rest)))
  {
  }

  lemma BuiltinForm(tail: bool, e: Expr, k: nat, rest: seq<Code>)
    requires e.ProcCall? && IsBuiltin(e.func) && Supported(e)
    ensures CompileExpr(tail, e, k).1 + rest ==
      PushAll(CompileSeq(false, e.operands, if tail then k else k + 1).1) +
      ([CallBuiltin(e.func.sym, |e.operands|)] + ([MoveSp(|e.operands|)] + ([BlankLn] + rest)))
  {
  }

  lemma {:induction false} TypedBuiltin(tail: bool, e: Expr, k: nat, rest: seq<Code>, pend: seq<string>)
    requires e.ProcCall? && IsBuiltin(e.func) && Supported(e) && Typed(rest, pend)
    ensures Typed(CompileExpr(tail, e, k).1 + rest, pend)
    decreases e, 0
  {
    hide Typed, CompileExpr, CompileSeq, PushAll;
    var n := |e.operands|;
    TypedPlain(BlankLn, rest, pend);
    TypedPlain(MoveSp(n), [BlankLn] + rest, pend);
    TypedPlain(CallBuiltin(e.func.sym, n), [MoveSp(n)] + ([BlankLn] + rest), pend);
    var call := [CallBuiltin(e.func.sym, n)] + ([MoveSp(n)] + ([BlankLn] + rest));
    TypedOperands(e.operands, if tail then k else k + 1, call, pend);
    BuiltinForm(tail, e, k, rest);
  }

  /** The code of a user procedure call, around the operands and the operator. */
  lemma CallForm(tail: bool, e: Expr, k: nat, rest: seq<Code>)
    requires e.ProcCall? && !IsBuiltin(e.func) && Supported(e)
    ensures
      var (k1, codes) := CompileSeq(false, e.operands, if tail then k else k + 1);
      var inner := PushAll(codes) + (CompileExpr(false, e.func, k1).1 + ApplyCode(tail, LabelName(k), rest));
      CompileExpr(tail, e, k).1 + rest == if tail then inner else [PushCont(LabelName(k))] + inner
  {
    hide PushAll, CompileSeq;
    var (k1, codes) := CompileSeq(false, e.operands, if tail then k else k + 1);
    var (h, t) := CodeBlock(tail, LabelName(k));
    var f := CompileExpr(false, e.func, k1).1;
    assert CompileExpr(tail, e, k).1 == h + PushAll(codes) + f + [Apply] + t + [BlankLn];
    assert h + PushAll(codes) + f + [Apply] + t + [BlankLn] + rest ==
           h + (PushAll(codes) + (f + ([Apply] + (t + ([BlankLn] + rest)))));
  }

  /** The application itself, its resume label and what follows the call. */
  function ApplyCode(tail: bool, l: string, rest: seq<Code>): seq<Code> {
    [Apply] + ((if tail then [] else [Label(l)]) + ([BlankLn] + rest))
  }

  lemma {:induction false} TypedCall(tail: bool, e: Expr, k: nat, rest: seq<Code>, pend: seq<string>)
    requires e.ProcCall? && !IsBuiltin(e.func) && Supported(e) && Typed(rest, pend) && (tail ==> pend == [])
    ensures Typed(CompileExpr(tail, e, k).1 + rest, pend)
    decreases e, 0
  {
    hide Typed, CompileExpr, CompileSeq, PushAll, Here;
    var ProcCall(func, operands) := e;
    var l := LabelName(k);
    var (k1, codes) := CompileSeq(false, operands, if tail then k else k + 1);
    var operator := CompileExpr(false, func, k1).1;
    var call := ApplyCode(tail, l, rest);
    var pend' := if tail then [] else [l] + pend;
    TypedApply(tail, l, rest, pend);
    TypedExpr(false, func, k1, call, pend');
    TypedOperands(operands, if tail then k else k + 1, operator + call, pend');
    CallForm(tail, e, k, rest);
    if !tail {
      CallNotHere(operands, func, k, k1);
      var inner := PushAll(codes) + operator + [Apply];
      TypedPlain(BlankLn, rest, pend);
      assert PushAll(codes) + (operator + call) == inner + ([Label(l)] + ([BlankLn] + rest));
      TypedPush(inner, l, [BlankLn] + rest, pend);
    }
  }

  lemma TypedApply(tail: bool, l: string, rest: seq<Code>, pend: seq<string>)
    requires Typed(rest, pend) && (tail ==> pend == [])
    ensures Typed(ApplyCode(tail, l, rest), if tail then [] else [l] + pend)
  {
    TypedPlain(BlankLn, rest, pend);
    var code := ApplyCode(tail, l, rest);
    if tail {
      assert code[1] == BlankLn;
    } else {
      assert ([l] + pend)[1..] == pend && code[1..][1..] == [BlankLn] + rest;
    }
  }

  /** A continuation push in front of code that holds its label. */
  lemma TypedPush(a: seq<Code>, l: string, b: seq<Code>, pend: seq<string>)
    requires l !in Here(a) && Typed(b, pend) && Typed(a + ([Label(l)] + b), [l] + pend)
    ensures Typed([PushCont(l)] + (a + ([Label(l)] + b)), pend)
  {
    var r := a + ([Label(l)] + b);
    assert ([PushCont(l)] + r)[1..] == r;
    AfterSkip(a, l, b);
  }

  lemma CallNotHere(operands: seq<Expr>, func: Expr, k: nat, k1: nat)
    requires AllSupported(operands) && Supported(func) && CompileSeq(false, operands, k + 1).0 == k1
    ensures LabelName(k) !in
      Here(PushAll(CompileSeq(false, operands, k + 1).1) + CompileExpr(false, func, k1).1 + [Apply])
  {
    var codes := CompileSeq(false, operands, k + 1).1;
    var (k2, operator) := CompileExpr(false, func, k1);
    SeqLabels(false, operands, k + 1);
    SeqGoodPushAll(codes, k + 1, k1);
    ExprLabels(false, func, k1);
    GoodCall(PushAll(codes), operator, k + 1, k1, k2);
    NotHere(PushAll(codes) + operator + [Apply], k, k + 1, k2);
  }

  lemma TypedClause(end: nat, more: seq<Code>, lo: nat, hi: nat, rest: seq<Code>, pend: seq<string>)
    requires LabelsFrom(Defined(more), lo, hi) && end < lo && Typed(rest, pend)
    ensures var l := LabelName(end);
            Typed([Goto(l)] + (more + ([FetchConst(Void)] + ([Label(l)] + rest))), pend)
  {
    hide Typed;
    var l := LabelName(end);
    NotHere(more, end, lo, hi);
    HereConcat(more, [FetchConst(Void)]);
    assert [FetchConst(Void)][1..] == [];
    TypedLeave(more + [FetchConst(Void)], l, rest, pend);
    assert more + [FetchConst(Void)] + ([Label(l)] + rest) == more + ([FetchConst(Void)] + ([Label(l)] + rest));
  }

  lemma {:induction false} TypedClauses(tail: bool, cs: seq<Clause>, end: nat, k: nat, rest: seq<Code>,
                                        pend: seq<string>)
    requires ClausesSupported(cs) && Typed(rest, pend) && (tail ==> pend == []) && end < k
    ensures var last := [FetchConst(Void)] + ([Label(LabelName(end))] + rest);
            Typed(CompileClauses(tail, cs, LabelName(end), k).1 + last, pend)
    decreases cs, 0
  {
    hide Typed, CompileExpr, CompileSeq, Concat, Here, Defined;
    var l := LabelName(end);
    var last := [FetchConst(Void)] + ([Label(l)] + rest);
    var code := CompileClauses(tail, cs, l, k).1;
    if cs == [] {
      TypedPlain(Label(l), rest, pend);
      TypedPlain(FetchConst(Void), [Label(l)] + rest, pend);
      assert code + last == last;
    } else {
      var (k1, t) := CompileExpr(false, cs[0].test, k);
      var (k2, a) := CompileSeq(tail, cs[0].body, k1);
      var (k3, more) := CompileClauses(tail, cs[1..], l, k2);
      var after := more + last;
      TypedClauses(tail, cs[1..], end, k2, rest, pend);
      ClausesLabels(tail, cs[1..], l, k2);
      TypedClause(end, more, k2, k3, rest, pend);
      TypedSeq(tail, cs[0].body, k1, [Goto(l)] + after, pend);
      ClauseForm(t, Concat(a), l, more, last);
      TypedTest(IfTrue(Concat(a) + [Goto(l)], []), Concat(a) + [Goto(l)], [], after, pend);
      TypedExpr(false, cs[0].test, k, [IfTrue(Concat(a) + [Goto(l)], [])] + after, pend);
    }
  }

  lemma ClauseForm(t: seq<Code>, a: seq<Code>, l: string, more: seq<Code>, last: seq<Code>)
    ensures var test := IfTrue(a + [Goto(l)], []);
            t + [test] + more + last == t + ([test] + (more + last))
    ensures (a + [Goto(l)]) + (more + last) == a + ([Goto(l)] + (more + last)) && [] + (more + last) == more + last
  {
  }

  lemma TypedTestsStep(test: Code, more: seq<Code>, end: nat, lo: nat, hi: nat, rest: seq<Code>, pend: seq<string>)
    requires LabelsFrom(Defined(more), lo, hi) && hi <= end && Typed(rest, pend)
    requires test == IfTrue([Goto(LabelName(end))], []) || test == IfFalse([Goto(LabelName(end))], [])
    requires Typed(more + ([Label(LabelName(end))] + rest), pend)
    ensures Typed([test] + (more + ([Label(LabelName(end))] + rest)), pend)
  {
    hide Typed;
    var l := LabelName(end);
    NotHere(more, end, lo, hi);
    TypedLeave(more, l, rest, pend);
    assert [] + (more + ([Label(l)] + rest)) == more + ([Label(l)] + rest);
    TypedTest(test, [Goto(l)], [], more + ([Label(l)] + rest), pend);
  }

  lemma SeqForm(tail: bool, es: seq<Expr>, k: nat)
    requires es != [] && AllSupported(es)
    ensures
      var (k1, code) := CompileExpr(tail && |es| == 1, es[0], k);
      var (k2, codes) := CompileSeq(tail, es[1..], k1);
      CompileSeq(tail, es, k).0 == k2 && CompileSeq(tail, es, k).1[0] == code && CompileSeq(tail, es, k).1[1..] == codes
  {
  }

  lemma {:induction false} TypedTests(tail: bool, es: seq<Expr>, k: nat, end: nat, test: Code,
                                      rest: seq<Code>, pend: seq<string>)
    requires es != [] && AllSupported(es) && Typed(rest, pend) && (tail ==> pend == [])
    requires CompileSeq(tail, es, k).0 <= end
    requires test == IfTrue([Goto(LabelName(end))], []) || test == IfFalse([Goto(LabelName(end))], [])
    ensures Typed(RemoveLast(TestAll(CompileSeq(tail, es, k).1, test)) + ([Label(LabelName(end))] + rest), pend)
    decreases es, 0
  {
    hide Typed, CompileExpr, CompileSeq, TestAll, RemoveLast, Here, Defined;
    var l := LabelName(end);
    var last := [Label(l)] + rest;
    var (kEnd, codes) := CompileSeq(tail, es, k);
    var t := tail && |es| == 1;
    var (k1, code) := CompileExpr(t, es[0], k);
    SeqForm(tail, es, k);
    RemoveLastTest(codes, test);
    if |es| == 1 {
      TypedPlain(Label(l), rest, pend);
      TypedExpr(t, es[0], k, last, pend);
    } else {
      var more := RemoveLast(TestAll(codes[1..], test));
      TypedTests(tail, es[1..], k1, end, test, rest, pend);
      SeqLabels(tail, es[1..], k1);
      SeqGoodTests(codes[1..], test, l, k1, kEnd);
      TypedTestsStep(test, more, end, k1, kEnd, rest, pend);
      TypedExpr(t, es[0], k, [test] + (more + last), pend);
      assert code + ([test] + more) + last == code + ([test] + (more + last));
    }
  }

  lemma {:induction false} TypedTestsForm(tail: bool, e: Expr, k: nat, rest: seq<Code>, pend: seq<string>)
    requires (e.And? || e.Or?) && e.exps != [] && Supported(e) && Typed(rest, pend) && (tail ==> pend == [])
    ensures Typed(CompileExpr(tail, e, k).1 + rest, pend)
    decreases e, 0
  {
    var (k1, codes) := CompileSeq(tail, e.exps, k);
    var l := LabelName(k1);
    var test := if e.And? then IfFalse([Goto(l)], []) else IfTrue([Goto(l)], []);
    TypedTests(tail, e.exps, k, k1, test, rest, pend);
    var tests := RemoveLast(TestAll(codes, test));
    assert CompileExpr(tail, e, k).1 == tests + [Label(l)];
    assert tests + [Label(l)] + rest == tests + ([Label(l)] + rest);
  }

  lemma {:induction false} TypedHeader(params: seq<Sym>, i: nat, rest: seq<Code>)
    requires Typed(rest, [])
    ensures Typed(ParameterHeader(params, i) + rest, [])
  {
    var code := ParameterHeader(params, i);
    if params == [] {
      assert code + rest == rest;
    } else {
      var more := ParameterHeader(params[1..], i + 1) + rest;
      TypedHeader(params[1..], i + 1, rest);
      TypedPlain(ReBind(params[0]), more, []);
      TypedPlain(AccStack(i), [ReBind(params[0])] + more, []);
      assert code + rest == [AccStack(i)] + ([ReBind(params[0])] + more);
    }
  }

  lemma {:induction false} TypedClosure(tail: bool, e: Expr, k: nat, rest: seq<Code>, pend: seq<string>)
    requires (e.Lambda? || e.Defun? || e.Defun2?) && Supported(e) && Typed(rest, pend)
    ensures Typed(CompileExpr(tail, e, k).1 + rest, pend)
    decreases e, 0
  {
    var header := if e.Defun? then ParameterHeader(e.params, 0) else [];
    ClosureForm(tail, e, k, rest, header);
    hide *;
    var c := CompileExpr(tail, e, k).1[0];
    var body := Concat(CompileSeq(true, e.body.exps, k).1) + [LeaveProc];
    TypedLeaveProc();
    TypedSeq(true, e.body.exps, k, [LeaveProc], []);
    if e.Defun? {
      TypedHeader(e.params, 0, body);
    }
    if e.Lambda? {
      TypedMake(c, rest, pend);
    } else {
      TypedPlain(Nop, rest, pend);
      TypedPlain(NewBind(e.name), [Nop] + rest, pend);
      TypedMake(c, [NewBind(e.name)] + ([Nop] + rest), pend);
    }
  }

  lemma TypedLeaveProc()
    ensures Typed([LeaveProc], [])
  {
  }

  lemma TypedMake(c: Code, rest: seq<Code>, pend: seq<string>)
    requires c.MakeClosure? && Typed(c.body, []) && Typed(rest, pend)
    ensures Typed([c] + rest, pend)
  {
    assert ([c] + rest)[1..] == rest;
  }

  lemma ClosureForm(tail: bool, e: Expr, k: nat, rest: seq<Code>, header: seq<Code>)
    requires (e.Lambda? || e.Defun? || e.Defun2?) && Supported(e)
    requires header == if e.Defun? then ParameterHeader(e.params, 0) else []
    ensures AllSupported(e.body.exps)
    ensures var code := CompileExpr(tail, e, k).1;
            var body := Concat(CompileSeq(true, e.body.exps, k).1) + [LeaveProc];
            code != [] && code[0].MakeClosure? && code[0].body == (if e.Defun? then header + body else body) &&
            code + rest == [code[0]] + if e.Lambda? then rest else [NewBind(e.name)] + ([Nop] + rest)
  {
    hide CompileSeq, ParameterHeader, Concat, AllSupported;
    var codes := CompileSeq(true, e.body.exps, k).1;
    assert header + Concat(codes) + [LeaveProc] == header + (Concat(codes) + [LeaveProc]);
  }

  lemma {:induction false} TypedBind(tail: bool, e: Expr, k: nat, rest: seq<Code>, pend: seq<string>)
    requires (e.Defvar? || e.Assign?) && Supported(e) && Typed(rest, pend)
    ensures Typed(CompileExpr(tail, e, k).1 + rest, pend)
    decreases e, 0
  {
    hide Typed;
    var code := CompileExpr(false, e.exp, k).1;
    var bind := if e.Defvar? then NewBind(e.name) else ReBind(e.name);
    TypedPlain(Nop, rest, pend);
    TypedPlain(bind, [Nop] + rest, pend);
    TypedExpr(false, e.exp, k, [bind] + ([Nop] + rest), pend);
    assert CompileExpr(tail, e, k).1 + rest == code + ([bind] + ([Nop] + rest));
  }

  lemma {:induction false} TypedBranch(tail: bool, e: Expr, k: nat, rest: seq<Code>, pend: seq<string>)
    requires e.Branch? && Supported(e) && Typed(rest, pend) && (tail ==> pend == [])
    ensures Typed(CompileExpr(tail, e, k).1 + rest, pend)
    decreases e, 0
  {
    BranchForm(tail, e, k, rest);
    hide *;
    var (k1, cTest) := CompileExpr(false, e.test, k);
    var (k2, cThen) := CompileExpr(tail, e.thn, k1);
    var (k3, cElse) := CompileExpr(tail, e.els, k2);
    TypedExpr(tail, e.thn, k1, rest, pend);
    TypedExpr(tail, e.els, k2, rest, pend);
    TypedTest(IfTrue(cThen, cElse), cThen, cElse, rest, pend);
    TypedExpr(false, e.test, k, [IfTrue(cThen, cElse)] + rest, pend);
  }

  lemma BranchForm(tail: bool, e: Expr, k: nat, rest: seq<Code>)
    requires e.Branch? && Supported(e)
    ensures Supported(e.test) && Supported(e.thn) && Supported(e.els)
    ensures var (k1, cTest) := CompileExpr(false, e.test, k);
            var (k2, cThen) := CompileExpr(tail, e.thn, k1);
            var (k3, cElse) := CompileExpr(tail, e.els, k2);
            CompileExpr(tail, e, k).1 + rest == cTest + ([IfTrue(cThen, cElse)] + rest)
  {
  }

  /** Compiled code keeps the continuation discipline, in front of anything that keeps it; code
      compiled for a tail position relies on nothing being pushed. */
  lemma {:induction false} TypedExpr(tail: bool, e: Expr, k: nat, rest: seq<Code>, pend: seq<string>)
    requires Supported(e) && Typed(rest, pend) && (tail ==> pend == [])
    ensures Typed(CompileExpr(tail, e, k).1 + rest, pend)
    decreases e, 1
  {
    hide Typed, CompileSeq, CompileClauses, Concat, TestAll, PushAll, LabelName;
    match e {
      case Variable(sym) => TypedPlain(LookupVar(sym), rest, pend);
      case Quote(d) => TypedPlain(FetchConst(d), rest, pend);
      case SelfEval(d) => TypedPlain(FetchConst(d), rest, pend);
      case ProcCall(func, _) =>
        if IsBuiltin(func) {
          TypedBuiltin(tail, e, k, rest, pend);
        } else {
          TypedCall(tail, e, k, rest, pend);
        }
      case Sequence(exps) => TypedSeq(tail, exps, k, rest, pend);
      case Lambda(_, _) => TypedClosure(tail, e, k, rest, pend);
      case Defvar(_, _) => TypedBind(tail, e, k, rest, pend);
      case Defun(_, _, _) => TypedClosure(tail, e, k, rest, pend);
      case Defun2(_, _, _, _) => TypedClosure(tail, e, k, rest, pend);
      case Assign(_, _) => TypedBind(tail, e, k, rest, pend);
      case Branch(_, _, _) => TypedBranch(tail, e, k, rest, pend);
      case Cond(clauses) =>
        var l := LabelName(k);
        TypedClauses(tail, clauses, k, k + 1, rest, pend);
        var c := CompileClauses(tail, clauses, l, k + 1).1;
        assert c + [FetchConst(Void), Label(l)] + rest == c + ([FetchConst(Void)] + ([Label(l)] + rest));
      case And(exps) =>
        if exps == [] {
          TypedPlain(FetchConst(Boolean(true)), rest, pend);
        } else {
          TypedTestsForm(tail, e, k, rest, pend);
        }
      case Or(exps) =>
        if exps == [] {
          TypedPlain(FetchConst(Boolean(false)), rest, pend);
        } else {
          TypedTestsForm(tail, e, k, rest, pend);
        }
    }
  }
}
