/** Labels of compiled code: every emitted label is defined once in the whole program, and every
    jump and every pushed continuation refers to a label that stands strictly later in the same
    procedure body, in the same block or in an enclosing one. */
module CompilerLabels {
  import opened Options
  import opened Exptype
  import opened Svm
  import opened Compiler
  import Decimal

  /** All label definitions, nested blocks and closures included. */
  ghost function Defined(code: seq<Code>): multiset<string> {
    if code == [] then multiset{} else DefinedIn(code[0]) + Defined(code[1..])
  }

  ghost function DefinedIn(c: Code): multiset<string> {
    match c
    case Label(l) => multiset{l}
    case IfTrue(a, b) => Defined(a) + Defined(b)
    case IfFalse(a, b) => Defined(a) + Defined(b)
    case MakeClosure(_, _, body) => Defined(body)
    case _ => multiset{}
  }

  /** The labels that stand directly in this block. */
  ghost function Here(code: seq<Code>): set<string> {
    if code == [] then {}
    else (if code[0].Label? then {code[0].target} else {}) + Here(code[1..])
  }

  /** Every Goto and PushCont refers to a label later in its block or in `outer`, the labels that
      follow in the enclosing blocks of the same procedure body. */
  ghost predicate JumpsForward(code: seq<Code>, outer: set<string>) {
    code == [] ||
    (var later := Here(code[1..]) + outer;
     (match code[0]
      case Goto(l) => l in later
      case PushCont(l) => l in later
      case IfTrue(a, b) => JumpsForward(a, later) && JumpsForward(b, later)
      case IfFalse(a, b) => JumpsForward(a, later) && JumpsForward(b, later)
      case MakeClosure(_, _, body) => JumpsForward(body, {})
      case _ => true) && JumpsForward(code[1..], outer))
  }

  ghost predicate Distinct(m: multiset<string>) {
    forall l :: m[l] <= 1
  }

  /** l is the label of a counter value from lo up to hi. */
  ghost predicate Between(l: string, lo: nat, hi: nat) {
    exists n: nat :: lo <= n < hi && l == LabelName(n)
  }

  ghost predicate LabelsFrom(m: multiset<string>, lo: nat, hi: nat) {
    Distinct(m) && forall l | l in m :: Between(l, lo, hi)
  }

  lemma LabelNameInjective(m: nat, n: nat)
    requires LabelName(m) == LabelName(n)
    ensures m == n
  {
    assert LabelName(m)[|LABEL_PREFIX|..] == Decimal.Numeral(m);
    assert LabelName(n)[|LABEL_PREFIX|..] == Decimal.Numeral(n);
    Decimal.NumeralInjective(m, n);
  }

  lemma LabelsFromUnion(a: multiset<string>, b: multiset<string>, lo: nat, mid: nat, hi: nat)
    requires lo <= mid <= hi
    requires LabelsFrom(a, lo, mid) && LabelsFrom(b, mid, hi)
    ensures LabelsFrom(a + b, lo, hi)
  {
    forall l | l in a && l in b
      ensures false
    {
      var m: nat :| lo <= m < mid && l == LabelName(m);
      var n: nat :| mid <= n < hi && l == LabelName(n);
      LabelNameInjective(m, n);
    }
  }

  lemma LabelsFromOne(k: nat)
    ensures LabelsFrom(multiset{LabelName(k)}, k, k + 1)
  {
    assert Between(LabelName(k), k, k + 1);
  }

  lemma {:induction false} DefinedConcat(a: seq<Code>, b: seq<Code>)
    ensures Defined(a + b) == Defined(a) + Defined(b)
  {
    if a == [] {
      assert a + b == b;
    } else {
      assert (a + b)[1..] == a[1..] + b;
      DefinedConcat(a[1..], b);
    }
  }

  lemma {:induction false} HereConcat(a: seq<Code>, b: seq<Code>)
    ensures Here(a + b) == Here(a) + Here(b)
  {
    if a == [] {
      assert a + b == b;
    } else {
      assert (a + b)[1..] == a[1..] + b;
      HereConcat(a[1..], b);
    }
  }

  lemma {:induction false} JumpsForwardConcat(a: seq<Code>, b: seq<Code>, outer: set<string>)
    ensures JumpsForward(a + b, outer) <==> JumpsForward(a, Here(b) + outer) && JumpsForward(b, outer)
  {
    if a == [] {
      assert a + b == b;
    } else {
      assert (a + b)[1..] == a[1..] + b;
      JumpsForwardConcat(a[1..], b, outer);
      HereConcat(a[1..], b);
      assert Here((a + b)[1..]) + outer == Here(a[1..]) + (Here(b) + outer);
    }
  }

  lemma {:induction false} JumpsForwardWiden(code: seq<Code>, outer: set<string>, wider: set<string>)
    requires JumpsForward(code, outer) && outer <= wider
    ensures JumpsForward(code, wider)
  {
    if code != [] {
      var later, later' := Here(code[1..]) + outer, Here(code[1..]) + wider;
      match code[0] {
        case IfTrue(a, b) =>
          JumpsForwardWiden(a, later, later');
          JumpsForwardWiden(b, later, later');
        case IfFalse(a, b) =>
          JumpsForwardWiden(a, later, later');
          JumpsForwardWiden(b, later, later');
        case _ =>
      }
      JumpsForwardWiden(code[1..], outer, wider);
    }
  }

  /** Code emitted while the counter goes from lo to hi: its labels are those of that range, each
      defined once, and its jumps go forward, to itself or to `outer`. */
  ghost predicate Good(code: seq<Code>, outer: set<string>, lo: nat, hi: nat) {
    lo <= hi && LabelsFrom(Defined(code), lo, hi) && JumpsForward(code, outer)
  }

  lemma GoodConcat(a: seq<Code>, b: seq<Code>, outer: set<string>, lo: nat, mid: nat, hi: nat)
    requires Good(a, outer, lo, mid) && Good(b, outer, mid, hi)
    ensures Good(a + b, outer, lo, hi)
  {
    DefinedConcat(a, b);
    LabelsFromUnion(Defined(a), Defined(b), lo, mid, hi);
    JumpsForwardWiden(a, outer, Here(b) + outer);
    JumpsForwardConcat(a, b, outer);
  }

  lemma GoodWiden(a: seq<Code>, outer: set<string>, lo: nat, hi: nat, outer': set<string>, lo': nat, hi': nat)
    requires Good(a, outer, lo, hi) && outer <= outer' && lo' <= lo && hi <= hi'
    ensures Good(a, outer', lo', hi')
  {
    JumpsForwardWiden(a, outer, outer');
  }

  lemma EndCode(end: string, tail: seq<Code>)
    requires tail == [Label(end)] || tail == [FetchConst(Void), Label(end)]
    ensures Defined(tail) == multiset{end} && Here(tail) == {end} && JumpsForward(tail, {})
  {
    assert [Label(end)][1..] == [];
    assert Here([Label(end)]) == {end};
    if |tail| == 2 {
      assert tail[1..] == [Label(end)];
    }
  }

  /** A label placed behind code that may jump to it; the label was drawn after the code's own
      labels or before them. */
  lemma GoodEnd(a: seq<Code>, l: nat, tail: seq<Code>, lo: nat, hi: nat)
    requires Good(a, {LabelName(l)}, lo, hi)
    requires l == hi || l + 1 == lo
    requires tail == [Label(LabelName(l))] || tail == [FetchConst(Void), Label(LabelName(l))]
    ensures l == hi ==> Good(a + tail, {}, lo, hi + 1)
    ensures l + 1 == lo ==> Good(a + tail, {}, l, hi)
  {
    var end := LabelName(l);
    EndCode(end, tail);
    DefinedConcat(a, tail);
    assert JumpsForward(a + tail, {}) by {
      assert Here(tail) + {} == {end};
      JumpsForwardConcat(a, tail, {});
    }
    LabelsFromOne(l);
    if l == hi {
      LabelsFromUnion(Defined(a), multiset{end}, lo, hi, hi + 1);
    }
    if l + 1 == lo {
      LabelsFromUnion(multiset{end}, Defined(a), l, lo, hi);
      assert multiset{end} + Defined(a) == Defined(a + tail);
    }
  }

  /** Instructions that define no label, jump nowhere and hold no block. */
  ghost predicate Plain(c: Code) {
    !c.Label? && !c.Goto? && !c.PushCont? && !c.IfTrue? && !c.IfFalse? && !c.MakeClosure?
  }

  lemma {:induction false} GoodPlain(code: seq<Code>, outer: set<string>, k: nat)
    requires forall i | 0 <= i < |code| :: Plain(code[i])
    ensures Good(code, outer, k, k) && Defined(code) == multiset{} && Here(code) == {}
  {
    if code != [] {
      GoodPlain(code[1..], outer, k);
    }
  }

  lemma {:induction false} HeaderPlain(params: seq<Sym>, i: nat)
    ensures forall j | 0 <= j < |ParameterHeader(params, i)| :: Plain(ParameterHeader(params, i)[j])
  {
    if params != [] {
      HeaderPlain(params[1..], i + 1);
    }
  }

  /** Code blocks emitted one after the other. */
  ghost predicate SeqGood(codes: seq<seq<Code>>, lo: nat, hi: nat) {
    if codes == [] then lo <= hi
    else exists mid: nat :: Good(codes[0], {}, lo, mid) && SeqGood(codes[1..], mid, hi)
  }

  lemma {:induction false} SeqGoodConcat(codes: seq<seq<Code>>, lo: nat, hi: nat)
    requires SeqGood(codes, lo, hi)
    ensures Good(Concat(codes), {}, lo, hi)
  {
    if codes != [] {
      var mid: nat :| Good(codes[0], {}, lo, mid) && SeqGood(codes[1..], mid, hi);
      SeqGoodConcat(codes[1..], mid, hi);
      GoodConcat(codes[0], Concat(codes[1..]), {}, lo, mid, hi);
    }
  }

  lemma {:induction false} SeqGoodPushAll(codes: seq<seq<Code>>, lo: nat, hi: nat)
    requires SeqGood(codes, lo, hi)
    ensures Good(PushAll(codes), {}, lo, hi)
  {
    if codes != [] {
      var mid: nat :| Good(codes[0], {}, lo, mid) && SeqGood(codes[1..], mid, hi);
      SeqGoodPushAll(codes[1..], mid, hi);
      GoodPlain([Push, BlankLn], {}, mid);
      GoodConcat(codes[0], [Push, BlankLn], {}, lo, mid, mid);
      GoodConcat(codes[0] + [Push, BlankLn], PushAll(codes[1..]), {}, lo, mid, hi);
    }
  }

  /** What the last test of TestAll is removed from. */
  lemma {:induction false} RemoveLastTest(codes: seq<seq<Code>>, test: Code)
    requires codes != []
    ensures TestAll(codes, test) != []
    ensures RemoveLast(TestAll(codes, test)) ==
      if |codes| == 1 then codes[0]
      else codes[0] + ([test] + RemoveLast(TestAll(codes[1..], test)))
  {
    if |codes| > 1 {
      RemoveLastTest(codes[1..], test);
    }
  }

  lemma GoodTest(test: Code, end: string, k: nat)
    requires test == IfTrue([Goto(end)], []) || test == IfFalse([Goto(end)], [])
    ensures Good([test], {end}, k, k)
  {
    assert [Goto(end)][1..] == [] && [test][1..] == [];
    assert Here([Goto(end)][1..]) + (Here([test][1..]) + {end}) == {end};
    assert JumpsForward([Goto(end)], {end});
    assert Defined([Goto(end)]) == multiset{} && Defined([]) == multiset{};
    assert Defined([test]) == multiset{};
  }

  lemma {:induction false} SeqGoodTests(codes: seq<seq<Code>>, test: Code, end: string, lo: nat, hi: nat)
    requires codes != [] && SeqGood(codes, lo, hi)
    requires test == IfTrue([Goto(end)], []) || test == IfFalse([Goto(end)], [])
    ensures Good(RemoveLast(TestAll(codes, test)), {end}, lo, hi)
  {
    var mid: nat :| Good(codes[0], {}, lo, mid) && SeqGood(codes[1..], mid, hi);
    RemoveLastTest(codes, test);
    GoodWiden(codes[0], {}, lo, mid, {end}, lo, mid);
    if |codes| == 1 {
      GoodWiden(codes[0], {}, lo, mid, {end}, lo, hi);
    } else {
      SeqGoodTests(codes[1..], test, end, mid, hi);
      var rest := RemoveLast(TestAll(codes[1..], test));
      GoodTest(test, end, mid);
      GoodConcat([test], rest, {end}, mid, mid, hi);
      GoodConcat(codes[0], [test] + rest, {end}, lo, mid, hi);
    }
  }

  lemma {:induction false} SeqLabels(tail: bool, es: seq<Expr>, k: nat)
    requires AllSupported(es)
    ensures SeqGood(CompileSeq(tail, es, k).1, k, CompileSeq(tail, es, k).0)
    decreases es, 0
  {
    if es != [] {
      var t := tail && |es| == 1;
      var (k1, c) := CompileExpr(t, es[0], k);
      ExprLabels(t, es[0], k);
      SeqLabels(tail, es[1..], k1);
      assert CompileSeq(tail, es, k).1[1..] == CompileSeq(tail, es[1..], k1).1;
    }
  }

  lemma {:induction false} ClausesLabels(tail: bool, cs: seq<Clause>, end: string, k: nat)
    requires ClausesSupported(cs)
    ensures var r := CompileClauses(tail, cs, end, k); Good(r.1, {end}, k, r.0)
    decreases cs
  {
    if cs != [] {
      var (k1, t) := CompileExpr(false, cs[0].test, k);
      var (k2, a) := CompileSeq(tail, cs[0].body, k1);
      var (k3, rest) := CompileClauses(tail, cs[1..], end, k2);
      ExprLabels(false, cs[0].test, k);
      SeqLabels(tail, cs[0].body, k1);
      ClausesLabels(tail, cs[1..], end, k2);
      GoodWiden(t, {}, k, k1, {end}, k, k1);
      SeqGoodConcat(a, k1, k2);
      var block := Concat(a) + [Goto(end)];
      assert Good(block, {end}, k1, k2) by {
        GoodWiden(Concat(a), {}, k1, k2, {end}, k1, k2);
        assert [Goto(end)][1..] == [];
        assert Good([Goto(end)], {end}, k2, k2);
        GoodConcat(Concat(a), [Goto(end)], {end}, k1, k2, k2);
      }
      GoodBlocks(block, [], {end}, k1, k2, k2);
      GoodConcat(t, [IfTrue(block, [])], {end}, k, k1, k2);
      GoodConcat(t + [IfTrue(block, [])], rest, {end}, k, k2, k3);
    }
  }

  lemma GoodBlocks(a: seq<Code>, b: seq<Code>, outer: set<string>, lo: nat, mid: nat, hi: nat)
    requires Good(a, outer, lo, mid) && Good(b, outer, mid, hi)
    ensures Good([IfTrue(a, b)], outer, lo, hi)
  {
    LabelsFromUnion(Defined(a), Defined(b), lo, mid, hi);
    assert [IfTrue(a, b)][1..] == [];
    assert Here([IfTrue(a, b)][1..]) + outer == outer;
    assert Defined([IfTrue(a, b)]) == Defined(a) + Defined(b);
  }

  lemma GoodClosure(name: Sym, formals: Formals, header: seq<Code>, codes: seq<seq<Code>>, lo: nat, hi: nat)
    requires SeqGood(codes, lo, hi)
    requires forall i | 0 <= i < |header| :: Plain(header[i])
    ensures Good([MakeClosure(name, formals, header + Concat(codes) + [LeaveProc])], {}, lo, hi)
  {
    hide Good, SeqGood, Plain;
    SeqGoodConcat(codes, lo, hi);
    GoodPlain(header, {}, lo);
    PlainLeave();
    GoodPlain([LeaveProc], {}, hi);
    GoodConcat(header, Concat(codes), {}, lo, lo, hi);
    GoodConcat(header + Concat(codes), [LeaveProc], {}, lo, hi, hi);
    GoodBody(name, formals, header + Concat(codes) + [LeaveProc], lo, hi);
  }

  lemma PlainLeave()
    ensures Plain(LeaveProc)
  {
  }

  lemma GoodBody(name: Sym, formals: Formals, body: seq<Code>, lo: nat, hi: nat)
    requires Good(body, {}, lo, hi)
    ensures Good([MakeClosure(name, formals, body)], {}, lo, hi)
  {
    var c := MakeClosure(name, formals, body);
    assert [c][1..] == [];
    assert Defined([c]) == Defined(body);
  }

  lemma GoodDefine(c: Code, name: Sym, lo: nat, hi: nat)
    requires Good([c], {}, lo, hi)
    ensures Good([c, NewBind(name), Nop], {}, lo, hi)
  {
    GoodPlain([NewBind(name), Nop], {}, hi);
    GoodConcat([c], [NewBind(name), Nop], {}, lo, hi, hi);
    assert [c] + [NewBind(name), Nop] == [c, NewBind(name), Nop];
  }

  /** A continuation push in front of code that ends in the resume label. */
  lemma GoodResume(inner: seq<Code>, k: nat, hi: nat)
    requires Good(inner, {}, k + 1, hi)
    ensures Good([PushCont(LabelName(k))] + (inner + [Label(LabelName(k)), BlankLn]), {}, k, hi)
  {
    hide *;
    var l := LabelName(k);
    GoodWiden(inner, {}, k + 1, hi, {l}, k + 1, hi);
    GoodEnd(inner, k, [Label(l)], k + 1, hi);
    ResumeHere(inner, l);
    GoodPlain([BlankLn], {}, hi);
    GoodConcat(inner + [Label(l)], [BlankLn], {}, k, hi, hi);
    GoodPush(inner + [Label(l), BlankLn], l, k, hi);
  }

  lemma ResumeHere(inner: seq<Code>, l: string)
    ensures inner + [Label(l), BlankLn] == inner + [Label(l)] + [BlankLn]
    ensures l in Here(inner + [Label(l), BlankLn])
    ensures Plain(BlankLn)
  {
    HereConcat(inner, [Label(l), BlankLn]);
    assert [Label(l), BlankLn][1..] == [BlankLn];
  }

  lemma GoodPush(code: seq<Code>, l: string, lo: nat, hi: nat)
    requires Good(code, {}, lo, hi) && l in Here(code)
    ensures Good([PushCont(l)] + code, {}, lo, hi)
  {
    var pushed := [PushCont(l)] + code;
    assert pushed[1..] == code && pushed[0] == PushCont(l);
    assert Defined(pushed) == DefinedIn(PushCont(l)) + Defined(code) == Defined(code);
    assert JumpsForward(pushed, {});
  }

  lemma GoodCall(a: seq<Code>, f: seq<Code>, lo: nat, mid: nat, hi: nat)
    requires Good(a, {}, lo, mid) && Good(f, {}, mid, hi)
    ensures Good(a + f + [Apply], {}, lo, hi)
    ensures Good(a + f + [Apply] + [BlankLn], {}, lo, hi)
  {
    GoodPlain([Apply], {}, hi);
    GoodConcat(a, f, {}, lo, mid, hi);
    GoodConcat(a + f, [Apply], {}, lo, hi, hi);
    GoodPlain([BlankLn], {}, hi);
    GoodConcat(a + f + [Apply], [BlankLn], {}, lo, hi, hi);
  }

  lemma GoodUserCall(tail: bool, a: seq<Code>, f: seq<Code>, k: nat, mid: nat, hi: nat)
    requires Good(a, {}, if tail then k else k + 1, mid) && Good(f, {}, mid, hi)
    ensures var (h, t) := CodeBlock(tail, LabelName(k)); Good(h + a + f + [Apply] + t + [BlankLn], {}, k, hi)
  {
    var (h, t) := CodeBlock(tail, LabelName(k));
    var call := a + f + [Apply];
    GoodCall(a, f, if tail then k else k + 1, mid, hi);
    if tail {
      assert h + a + f + [Apply] + t + [BlankLn] == call + [BlankLn];
    } else {
      GoodResume(call, k, hi);
      assert h + a + f + [Apply] + t + [BlankLn] == h + (call + [Label(LabelName(k)), BlankLn]);
    }
  }

  lemma {:induction false} CallLabels(tail: bool, e: Expr, k: nat)
    requires e.ProcCall? && Supported(e)
    ensures var r := CompileExpr(tail, e, k); Good(r.1, {}, k, r.0)
    decreases e, 0
  {
    var ProcCall(func, operands) := e;
    var k0 := if tail then k else k + 1;
    var (k1, codes) := CompileSeq(false, operands, k0);
    SeqLabels(false, operands, k0);
    SeqGoodPushAll(codes, k0, k1);
    if IsBuiltin(func) {
      var call := [CallBuiltin(func.sym, |operands|), MoveSp(|operands|), BlankLn];
      GoodPlain(call, {}, k1);
      GoodConcat(PushAll(codes), call, {}, k0, k1, k1);
      GoodWiden(PushAll(codes) + call, {}, k0, k1, {}, k, k1);
    } else {
      var (k2, operator) := CompileExpr(false, func, k1);
      ExprLabels(false, func, k1);
      GoodUserCall(tail, PushAll(codes), operator, k, k1, k2);
    }
  }

  lemma {:induction false} ClosureLabels(tail: bool, e: Expr, k: nat)
    requires (e.Lambda? || e.Defun? || e.Defun2?) && Supported(e)
    ensures var r := CompileExpr(tail, e, k); Good(r.1, {}, k, r.0)
    decreases e, 0
  {
    var (k', code) := CompileExpr(tail, e, k);
    match e {
      case Lambda(formals, body) =>
        SeqLabels(true, body.exps, k);
        var codes := CompileSeq(true, body.exps, k).1;
        GoodClosure(Nil, formals, [], codes, k, k');
        assert [] + Concat(codes) + [LeaveProc] == Concat(codes) + [LeaveProc];
      case Defun(name, params, body) =>
        SeqLabels(true, body.exps, k);
        HeaderPlain(params, 0);
        GoodClosure(name, Args(params), ParameterHeader(params, 0), CompileSeq(true, body.exps, k).1, k, k');
        GoodDefine(code[0], name, k, k');
      case Defun2(name, params, restParam, body) =>
        SeqLabels(true, body.exps, k);
        var codes := CompileSeq(true, body.exps, k).1;
        GoodClosure(name, Args2(params, restParam), [], codes, k, k');
        assert [] + Concat(codes) + [LeaveProc] == Concat(codes) + [LeaveProc];
        GoodDefine(code[0], name, k, k');
    }
  }

  lemma {:induction false} BindLabels(tail: bool, e: Expr, k: nat)
    requires (e.Defvar? || e.Assign?) && Supported(e)
    ensures var r := CompileExpr(tail, e, k); Good(r.1, {}, k, r.0)
    decreases e, 0
  {
    var (k', c) := CompileExpr(false, e.exp, k);
    var bind := [if e.Defvar? then NewBind(e.name) else ReBind(e.name), Nop];
    ExprLabels(false, e.exp, k);
    GoodPlain(bind, {}, k');
    GoodConcat(c, bind, {}, k, k', k');
  }

  lemma {:induction false} BranchLabels(tail: bool, e: Expr, k: nat)
    requires e.Branch? && Supported(e)
    ensures var r := CompileExpr(tail, e, k); Good(r.1, {}, k, r.0)
    decreases e, 0
  {
    var (k1, cTest) := CompileExpr(false, e.test, k);
    var (k2, cThen) := CompileExpr(tail, e.thn, k1);
    var (k3, cElse) := CompileExpr(tail, e.els, k2);
    ExprLabels(false, e.test, k);
    ExprLabels(tail, e.thn, k1);
    ExprLabels(tail, e.els, k2);
    GoodBlocks(cThen, cElse, {}, k1, k2, k3);
    GoodConcat(cTest, [IfTrue(cThen, cElse)], {}, k, k1, k3);
  }

  /** Main result on labels: code compiled while the counter goes from k to its result. */
  lemma {:induction false} ExprLabels(tail: bool, e: Expr, k: nat)
    requires Supported(e)
    ensures var r := CompileExpr(tail, e, k); Good(r.1, {}, k, r.0)
    decreases e, 1
  {
    hide Good, CompileSeq, CompileClauses;
    var (k', code) := CompileExpr(tail, e, k);
    match e {
      case Variable(_) => GoodPlain(code, {}, k);
      case Quote(_) => GoodPlain(code, {}, k);
      case SelfEval(_) => GoodPlain(code, {}, k);
      case ProcCall(func, operands) =>
        CallLabels(tail, e, k);
      case Sequence(exps) =>
        SeqLabels(tail, exps, k);
        SeqGoodConcat(CompileSeq(tail, exps, k).1, k, k');
      case Lambda(_, _) => ClosureLabels(tail, e, k);
      case Defvar(_, _) => BindLabels(tail, e, k);
      case Defun(_, _, _) => ClosureLabels(tail, e, k);
      case Defun2(_, _, _, _) => ClosureLabels(tail, e, k);
      case Assign(_, _) => BindLabels(tail, e, k);
      case Branch(_, _, _) => BranchLabels(tail, e, k);
      case Cond(clauses) =>
        var (k1, c) := CompileClauses(tail, clauses, LabelName(k), k + 1);
        ClausesLabels(tail, clauses, LabelName(k), k + 1);
        GoodEnd(c, k, [FetchConst(Void), Label(LabelName(k))], k + 1, k1);
      case And(exps) =>
        if exps == [] {
          GoodPlain(code, {}, k);
        } else {
          TestsLabels(tail, exps, k, true);
        }
      case Or(exps) =>
        if exps == [] {
          GoodPlain(code, {}, k);
        } else {
          TestsLabels(tail, exps, k, false);
        }
    }
  }

  lemma {:induction false} TestsLabels(tail: bool, exps: seq<Expr>, k: nat, conj: bool)
    requires AllSupported(exps) && exps != []
    ensures
      var (k1, codes) := CompileSeq(tail, exps, k);
      var end := LabelName(k1);
      var test := if conj then IfFalse([Goto(end)], []) else IfTrue([Goto(end)], []);
      Good(RemoveLast(TestAll(codes, test)) + [Label(end)], {}, k, k1 + 1)
    decreases exps, 1
  {
    var (k1, codes) := CompileSeq(tail, exps, k);
    var end := LabelName(k1);
    var test := if conj then IfFalse([Goto(end)], []) else IfTrue([Goto(end)], []);
    SeqLabels(tail, exps, k);
    SeqGoodTests(codes, test, end, k, k1);
    GoodEnd(RemoveLast(TestAll(codes, test)), k1, [Label(end)], k, k1);
  }

  /** Labels of a whole program are pairwise distinct and all jumps in it go forward to them. */
  lemma ProgramLabels(es: seq<Expr>)
    requires Compile(es).Some?
    ensures Distinct(Defined(Compile(es).value)) && JumpsForward(Compile(es).value, {})
  {
    SeqLabels(true, es, 0);
    SeqGoodConcat(CompileSeq(true, es, 0).1, 0, CompileSeq(true, es, 0).0);
  }

  // ---- Every jump has one place to go ----------------------------------------------------------

  /** The labels that jumps and pushed continuations refer to. */
  ghost function Targets(code: seq<Code>): set<string> {
    if code == [] then {} else TargetsIn(code[0]) + Targets(code[1..])
  }

  ghost function TargetsIn(c: Code): set<string> {
    match c
    case Goto(l) => {l}
    case PushCont(l) => {l}
    case IfTrue(a, b) => Targets(a) + Targets(b)
    case IfFalse(a, b) => Targets(a) + Targets(b)
    case MakeClosure(_, _, body) => Targets(body)
    case _ => {}
  }

  lemma {:induction false} HereDefined(code: seq<Code>)
    ensures forall l | l in Here(code) :: l in Defined(code)
  {
    if code != [] {
      HereDefined(code[1..]);
    }
  }

  lemma {:induction false} TargetsDefined(code: seq<Code>, outer: set<string>)
    requires JumpsForward(code, outer)
    ensures forall l | l in Targets(code) :: l in Defined(code) || l in outer
    decreases code, 1
  {
    if code != [] {
      HereDefined(code[1..]);
      TargetsDefined(code[1..], outer);
      HeadTargetsDefined(code, outer);
    }
  }

  lemma {:induction false} HeadTargetsDefined(code: seq<Code>, outer: set<string>)
    requires code != [] && JumpsForward(code, outer)
    ensures forall l | l in TargetsIn(code[0]) :: l in DefinedIn(code[0]) || l in Here(code[1..]) + outer
    decreases code, 0
  {
    var later := Here(code[1..]) + outer;
    match code[0] {
      case IfTrue(a, b) =>
        TargetsDefined(a, later);
        TargetsDefined(b, later);
      case IfFalse(a, b) =>
        TargetsDefined(a, later);
        TargetsDefined(b, later);
      case MakeClosure(_, _, body) =>
        TargetsDefined(body, {});
      case _ =>
    }
  }

  /** In a compiled program every jump and every pushed continuation has exactly one label to go to. */
  lemma JumpsHaveOneLabel(es: seq<Expr>, l: string)
    requires Compile(es).Some? && l in Targets(Compile(es).value)
    ensures Defined(Compile(es).value)[l] == 1
  {
    ProgramLabels(es);
    TargetsDefined(Compile(es).value, {});
  }
}
