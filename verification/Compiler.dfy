/** The compiler from expressions to virtual machine code (tools/compiler/src/Compiler.hs).
    The label counter that the CodeM monad threads is an extra argument and an extra result. */
module Compiler {
  import opened Options
  import opened Exptype
  import opened Svm
  import Decimal

  const LABEL_PREFIX := ".L_scm_"

  const BUILTIN_NAMES: seq<string> := ["car", "cdr", "cons", "+", "-", "*", "/", "display"]

  predicate IsBuiltin(e: Expr) {
    e.Variable? && e.sym.Sym? && e.sym.name in BUILTIN_NAMES
  }

  function LabelName(n: nat): string {
    LABEL_PREFIX + Decimal.Numeral(n)
  }

  /** The forms the compiler accepts; Case and Let end in its "Unsupported syntax" error. */
  predicate Supported(e: Expr) {
    match e
    case Variable(_) => true
    case Quote(_) => true
    case SelfEval(_) => true
    case ProcCall(func, operands) => AllSupported(operands) && Supported(func)
    case Sequence(exps) => AllSupported(exps)
    case Lambda(_, body) => AllSupported(body.exps)
    case Defvar(_, exp) => Supported(exp)
    case Defun(_, _, body) => AllSupported(body.exps)
    case Defun2(_, _, _, body) => AllSupported(body.exps)
    case Branch(test, thn, els) => Supported(test) && Supported(thn) && Supported(els)
    case Assign(_, exp) => Supported(exp)
    case Cond(clauses) => ClausesSupported(clauses)
    case And(exps) => AllSupported(exps)
    case Or(exps) => AllSupported(exps)
    case Case(_, _, _) => false
    case Let(_, _) => false
  }

  predicate AllSupported(es: seq<Expr>) {
    es == [] || (Supported(es[0]) && AllSupported(es[1..]))
  }

  predicate ClausesSupported(cs: seq<Clause>) {
    cs == [] || (Supported(cs[0].test) && AllSupported(cs[0].body) && ClausesSupported(cs[1..]))
  }

  function Concat(codes: seq<seq<Code>>): seq<Code> {
    if codes == [] then [] else codes[0] + Concat(codes[1..])
  }

  /** Every operand's code followed by a push. */
  function PushAll(codes: seq<seq<Code>>): seq<Code> {
    if codes == [] then [] else codes[0] + [Push, BlankLn] + PushAll(codes[1..])
  }

  /** Every code block followed by `test`. */
  function TestAll(codes: seq<seq<Code>>, test: Code): seq<Code> {
    if codes == [] then [] else codes[0] + [test] + TestAll(codes[1..], test)
  }

  function RemoveLast<T>(s: seq<T>): seq<T> {
    if s == [] then [] else s[..|s| - 1]
  }

  /** The instructions that copy the stacked operands into the parameters of a defined procedure. */
  function ParameterHeader(params: seq<Sym>, i: nat): seq<Code> {
    if params == [] then []
    else [AccStack(i), ReBind(params[0])] + ParameterHeader(params[1..], i + 1)
  }

  /** What brackets a procedure call: a continuation resumed at its own label, unless the call is
      in tail position. */
  function CodeBlock(tail: bool, l: string): (seq<Code>, seq<Code>) {
    if tail then ([], []) else ([PushCont(l)], [Label(l)])
  }

  function CompileSeq(tail: bool, es: seq<Expr>, k: nat): (r: (nat, seq<seq<Code>>))
    requires AllSupported(es)
    ensures k <= r.0 && |r.1| == |es|
    decreases es
  {
    if es == [] then (k, [])
    else if |es| == 1 then
      var (k1, c) := CompileExpr(tail, es[0], k);
      (k1, [c])
    else
      var (k1, c) := CompileExpr(false, es[0], k);
      var (k2, cs) := CompileSeq(tail, es[1..], k1);
      (k2, [c] + cs)
  }

  function CompileClauses(tail: bool, cs: seq<Clause>, end: string, k: nat): (r: (nat, seq<Code>))
    requires ClausesSupported(cs)
    ensures k <= r.0
    decreases cs
  {
    if cs == [] then (k, [])
    else
      var (k1, t) := CompileExpr(false, cs[0].test, k);
      var (k2, a) := CompileSeq(tail, cs[0].body, k1);
      var (k3, rest) := CompileClauses(tail, cs[1..], end, k2);
      (k3, t + [IfTrue(Concat(a) + [Goto(end)], [])] + rest)
  }

  function CompileExpr(tail: bool, e: Expr, k: nat): (r: (nat, seq<Code>))
    requires Supported(e)
    ensures k <= r.0
    decreases e
  {
    match e
    case Variable(sym) => (k, [LookupVar(sym)])
    case Quote(d) => (k, [FetchConst(d)])
    case SelfEval(d) => (k, [FetchConst(d)])
    case ProcCall(func, operands) =>
      var k0 := if tail then k else k + 1;
      var (k1, codes) := CompileSeq(false, operands, k0);
      if IsBuiltin(func) then
        (k1, PushAll(codes) + [CallBuiltin(func.sym, |operands|), MoveSp(|operands|), BlankLn])
      else
        var (k2, operator) := CompileExpr(false, func, k1);
        var (h, t) := CodeBlock(tail, LabelName(k));
        (k2, h + PushAll(codes) + operator + [Apply] + t + [BlankLn])
    case Sequence(exps) =>
      var (k1, codes) := CompileSeq(tail, exps, k);
      (k1, Concat(codes))
    case Lambda(formals, body) =>
      var (k1, codes) := CompileSeq(true, body.exps, k);
      (k1, [MakeClosure(Nil, formals, Concat(codes) + [LeaveProc])])
    case Defvar(name, exp) =>
      var (k1, c) := CompileExpr(false, exp, k);
      (k1, c + [NewBind(name), Nop])
    case Defun(name, params, body) =>
      var (k1, codes) := CompileSeq(true, body.exps, k);
      (k1, [MakeClosure(name, Args(params), ParameterHeader(params, 0) + Concat(codes) + [LeaveProc]),
            NewBind(name), Nop])
    case Defun2(name, params, restParam, body) =>
      var (k1, codes) := CompileSeq(true, body.exps, k);
      (k1, [MakeClosure(name, Args2(params, restParam), Concat(codes) + [LeaveProc]),
            NewBind(name), Nop])
    case Assign(name, exp) =>
      var (k1, c) := CompileExpr(false, exp, k);
      (k1, c + [ReBind(name), Nop])
    case Branch(test, thn, els) =>
      var (k1, cTest) := CompileExpr(false, test, k);
      var (k2, cThen) := CompileExpr(tail, thn, k1);
      var (k3, cElse) := CompileExpr(tail, els, k2);
      (k3, cTest + [IfTrue(cThen, cElse)])
    case Cond(clauses) =>
      var end := LabelName(k);
      var (k1, c) := CompileClauses(tail, clauses, end, k + 1);
      (k1, c + [FetchConst(Void), Label(end)])
    case And(exps) =>
      if exps == [] then (k, [FetchConst(Boolean(true))])
      else
        var (k1, codes) := CompileSeq(tail, exps, k);
        var end := LabelName(k1);
        (k1 + 1, RemoveLast(TestAll(codes, IfFalse([Goto(end)], []))) + [Label(end)])
    case Or(exps) =>
      if exps == [] then (k, [FetchConst(Boolean(false))])
      else
        var (k1, codes) := CompileSeq(tail, exps, k);
        var end := LabelName(k1);
        (k1 + 1, RemoveLast(TestAll(codes, IfTrue([Goto(end)], []))) + [Label(end)])
  }

  /** A whole program; None stands for the compiler's error exit. */
  function Compile(es: seq<Expr>): Option<seq<Code>> {
    if AllSupported(es) then Some(Concat(CompileSeq(true, es, 0).1)) else None
  }
}
