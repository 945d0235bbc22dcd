/** What expressions without user procedure calls mean: section 4.2.1 of R5RS for the conditionals,
    with operands evaluated in the order the compiler emits them. */
module Semantics {
  import opened Exptype
  import opened Svm
  import opened Compiler

  type Prims = (Sym, seq<Value>) -> Value

  /** The last value computed and the variables of the current environment. */
  datatype Config = Config(value: Value, vars: Vars)

  predicate CallFree(e: Expr) {
    match e
    case Variable(_) => true
    case Quote(_) => true
    case SelfEval(_) => true
    case ProcCall(func, operands) => IsBuiltin(func) && AllCallFree(operands)
    case Sequence(exps) => AllCallFree(exps)
    case Defvar(_, exp) => CallFree(exp)
    case Branch(test, thn, els) => CallFree(test) && CallFree(thn) && CallFree(els)
    case Assign(_, exp) => CallFree(exp)
    case Cond(clauses) => ClausesCallFree(clauses)
    case And(exps) => AllCallFree(exps)
    case Or(exps) => AllCallFree(exps)
    case _ => false
  }

  predicate AllCallFree(es: seq<Expr>) {
    es == [] || (CallFree(es[0]) && AllCallFree(es[1..]))
  }

  predicate ClausesCallFree(cs: seq<Clause>) {
    cs == [] || (CallFree(cs[0].test) && AllCallFree(cs[0].body) && ClausesCallFree(cs[1..]))
  }

  lemma {:induction false} CallFreeSupported(e: Expr)
    requires CallFree(e)
    ensures Supported(e)
    decreases e
  {
    match e {
      case ProcCall(_, operands) => AllCallFreeSupported(operands);
      case Sequence(exps) => AllCallFreeSupported(exps);
      case Defvar(_, exp) => CallFreeSupported(exp);
      case Branch(test, thn, els) =>
        CallFreeSupported(test);
        CallFreeSupported(thn);
        CallFreeSupported(els);
      case Assign(_, exp) => CallFreeSupported(exp);
      case Cond(clauses) => ClausesCallFreeSupported(clauses);
      case And(exps) => AllCallFreeSupported(exps);
      case Or(exps) => AllCallFreeSupported(exps);
      case _ =>
    }
  }

  lemma {:induction false} AllCallFreeSupported(es: seq<Expr>)
    requires AllCallFree(es)
    ensures AllSupported(es)
    decreases es
  {
    if es != [] {
      CallFreeSupported(es[0]);
      AllCallFreeSupported(es[1..]);
    }
  }

  lemma {:induction false} ClausesCallFreeSupported(cs: seq<Clause>)
    requires ClausesCallFree(cs)
    ensures ClausesSupported(cs)
    decreases cs
  {
    if cs != [] {
      CallFreeSupported(cs[0].test);
      AllCallFreeSupported(cs[0].body);
      ClausesCallFreeSupported(cs[1..]);
    }
  }

  function Eval(prims: Prims, e: Expr, c: Config): Config
    requires CallFree(e)
    decreases e
  {
    match e
    case Variable(sym) => c.(value := Lookup(c.vars, sym))
    case Quote(d) => c.(value := Data(d))
    case SelfEval(d) => c.(value := Data(d))
    case ProcCall(func, operands) =>
      var (args, c1) := EvalOperands(prims, operands, c);
      c1.(value := prims(func.sym, args))
    case Sequence(exps) => EvalSeq(prims, exps, c)
    case Defvar(name, exp) =>
      var c1 := Eval(prims, exp, c);
      c1.(vars := c1.vars[name := c1.value])
    case Assign(name, exp) =>
      var c1 := Eval(prims, exp, c);
      c1.(vars := c1.vars[name := c1.value])
    case Branch(test, thn, els) =>
      var c1 := Eval(prims, test, c);
      if Truthy(c1.value) then Eval(prims, thn, c1) else Eval(prims, els, c1)
    case Cond(clauses) => EvalCond(prims, clauses, c)
    case And(exps) =>
      if exps == [] then c.(value := Data(Boolean(true))) else EvalTests(prims, exps, c, true)
    case Or(exps) =>
      if exps == [] then c.(value := Data(Boolean(false))) else EvalTests(prims, exps, c, false)
  }

  function EvalSeq(prims: Prims, es: seq<Expr>, c: Config): Config
    requires AllCallFree(es)
    decreases es
  {
    if es == [] then c else EvalSeq(prims, es[1..], Eval(prims, es[0], c))
  }

  /** The operands' values in source order; the operand list runs from the last operand. */
  function EvalOperands(prims: Prims, es: seq<Expr>, c: Config): (r: (seq<Value>, Config))
    requires AllCallFree(es)
    ensures |r.0| == |es|
    decreases es
  {
    if es == [] then ([], c)
    else
      var c1 := Eval(prims, es[0], c);
      var (args, c2) := EvalOperands(prims, es[1..], c1);
      (args + [c1.value], c2)
  }

  /** The first clause whose test is true; a clause without body gives the test's value. */
  function EvalCond(prims: Prims, cs: seq<Clause>, c: Config): Config
    requires ClausesCallFree(cs)
    decreases cs
  {
    if cs == [] then c.(value := Data(Void))
    else
      var c1 := Eval(prims, cs[0].test, c);
      if Truthy(c1.value) then EvalSeq(prims, cs[0].body, c1) else EvalCond(prims, cs[1..], c1)
  }

  /** `and` (conj) stops at the first false value, `or` at the first true one. */
  function EvalTests(prims: Prims, es: seq<Expr>, c: Config, conj: bool): Config
    requires es != [] && AllCallFree(es)
    decreases es
  {
    var c1 := Eval(prims, es[0], c);
    if |es| > 1 && Truthy(c1.value) == conj then EvalTests(prims, es[1..], c1, conj) else c1
  }

  function Max(a: nat, b: nat): nat {
    if a < b then b else a
  }

  /** Stack slots the compiled code needs above what is on the stack when it starts. */
  function Need(e: Expr): nat
    requires CallFree(e)
    decreases e
  {
    match e
    case ProcCall(_, operands) => NeedOperands(operands)
    case Sequence(exps) => NeedSeq(exps)
    case Defvar(_, exp) => Need(exp)
    case Assign(_, exp) => Need(exp)
    case Branch(test, thn, els) => Max(Need(test), Max(Need(thn), Need(els)))
    case Cond(clauses) => NeedCond(clauses)
    case And(exps) => NeedSeq(exps)
    case Or(exps) => NeedSeq(exps)
    case _ => 0
  }

  function NeedSeq(es: seq<Expr>): nat
    requires AllCallFree(es)
    decreases es
  {
    if es == [] then 0 else Max(Need(es[0]), NeedSeq(es[1..]))
  }

  function NeedOperands(es: seq<Expr>): nat
    requires AllCallFree(es)
    decreases es
  {
    if es == [] then 0 else Max(Need(es[0]), 1 + NeedOperands(es[1..]))
  }

  function NeedCond(cs: seq<Clause>): nat
    requires ClausesCallFree(cs)
    decreases cs
  {
    if cs == [] then 0 else Max(Need(cs[0].test), Max(NeedSeq(cs[0].body), NeedCond(cs[1..])))
  }
}
