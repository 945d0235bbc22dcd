/** The abstract syntax the parser hands to the compiler (tools/compiler/src/Exptype.hs). */
module Exptype {

  datatype Sym = Nil | Sym(name: string)

  datatype Prefix = PreQuote | PreQuasiquote | PreComma | PreCommat

  datatype Datum =
    | Void
    | Boolean(b: bool)
    | Number(n: int)
    | Character(c: char)
    | String(s: string)
    | Symbol(sym: Sym)
    | List(elems: seq<Datum>)
    | SExp(front: seq<Datum>, last: Datum)
    | Abbrev(prefix: Prefix, datum: Datum)
    | Vector(slots: seq<Datum>)

  datatype Formals = Args(names: seq<Sym>) | Args2(fixed: seq<Sym>, rest: Sym)

  datatype Body = Body(defs: seq<Expr>, exps: seq<Expr>)

  datatype Clause = Clause(test: Expr, body: seq<Expr>)

  datatype CaseClause = CaseClause(data: seq<Datum>, body: seq<Expr>)

  datatype Binding = Binding(name: Sym, init: Expr)

  // ProcCall holds its operands last operand first, as the parser builds them.
  datatype Expr =
    | Variable(sym: Sym)
    | Quote(datum: Datum)
    | SelfEval(datum: Datum)
    | ProcCall(func: Expr, operands: seq<Expr>)
    | Sequence(exps: seq<Expr>)
    | Lambda(formals: Formals, body: Body)
    | Defvar(name: Sym, exp: Expr)
    | Defun(name: Sym, params: seq<Sym>, body: Body)
    | Defun2(name: Sym, params: seq<Sym>, restParam: Sym, body: Body)
    | Branch(test: Expr, thn: Expr, els: Expr)
    | Assign(name: Sym, exp: Expr)
    | Cond(clauses: seq<Clause>)
    | Case(key: Expr, cases: seq<CaseClause>, otherwise: seq<Expr>)
    | And(exps: seq<Expr>)
    | Or(exps: seq<Expr>)
    | Let(bindings: seq<Binding>, body: Body)
}
