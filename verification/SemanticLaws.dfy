/** What the meanings of Semantics come to on programs with literals (sections 4.1, 4.2.1 and 6.3.1 of R5RS);
    ProgramCorrect carries them over to compiled programs. */
module SemanticLaws {
  import opened Exptype
  import opened Svm
  import opened Compiler
  import opened Semantics

  function Literal(d: Datum): Expr {
    SelfEval(d)
  }

  /** Every literal counts as true but #f. */
  lemma IfOfLiteral(prims: Prims, d: Datum, thn: Expr, els: Expr, c: Config)
    requires CallFree(thn) && CallFree(els)
    ensures CallFree(Branch(Literal(d), thn, els))
    ensures Eval(prims, Branch(Literal(d), thn, els), c) ==
      Eval(prims, if d == Boolean(false) then els else thn, c.(value := Data(d)))
  {
  }

  /** A defined variable has the value of its expression; all others have what they had. */
  lemma DefineThenUse(prims: Prims, x: Sym, y: Sym, e: Expr, c: Config)
    requires CallFree(e)
    ensures var c1 := Eval(prims, Defvar(x, e), c);
            Eval(prims, Variable(x), c1).value == Eval(prims, e, c).value &&
            (y != x ==> Eval(prims, Variable(y), c1).value == Eval(prims, Variable(y), Eval(prims, e, c)).value)
    ensures var c1 := Eval(prims, Assign(x, e), c);
            Eval(prims, Variable(x), c1).value == Eval(prims, e, c).value &&
            (y != x ==> Eval(prims, Variable(y), c1).value == Eval(prims, Variable(y), Eval(prims, e, c)).value)
  {
  }

  /** Without a binding a variable is unassigned. */
  lemma UnboundVariable(prims: Prims, x: Sym, v: Value)
    ensures Eval(prims, Variable(x), Config(v, map[])).value == Unassigned
  {
  }

  function Literals(ds: seq<Datum>): seq<Expr> {
    if ds == [] then [] else [Literal(ds[0])] + Literals(ds[1..])
  }

  lemma {:induction false} LiteralsFree(ds: seq<Datum>)
    ensures AllCallFree(Literals(ds)) && |Literals(ds)| == |ds|
  {
    if ds != [] {
      LiteralsFree(ds[1..]);
      assert Literals(ds)[1..] == Literals(ds[1..]);
    }
  }

  /** `and` of literals gives the first #f, or else the last one. */
  lemma {:induction false} AndOfLiterals(prims: Prims, ds: seq<Datum>, c: Config)
    requires ds != []
    ensures CallFree(And(Literals(ds)))
    ensures Eval(prims, And(Literals(ds)), c).value ==
      Data(if Boolean(false) in ds then Boolean(false) else ds[|ds| - 1])
  {
    LiteralsFree(ds);
    assert Literals(ds)[0] == Literal(ds[0]) && Eval(prims, Literal(ds[0]), c) == c.(value := Data(ds[0]));
    assert Eval(prims, And(Literals(ds)), c) == EvalTests(prims, Literals(ds), c, true);
    if |ds| > 1 {
      LiteralsFree(ds[1..]);
      AndOfLiterals(prims, ds[1..], c.(value := Data(ds[0])));
      assert Literals(ds)[1..] == Literals(ds[1..]);
      assert Boolean(false) in ds <==> ds[0] == Boolean(false) || Boolean(false) in ds[1..];
    }
  }

  /** `or` of literals gives the first that is not #f, or else #f. */
  lemma {:induction false} OrOfLiterals(prims: Prims, ds: seq<Datum>, c: Config)
    requires ds != []
    ensures CallFree(Or(Literals(ds)))
    ensures Eval(prims, Or(Literals(ds)), c).value == Data(FirstTrue(ds))
  {
    LiteralsFree(ds);
    assert Literals(ds)[0] == Literal(ds[0]) && Eval(prims, Literal(ds[0]), c) == c.(value := Data(ds[0]));
    assert Eval(prims, Or(Literals(ds)), c) == EvalTests(prims, Literals(ds), c, false);
    if |ds| > 1 {
      LiteralsFree(ds[1..]);
      OrOfLiterals(prims, ds[1..], c.(value := Data(ds[0])));
      assert Literals(ds)[1..] == Literals(ds[1..]);
    }
  }

  function FirstTrue(ds: seq<Datum>): Datum {
    if ds == [] then Boolean(false)
    else if ds[0] != Boolean(false) then ds[0]
    else FirstTrue(ds[1..])
  }

  /** The clause of `cond` that is taken: the first whose literal is not #f. */
  lemma CondOfLiteral(prims: Prims, d: Datum, body: seq<Expr>, clauses: seq<Clause>, c: Config)
    requires AllCallFree(body) && ClausesCallFree(clauses)
    ensures CallFree(Cond([Clause(Literal(d), body)] + clauses)) && CallFree(Cond(clauses))
    ensures Eval(prims, Cond([Clause(Literal(d), body)] + clauses), c) ==
      Eval(prims, if d == Boolean(false) then Cond(clauses) else Sequence(body), c.(value := Data(d)))
  {
    var cs := [Clause(Literal(d), body)] + clauses;
    assert cs[1..] == clauses && cs[0].test == Literal(d);
    assert Eval(prims, Literal(d), c) == c.(value := Data(d));
    assert Eval(prims, Cond(cs), c) == EvalCond(prims, cs, c);
  }

  // ---- Builtins ------------------------------------------------------------------------------

  /** The builtins, by name. */
  lemma BuiltinsByName(name: string)
    ensures IsBuiltin(Variable(Sym(name))) <==>
      name == "car" || name == "cdr" || name == "cons" || name == "+" || name == "-" || name == "*" || name == "/" ||
      name == "display"
  {
  }

  function Reversed<T>(s: seq<T>): seq<T> {
    if s == [] then [] else Reversed(s[1..]) + [s[0]]
  }

  function Values(ds: seq<Datum>): (vs: seq<Value>)
    ensures |vs| == |ds| && forall i | 0 <= i < |ds| :: vs[i] == Data(ds[i])
  {
    if ds == [] then [] else [Data(ds[0])] + Values(ds[1..])
  }

  /** A builtin gets its operands in the order of the source, which the parser hands over reversed. */
  lemma BuiltinOfLiterals(prims: Prims, f: Sym, ds: seq<Datum>, c: Config)
    requires IsBuiltin(Variable(f))
    ensures CallFree(ProcCall(Variable(f), Literals(Reversed(ds))))
    ensures Eval(prims, ProcCall(Variable(f), Literals(Reversed(ds))), c).value == prims(f, Values(ds))
  {
    LiteralsFree(Reversed(ds));
    OperandsOfLiterals(prims, Reversed(ds), c);
    ReversedTwice(ds);
  }

  lemma {:induction false} OperandsOfLiterals(prims: Prims, ds: seq<Datum>, c: Config)
    ensures AllCallFree(Literals(ds)) && EvalOperands(prims, Literals(ds), c).0 == Values(Reversed(ds))
  {
    LiteralsFree(ds);
    if ds != [] {
      assert Literals(ds)[1..] == Literals(ds[1..]);
      OperandsOfLiterals(prims, ds[1..], c.(value := Data(ds[0])));
      var (a, b) := (Values(Reversed(ds[1..])) + [Data(ds[0])], Values(Reversed(ds)));
      assert a == b;
    }
  }

  lemma {:induction false} ReversedTwice<T>(s: seq<T>)
    ensures Reversed(Reversed(s)) == s
  {
    if s != [] {
      ReversedTwice(s[1..]);
      ReversedLast(Reversed(s[1..]), s[0]);
    }
  }

  lemma {:induction false} ReversedLast<T>(s: seq<T>, x: T)
    ensures Reversed(s + [x]) == [x] + Reversed(s)
  {
    if s == [] {
      assert [] + [x] == [x];
    } else {
      assert (s + [x])[1..] == s[1..] + [x];
      ReversedLast(s[1..], x);
    }
  }
}
