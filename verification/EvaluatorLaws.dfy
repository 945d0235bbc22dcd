/** What programs mean to the interpreter (kscm/scheme/eval.c, proc.c, env.c): laws about forms by the name
    at their head, about primitives and closures applied to a list of arguments, and about variables. They
    are stated for the evaluator that analyses first; EvalEquivalence carries them over to the other one. */
module EvaluatorLaws {
  import opened Analyzer
  import opened Evaluator
  import opened Interpreter
  import opened KeywordSearch

  function Form(name: string, rest: Obj): Obj {
    Cons(Sym(name), rest)
  }

  // ---- Which form a name selects -------------------------------------------------------------

  /** A word with another character somewhere, or an end, is not begun by the key. */
  lemma Differs(key: string, word: string, at: nat)
    requires at < |key| && (at >= |word| || word[at] != key[at])
    ensures !(key <= word)
  {
  }

  lemma Table()
    ensures |KEYWORDS| == 17
    ensures KEYWORDS[0] == ("and", KwAnd) && KEYWORDS[1] == ("begin", KwBegin) && KEYWORDS[2].0 == "case"
    ensures KEYWORDS[3] == ("cond", KwCond) && KEYWORDS[4] == ("define", KwDefine) && KEYWORDS[5].0 == "delay"
    ensures KEYWORDS[6].0 == "do" && KEYWORDS[7] == ("else", KwElse) && KEYWORDS[8] == ("if", KwIf)
    ensures KEYWORDS[9] == ("lambda", KwLambda) && KEYWORDS[10].0 == "let" && KEYWORDS[11].0 == "letrec"
    ensures KEYWORDS[12].0 == "let*" && KEYWORDS[13] == ("or", KwOr) && KEYWORDS[14].0 == "quasiquote"
    ensures KEYWORDS[15] == ("quote", KwQuote) && KEYWORDS[16] == ("set!", KwSet)
  {
  }

  /** Only `case` and `quasiquote` begin like a later keyword of the table and come before it. */
  lemma Unbegun(key: string, i: nat)
    requires i <= 17 && key != "" && key[0] != 'c' && key[0] != 'q'
    requires forall j | 0 <= j < i && j < |KEYWORDS| :: KEYWORDS[j].0 != "" && KEYWORDS[j].0[0] != key[0]
    ensures forall j | 0 <= j < i && j < |KEYWORDS| :: !(key <= KEYWORDS[j].0)
  {
    hide KEYWORDS;
    forall j | 0 <= j < i && j < |KEYWORDS|
      ensures !(key <= KEYWORDS[j].0)
    {
      Differs(key, KEYWORDS[j].0, 0);
    }
  }

  // What the special names select.

  lemma NameAnd()
    ensures FindKeyword("and") == KwAnd
  {
    hide *;
    Table();
    Unbegun("and", 0);
    FindsFirst("and", 0);
  }

  lemma NameBegin()
    ensures FindKeyword("begin") == KwBegin
  {
    hide *;
    Table();
    Unbegun("begin", 1);
    FindsFirst("begin", 1);
  }

  lemma NameDefine()
    ensures FindKeyword("define") == KwDefine
  {
    hide *;
    Table();
    Unbegun("define", 4);
    FindsFirst("define", 4);
  }

  lemma NameElse()
    ensures FindKeyword("else") == KwElse
  {
    hide *;
    Table();
    Unbegun("else", 7);
    FindsFirst("else", 7);
  }

  lemma NameIf()
    ensures FindKeyword("if") == KwIf
  {
    hide *;
    Table();
    Unbegun("if", 8);
    FindsFirst("if", 8);
  }

  lemma NameLambda()
    ensures FindKeyword("lambda") == KwLambda
  {
    hide *;
    Table();
    Unbegun("lambda", 9);
    FindsFirst("lambda", 9);
  }

  lemma NameOr()
    ensures FindKeyword("or") == KwOr
  {
    hide *;
    Table();
    Unbegun("or", 13);
    FindsFirst("or", 13);
  }

  lemma NameSet()
    ensures FindKeyword("set!") == KwSet
  {
    hide *;
    Table();
    Unbegun("set!", 16);
    FindsFirst("set!", 16);
  }

  lemma CondAndQuote()
    ensures FindKeyword("cond") == KwCond && FindKeyword("quote") == KwQuote
  {
    hide *;
    Table();
    forall j | 0 <= j < 3
      ensures !("cond" <= KEYWORDS[j].0)
    {
      Differs("cond", KEYWORDS[j].0, if j == 2 then 1 else 0);
    }
    FindsFirst("cond", 3);
    forall j | 0 <= j < 15
      ensures !("quote" <= KEYWORDS[j].0)
    {
      Differs("quote", KEYWORDS[j].0, if j == 14 then 2 else 0);
    }
    FindsFirst("quote", 15);
  }

  // ---- Analysing twice -----------------------------------------------------------------------

  /** A form that begins with `else`, or with a beginning of it, is no expression. */
  predicate ElseHeaded(e: Obj) {
    PairP(e) && e.car.Sym? && e.car.name != "" && e.car.name <= "else"
  }

  lemma OnlyElse(key: string)
    requires FindKeyword(key) == KwElse
    ensures key != "" && key <= "else"
  {
    hide *;
    ElseAt(key);
    Table();
    if key == "" {
      EmptyIsAnd();
    }
  }

  lemma ElseAt(key: string)
    requires FindKeyword(key) == KwElse
    ensures key <= KEYWORDS[7].0
  {
    hide PrefixIndex;
    var i := PrefixIndex(key, 0);
    assert i == 7;
  }

  lemma EmptyIsAnd()
    ensures FindKeyword("") == KwAnd
  {
  }

  /** An analysed expression evaluates like the raw one. */
  lemma SameAnalysed(prim: PrimFun, fuel: nat, e: Obj, env: nat, st: Store)
    requires !ElseHeaded(e)
    ensures Eval(prim, fuel, Analyze(e), env, st) == Eval(prim, fuel, e, env, st)
    ensures Analyze(Analyze(e)) == Analyze(e) && Analyze(e) != Bool(true)
  {
    AnalyzeIdempotent(e);
    if PairP(e) && e.car.Sym? && FindKeyword(e.car.name) == KwElse {
      OnlyElse(e.car.name);
    }
    hide FindKeyword;
  }

  /** The first step of evaluating a form with a special name. */
  lemma FormRuns(prim: PrimFun, fuel: nat, name: string, key: Keyword, rest: Obj, env: nat, st: Store)
    requires FindKeyword(name) == key != NotKeyword
    ensures Eval(prim, fuel + 1, Form(name, rest), env, st) == Dispatch(prim, fuel, AnalyzeKeyword(key, rest), env, st)
  {
    hide FindKeyword, AnalyzeKeyword, KEYWORDS;
  }

  // ---- The loops, without the names ----------------------------------------------------------

  lemma TestsRun(prim: PrimFun, fuel: nat, conj: bool, e: Obj, es: Obj, env: nat, st: Store)
    ensures EvalTests(prim, fuel, AnalyzeList(Cons(e, es)), env, st, conj) ==
      match Eval(prim, fuel, Analyze(e), env, st)
      case Done(v, st1) =>
        if (v != Bool(false)) != conj then Done(Bool(!conj), st1)
        else if es == Null then Done(Bool(conj), st1)
        else EvalTests(prim, fuel, AnalyzeList(es), env, st1, conj)
      case r => r
  {
    hide Eval, Analyze;
  }

  lemma TestsForm(prim: PrimFun, fuel: nat, conj: bool, es: Obj, env: nat, st: Store)
    requires es != Null
    ensures Dispatch(prim, fuel, AnalyzeKeyword(if conj then KwAnd else KwOr, es), env, st) ==
      EvalTests(prim, fuel, AnalyzeList(es), env, st, conj)
  {
    hide Eval, Analyze;
  }

  lemma SequenceRuns(prim: PrimFun, fuel: nat, e: Obj, es: Obj, env: nat, st: Store)
    ensures EvalSequence(prim, fuel, AnalyzeList(Cons(e, es)), env, st) ==
      match Eval(prim, fuel, Analyze(e), env, st)
      case Done(v, st1) => if es == Null then Done(v, st1) else EvalSequence(prim, fuel, AnalyzeList(es), env, st1)
      case r => r
  {
    hide Eval, Analyze;
  }

  lemma SequenceForm(prim: PrimFun, fuel: nat, es: Obj, env: nat, st: Store)
    ensures Dispatch(prim, fuel, AnalyzeKeyword(KwBegin, es), env, st) ==
      if es == Null then Crash else EvalSequence(prim, fuel, AnalyzeList(es), env, st)
    ensures EvalSequence(prim, fuel, AnalyzeSequence(es), env, st) ==
      if es == Null then Crash else EvalSequence(prim, fuel, AnalyzeList(es), env, st)
  {
    hide Eval, Analyze;
  }

  lemma CondRuns(prim: PrimFun, fuel: nat, test: Obj, body: Obj, clauses: Obj, env: nat, st: Store)
    requires Analyze(test) != Bool(true)
    ensures EvalCond(prim, fuel, AnalyzeClauses(Cons(Cons(test, body), clauses)), env, st) ==
      match Eval(prim, fuel, Analyze(test), env, st)
      case Done(v, st1) =>
        if v != Bool(false) then EvalSequence(prim, fuel, AnalyzeSequence(body), env, st1)
        else if clauses == Null then Done(Void, st1)
        else EvalCond(prim, fuel, AnalyzeClauses(clauses), env, st1)
      case r => r
  {
    hide Eval, Analyze, EvalSequence;
  }

  lemma CondForm(prim: PrimFun, fuel: nat, clauses: Obj, env: nat, st: Store)
    requires clauses != Null
    ensures Dispatch(prim, fuel, AnalyzeKeyword(KwCond, clauses), env, st) ==
      EvalCond(prim, fuel, AnalyzeClauses(clauses), env, st)
  {
    hide Eval, Analyze, EvalSequence;
  }

  lemma IfForm(prim: PrimFun, fuel: nat, test: Obj, thn: Obj, els: Obj, env: nat, st: Store)
    requires Analyze(test) != Void && Analyze(thn) != Void && Analyze(els) != Void
    ensures Dispatch(prim, fuel, AnalyzeKeyword(KwIf, Cons(test, Cons(thn, Cons(els, Null)))), env, st) ==
      match Eval(prim, fuel, Analyze(test), env, st)
      case Done(v, st1) => Eval(prim, fuel, if v != Bool(false) then Analyze(thn) else Analyze(els), env, st1)
      case r => r
    ensures Dispatch(prim, fuel, AnalyzeKeyword(KwIf, Cons(test, Cons(thn, Null))), env, st) ==
      match Eval(prim, fuel, Analyze(test), env, st)
      case Done(v, st1) => Eval(prim, fuel, if v != Bool(false) then Analyze(thn) else Null, env, st1)
      case r => r
  {
    hide Eval, Analyze;
  }

  // ---- Laws by name --------------------------------------------------------------------------

  /** (quote d) */
  lemma QuoteLaw(prim: PrimFun, fuel: nat, d: Obj, rest: Obj, env: nat, st: Store)
    ensures Eval(prim, fuel + 1, Form("quote", Cons(d, rest)), env, st) == Done(d, st)
  {
    hide Eval, FindKeyword, KEYWORDS, Form;
    CondAndQuote();
    FormRuns(prim, fuel, "quote", KwQuote, Cons(d, rest), env, st);
  }

  /** (and e . es): the first false value ends it; of true ones nothing but #t is left. */
  lemma AndLaw(prim: PrimFun, fuel: nat, e: Obj, es: Obj, env: nat, st: Store)
    requires !ElseHeaded(e)
    ensures Eval(prim, fuel + 1, Form("and", Cons(e, es)), env, st) ==
      match Eval(prim, fuel, e, env, st)
      case Done(v, st1) =>
        if v == Bool(false) then Done(Bool(false), st1)
        else if es == Null then Done(Bool(true), st1)
        else Eval(prim, fuel + 1, Form("and", es), env, st1)
      case r => r
  {
    hide Eval, FindKeyword, KEYWORDS, Form, Dispatch, EvalTests, Analyze, AnalyzeKeyword, AnalyzeList, ElseHeaded;
    NameAnd();
    SameAnalysed(prim, fuel, e, env, st);
    FormRuns(prim, fuel, "and", KwAnd, Cons(e, es), env, st);
    TestsForm(prim, fuel, true, Cons(e, es), env, st);
    TestsRun(prim, fuel, true, e, es, env, st);
    var r := Eval(prim, fuel, e, env, st);
    if r.Done? && es != Null {
      FormRuns(prim, fuel, "and", KwAnd, es, env, r.st);
      TestsForm(prim, fuel, true, es, env, r.st);
    }
  }

  /** (or e . es) */
  lemma OrLaw(prim: PrimFun, fuel: nat, e: Obj, es: Obj, env: nat, st: Store)
    requires !ElseHeaded(e)
    ensures Eval(prim, fuel + 1, Form("or", Cons(e, es)), env, st) ==
      match Eval(prim, fuel, e, env, st)
      case Done(v, st1) =>
        if v != Bool(false) then Done(Bool(true), st1)
        else if es == Null then Done(Bool(false), st1)
        else Eval(prim, fuel + 1, Form("or", es), env, st1)
      case r => r
  {
    hide Eval, FindKeyword, KEYWORDS, Form, Dispatch, EvalTests, Analyze, AnalyzeKeyword, AnalyzeList, ElseHeaded;
    NameOr();
    SameAnalysed(prim, fuel, e, env, st);
    FormRuns(prim, fuel, "or", KwOr, Cons(e, es), env, st);
    TestsForm(prim, fuel, false, Cons(e, es), env, st);
    TestsRun(prim, fuel, false, e, es, env, st);
    var r := Eval(prim, fuel, e, env, st);
    if r.Done? && es != Null {
      FormRuns(prim, fuel, "or", KwOr, es, env, r.st);
      TestsForm(prim, fuel, false, es, env, r.st);
    }
  }

  /** (begin e . es): the value of the last, the effects of all. */
  lemma BeginLaw(prim: PrimFun, fuel: nat, e: Obj, es: Obj, env: nat, st: Store)
    requires !ElseHeaded(e)
    ensures Eval(prim, fuel + 1, Form("begin", Cons(e, es)), env, st) ==
      match Eval(prim, fuel, e, env, st)
      case Done(v, st1) => if es == Null then Done(v, st1) else Eval(prim, fuel + 1, Form("begin", es), env, st1)
      case r => r
  {
    hide Eval, FindKeyword, KEYWORDS, Form, Dispatch, EvalSequence, Analyze, AnalyzeKeyword, AnalyzeList, ElseHeaded;
    NameBegin();
    SameAnalysed(prim, fuel, e, env, st);
    FormRuns(prim, fuel, "begin", KwBegin, Cons(e, es), env, st);
    SequenceForm(prim, fuel, Cons(e, es), env, st);
    SequenceRuns(prim, fuel, e, es, env, st);
    var r := Eval(prim, fuel, e, env, st);
    if r.Done? {
      FormRuns(prim, fuel, "begin", KwBegin, es, env, r.st);
      SequenceForm(prim, fuel, es, env, r.st);
    }
  }

  /** A body is evaluated like the form (begin . body). */
  lemma BodyLaw(prim: PrimFun, fuel: nat, body: Obj, env: nat, st: Store)
    ensures EvalSequence(prim, fuel, AnalyzeSequence(body), env, st) ==
      Eval(prim, fuel + 1, Form("begin", body), env, st)
  {
    hide Eval, FindKeyword, KEYWORDS, Form, Dispatch, EvalSequence, AnalyzeKeyword, AnalyzeList, AnalyzeSequence;
    NameBegin();
    FormRuns(prim, fuel, "begin", KwBegin, body, env, st);
    SequenceForm(prim, fuel, body, env, st);
  }

  /** (cond (test . body) . clauses): the body of the first clause whose test is true; void without any. */
  lemma CondLaw(prim: PrimFun, fuel: nat, test: Obj, body: Obj, clauses: Obj, env: nat, st: Store)
    requires !ElseHeaded(test)
    ensures Eval(prim, fuel + 1, Form("cond", Cons(Cons(test, body), clauses)), env, st) ==
      match Eval(prim, fuel, test, env, st)
      case Done(v, st1) =>
        if v != Bool(false) then Eval(prim, fuel + 1, Form("begin", body), env, st1)
        else if clauses == Null then Done(Void, st1)
        else Eval(prim, fuel + 1, Form("cond", clauses), env, st1)
      case r => r
  {
    hide Eval, FindKeyword, KEYWORDS, Form, Dispatch, EvalCond, EvalSequence, Analyze, AnalyzeKeyword,
         AnalyzeClauses, AnalyzeSequence, ElseHeaded;
    CondAndQuote();
    SameAnalysed(prim, fuel, test, env, st);
    FormRuns(prim, fuel, "cond", KwCond, Cons(Cons(test, body), clauses), env, st);
    CondForm(prim, fuel, Cons(Cons(test, body), clauses), env, st);
    CondRuns(prim, fuel, test, body, clauses, env, st);
    var r := Eval(prim, fuel, test, env, st);
    if r.Done? {
      BodyLaw(prim, fuel, body, env, r.st);
      if clauses != Null {
        FormRuns(prim, fuel, "cond", KwCond, clauses, env, r.st);
        CondForm(prim, fuel, clauses, env, r.st);
      }
    }
  }

  /** (if test then else) and (if test then), whose value without alternative is the empty list. */
  lemma IfLaw(prim: PrimFun, fuel: nat, test: Obj, thn: Obj, els: Obj, env: nat, st: Store)
    requires !ElseHeaded(test) && !ElseHeaded(thn) && !ElseHeaded(els)
    requires Analyze(test) != Void && Analyze(thn) != Void && Analyze(els) != Void
    ensures Eval(prim, fuel + 1, Form("if", Cons(test, Cons(thn, Cons(els, Null)))), env, st) ==
      match Eval(prim, fuel, test, env, st)
      case Done(v, st1) => Eval(prim, fuel, if v != Bool(false) then thn else els, env, st1)
      case r => r
    ensures Eval(prim, fuel + 1, Form("if", Cons(test, Cons(thn, Null))), env, st) ==
      match Eval(prim, fuel, test, env, st)
      case Done(v, st1) => Eval(prim, fuel, if v != Bool(false) then thn else Null, env, st1)
      case r => r
  {
    hide Eval, FindKeyword, KEYWORDS, Form, Dispatch, Analyze, AnalyzeKeyword, ElseHeaded;
    NameIf();
    SameAnalysed(prim, fuel, test, env, st);
    FormRuns(prim, fuel, "if", KwIf, Cons(test, Cons(thn, Cons(els, Null))), env, st);
    FormRuns(prim, fuel, "if", KwIf, Cons(test, Cons(thn, Null)), env, st);
    IfForm(prim, fuel, test, thn, els, env, st);
    var r := Eval(prim, fuel, test, env, st);
    if r.Done? {
      SameAnalysed(prim, fuel, thn, env, r.st);
      SameAnalysed(prim, fuel, els, env, r.st);
    }
  }

  // ---- Variables -----------------------------------------------------------------------------

  /** A variable has its value in the innermost frame that binds it. */
  lemma VariableLaw(prim: PrimFun, fuel: nat, name: string, env: nat, st: Store)
    requires env < |st|
    ensures Eval(prim, fuel + 1, Sym(name), env, st) ==
      if name in st[env].binds then Done(st[env].binds[name], st)
      else if st[env].link.Enclosing? && st[env].link.env < env then
        Eval(prim, fuel + 1, Sym(name), st[env].link.env, st)
      else Done(Void, st)
  {
  }

  /** (define name e) gives the name the value in this frame and changes no other variable. */
  lemma DefineLaw(prim: PrimFun, fuel: nat, name: string, e: Obj, rest: Obj, env: nat, st: Store)
    requires !ElseHeaded(e)
    ensures Eval(prim, fuel + 1, Form("define", Cons(Sym(name), Cons(e, rest))), env, st) ==
      match Eval(prim, fuel, e, env, st)
      case Done(v, st1) => Done(Sym(name), Bound(st1, env, name, v))
      case r => r
  {
    hide Eval, FindKeyword, KEYWORDS, Form, Analyze, ElseHeaded;
    NameDefine();
    SameAnalysed(prim, fuel, e, env, st);
    FormRuns(prim, fuel, "define", KwDefine, Cons(Sym(name), Cons(e, rest)), env, st);
  }

  /** The environments with one more binding, or a new one, in one frame. */
  function Bound(st: Store, env: nat, name: string, v: Obj): Store {
    if env < |st| then st[env := Frame(st[env].binds[name := v], st[env].link)] else st
  }

  /** (define (name . paras) . body) makes a procedure of this environment. */
  lemma DefineProcLaw(prim: PrimFun, fuel: nat, name: string, paras: Obj, body: Obj, env: nat, st: Store)
    ensures Eval(prim, fuel + 1, Form("define", Cons(Cons(Sym(name), paras), body)), env, st) ==
      Done(Sym(name), Bound(st, env, name, Proc(paras, AnalyzeSequence(body), env)))
  {
    hide Eval, FindKeyword, KEYWORDS, Form, AnalyzeSequence;
    NameDefine();
    FormRuns(prim, fuel, "define", KwDefine, Cons(Cons(Sym(name), paras), body), env, st);
  }

  /** (set! name e): the old value, and only where the innermost frame binds the name already. */
  lemma SetLaw(prim: PrimFun, fuel: nat, name: string, e: Obj, rest: Obj, env: nat, st: Store)
    requires !ElseHeaded(e)
    ensures Eval(prim, fuel + 1, Form("set!", Cons(Sym(name), Cons(e, rest))), env, st) ==
      match Eval(prim, fuel, e, env, st)
      case Done(v, st1) =>
        if env < |st1| && name in st1[env].binds then Done(st1[env].binds[name], Bound(st1, env, name, v))
        else Done(Void, st1)
      case r => r
  {
    hide Eval, FindKeyword, KEYWORDS, Form, Analyze, ElseHeaded;
    NameSet();
    SameAnalysed(prim, fuel, e, env, st);
    FormRuns(prim, fuel, "set!", KwSet, Cons(Sym(name), Cons(e, rest)), env, st);
  }

  /** (lambda paras . body) */
  lemma LambdaLaw(prim: PrimFun, fuel: nat, paras: Obj, body: Obj, env: nat, st: Store)
    ensures Eval(prim, fuel + 1, Form("lambda", Cons(paras, body)), env, st) ==
      Done(Proc(paras, AnalyzeSequence(body), env), st)
  {
    hide Eval, FindKeyword, KEYWORDS, Form, AnalyzeSequence;
    NameLambda();
    FormRuns(prim, fuel, "lambda", KwLambda, Cons(paras, body), env, st);
  }

  /** `else` at the head of a form is no expression. */
  lemma ElseLaw(prim: PrimFun, fuel: nat, rest: Obj, env: nat, st: Store)
    ensures Eval(prim, fuel + 1, Form("else", rest), env, st) == Crash
  {
    hide Eval, FindKeyword, KEYWORDS, Form;
    NameElse();
    FormRuns(prim, fuel, "else", KwElse, rest, env, st);
  }

  // ---- Values --------------------------------------------------------------------------------

  predicate SelfEvaluating(o: Obj) {
    o.Int? || o.Char? || o.Str? || o.Bool? || o.Null? || o.Vec?
  }

  lemma ConstantLaw(prim: PrimFun, fuel: nat, o: Obj, env: nat, st: Store)
    requires SelfEvaluating(o)
    ensures Eval(prim, fuel + 1, o, env, st) == Done(o, st) && !ElseHeaded(o)
  {
    hide KEYWORDS, FindKeyword;
  }

  /** `and` of constants is false exactly when one of them is. */
  lemma {:induction false} AndOfConstants(prim: PrimFun, fuel: nat, vs: seq<Obj>, env: nat, st: Store)
    requires vs != [] && forall i | 0 <= i < |vs| :: SelfEvaluating(vs[i])
    ensures Eval(prim, fuel + 2, Form("and", ListFrom(vs, Null)), env, st) == Done(Bool(Bool(false) !in vs), st)
  {
    hide Eval, Form, KEYWORDS, FindKeyword, SelfEvaluating, ElseHeaded;
    ConstantLaw(prim, fuel, vs[0], env, st);
    AndLaw(prim, fuel + 1, vs[0], ListFrom(vs[1..], Null), env, st);
    if |vs| > 1 {
      AndOfConstants(prim, fuel, vs[1..], env, st);
    }
    assert vs == [vs[0]] + vs[1..];
  }

  /** `or` of constants is true exactly when one of them is not false. */
  lemma {:induction false} OrOfConstants(prim: PrimFun, fuel: nat, vs: seq<Obj>, env: nat, st: Store)
    requires vs != [] && forall i | 0 <= i < |vs| :: SelfEvaluating(vs[i])
    ensures Eval(prim, fuel + 2, Form("or", ListFrom(vs, Null)), env, st) ==
      Done(Bool(exists i :: 0 <= i < |vs| && vs[i] != Bool(false)), st)
  {
    hide Eval, Form, KEYWORDS, FindKeyword, SelfEvaluating, ElseHeaded;
    ConstantLaw(prim, fuel, vs[0], env, st);
    OrLaw(prim, fuel + 1, vs[0], ListFrom(vs[1..], Null), env, st);
    if |vs| > 1 {
      OrOfConstants(prim, fuel, vs[1..], env, st);
      assert forall i | 0 <= i < |vs| - 1 :: vs[1..][i] == vs[i + 1];
      assert forall i | 1 <= i < |vs| :: vs[i] == vs[1..][i - 1];
    }
  }

  // ---- Calls ---------------------------------------------------------------------------------

  /** The names that select a special form. */
  predicate BeginsKeyword(name: string) {
    name <= "and" || name <= "begin" || name <= "case" || name <= "cond" || name <= "define" || name <= "delay" ||
    name <= "do" || name <= "else" || name <= "if" || name <= "lambda" || name <= "let" || name <= "letrec" ||
    name <= "let*" || name <= "or" || name <= "quasiquote" || name <= "quote" || name <= "set!"
  }

  lemma SpecialName(name: string)
    ensures FindKeyword(name) != NotKeyword <==> BeginsKeyword(name)
  {
    hide KEYWORDS, PrefixIndex;
    Table();
    var i := PrefixIndex(name, 0);
    if i < 17 {
      AllSpecial(i);
      assert name <= KEYWORDS[i].0;
    } else {
      assert forall j | 0 <= j < 17 :: !(name <= KEYWORDS[j].0);
    }
  }

  lemma AllSpecial(i: nat)
    requires i < |KEYWORDS|
    ensures KEYWORDS[i].1 != NotKeyword
  {
  }

  /** The values of the operands, from left to right, as a list. */
  function Operands(prim: PrimFun, fuel: nat, es: Obj, env: nat, st: Store): Outcome {
    EvalList(prim, fuel, AnalyzeList(es), env, st)
  }

  /** A value in front of a list of values. */
  function Before(v: Obj, vs: Outcome): Outcome {
    if vs.Done? then Done(Cons(v, vs.val), vs.st) else vs
  }

  function Applied(prim: PrimFun, fuel: nat, proc: Obj, args: Outcome): Outcome {
    if args.Done? then Apply(prim, fuel, proc, args.val, args.st) else args
  }

  lemma OperandsLaw(prim: PrimFun, fuel: nat, e: Obj, es: Obj, env: nat, st: Store)
    requires !ElseHeaded(e)
    ensures Operands(prim, fuel, Null, env, st) == Done(Null, st)
    ensures var r := Eval(prim, fuel, e, env, st);
            Operands(prim, fuel, Cons(e, es), env, st) ==
            if r.Done? then Before(r.val, Operands(prim, fuel, es, env, r.st)) else r
  {
    hide Eval, Analyze, ElseHeaded, KEYWORDS;
    SameAnalysed(prim, fuel, e, env, st);
  }

  /** A form headed by any other name, or by a form, is a call: operator first, then the operands. */
  lemma CallLaw(prim: PrimFun, fuel: nat, f: Obj, es: Obj, env: nat, st: Store)
    requires if f.Sym? then !BeginsKeyword(f.name) else PairP(f) && !ElseHeaded(f)
    ensures var r := Eval(prim, fuel, f, env, st);
            Eval(prim, fuel + 1, Cons(f, es), env, st) ==
            if !r.Done? then r
            else if r.val == Void then Done(Void, r.st)
            else Applied(prim, fuel, r.val, Operands(prim, fuel, es, env, r.st))
  {
    if f.Sym? {
      SpecialName(f.name);
      hide BeginsKeyword;
    }
    SameAnalysed(prim, fuel, f, env, st);
    CallRuns(prim, fuel, f, es, env, st);
  }

  lemma CallRuns(prim: PrimFun, fuel: nat, f: Obj, es: Obj, env: nat, st: Store)
    requires if f.Sym? then FindKeyword(f.name) == NotKeyword else PairP(f)
    ensures var r := Eval(prim, fuel, Analyze(f), env, st);
            Eval(prim, fuel + 1, Cons(f, es), env, st) ==
            if !r.Done? then r
            else if r.val == Void then Done(Void, r.st)
            else Applied(prim, fuel, r.val, Operands(prim, fuel, es, env, r.st))
  {
    AnalyzeCall(f, es);
    hide Analyze, AnalyzeList, EvalList, Apply;
    assert Eval(prim, fuel + 1, Cons(f, es), env, st) == Dispatch(prim, fuel, Analyze(Cons(f, es)), env, st);
  }

  lemma AnalyzeCall(f: Obj, es: Obj)
    requires if f.Sym? then FindKeyword(f.name) == NotKeyword else PairP(f)
    ensures Analyze(Cons(f, es)) == Cell(ApplicationT, Analyze(f), AnalyzeList(es))
  {
    hide KEYWORDS, FindKeyword;
    assert AnalyzeList(Cons(f, es)) == Cons(Analyze(f), AnalyzeList(es));
  }

  lemma {:induction false} VectorOf(vs: seq<Obj>)
    ensures ArgVector(ListFrom(vs, Null)) == vs && ProperList(ListFrom(vs, Null))
  {
    if vs != [] {
      VectorOf(vs[1..]);
      assert vs == [vs[0]] + vs[1..];
    }
  }

  /** A primitive gets its arguments in order, as many as it takes; otherwise the value is void. */
  lemma PrimitiveLaw(prim: PrimFun, fuel: nat, id: nat, mina: int, maxa: int, vs: seq<Obj>, st: Store)
    requires id != APPLY
    ensures Apply(prim, fuel, Prim(id, mina, maxa), ListFrom(vs, Null), st) ==
      if mina <= |vs| && (maxa <= 0 || |vs| <= maxa) then Done(prim(id, vs), st) else Done(Void, st)
  {
    VectorOf(vs);
  }

  /** (apply f l) applies f to l. */
  lemma ApplyLaw(prim: PrimFun, fuel: nat, f: Obj, l: Obj, st: Store)
    ensures Apply(prim, fuel + 1, Prim(APPLY, 2, 2), ListFrom([f, l], Null), st) == Apply(prim, fuel, f, l, st)
  {
    VectorOf([f, l]);
    hide ListFrom, ArgVector, ProperList;
  }

  /** A parameter list: names, and perhaps one for the rest. */
  function Names(p: seq<string>, end: Obj): Obj {
    if p == [] then end else Cons(Sym(p[0]), Names(p[1..], end))
  }

  /** Parameter i has argument i, and the rest, if it is named, those behind. */
  ghost predicate Binding(m: map<string, Obj>, p: seq<string>, end: Obj, vs: seq<Obj>)
    requires |p| <= |vs|
  {
    (forall name | name in m :: name in p || end == Sym(name)) && (forall name | name in p :: name in m) &&
    (forall i | 0 <= i < |p| && p[i] !in p[..i] :: m[p[i]] == vs[i]) &&
    (end.Sym? && end.name !in p ==> end.name in m && m[end.name] == ListFrom(vs[|p|..], Null))
  }

  lemma {:induction false} ParametersLaw(p: seq<string>, end: Obj, vs: seq<Obj>)
    requires end.Null? || end.Sym?
    ensures match BindParams(Names(p, end), ListFrom(vs, Null))
            case TooFew => |vs| < |p|
            case Binds(m) => |p| <= |vs| && Binding(m, p, end, vs)
  {
    if p == [] {
      assert vs[0..] == vs;
    } else if vs != [] {
      ParametersLaw(p[1..], end, vs[1..]);
      var b := BindParams(Names(p[1..], end), ListFrom(vs[1..], Null));
      if b.Binds? {
        OneMoreParameter(b.m, p, end, vs);
      }
    }
  }

  lemma OneMoreParameter(m: map<string, Obj>, p: seq<string>, end: Obj, vs: seq<Obj>)
    requires p != [] && 1 <= |p| <= |vs| && (end.Null? || end.Sym?) && Binding(m, p[1..], end, vs[1..])
    ensures Binding(m[p[0] := vs[0]], p, end, vs)
  {
    var m' := m[p[0] := vs[0]];
    assert vs[1..][|p| - 1..] == vs[|p|..];
    assert forall name :: name in p <==> name == p[0] || name in p[1..];
    forall i | 0 <= i < |p| && p[i] !in p[..i]
      ensures m'[p[i]] == vs[i]
    {
      if i > 0 {
        assert p[0] in p[..i];
        assert p[1..][..i - 1] == p[1..i];
        assert forall name | name in p[1..i] :: name in p[..i];
        assert p[1..][i - 1] == p[i];
      }
    }
  }

  /** A closure's body is evaluated in a new frame behind the environment it was made in. */
  lemma ClosureLaw(prim: PrimFun, fuel: nat, p: seq<string>, end: Obj, body: Obj, env: nat, vs: seq<Obj>, st: Store)
    requires end.Null? || end.Sym?
    ensures var r := Apply(prim, fuel, Proc(Names(p, end), AnalyzeSequence(body), env), ListFrom(vs, Null), st);
            if |vs| < |p| then r == Crash
            else
              exists m ::
                Binding(m, p, end, vs) &&
                r == Eval(prim, fuel + 1, Form("begin", body), |st|, st + [Frame(m, Enclosing(env))])
  {
    ParametersLaw(p, end, vs);
    hide KEYWORDS, Form, AnalyzeSequence, BindParams, Binding, ListFrom, Names;
    var b := BindParams(Names(p, end), ListFrom(vs, Null));
    if b.Binds? {
      BodyLaw(prim, fuel, body, |st|, st + [Frame(b.m, Enclosing(env))]);
    }
  }
}
