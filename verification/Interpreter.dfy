/** The interpreter as it runs: loops over forms, and environments updated in place
    (kscm/scheme/eval.c, proc.c). Every method is proved against the functions of Analyzer and
    Evaluator, which EvalEquivalence reasons about. */
module Interpreter {
  import opened Analyzer
  import opened Evaluator
  import opened KeywordSearch

  datatype Reply = Value(v: Obj) | NoFuel | Failed

  /** The reply and the environments left behind are what the evaluator function says. */
  predicate Matches(r: Reply, st: Store, o: Outcome) {
    match o
    case Done(v, s) => r == Value(v) && st == s
    case Timeout => r == NoFuel
    case Crash => r == Failed
  }

  /** A list under construction: its cells so far and what its last cdr will hold. */
  function ListFrom(items: seq<Obj>, end: Obj): Obj {
    if items == [] then end else Cons(items[0], ListFrom(items[1..], end))
  }

  lemma {:induction false} ListFromSnoc(items: seq<Obj>, x: Obj, end: Obj)
    ensures ListFrom(items + [x], end) == ListFrom(items, Cons(x, end))
  {
    if items != [] {
      assert (items + [x])[1..] == items[1..] + [x];
      ListFromSnoc(items[1..], x, end);
    }
  }

  // ---- The analyser --------------------------------------------------------------------------

  method AnalyzeForm(o: Obj) returns (x: Obj)
    ensures x == Analyze(o)
    decreases o, 1
  {
    if IsExpr(o) {
      return o;
    }
    match o {
      case Sym(_) => x := Cell(VariableT, o, Null);
      case Cell(_, car, cdr) =>
        var keyword := NotKeyword;
        if car.Sym? {
          keyword := SearchKeyword(car.name);
        }
        if keyword != NotKeyword {
          x := AnalyzeSpecial(keyword, cdr);
        } else if car.Sym? || PairP(car) {
          var l := AnalyzeElements(o);
          x := Retag(l, ApplicationT);
        } else {
          x := Void;
        }
      case Undef => x := Undef;
      case Void => x := Void;
      case Prim(_, _, _) => x := Void;
      case Proc(_, _, _) => x := Void;
      case _ => x := Cell(SelfEvalT, o, Null);
    }
  }

  /** The loop of _analyze_sequence: each element is analysed and linked behind the last cell. */
  method AnalyzeElements(o: Obj) returns (l: Obj)
    ensures l == AnalyzeList(o)
    decreases o, 0
  {
    var items: seq<Obj> := [];
    var rest := o;
    while rest.Cell?
      invariant rest == o || rest < o
      invariant ListFrom(items, AnalyzeList(rest)) == AnalyzeList(o)
      decreases rest
    {
      var x := AnalyzeForm(rest.car);
      ListFromSnoc(items, x, AnalyzeList(rest.cdr));
      items := items + [x];
      rest := rest.cdr;
    }
    l := ListFrom(items, AnalyzeList(rest));
  }

  /** The loop of _analyze_cond. */
  method AnalyzeCondClauses(o: Obj) returns (l: Obj)
    ensures l == AnalyzeClauses(o)
    decreases o, 0
  {
    var items: seq<Obj> := [];
    var rest := o;
    while rest.Cell?
      invariant rest == o || rest < o
      invariant ListFrom(items, AnalyzeClauses(rest)) == AnalyzeClauses(o)
      decreases rest
    {
      var c := Undef;
      if rest.car.Cell? {
        var test := AnalyzeForm(rest.car.car);
        var body := AnalyzeElements(rest.car.cdr);
        c := Cons(test, Retag(body, SequenceT));
      }
      ListFromSnoc(items, c, AnalyzeClauses(rest.cdr));
      items := items + [c];
      rest := rest.cdr;
    }
    l := ListFrom(items, AnalyzeClauses(rest));
  }

  method AnalyzeSpecial(key: Keyword, rest: Obj) returns (x: Obj)
    ensures x == AnalyzeKeyword(key, rest)
    decreases rest, 2
  {
    match key {
      case KwAnd => var l := AnalyzeElements(rest); x := Retag(l, AndT);
      case KwOr => var l := AnalyzeElements(rest); x := Retag(l, OrT);
      case KwBegin => var l := AnalyzeElements(rest); x := Retag(l, BeginT);
      case KwCond => var l := AnalyzeCondClauses(rest); x := Retag(l, CondT);
      case KwElse => x := Bool(true);
      case KwQuote => x := Cell(QuotedT, Car(rest), Null);
      case KwIf => x := AnalyzeConditional(rest);
      case KwLambda =>
        if !rest.Cell? { return Undef; }
        var body := AnalyzeElements(rest.cdr);
        x := Cell(LambdaT, rest.car, Retag(body, SequenceT));
      case KwSet =>
        if !rest.Cell? { return Undef; }
        if !rest.car.Sym? { return Void; }
        if !rest.cdr.Cell? { return Cell(AssignmentT, rest.car, Undef); }
        var v := AnalyzeForm(rest.cdr.car);
        x := Cell(AssignmentT, rest.car, v);
      case KwDefine =>
        if !rest.Cell? { return Undef; }
        if rest.car.Sym? {
          if !rest.cdr.Cell? { return Cell(DefvarT, rest.car, Undef); }
          var v := AnalyzeForm(rest.cdr.car);
          x := Cell(DefvarT, rest.car, v);
        } else if PairP(rest.car) {
          var body := AnalyzeElements(rest.cdr);
          x := Cell(DefunT, rest.car.car, Cons(rest.car.cdr, Retag(body, SequenceT)));
        } else {
          x := Undef;
        }
      case _ => x := Undef;
    }
  }

  method AnalyzeConditional(rest: Obj) returns (x: Obj)
    ensures x == AnalyzeIf(rest)
    decreases rest, 1
  {
    if !PairP(rest) { return Void; }
    var pred := AnalyzeForm(rest.car);
    var p := rest.cdr;
    if !PairP(p) {
      return if p == Null then Undef else Void;
    }
    var cseq := AnalyzeForm(p.car);
    p := p.cdr;
    var alter := Null;
    if PairP(p) {
      if p.cdr != Null { return Void; }
      alter := AnalyzeForm(p.car);
    } else if p != Null {
      return Void;
    }
    if pred == Void || cseq == Void || alter == Void { return Void; }
    x := Cell(IfT, pred, Cons(cseq, alter));
  }

  // ---- The evaluator -------------------------------------------------------------------------

  class Machine {
    var store: Store
    const prim: PrimFun

    constructor (prim: PrimFun, store: Store)
      ensures this.prim == prim && this.store == store
    {
      this.prim := prim;
      this.store := store;
    }

    method SchemeEval(fuel: nat, exp: Obj, env: nat) returns (r: Reply)
      modifies this`store
      ensures Matches(r, store, Eval(prim, fuel, exp, env, old(store)))
      decreases fuel, 0
    {
      if fuel == 0 { return NoFuel; }
      if exp == Null { return Value(Null); }
      var x := AnalyzeForm(exp);
      r := Run(fuel - 1, x, env);
    }

    /** The table of evaluation functions. */
    method Run(fuel: nat, x: Obj, env: nat) returns (r: Reply)
      modifies this`store
      ensures Matches(r, store, Dispatch(prim, fuel, x, env, old(store)))
      decreases fuel, 4
    {
      if !x.Cell? { return Failed; }
      match x.tag {
        case SelfEvalT => r := Value(x.car);
        case QuotedT => r := Value(x.car);
        case VariableT => r := if x.car.Sym? then Value(Lookup(store, env, x.car.name)) else Failed;
        case AssignmentT =>
          r := SchemeEval(fuel, x.cdr, env);
          if r.Value? { r := Store(SetVar(store, env, x.car, r.v)); }
        case DefvarT =>
          r := SchemeEval(fuel, x.cdr, env);
          if r.Value? { r := Store(DefineVar(store, env, x.car, r.v)); }
        case DefunT =>
          r := Store(DefineVar(store, env, x.car, Proc(Car(x.cdr), Cdr(x.cdr), env)));
        case IfT =>
          r := SchemeEval(fuel, x.car, env);
          if r.Value? {
            r := SchemeEval(fuel, if r.v != Bool(false) then Car(x.cdr) else Cdr(x.cdr), env);
          }
        case LambdaT => r := Value(Proc(x.car, x.cdr, env));
        case BeginT => r := RunSequence(fuel, x, env);
        case SequenceT => r := RunSequence(fuel, x, env);
        case CondT => r := RunCond(fuel, x, env);
        case ApplicationT => r := RunApplication(fuel, x, env);
        case AndT => r := RunTests(fuel, x, env, true);
        case OrT => r := RunTests(fuel, x, env, false);
        case PairT => r := Failed;
      }
    }

    /** Environment updates take effect in place. */
    method Store(o: Outcome) returns (r: Reply)
      requires o.Done? || o.Crash?
      modifies this`store
      ensures Matches(r, store, o)
    {
      if o.Crash? { return Failed; }
      store := o.st;
      r := Value(o.val);
    }

    method RunSequence(fuel: nat, exps: Obj, env: nat) returns (r: Reply)
      modifies this`store
      ensures Matches(r, store, EvalSequence(prim, fuel, exps, env, old(store)))
      decreases fuel, 1, exps
    {
      if exps == Null { return Value(Null); }
      var p := exps;
      if !p.Cell? { return Failed; }
      while p.cdr != Null
        invariant p.Cell?
        invariant EvalSequence(prim, fuel, p, env, store) == EvalSequence(prim, fuel, exps, env, old(store))
        decreases p
      {
        r := SchemeEval(fuel, p.car, env);
        if !r.Value? { return; }
        p := p.cdr;
        if !p.Cell? { return Failed; }
      }
      r := SchemeEval(fuel, p.car, env);
    }

    /** The argument list is linked cell by cell, in the order of the forms. */
    method RunList(fuel: nat, exps: Obj, env: nat) returns (r: Reply)
      modifies this`store
      ensures Matches(r, store, EvalList(prim, fuel, exps, env, old(store)))
      decreases fuel, 1, exps
    {
      var items: seq<Obj> := [];
      var p := exps;
      while p != Null
        invariant EvalList(prim, fuel, exps, env, old(store)) == Behind(items, EvalList(prim, fuel, p, env, store))
        decreases p
      {
        if !p.Cell? { return Failed; }
        r := SchemeEval(fuel, p.car, env);
        if !r.Value? { return; }
        ghost var rest := EvalList(prim, fuel, p.cdr, env, store);
        if rest.Done? {
          ListFromSnoc(items, r.v, rest.val);
        }
        items := items + [r.v];
        p := p.cdr;
      }
      r := Value(ListFrom(items, Null));
    }

    method RunCond(fuel: nat, clauses: Obj, env: nat) returns (r: Reply)
      modifies this`store
      ensures Matches(r, store, EvalCond(prim, fuel, clauses, env, old(store)))
      decreases fuel, 2, clauses
    {
      var p := clauses;
      while p != Null
        invariant EvalCond(prim, fuel, p, env, store) == EvalCond(prim, fuel, clauses, env, old(store))
        decreases p
      {
        if !p.Cell? || !p.car.Cell? { return Failed; }
        var hit := p.car.car == Bool(true);
        if !hit {
          r := SchemeEval(fuel, p.car.car, env);
          if !r.Value? { return; }
          hit := r.v != Bool(false);
        }
        if hit {
          r := RunSequence(fuel, p.car.cdr, env);
          return;
        }
        p := p.cdr;
      }
      r := Value(Void);
    }

    method RunTests(fuel: nat, exps: Obj, env: nat, conj: bool) returns (r: Reply)
      modifies this`store
      ensures Matches(r, store, EvalTests(prim, fuel, exps, env, old(store), conj))
      decreases fuel, 1, exps
    {
      var p := exps;
      while p != Null
        invariant EvalTests(prim, fuel, p, env, store, conj) == EvalTests(prim, fuel, exps, env, old(store), conj)
        decreases p
      {
        if !p.Cell? { return Failed; }
        r := SchemeEval(fuel, p.car, env);
        if !r.Value? { return; }
        if (r.v != Bool(false)) != conj { return Value(Bool(!conj)); }
        p := p.cdr;
      }
      r := Value(Bool(conj));
    }

    method RunApplication(fuel: nat, x: Obj, env: nat) returns (r: Reply)
      requires x.Cell? && x.tag == ApplicationT
      modifies this`store
      ensures Matches(r, store, Dispatch(prim, fuel, x, env, old(store)))
      decreases fuel, 3
    {
      r := SchemeEval(fuel, x.car, env);
      if !r.Value? || r.v == Void { return; }
      var proc := r.v;
      r := RunList(fuel, x.cdr, env);
      if !r.Value? { return; }
      r := RunApply(fuel, proc, r.v);
    }

    method RunApply(fuel: nat, proc: Obj, args: Obj) returns (r: Reply)
      modifies this`store
      ensures Matches(r, store, Apply(prim, fuel, proc, args, old(store)))
      decreases fuel, 2
    {
      match proc {
        case Prim(id, _, _) =>
          if !ProperList(args) { return Failed; }
          var argv := ArgVector(args);
          if !Accepts(proc, |argv|) { return Value(Void); }
          if id != APPLY { return Value(prim(id, argv)); }
          if |argv| < 2 { return Failed; }
          if fuel == 0 { return NoFuel; }
          r := RunApply(fuel - 1, argv[0], argv[1]);
        case Proc(paras, body, env) =>
          var b := BindParams(paras, args);
          if b.TooFew? { return Failed; }
          var frame := |store|;
          store := store + [Frame(b.m, Enclosing(env))];
          r := RunSequence(fuel, body, frame);
        case _ => r := Value(Void);
      }
    }
  }

  /** The outcome of a list evaluation behind items already evaluated. */
  ghost function Behind(items: seq<Obj>, o: Outcome): Outcome {
    match o
    case Done(vs, st) => Done(ListFrom(items, vs), st)
    case _ => o
  }
}
