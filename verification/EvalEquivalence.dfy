/** Analysing first and then evaluating gives what direct evaluation of the raw form gives: the same
    value, the same effects on every environment, the same failures, for every amount of fuel. The
    two differ only in the bodies stored in closures, which are analysed in one and raw in the other. */
module EvalEquivalence {
  import opened Analyzer
  import opened Evaluator

  // ---- The forms in question -----------------------------------------------------------------

  /** Program text holds no procedure objects and nothing analysed or undefined. */
  predicate Plain(o: Obj) {
    match o
    case Cell(tag, car, cdr) => tag == PairT && Plain(car) && Plain(cdr)
    case Vec(slots) => PlainSeq(slots)
    case Proc(_, _, _) => false
    case _ => true
  }

  predicate PlainSeq(s: seq<Obj>) {
    s == [] || (Plain(s[0]) && PlainSeq(s[1..]))
  }

  /** An operator name that is a keyword or no prefix of one. */
  predicate OperatorName(key: string) {
    var i := PrefixIndex(key, 0);
    i == |KEYWORDS| || KEYWORDS[i].0 == key
  }

  predicate Wf(e: Obj)
    decreases e, 1
  {
    match e
    case Int(_) => true
    case Char(_) => true
    case Str(_) => true
    case Bool(_) => true
    case Null => true
    case Vec(_) => true
    case Sym(_) => true
    case Cell(tag, car, cdr) =>
      tag == PairT &&
      if car.Sym? then
        OperatorName(car.name) &&
        if FindKeyword(car.name) == NotKeyword then WfList(cdr) else WfForm(FindKeyword(car.name), cdr)
      else PairP(car) && Wf(car) && WfList(cdr)
    case _ => false
  }

  predicate WfList(o: Obj)
    decreases o, 0
  {
    o == Null || (PairP(o) && Wf(o.car) && WfList(o.cdr))
  }

  predicate WfBody(o: Obj)
    decreases o, 1
  {
    PairP(o) && WfList(o)
  }

  predicate WfClauses(o: Obj)
    decreases o, 0
  {
    o == Null ||
    (PairP(o) && PairP(o.car) && Wf(o.car.car) && WfBody(o.car.cdr) && WfClauses(o.cdr))
  }

  /** The shapes of the implemented special forms, without their keyword. */
  predicate WfForm(key: Keyword, rest: Obj)
    decreases rest, 2
  {
    PairP(rest) &&
    match key
    case KwAnd => WfList(rest)
    case KwOr => WfList(rest)
    case KwBegin => WfList(rest)
    case KwCond => WfClauses(rest)
    case KwQuote => true
    case KwLambda => WfBody(rest.cdr)
    case KwSet => rest.car.Sym? && PairP(rest.cdr) && Wf(rest.cdr.car)
    case KwDefine =>
      if rest.car.Sym? then PairP(rest.cdr) && Wf(rest.cdr.car)
      else PairP(rest.car) && rest.car.car.Sym? && WfBody(rest.cdr)
    case KwIf =>
      Wf(rest.car) && PairP(rest.cdr) && Wf(rest.cdr.car) &&
      (rest.cdr.cdr == Null ||
       (PairP(rest.cdr.cdr) && rest.cdr.cdr.cdr == Null && Wf(rest.cdr.cdr.car)))
    case _ => false
  }

  // ---- From the raw world to the analysed one ------------------------------------------------

  /** The object with every closure body analysed. */
  function T(o: Obj): Obj {
    match o
    case Proc(paras, body, env) => Proc(paras, AnalyzeSequence(body), env)
    case Cell(tag, car, cdr) => Cell(tag, T(car), T(cdr))
    case Vec(slots) => Vec(TSeq(slots))
    case _ => o
  }

  function TSeq(s: seq<Obj>): (r: seq<Obj>)
    ensures |r| == |s| && forall i | 0 <= i < |s| :: r[i] == T(s[i])
  {
    if s == [] then [] else [T(s[0])] + TSeq(s[1..])
  }

  function TMap(m: map<string, Obj>): map<string, Obj> {
    map x | x in m :: T(m[x])
  }

  function TFrame(f: Frame): Frame {
    f.(binds := TMap(f.binds))
  }

  function TStore(st: Store): Store {
    seq(|st|, i requires 0 <= i < |st| => TFrame(st[i]))
  }

  function TOutcome(r: Outcome): Outcome {
    match r
    case Done(v, st) => Done(T(v), TStore(st))
    case _ => r
  }

  /** Closures of a raw run close over raw, well-formed bodies. */
  predicate ValOk(o: Obj) {
    match o
    case Proc(paras, body, _) => Plain(paras) && Plain(body) && WfBody(body)
    case Cell(_, car, cdr) => ValOk(car) && ValOk(cdr)
    case Vec(slots) => forall i | 0 <= i < |slots| :: ValOk(slots[i])
    case _ => true
  }

  predicate MapOk(m: map<string, Obj>) {
    forall x | x in m :: ValOk(m[x])
  }

  predicate StoreOk(st: Store) {
    forall i | 0 <= i < |st| :: MapOk(st[i].binds)
  }

  predicate OutcomeOk(r: Outcome) {
    r.Done? ==> ValOk(r.val) && StoreOk(r.st)
  }

  /** Primitives other than apply do not look into closures and make none of their own. */
  ghost predicate PrimsUniform(prim: PrimFun) {
    forall id, args: seq<Obj> ::
      (forall i | 0 <= i < |args| :: ValOk(args[i])) ==>
      prim(id, TSeq(args)) == T(prim(id, args)) && ValOk(prim(id, args))
  }

  lemma {:induction false} PlainT(o: Obj)
    requires Plain(o)
    ensures T(o) == o && ValOk(o)
    decreases o
  {
    match o {
      case Cell(_, car, cdr) =>
        PlainT(car);
        PlainT(cdr);
      case Vec(slots) => PlainSeqT(slots);
      case _ =>
    }
  }

  lemma {:induction false} PlainSeqT(s: seq<Obj>)
    requires PlainSeq(s)
    ensures TSeq(s) == s && forall i | 0 <= i < |s| :: ValOk(s[i])
    decreases s
  {
    if s != [] {
      PlainT(s[0]);
      PlainSeqT(s[1..]);
    }
  }

  // ---- The environment operations commute with T ---------------------------------------------

  lemma {:induction false} LookupT(st: Store, env: nat, name: string)
    ensures Lookup(TStore(st), env, name) == T(Lookup(st, env, name))
    ensures StoreOk(st) ==> ValOk(Lookup(st, env, name))
    decreases env
  {
    if env < |st| && name !in st[env].binds && st[env].link.Enclosing? && st[env].link.env < env {
      LookupT(st, st[env].link.env, name);
    }
  }

  lemma DefineT(st: Store, env: nat, name: string, val: Obj)
    ensures Define(TStore(st), env, name, T(val)) == TStore(Define(st, env, name, val))
    ensures StoreOk(st) && ValOk(val) ==> StoreOk(Define(st, env, name, val))
  {
    if env < |st| {
      var m := st[env].binds;
      assert TMap(m[name := val]) == TMap(m)[name := T(val)];
    }
  }

  lemma SetVarT(st: Store, env: nat, sym: Obj, val: Obj)
    requires StoreOk(st) && ValOk(val)
    ensures SetVar(TStore(st), env, sym, T(val)) == TOutcome(SetVar(st, env, sym, val))
    ensures OutcomeOk(SetVar(st, env, sym, val))
  {
    if sym.Sym? {
      DefineT(st, env, sym.name, val);
    }
  }

  lemma DefineVarT(st: Store, env: nat, sym: Obj, val: Obj)
    requires StoreOk(st) && ValOk(val)
    ensures DefineVar(TStore(st), env, sym, T(val)) == TOutcome(DefineVar(st, env, sym, val))
    ensures OutcomeOk(DefineVar(st, env, sym, val))
  {
    if sym.Sym? {
      DefineT(st, env, sym.name, val);
    }
  }

  lemma {:induction false} BindParamsT(vars: Obj, vals: Obj)
    requires ValOk(vals)
    ensures match BindParams(vars, vals)
            case TooFew => BindParams(vars, T(vals)) == TooFew
            case Binds(m) => MapOk(m) && BindParams(vars, T(vals)) == Binds(TMap(m))
    decreases vars
  {
    if PairP(vars) {
      if vals.Cell? {
        BindParamsT(vars.cdr, vals.cdr);
        var r := BindParams(vars.cdr, vals.cdr);
        if r.Binds? && vars.car.Sym? {
          assert TMap(r.m[vars.car.name := vals.car]) == TMap(r.m)[vars.car.name := T(vals.car)];
        }
      }
    } else if vars.Sym? {
      assert TMap(map[vars.name := vals]) == map[vars.name := T(vals)];
    } else {
      assert TMap(map[]) == map[];
    }
  }

  lemma {:induction false} ArgVectorT(args: Obj)
    requires ValOk(args)
    ensures ArgVector(T(args)) == TSeq(ArgVector(args)) && (ProperList(T(args)) <==> ProperList(args))
    ensures forall i | 0 <= i < |ArgVector(args)| :: ValOk(ArgVector(args)[i])
    decreases args
  {
    if args.Cell? {
      ArgVectorT(args.cdr);
    }
  }

  // ---- Names of special forms ----------------------------------------------------------------

  /** Where the prefix search is exact it finds the form of that very name. */
  lemma FormOfOperator(key: string)
    requires OperatorName(key)
    ensures FormOf(key) == FindKeyword(key)
  {
    var p, x := PrefixIndex(key, 0), ExactIndex(key, 0);
    if x < |KEYWORDS| {
      assert key <= KEYWORDS[x].0;
      assert p <= x;
    }
    if p < |KEYWORDS| {
      assert x <= p;
    }
  }

  // ---- Main theorem --------------------------------------------------------------------------

  /** One form, raw or already analysed. */
  lemma {:induction false} EvalAgrees(prim: PrimFun, fuel: nat, e: Obj, env: nat, st: Store)
    requires PrimsUniform(prim) && Plain(e) && Wf(e) && StoreOk(st)
    ensures Eval(prim, fuel, e, env, TStore(st)) == TOutcome(Direct(prim, fuel, e, env, st))
    ensures Eval(prim, fuel, Analyze(e), env, TStore(st)) == TOutcome(Direct(prim, fuel, e, env, st))
    ensures OutcomeOk(Direct(prim, fuel, e, env, st))
    decreases fuel, 0
  {
    hide Wf, Plain, Analyze, TOutcome, OutcomeOk, Direct, Dispatch, PrimsUniform, StoreOk;
    AnalyzedShape(e);
    if fuel > 0 {
      DispatchAgrees(prim, fuel - 1, e, env, st);
      if e == Null {
        NullAgrees(prim, fuel - 1, env, st);
      }
    } else {
      TimeoutAgrees(prim, e, env, st);
    }
  }

  lemma TimeoutAgrees(prim: PrimFun, e: Obj, env: nat, st: Store)
    ensures Direct(prim, 0, e, env, st) == Timeout && TOutcome(Timeout) == Timeout && OutcomeOk(Timeout)
  {
  }

  lemma NullAgrees(prim: PrimFun, fuel: nat, env: nat, st: Store)
    requires StoreOk(st)
    ensures Direct(prim, fuel + 1, Null, env, st) == Done(Null, st)
    ensures TOutcome(Done(Null, st)) == Done(Null, TStore(st)) && OutcomeOk(Done(Null, st))
  {
  }

  lemma {:induction false} DispatchAgrees(prim: PrimFun, fuel: nat, e: Obj, env: nat, st: Store)
    requires PrimsUniform(prim) && Plain(e) && Wf(e) && StoreOk(st)
    ensures Dispatch(prim, fuel, Analyze(e), env, TStore(st)) == TOutcome(Direct(prim, fuel + 1, e, env, st))
    ensures OutcomeOk(Direct(prim, fuel + 1, e, env, st))
    decreases fuel, 5
  {
    if e.Sym? {
      LookupT(st, env, e.name);
    } else if e.Cell? {
      CellAgrees(prim, fuel, e, env, st);
    } else {
      PlainT(e);
    }
  }

  lemma {:induction false} CellAgrees(prim: PrimFun, fuel: nat, e: Obj, env: nat, st: Store)
    requires e.Cell? && PrimsUniform(prim) && Plain(e) && Wf(e) && StoreOk(st)
    ensures Dispatch(prim, fuel, Analyze(e), env, TStore(st)) == TOutcome(Direct(prim, fuel + 1, e, env, st))
    ensures OutcomeOk(Direct(prim, fuel + 1, e, env, st))
    decreases fuel, 4, 1
  {
    hide TStore, StoreOk, PrimsUniform, DirectForm, DirectCall, AnalyzeKeyword, Dispatch, TOutcome, OutcomeOk;
    if e.car.Sym? {
      FormOfOperator(e.car.name);
    }
    if e.car.Sym? && FindKeyword(e.car.name) != NotKeyword {
      FormAgrees(prim, fuel, FindKeyword(e.car.name), e.cdr, env, st);
    } else {
      CallAgrees(prim, fuel, e, env, st);
    }
  }

  /** A well-formed form analyses to an expression cell, which analyses to itself. */
  lemma AnalyzedShape(e: Obj)
    requires Wf(e)
    ensures IsExpr(Analyze(e)) && Analyze(Analyze(e)) == Analyze(e)
    decreases e
  {
    if PairP(e) && e.car.Sym? && FindKeyword(e.car.name) != NotKeyword {
      FormShape(FindKeyword(e.car.name), e.cdr);
    }
  }

  lemma FormShape(key: Keyword, rest: Obj)
    requires WfForm(key, rest)
    ensures IsExpr(AnalyzeKeyword(key, rest))
    decreases rest
  {
    if key == KwIf {
      AnalyzedShape(rest.car);
      AnalyzedShape(rest.cdr.car);
      if rest.cdr.cdr != Null {
        AnalyzedShape(rest.cdr.cdr.car);
      }
    }
  }

  lemma {:induction false} CallAgrees(prim: PrimFun, fuel: nat, e: Obj, env: nat, st: Store)
    requires PrimsUniform(prim) && StoreOk(st)
    requires PairP(e) && Plain(e) && Wf(e.car) && WfList(e.cdr)
    ensures Dispatch(prim, fuel, Retag(AnalyzeList(e), ApplicationT), env, TStore(st)) ==
            TOutcome(DirectCall(prim, fuel, e.car, e.cdr, env, st))
    ensures OutcomeOk(DirectCall(prim, fuel, e.car, e.cdr, env, st))
    decreases fuel, 3
  {
    hide Eval, Direct, Analyze, Wf, PrimsUniform, StoreOk, TStore;
    EvalAgrees(prim, fuel, e.car, env, st);
    var r := Direct(prim, fuel, e.car, env, st);
    if r.Done? && r.val != Void {
      ListAgrees(prim, fuel, e.cdr, env, r.st);
      var r1 := DirectList(prim, fuel, e.cdr, env, r.st);
      if r1.Done? {
        ApplyAgrees(prim, fuel, r.val, r1.val, r1.st);
      }
    }
  }

  lemma {:induction false} ListAgrees(prim: PrimFun, fuel: nat, es: Obj, env: nat, st: Store)
    requires PrimsUniform(prim) && StoreOk(st) && Plain(es) && WfList(es)
    ensures EvalList(prim, fuel, AnalyzeList(es), env, TStore(st)) == TOutcome(DirectList(prim, fuel, es, env, st))
    ensures OutcomeOk(DirectList(prim, fuel, es, env, st))
    decreases fuel, 1, es
  {
    hide Eval, Direct, Analyze, Wf, PrimsUniform, StoreOk, TStore;
    if es != Null {
      EvalAgrees(prim, fuel, es.car, env, st);
      var r := Direct(prim, fuel, es.car, env, st);
      if r.Done? {
        ListAgrees(prim, fuel, es.cdr, env, r.st);
      }
    }
  }

  lemma {:induction false} SequenceAgrees(prim: PrimFun, fuel: nat, es: Obj, tag: Tag, env: nat, st: Store)
    requires PrimsUniform(prim) && StoreOk(st) && Plain(es) && WfBody(es)
    ensures EvalSequence(prim, fuel, Retag(AnalyzeList(es), tag), env, TStore(st)) ==
            TOutcome(DirectSequence(prim, fuel, es, env, st))
    ensures OutcomeOk(DirectSequence(prim, fuel, es, env, st))
    decreases fuel, 1, es
  {
    hide Eval, Direct, Analyze, Wf, PrimsUniform, StoreOk, TStore;
    EvalAgrees(prim, fuel, es.car, env, st);
    var r := Direct(prim, fuel, es.car, env, st);
    if r.Done? && es.cdr != Null {
      assert WfList(es.cdr);
      SequenceAgrees(prim, fuel, es.cdr, PairT, env, r.st);
      assert Retag(AnalyzeList(es.cdr), PairT) == AnalyzeList(es.cdr);
    }
  }

  lemma {:induction false} TestsAgree(prim: PrimFun, fuel: nat, es: Obj, tag: Tag, env: nat, st: Store, conj: bool)
    requires PrimsUniform(prim) && StoreOk(st) && Plain(es) && WfBody(es)
    ensures EvalTests(prim, fuel, Retag(AnalyzeList(es), tag), env, TStore(st), conj) ==
            TOutcome(DirectTests(prim, fuel, es, env, st, conj))
    ensures OutcomeOk(DirectTests(prim, fuel, es, env, st, conj))
    decreases fuel, 1, es
  {
    hide Eval, Direct, Analyze, Wf, PrimsUniform, StoreOk, TStore;
    EvalAgrees(prim, fuel, es.car, env, st);
    var r := Direct(prim, fuel, es.car, env, st);
    if r.Done? && es.cdr != Null {
      assert WfList(es.cdr);
      TestsAgree(prim, fuel, es.cdr, PairT, env, r.st, conj);
      assert Retag(AnalyzeList(es.cdr), PairT) == AnalyzeList(es.cdr);
    }
  }

  lemma {:induction false} CondAgrees(prim: PrimFun, fuel: nat, cs: Obj, tag: Tag, env: nat, st: Store)
    requires PrimsUniform(prim) && StoreOk(st) && Plain(cs) && PairP(cs) && WfClauses(cs)
    ensures EvalCond(prim, fuel, Retag(AnalyzeClauses(cs), tag), env, TStore(st)) ==
            TOutcome(DirectCond(prim, fuel, cs, env, st))
    ensures OutcomeOk(DirectCond(prim, fuel, cs, env, st))
    decreases fuel, 2, cs
  {
    hide Eval, Direct, Analyze, Wf, PrimsUniform, StoreOk, TStore;
    AnalyzedShape(cs.car.car);
    EvalAgrees(prim, fuel, cs.car.car, env, st);
    var r := Direct(prim, fuel, cs.car.car, env, st);
    if r.Done? {
      if r.val != Bool(false) {
        SequenceAgrees(prim, fuel, cs.car.cdr, SequenceT, env, r.st);
      } else if cs.cdr != Null {
        CondAgrees(prim, fuel, cs.cdr, PairT, env, r.st);
        assert Retag(AnalyzeClauses(cs.cdr), PairT) == AnalyzeClauses(cs.cdr);
      }
    }
  }

  lemma {:induction false} ApplyAgrees(prim: PrimFun, fuel: nat, proc: Obj, args: Obj, st: Store)
    requires PrimsUniform(prim) && StoreOk(st) && ValOk(proc) && ValOk(args)
    ensures Apply(prim, fuel, T(proc), T(args), TStore(st)) == TOutcome(DirectApply(prim, fuel, proc, args, st))
    ensures OutcomeOk(DirectApply(prim, fuel, proc, args, st))
    decreases fuel, 2, 1
  {
    hide StoreOk, PrimsUniform, TStore;
    match proc {
      case Prim(_, _, _) => PrimAgrees(prim, fuel, proc, args, st);
      case Proc(paras, body, env) => ClosureAgrees(prim, fuel, proc, args, st);
      case _ =>
    }
  }

  lemma {:induction false} PrimAgrees(prim: PrimFun, fuel: nat, proc: Obj, args: Obj, st: Store)
    requires PrimsUniform(prim) && StoreOk(st) && proc.Prim? && ValOk(args)
    ensures Apply(prim, fuel, proc, T(args), TStore(st)) == TOutcome(DirectApply(prim, fuel, proc, args, st))
    ensures OutcomeOk(DirectApply(prim, fuel, proc, args, st))
    decreases fuel, 1
  {
    hide EvalSequence, DirectSequence, BindParams, ArgVector, ProperList, StoreOk, TStore;
    ArgVectorT(args);
    var argv := ArgVector(args);
    if proc.id == APPLY && |argv| >= 2 && fuel > 0 {
      ApplyAgrees(prim, fuel - 1, argv[0], argv[1], st);
    }
  }

  lemma {:induction false} ClosureAgrees(prim: PrimFun, fuel: nat, proc: Obj, args: Obj, st: Store)
    requires PrimsUniform(prim) && StoreOk(st) && proc.Proc? && ValOk(proc) && ValOk(args)
    ensures Apply(prim, fuel, T(proc), T(args), TStore(st)) == TOutcome(DirectApply(prim, fuel, proc, args, st))
    ensures OutcomeOk(DirectApply(prim, fuel, proc, args, st))
    decreases fuel, 2, 0
  {
    hide EvalSequence, DirectSequence, BindParams, PrimsUniform;
    BindParamsT(proc.paras, args);
    var b := BindParams(proc.paras, args);
    if b.Binds? {
      var st1 := st + [Frame(b.m, Enclosing(proc.env))];
      assert TStore(st1) == TStore(st) + [Frame(TMap(b.m), Enclosing(proc.env))];
      SequenceAgrees(prim, fuel, proc.body, SequenceT, |st|, st1);
    }
  }

  lemma {:induction false} IfAgrees(prim: PrimFun, fuel: nat, rest: Obj, env: nat, st: Store)
    requires PrimsUniform(prim) && StoreOk(st) && Plain(rest) && WfForm(KwIf, rest)
    ensures Dispatch(prim, fuel, AnalyzeKeyword(KwIf, rest), env, TStore(st)) ==
            TOutcome(DirectForm(prim, fuel, KwIf, rest, env, st))
    ensures OutcomeOk(DirectForm(prim, fuel, KwIf, rest, env, st))
    decreases fuel, 3
  {
    hide Eval, Direct, PrimsUniform, StoreOk, TStore;
    FormShape(KwIf, rest);
    assert Plain(rest.cdr) && Plain(rest.cdr.cdr);
    EvalAgrees(prim, fuel, rest.car, env, st);
    var r := Direct(prim, fuel, rest.car, env, st);
    if r.Done? {
      EvalAgrees(prim, fuel, rest.cdr.car, env, r.st);
      EvalAgrees(prim, fuel, if rest.cdr.cdr == Null then Null else rest.cdr.cdr.car, env, r.st);
    }
  }

  lemma {:induction false} FormAgrees(prim: PrimFun, fuel: nat, key: Keyword, rest: Obj, env: nat, st: Store)
    requires PrimsUniform(prim) && StoreOk(st) && Plain(rest) && WfForm(key, rest)
    ensures Dispatch(prim, fuel, AnalyzeKeyword(key, rest), env, TStore(st)) ==
            TOutcome(DirectForm(prim, fuel, key, rest, env, st))
    ensures OutcomeOk(DirectForm(prim, fuel, key, rest, env, st))
    decreases fuel, 4, 0
  {
    hide Eval, Direct, Analyze, Wf, EvalSequence, DirectSequence, EvalTests, DirectTests, EvalCond, DirectCond,
         PrimsUniform, StoreOk, TStore;
    match key {
      case KwQuote => PlainT(rest.car);
      case KwBegin => SequenceAgrees(prim, fuel, rest, BeginT, env, st);
      case KwAnd => TestsAgree(prim, fuel, rest, AndT, env, st, true);
      case KwOr => TestsAgree(prim, fuel, rest, OrT, env, st, false);
      case KwCond => CondAgrees(prim, fuel, rest, CondT, env, st);
      case KwLambda =>
      case KwIf => IfAgrees(prim, fuel, rest, env, st);
      case KwSet => SetAgrees(prim, fuel, rest, env, st);
      case KwDefine => DefineAgrees(prim, fuel, rest, env, st);
    }
  }

  lemma {:induction false} SetAgrees(prim: PrimFun, fuel: nat, rest: Obj, env: nat, st: Store)
    requires PrimsUniform(prim) && StoreOk(st) && Plain(rest) && WfForm(KwSet, rest)
    ensures Dispatch(prim, fuel, AnalyzeKeyword(KwSet, rest), env, TStore(st)) ==
            TOutcome(DirectForm(prim, fuel, KwSet, rest, env, st))
    ensures OutcomeOk(DirectForm(prim, fuel, KwSet, rest, env, st))
    decreases fuel, 3
  {
    hide Eval, Direct, Analyze, PrimsUniform, StoreOk, TStore;
    EvalAgrees(prim, fuel, rest.cdr.car, env, st);
    var r := Direct(prim, fuel, rest.cdr.car, env, st);
    if r.Done? {
      SetVarT(r.st, env, rest.car, r.val);
    }
  }

  lemma {:induction false} DefineAgrees(prim: PrimFun, fuel: nat, rest: Obj, env: nat, st: Store)
    requires PrimsUniform(prim) && StoreOk(st) && Plain(rest) && WfForm(KwDefine, rest)
    ensures Dispatch(prim, fuel, AnalyzeKeyword(KwDefine, rest), env, TStore(st)) ==
            TOutcome(DirectForm(prim, fuel, KwDefine, rest, env, st))
    ensures OutcomeOk(DirectForm(prim, fuel, KwDefine, rest, env, st))
    decreases fuel, 3
  {
    hide Direct, Eval, PrimsUniform, StoreOk, TStore, OutcomeOk, Analyze, DefineVar;
    if rest.car.Sym? {
      EvalAgrees(prim, fuel, rest.cdr.car, env, st);
      var r := Direct(prim, fuel, rest.cdr.car, env, st);
      if r.Done? {
        DoneOk(r);
        DefineVarT(r.st, env, rest.car, r.val);
      }
    } else {
      var proc := Proc(rest.car.cdr, rest.cdr, env);
      DefineVarT(st, env, rest.car.car, proc);
    }
  }

  lemma DoneOk(r: Outcome)
    requires r.Done? && OutcomeOk(r)
    ensures ValOk(r.val) && StoreOk(r.st)
  {
  }
}
