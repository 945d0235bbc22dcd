/** The interpreter's evaluator on analysed forms (kscm/scheme/eval.c, proc.c, env.c), and a direct
    evaluator on raw forms that never analyses anything. */
module Evaluator {
  import opened Analyzer

  datatype Link = Outermost | Enclosing(env: nat)

  datatype Frame = Frame(binds: map<string, Obj>, link: Link)

  type Store = seq<Frame>

  // Timeout: the fuel ran out. Crash: C would use an undefined object.
  datatype Outcome = Done(val: Obj, st: Store) | Timeout | Crash

  type PrimFun = (nat, seq<Obj>) -> Obj

  // ---- Environments (env.c) ------------------------------------------------------------------

  function Lookup(st: Store, env: nat, name: string): Obj
    decreases env
  {
    if env >= |st| then Void
    else if name in st[env].binds then st[env].binds[name]
    else if st[env].link.Enclosing? && st[env].link.env < env then Lookup(st, st[env].link.env, name)
    else Void
  }

  function Define(st: Store, env: nat, name: string, val: Obj): Store {
    if env < |st| then st[env := st[env].(binds := st[env].binds[name := val])] else st
  }

  function DefineVar(st: Store, env: nat, sym: Obj, val: Obj): Outcome {
    if sym.Sym? then Done(sym, Define(st, env, sym.name, val)) else Crash
  }

  /** Assignment reaches only the innermost frame and gives the old value. */
  function SetVar(st: Store, env: nat, sym: Obj, val: Obj): Outcome {
    if !sym.Sym? then Crash
    else if env < |st| && sym.name in st[env].binds then
      Done(st[env].binds[sym.name], Define(st, env, sym.name, val))
    else Done(Void, st)
  }

  datatype Binds = Binds(m: map<string, Obj>) | TooFew

  /** Parameters to arguments; the first of two equal names is found first; a symbol at the end of
      the parameter list takes the remaining arguments. */
  function BindParams(vars: Obj, vals: Obj): Binds {
    if PairP(vars) then
      if !vals.Cell? then TooFew
      else
        match BindParams(vars.cdr, vals.cdr)
        case TooFew => TooFew
        case Binds(m) => Binds(if vars.car.Sym? then m[vars.car.name := vals.car] else m)
    else if vars.Sym? then Binds(map[vars.name := vals])
    else Binds(map[])
  }

  // ---- Primitive procedures (proc.c) ---------------------------------------------------------

  function ArgVector(args: Obj): seq<Obj> {
    if args.Cell? then [args.car] + ArgVector(args.cdr) else []
  }

  predicate ProperList(args: Obj) {
    args == Null || (args.Cell? && ProperList(args.cdr))
  }

  predicate Accepts(p: Obj, argc: nat)
    requires p.Prim?
  {
    !(p.maxa > 0 && argc > p.maxa) && argc >= p.mina
  }

  /** The primitive that calls back into the evaluator; all others are functions of their arguments. */
  const APPLY: nat := 0

  // ---- Evaluation of analysed forms ----------------------------------------------------------

  function Eval(prim: PrimFun, fuel: nat, exp: Obj, env: nat, st: Store): Outcome
    decreases fuel, 0
  {
    if fuel == 0 then Timeout
    else if exp == Null then Done(Null, st)
    else Dispatch(prim, fuel - 1, Analyze(exp), env, st)
  }

  function Dispatch(prim: PrimFun, fuel: nat, x: Obj, env: nat, st: Store): Outcome
    decreases fuel, 3
  {
    if !x.Cell? then Crash
    else
      match x.tag
      case SelfEvalT => Done(x.car, st)
      case QuotedT => Done(x.car, st)
      case VariableT => if x.car.Sym? then Done(Lookup(st, env, x.car.name), st) else Crash
      case AssignmentT =>
        (match Eval(prim, fuel, x.cdr, env, st)
         case Done(v, st1) => SetVar(st1, env, x.car, v)
         case r => r)
      case DefvarT =>
        (match Eval(prim, fuel, x.cdr, env, st)
         case Done(v, st1) => DefineVar(st1, env, x.car, v)
         case r => r)
      case DefunT => DefineVar(st, env, x.car, Proc(Car(x.cdr), Cdr(x.cdr), env))
      case IfT =>
        (match Eval(prim, fuel, x.car, env, st)
         case Done(v, st1) =>
           if v != Bool(false) then Eval(prim, fuel, Car(x.cdr), env, st1)
           else Eval(prim, fuel, Cdr(x.cdr), env, st1)
         case r => r)
      case LambdaT => Done(Proc(x.car, x.cdr, env), st)
      case BeginT => EvalSequence(prim, fuel, x, env, st)
      case SequenceT => EvalSequence(prim, fuel, x, env, st)
      case CondT => EvalCond(prim, fuel, x, env, st)
      case ApplicationT =>
        (match Eval(prim, fuel, x.car, env, st)
         case Done(proc, st1) =>
           if proc == Void then Done(Void, st1)
           else
             (match EvalList(prim, fuel, x.cdr, env, st1)
              case Done(args, st2) => Apply(prim, fuel, proc, args, st2)
              case r => r)
         case r => r)
      case AndT => EvalTests(prim, fuel, x, env, st, true)
      case OrT => EvalTests(prim, fuel, x, env, st, false)
      case PairT => Crash
  }

  function EvalSequence(prim: PrimFun, fuel: nat, exps: Obj, env: nat, st: Store): Outcome
    decreases fuel, 1, exps
  {
    if exps == Null then Done(Null, st)
    else if !exps.Cell? then Crash
    else
      match Eval(prim, fuel, exps.car, env, st)
      case Done(v, st1) =>
        if exps.cdr == Null then Done(v, st1) else EvalSequence(prim, fuel, exps.cdr, env, st1)
      case r => r
  }

  /** The values of a list of forms, left to right, as a list. */
  function EvalList(prim: PrimFun, fuel: nat, exps: Obj, env: nat, st: Store): Outcome
    decreases fuel, 1, exps
  {
    if exps == Null then Done(Null, st)
    else if !exps.Cell? then Crash
    else
      match Eval(prim, fuel, exps.car, env, st)
      case Done(v, st1) =>
        (match EvalList(prim, fuel, exps.cdr, env, st1)
         case Done(vs, st2) => Done(Cons(v, vs), st2)
         case r => r)
      case r => r
  }

  function EvalCond(prim: PrimFun, fuel: nat, clauses: Obj, env: nat, st: Store): Outcome
    decreases fuel, 2, clauses
  {
    if clauses == Null then Done(Void, st)
    else if !clauses.Cell? || !clauses.car.Cell? then Crash
    else if clauses.car.car == Bool(true) then EvalSequence(prim, fuel, clauses.car.cdr, env, st)
    else
      match Eval(prim, fuel, clauses.car.car, env, st)
      case Done(v, st1) =>
        if v != Bool(false) then EvalSequence(prim, fuel, clauses.car.cdr, env, st1)
        else EvalCond(prim, fuel, clauses.cdr, env, st1)
      case r => r
  }

  /** `and` (conj) and `or`: the result is a boolean, never the deciding value. */
  function EvalTests(prim: PrimFun, fuel: nat, exps: Obj, env: nat, st: Store, conj: bool): Outcome
    decreases fuel, 1, exps
  {
    if exps == Null then Done(Bool(conj), st)
    else if !exps.Cell? then Crash
    else
      match Eval(prim, fuel, exps.car, env, st)
      case Done(v, st1) =>
        if (v != Bool(false)) != conj then Done(Bool(!conj), st1)
        else EvalTests(prim, fuel, exps.cdr, env, st1, conj)
      case r => r
  }

  function Apply(prim: PrimFun, fuel: nat, proc: Obj, args: Obj, st: Store): Outcome
    decreases fuel, 2
  {
    match proc
    case Prim(id, _, _) =>
      var argv := ArgVector(args);
      if !ProperList(args) then Crash
      else if !Accepts(proc, |argv|) then Done(Void, st)
      else if id != APPLY then Done(prim(id, argv), st)
      else if |argv| < 2 then Crash
      else if fuel == 0 then Timeout
      else Apply(prim, fuel - 1, argv[0], argv[1], st)
    case Proc(paras, body, env) =>
      (match BindParams(paras, args)
       case Binds(m) => EvalSequence(prim, fuel, body, |st|, st + [Frame(m, Enclosing(env))])
       case TooFew => Crash)
    case _ => Done(Void, st)
  }

  // ---- Direct evaluation of raw forms --------------------------------------------------------

  /** The special form of exactly this name. */
  function ExactIndex(key: string, i: nat): (r: nat)
    requires i <= |KEYWORDS|
    ensures i <= r <= |KEYWORDS| && (r < |KEYWORDS| ==> key == KEYWORDS[r].0)
    ensures forall j | i <= j < r :: key != KEYWORDS[j].0
    decreases |KEYWORDS| - i
  {
    if i == |KEYWORDS| || key == KEYWORDS[i].0 then i else ExactIndex(key, i + 1)
  }

  function FormOf(key: string): Keyword {
    var i := ExactIndex(key, 0);
    if i == |KEYWORDS| then NotKeyword else KEYWORDS[i].1
  }

  function Direct(prim: PrimFun, fuel: nat, e: Obj, env: nat, st: Store): Outcome
    decreases fuel, 0
  {
    if fuel == 0 then Timeout
    else
      match e
      case Sym(name) => Done(Lookup(st, env, name), st)
      case Cell(_, car, cdr) =>
        if car.Sym? && FormOf(car.name) != NotKeyword then
          DirectForm(prim, fuel - 1, FormOf(car.name), cdr, env, st)
        else DirectCall(prim, fuel - 1, car, cdr, env, st)
      case _ => Done(e, st)
  }

  function DirectCall(prim: PrimFun, fuel: nat, operator: Obj, operands: Obj, env: nat, st: Store): Outcome
    decreases fuel, 3
  {
    match Direct(prim, fuel, operator, env, st)
    case Done(proc, st1) =>
      if proc == Void then Done(Void, st1)
      else
        (match DirectList(prim, fuel, operands, env, st1)
         case Done(args, st2) => DirectApply(prim, fuel, proc, args, st2)
         case r => r)
    case r => r
  }

  function DirectForm(prim: PrimFun, fuel: nat, key: Keyword, rest: Obj, env: nat, st: Store): Outcome
    decreases fuel, 3
  {
    match key
    case KwQuote => Done(Car(rest), st)
    case KwBegin => DirectSequence(prim, fuel, rest, env, st)
    case KwAnd => DirectTests(prim, fuel, rest, env, st, true)
    case KwOr => DirectTests(prim, fuel, rest, env, st, false)
    case KwCond => DirectCond(prim, fuel, rest, env, st)
    case KwLambda => Done(Proc(Car(rest), Cdr(rest), env), st)
    case KwSet =>
      (match Direct(prim, fuel, Car(Cdr(rest)), env, st)
       case Done(v, st1) => SetVar(st1, env, Car(rest), v)
       case r => r)
    case KwDefine =>
      if Car(rest).Sym? then
        (match Direct(prim, fuel, Car(Cdr(rest)), env, st)
         case Done(v, st1) => DefineVar(st1, env, Car(rest), v)
         case r => r)
      else DefineVar(st, env, Car(Car(rest)), Proc(Cdr(Car(rest)), Cdr(rest), env))
    case KwIf =>
      (match Direct(prim, fuel, Car(rest), env, st)
       case Done(v, st1) =>
         if v != Bool(false) then Direct(prim, fuel, Car(Cdr(rest)), env, st1)
         else
           // without alternative the value is the empty list
           Direct(prim, fuel, if Cdr(Cdr(rest)) == Null then Null else Car(Cdr(Cdr(rest))), env, st1)
       case r => r)
    case _ => Crash
  }

  function DirectSequence(prim: PrimFun, fuel: nat, exps: Obj, env: nat, st: Store): Outcome
    decreases fuel, 1, exps
  {
    if !exps.Cell? then Crash
    else
      match Direct(prim, fuel, exps.car, env, st)
      case Done(v, st1) =>
        if exps.cdr == Null then Done(v, st1) else DirectSequence(prim, fuel, exps.cdr, env, st1)
      case r => r
  }

  function DirectList(prim: PrimFun, fuel: nat, exps: Obj, env: nat, st: Store): Outcome
    decreases fuel, 1, exps
  {
    if !exps.Cell? then Done(Null, st)
    else
      match Direct(prim, fuel, exps.car, env, st)
      case Done(v, st1) =>
        (match DirectList(prim, fuel, exps.cdr, env, st1)
         case Done(vs, st2) => Done(Cons(v, vs), st2)
         case r => r)
      case r => r
  }

  function DirectCond(prim: PrimFun, fuel: nat, clauses: Obj, env: nat, st: Store): Outcome
    decreases fuel, 2, clauses
  {
    if !clauses.Cell? then Done(Void, st)
    else
      match Direct(prim, fuel, Car(clauses.car), env, st)
      case Done(v, st1) =>
        if v != Bool(false) then DirectSequence(prim, fuel, Cdr(clauses.car), env, st1)
        else DirectCond(prim, fuel, clauses.cdr, env, st1)
      case r => r
  }

  function DirectTests(prim: PrimFun, fuel: nat, exps: Obj, env: nat, st: Store, conj: bool): Outcome
    decreases fuel, 1, exps
  {
    if !exps.Cell? then Done(Bool(conj), st)
    else
      match Direct(prim, fuel, exps.car, env, st)
      case Done(v, st1) =>
        if (v != Bool(false)) != conj then Done(Bool(!conj), st1)
        else DirectTests(prim, fuel, exps.cdr, env, st1, conj)
      case r => r
  }

  function DirectApply(prim: PrimFun, fuel: nat, proc: Obj, args: Obj, st: Store): Outcome
    decreases fuel, 2
  {
    match proc
    case Prim(id, _, _) =>
      var argv := ArgVector(args);
      if !ProperList(args) then Crash
      else if !Accepts(proc, |argv|) then Done(Void, st)
      else if id != APPLY then Done(prim(id, argv), st)
      else if |argv| < 2 then Crash
      else if fuel == 0 then Timeout
      else DirectApply(prim, fuel - 1, argv[0], argv[1], st)
    case Proc(paras, body, env) =>
      (match BindParams(paras, args)
       case Binds(m) => DirectSequence(prim, fuel, body, |st|, st + [Frame(m, Enclosing(env))])
       case TooFew => Crash)
    case _ => Done(Void, st)
  }
}
