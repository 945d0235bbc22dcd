/** Objects of the kernel's Scheme interpreter and the analyser that rewrites a form once into
    tagged expression cells (kscm/scheme/eval.c). */
module Analyzer {

  // Type tags of two-field cells: pairs and analysed expressions.
  datatype Tag =
    | PairT | SelfEvalT | QuotedT | VariableT | AssignmentT | DefvarT | DefunT | IfT | LambdaT
    | BeginT | SequenceT | CondT | ApplicationT | AndT | OrT

  // Undef stands for what C leaves undefined: an uninitialised result or a field of a non-cell.
  datatype Obj =
    | Int(n: int)
    | Char(c: char)
    | Str(s: string)
    | Bool(b: bool)
    | Null
    | Void
    | Undef
    | Sym(name: string)
    | Vec(slots: seq<Obj>)
    | Prim(id: nat, mina: int, maxa: int)
    | Proc(paras: Obj, body: Obj, env: nat)
    | Cell(tag: Tag, car: Obj, cdr: Obj)

  predicate PairP(o: Obj) {
    o.Cell? && o.tag == PairT
  }

  /** An object of a type above the marker _scheme_expr_type_. */
  predicate IsExpr(o: Obj) {
    o.Cell? && o.tag != PairT
  }

  function Cons(a: Obj, d: Obj): Obj {
    Cell(PairT, a, d)
  }

  function Car(o: Obj): Obj {
    if o.Cell? then o.car else Undef
  }

  function Cdr(o: Obj): Obj {
    if o.Cell? then o.cdr else Undef
  }

  datatype Keyword =
    | KwAnd | KwBegin | KwCase | KwCond | KwDefine | KwDelay | KwDo | KwElse | KwIf | KwLambda | KwLet
    | KwLetrec | KwLetStar | KwOr | KwQuasiquote | KwQuote | KwSet | NotKeyword

  const KEYWORDS: seq<(string, Keyword)> :=
    [("and", KwAnd), ("begin", KwBegin), ("case", KwCase), ("cond", KwCond), ("define", KwDefine),
     ("delay", KwDelay), ("do", KwDo), ("else", KwElse), ("if", KwIf), ("lambda", KwLambda),
     ("let", KwLet), ("letrec", KwLetrec), ("let*", KwLetStar), ("or", KwOr),
     ("quasiquote", KwQuasiquote), ("quote", KwQuote), ("set!", KwSet)]

  /** The first table entry from i on that has the name as a prefix. */
  function PrefixIndex(key: string, i: nat): (r: nat)
    requires i <= |KEYWORDS|
    ensures i <= r <= |KEYWORDS| && (r < |KEYWORDS| ==> key <= KEYWORDS[r].0)
    ensures forall j | i <= j < r :: !(key <= KEYWORDS[j].0)
    decreases |KEYWORDS| - i
  {
    if i == |KEYWORDS| || key <= KEYWORDS[i].0 then i else PrefixIndex(key, i + 1)
  }

  /** The keyword a name selects: the search takes any prefix of a keyword for the keyword. */
  function FindKeyword(key: string): Keyword {
    var i := PrefixIndex(key, 0);
    if i == |KEYWORDS| then NotKeyword else KEYWORDS[i].1
  }

  function Retag(o: Obj, tag: Tag): Obj {
    if o.Cell? then o.(tag := tag) else Undef
  }

  function Analyze(o: Obj): Obj
    decreases o, 1
  {
    if IsExpr(o) then o
    else
      match o
      case Sym(_) => Cell(VariableT, o, Null)
      case Cell(_, car, cdr) =>
        if car.Sym? && FindKeyword(car.name) != NotKeyword then AnalyzeKeyword(FindKeyword(car.name), cdr)
        else if car.Sym? || PairP(car) then Retag(AnalyzeList(o), ApplicationT)
        else Void
      case Undef => Undef
      case Void => Void
      case Prim(_, _, _) => Void
      case Proc(_, _, _) => Void
      case _ => Cell(SelfEvalT, o, Null)
  }

  /** The analysed elements of a proper list, as a list of pairs. */
  function AnalyzeList(o: Obj): Obj
    decreases o, 0
  {
    match o
    case Null => Null
    case Cell(_, car, cdr) => Cons(Analyze(car), AnalyzeList(cdr))
    case _ => Undef
  }

  /** Retagging the empty list would change the shared empty-list object: undefined here. */
  function AnalyzeSequence(o: Obj): Obj
    decreases o, 1
  {
    Retag(AnalyzeList(o), SequenceT)
  }

  function AnalyzeClauses(o: Obj): Obj
    decreases o, 0
  {
    match o
    case Null => Null
    case Cell(_, car, cdr) =>
      Cons(if car.Cell? then Cons(Analyze(car.car), AnalyzeSequence(car.cdr)) else Undef,
           AnalyzeClauses(cdr))
    case _ => Undef
  }

  /** A special form, given its keyword and what follows the keyword. */
  function AnalyzeKeyword(key: Keyword, rest: Obj): Obj
    decreases rest, 2
  {
    match key
    case KwAnd => Retag(AnalyzeList(rest), AndT)
    case KwOr => Retag(AnalyzeList(rest), OrT)
    case KwBegin => Retag(AnalyzeList(rest), BeginT)
    case KwCond => Retag(AnalyzeClauses(rest), CondT)
    case KwElse => Bool(true)
    case KwQuote => Cell(QuotedT, Car(rest), Null)
    case KwIf => AnalyzeIf(rest)
    case KwLambda => if rest.Cell? then Cell(LambdaT, rest.car, AnalyzeSequence(rest.cdr)) else Undef
    case KwSet =>
      if !rest.Cell? then Undef
      else if !rest.car.Sym? then Void
      else Cell(AssignmentT, rest.car, if rest.cdr.Cell? then Analyze(rest.cdr.car) else Undef)
    case KwDefine =>
      if !rest.Cell? then Undef
      else if rest.car.Sym? then
        Cell(DefvarT, rest.car, if rest.cdr.Cell? then Analyze(rest.cdr.car) else Undef)
      else if PairP(rest.car) then
        Cell(DefunT, rest.car.car, Cons(rest.car.cdr, AnalyzeSequence(rest.cdr)))
      else Undef
    case _ => Undef
  }

  function AnalyzeIf(rest: Obj): Obj
    decreases rest, 1
  {
    if !PairP(rest) then Void
    else
      var pred := Analyze(rest.car);
      var p := rest.cdr;
      if !PairP(p) then (if p == Null then Undef else Void)
      else
        var cseq := Analyze(p.car);
        var q := p.cdr;
        if PairP(q) && q.cdr != Null then Void
        else if !PairP(q) && q != Null then Void
        else
          var alter := if PairP(q) then Analyze(q.car) else Null;
          if pred == Void || cseq == Void || alter == Void then Void
          else Cell(IfT, pred, Cons(cseq, alter))
  }

  lemma KeywordShape(key: Keyword, rest: Obj)
    ensures var r := AnalyzeKeyword(key, rest);
            if key == KwElse then r == Bool(true) else IsExpr(r) || r == Void || r == Undef
  {
  }

  /** Analysing twice is analysing once, except that `else` at the head of a form analyses to the
      true object, which a second analysis wraps. */
  lemma AnalyzeIdempotent(o: Obj)
    ensures Analyze(Analyze(o)) == Analyze(o) <==> Analyze(o) != Bool(true)
    ensures Analyze(o) == Bool(true) <==> PairP(o) && o.car.Sym? && FindKeyword(o.car.name) == KwElse
  {
    hide AnalyzeKeyword, FindKeyword, AnalyzeList;
    if PairP(o) && o.car.Sym? {
      KeywordShape(FindKeyword(o.car.name), o.cdr);
    }
  }
}
