/** Well-formed token sequences: what the token parsers make of them. */
module WellFormed {
  import opened Syntax
  import opened Parser

  /** The shape of a well-formed datum. */
  datatype Form =
    | Word(token: Token)
    | QuoteOf(form: Form)
    | ListOf(items: Forms)
    | DottedOf(items: Forms, point: Token, tail: Form)
    | VectorOf(items: Forms)

  datatype Forms = Empty | More(head: Form, rest: Forms)

  predicate IsBracket(kind: Kind) {
    kind == End || kind == LeftPar || kind == RightPar || kind == LeftSharpPar
  }

  predicate Good(f: Form)
    decreases f, 0
  {
    match f
    case Word(t) => !IsBracket(t.kind) && t.kind != Quote && t.kind != Point
    case QuoteOf(g) => Good(g)
    case ListOf(items) => GoodAll(items)
    case DottedOf(items, point, tail) => items.More? && GoodAll(items) && point.kind == Point && Good(tail)
    case VectorOf(items) => GoodSlots(items)
  }

  predicate GoodAll(fs: Forms)
    decreases fs, 0
  {
    match fs
    case Empty => true
    case More(f, rest) => Good(f) && GoodAll(rest)
  }

  /** In a vector a quote mark or a point is a datum by itself. */
  predicate GoodSlot(f: Form)
    decreases f, 1
  {
    match f
    case Word(t) => !IsBracket(t.kind)
    case QuoteOf(_) => false
    case _ => Good(f)
  }

  predicate GoodSlots(fs: Forms)
    decreases fs, 0
  {
    match fs
    case Empty => true
    case More(f, rest) => GoodSlot(f) && GoodSlots(rest)
  }

  function Toks(f: Form): (s: seq<Token>)
    ensures |s| > 0
  {
    match f
    case Word(t) => [t]
    case QuoteOf(g) => [Mark(Quote)] + Toks(g)
    case ListOf(items) => [Mark(LeftPar)] + (AllToks(items) + [Mark(RightPar)])
    case DottedOf(items, point, tail) =>
      [Mark(LeftPar)] + (AllToks(items) + ([point] + (Toks(tail) + [Mark(RightPar)])))
    case VectorOf(items) => [Mark(LeftSharpPar)] + (AllToks(items) + [Mark(RightPar)])
  }

  function AllToks(fs: Forms): seq<Token> {
    match fs
    case Empty => []
    case More(f, rest) => Toks(f) + AllToks(rest)
  }

  /** The datum a well-formed sequence stands for. */
  ghost function Meaning(f: Form): Datum {
    match f
    case Word(t) => ToObj(t)
    case QuoteOf(g) => Quoted(Meaning(g))
    case ListOf(items) => Chain(Meanings(items), Null)
    case DottedOf(items, _, tail) => Chain(Meanings(items), Meaning(tail))
    case VectorOf(items) => Vector(|Meanings(items)|, Meanings(items))
  }

  ghost function Meanings(fs: Forms): seq<Datum> {
    match fs
    case Empty => []
    case More(f, rest) => [Meaning(f)] + Meanings(rest)
  }

  /** The tokens s are in toks from k on. */
  ghost predicate Has(toks: seq<Token>, k: nat, s: seq<Token>) {
    k + |s| <= |toks| && toks[k..k + |s|] == s
  }

  lemma HasParts(toks: seq<Token>, k: nat, a: seq<Token>, b: seq<Token>)
    requires Has(toks, k, a + b)
    ensures Has(toks, k, a) && Has(toks, k + |a|, b)
    ensures a != [] ==> k < |toks| && toks[k] == a[0]
  {
    var s := toks[k..k + |a| + |b|];
    assert toks[k..k + |a|] == s[..|a|] == a;
    assert toks[k + |a|..k + |a| + |b|] == s[|a|..] == b;
    if a != [] {
      assert toks[k] == s[0];
    }
  }

  lemma HasOne(toks: seq<Token>, k: nat, t: Token)
    requires Has(toks, k, [t])
    ensures k < |toks| && toks[k] == t
  {
    assert toks[k..k + 1][0] == toks[k];
  }

  // ---- One turn of each loop -----------------------------------------------------------------

  lemma ListTurn(toks: seq<Token>, k: nat, l: Building)
    requires k < |toks| && !Closes(toks[k].kind) && toks[k].kind != Point && CanExtend(l)
    ensures var (car, k1) := ParseNested(toks, k);
            ParseList(toks, k, l) == ParseList(toks, k1, Extend(l, car))
  {
  }

  lemma ListPoint(toks: seq<Token>, k: nat, l: Building)
    requires k < |toks| && toks[k].kind == Point && !l.dotted
    ensures ParseList(toks, k, l) == ParseList(toks, k + 1, l.(dotted := true))
  {
  }

  lemma ListEnd(toks: seq<Token>, k: nat, l: Building)
    requires k < |toks| && toks[k].kind == RightPar
    ensures ParseList(toks, k, l) == (Chain(l.items, l.tail), k + 1)
  {
  }

  lemma CountOpen(toks: seq<Token>, k: nat, par: nat)
    requires k < |toks| && (toks[k].kind == LeftPar || toks[k].kind == LeftSharpPar)
    ensures CountSlots(toks, k, par) == CountSlots(toks, k + 1, par + 1)
  {
  }

  lemma CountClose(toks: seq<Token>, k: nat, par: nat)
    requires k < |toks| && toks[k].kind == RightPar
    ensures CountSlots(toks, k, par + 1) == (if par == 0 then 1 else 0) + CountSlots(toks, k + 1, par)
  {
  }

  lemma CountWord(toks: seq<Token>, k: nat, par: nat)
    requires k < |toks| && !IsBracket(toks[k].kind)
    ensures CountSlots(toks, k, par) == (if par == 0 then 1 else 0) + CountSlots(toks, k + 1, par)
  {
  }

  /** The definitions at one form. */
  lemma Unfold(f: Form)
    ensures match f
      case Word(t) =>
        Toks(f) == [t] && Meaning(f) == ToObj(t) && (GoodSlot(f) <==> !IsBracket(t.kind)) &&
        (Good(f) <==> !IsBracket(t.kind) && t.kind != Quote && t.kind != Point)
      case QuoteOf(g) =>
        Toks(f) == [Mark(Quote)] + Toks(g) && Meaning(f) == Quoted(Meaning(g)) && (Good(f) <==> Good(g)) && !GoodSlot(f)
      case ListOf(items) =>
        Toks(f) == [Mark(LeftPar)] + (AllToks(items) + [Mark(RightPar)]) &&
        Meaning(f) == Chain(Meanings(items), Null) && (Good(f) <==> GoodAll(items)) && GoodSlot(f) == Good(f)
      case DottedOf(items, point, tail) =>
        Toks(f) == [Mark(LeftPar)] + (AllToks(items) + ([point] + (Toks(tail) + [Mark(RightPar)]))) &&
        Meaning(f) == Chain(Meanings(items), Meaning(tail)) && GoodSlot(f) == Good(f) &&
        (Good(f) <==> items.More? && GoodAll(items) && point.kind == Point && Good(tail))
      case VectorOf(items) =>
        Toks(f) == [Mark(LeftSharpPar)] + (AllToks(items) + [Mark(RightPar)]) &&
        Meaning(f) == Vector(|Meanings(items)|, Meanings(items)) &&
        (Good(f) <==> GoodSlots(items)) && GoodSlot(f) == Good(f)
  {
  }

  /** The definitions at a list of forms. */
  lemma UnfoldAll(fs: Forms)
    ensures match fs
      case Empty => AllToks(fs) == [] && Meanings(fs) == []
      case More(f, rest) =>
        AllToks(fs) == Toks(f) + AllToks(rest) && Meanings(fs) == [Meaning(f)] + Meanings(rest) &&
        (GoodAll(fs) <==> Good(f) && GoodAll(rest)) && (GoodSlots(fs) <==> GoodSlot(f) && GoodSlots(rest))
  {
  }

  lemma Basics()
    ensures !IsBracket(Quote) && !IsBracket(Point) && !IsBracket(True) && NOTHING == Building([], false, Null, false)
    ensures forall kind :: Mark(kind).kind == kind
  {
  }

  // ---- Each parser takes exactly its datum ---------------------------------------------------

  /** An element of a list is parsed to its value, and the cursor is left right behind it. */
  lemma {:induction false} ParsesForm(f: Form, toks: seq<Token>, k: nat)
    requires Good(f) && Has(toks, k, Toks(f))
    ensures k < |toks| && !Closes(toks[k].kind) && toks[k].kind != Point
    ensures ParseNested(toks, k) == (Meaning(f), k + |Toks(f)|)
    decreases f, 1
  {
    hide *;
    Unfold(f);
    match f
    case Word(t) =>
      HasOne(toks, k, t);
      NestedWord(toks, k);
    case QuoteOf(g) =>
      HasParts(toks, k, [Mark(Quote)], Toks(g));
      ParsesForm(g, toks, k + 1);
      NestedQuote(toks, k);
    case ListOf(items) =>
      HasParts(toks, k, [Mark(LeftPar)], AllToks(items) + [Mark(RightPar)]);
      HasParts(toks, k + 1, AllToks(items), [Mark(RightPar)]);
      ParsesProper(items, toks, k + 1);
      NestedBracket(toks, k);
    case DottedOf(items, point, tail) =>
      ParsesDotted(f, toks, k);
      NestedBracket(toks, k);
    case VectorOf(items) =>
      HasParts(toks, k, [Mark(LeftSharpPar)], AllToks(items) + [Mark(RightPar)]);
      HasParts(toks, k + 1, AllToks(items), [Mark(RightPar)]);
      ParsesVector(items, toks, k + 1);
      NestedBracket(toks, k);
  }

  lemma NestedWord(toks: seq<Token>, k: nat)
    requires k < |toks| && !IsBracket(toks[k].kind) && toks[k].kind != Quote && toks[k].kind != Point
    ensures ParseNested(toks, k) == (ToObj(toks[k]), k + 1) && !Closes(toks[k].kind)
  {
  }

  /** What _create_quoted takes is what a list takes as an element. */
  lemma NestedQuote(toks: seq<Token>, k: nat)
    requires k + 1 < |toks| && toks[k] == Mark(Quote) && !Closes(toks[k + 1].kind)
    ensures var (text, k1) := ParseNested(toks, k + 1);
            ParseNested(toks, k) == (Quoted(text), k1) && !Closes(toks[k].kind) && toks[k].kind != Point
  {
  }

  lemma NestedBracket(toks: seq<Token>, k: nat)
    requires k < |toks|
    ensures toks[k] == Mark(LeftPar) ==>
      ParseNested(toks, k) == ParseList(toks, k + 1, NOTHING) && ParseSlot(toks, k) == ParseNested(toks, k) &&
      !Closes(toks[k].kind) && toks[k].kind != Point
    ensures toks[k] == Mark(LeftSharpPar) ==>
      ParseNested(toks, k) == ParseVector(toks, k + 1) && ParseSlot(toks, k) == ParseNested(toks, k) &&
      !Closes(toks[k].kind) && toks[k].kind != Point
  {
  }

  /** The parts of a dotted list: the elements, the point, the tail, the parenthesis. */
  lemma DottedParts(f: Form, toks: seq<Token>, k: nat) returns (k1: nat, k2: nat)
    requires f.DottedOf? && Has(toks, k, Toks(f))
    ensures k < |toks| && toks[k] == Mark(LeftPar)
    ensures Has(toks, k + 1, AllToks(f.items)) && k1 == k + 1 + |AllToks(f.items)|
    ensures k1 < |toks| && toks[k1] == f.point
    ensures Has(toks, k1 + 1, Toks(f.tail)) && k2 == k1 + 1 + |Toks(f.tail)|
    ensures k2 < |toks| && toks[k2] == Mark(RightPar) && k2 + 1 == k + |Toks(f)|
  {
    hide *;
    Unfold(f);
    k1 := k + 1 + |AllToks(f.items)|;
    k2 := k1 + 1 + |Toks(f.tail)|;
    FiveParts(toks, k, Mark(LeftPar), AllToks(f.items), f.point, Toks(f.tail), Mark(RightPar));
  }

  lemma FiveParts(toks: seq<Token>, k: nat, a: Token, b: seq<Token>, c: Token, d: seq<Token>, e: Token)
    requires Has(toks, k, [a] + (b + ([c] + (d + [e]))))
    ensures k < |toks| && toks[k] == a && Has(toks, k + 1, b)
    ensures k + 1 + |b| < |toks| && toks[k + 1 + |b|] == c && Has(toks, k + 2 + |b|, d)
    ensures k + 2 + |b| + |d| < |toks| && toks[k + 2 + |b| + |d|] == e
  {
    hide Has;
    HasParts(toks, k, [a], b + ([c] + (d + [e])));
    HasParts(toks, k + 1, b, [c] + (d + [e]));
    HasParts(toks, k + 1 + |b|, [c], d + [e]);
    HasParts(toks, k + 2 + |b|, d, [e]);
    HasOne(toks, k + 2 + |b| + |d|, e);
  }

  lemma ParsesDotted(f: Form, toks: seq<Token>, k: nat)
    requires f.DottedOf? && Good(f) && Has(toks, k, Toks(f))
    ensures k < |toks| && toks[k] == Mark(LeftPar)
    ensures ParseList(toks, k + 1, NOTHING) == (Meaning(f), k + |Toks(f)|)
    decreases f, 0
  {
    hide *;
    Unfold(f);
    Basics();
    var (items, point, tail) := (f.items, f.point, f.tail);
    var k1, k2 := DottedParts(f, toks, k);
    ParsesItems(items, toks, k + 1, NOTHING);
    ParsesForm(tail, toks, k1 + 1);
    var l := NOTHING.(items := Meanings(items));
    assert [] + Meanings(items) == Meanings(items);
    UnfoldAll(items);
    ListPoint(toks, k1, l);
    TailExtends(l, Meaning(tail));
    ListTurn(toks, k1 + 1, l.(dotted := true));
    ListEnd(toks, k2, Extend(l.(dotted := true), Meaning(tail)));
  }

  /** Two data behind the point: the second becomes the cdr of the first, if that is a pair, and otherwise
      the list is given up. */
  lemma SecondTail(items: Forms, point: Token, p: Form, q: Form, toks: seq<Token>, k: nat)
    requires items.More? && GoodAll(items) && point.kind == Point && Good(p) && Good(q)
    requires Has(toks, k, AllToks(items)) && Has(toks, k + |AllToks(items)|, [point])
    requires Has(toks, k + |AllToks(items)| + 1, Toks(p))
    requires Has(toks, k + |AllToks(items)| + 1 + |Toks(p)|, Toks(q))
    requires Has(toks, k + |AllToks(items)| + 1 + |Toks(p)| + |Toks(q)|, [Mark(RightPar)])
    ensures var k3 := k + |AllToks(items)| + 1 + |Toks(p)| + |Toks(q)|;
            ParseList(toks, k, NOTHING) ==
            if Meaning(p).Pair? then (Chain(Meanings(items) + [Meaning(p).car], Meaning(q)), k3 + 1) else (Void, k3)
  {
    hide *;
    Basics();
    UnfoldAll(items);
    var k1 := k + |AllToks(items)|;
    var k2 := k1 + 1 + |Toks(p)|;
    var k3 := k2 + |Toks(q)|;
    HasOne(toks, k1, point);
    HasOne(toks, k3, Mark(RightPar));
    ParsesItems(items, toks, k, NOTHING);
    var l := NOTHING.(items := Meanings(items));
    assert [] + Meanings(items) == Meanings(items);
    ListPoint(toks, k1, l);
    TailExtends(l, Meaning(p));
    ParsesForm(p, toks, k1 + 1);
    ListTurn(toks, k1 + 1, l.(dotted := true));
    var l1 := Building(Meanings(items), true, Meaning(p), true);
    ParsesForm(q, toks, k2);
    TailAgain(l1, Meaning(q));
    if Meaning(p).Pair? {
      ListTurn(toks, k2, l1);
      ListEnd(toks, k3, Extend(l1, Meaning(q)));
    } else {
      ListGivesUp(toks, k2, l1);
    }
  }

  lemma TailAgain(l: Building, d: Datum)
    requires l.items != [] && l.dotted && l.tailed
    ensures CanExtend(l) <==> l.tail.Pair?
    ensures l.tail.Pair? ==> Extend(l, d) == Building(l.items + [l.tail.car], true, d, true)
  {
  }

  lemma ListGivesUp(toks: seq<Token>, k: nat, l: Building)
    requires k < |toks| && !Closes(toks[k].kind) && toks[k].kind != Point && !CanExtend(l)
    ensures ParseList(toks, k, l) == (Void, ParseNested(toks, k).1)
  {
  }

  lemma TailExtends(l: Building, tail: Datum)
    requires l.items != [] && !l.tailed
    ensures CanExtend(l.(dotted := true))
    ensures Extend(l.(dotted := true), tail) == Building(l.items, true, tail, true)
  {
  }

  lemma ItemExtends(l: Building, car: Datum)
    requires !l.dotted
    ensures CanExtend(l) && Extend(l, car) == l.(items := l.items + [car])
  {
  }

  lemma ParsesProper(fs: Forms, toks: seq<Token>, k: nat)
    requires GoodAll(fs) && Has(toks, k, AllToks(fs)) && Has(toks, k + |AllToks(fs)|, [Mark(RightPar)])
    ensures ParseList(toks, k, NOTHING) == (Chain(Meanings(fs), Null), k + |AllToks(fs)| + 1)
    decreases fs, 1
  {
    hide *;
    Basics();
    HasOne(toks, k + |AllToks(fs)|, Mark(RightPar));
    ParsesItems(fs, toks, k, NOTHING);
    assert [] + Meanings(fs) == Meanings(fs);
    ListEnd(toks, k + |AllToks(fs)|, NOTHING.(items := Meanings(fs)));
  }

  lemma {:induction false} ParsesItems(fs: Forms, toks: seq<Token>, k: nat, l: Building)
    requires GoodAll(fs) && Has(toks, k, AllToks(fs)) && !l.dotted
    ensures ParseList(toks, k, l) == ParseList(toks, k + |AllToks(fs)|, l.(items := l.items + Meanings(fs)))
    decreases fs, 0
  {
    hide *;
    UnfoldAll(fs);
    match fs
    case Empty =>
      assert l.items + [] == l.items;
    case More(f, rest) =>
      HasParts(toks, k, Toks(f), AllToks(rest));
      ParsesForm(f, toks, k);
      ItemExtends(l, Meaning(f));
      var l1 := l.(items := l.items + [Meaning(f)]);
      ListTurn(toks, k, l);
      ParsesItems(rest, toks, k + |Toks(f)|, l1);
      assert l1.items + Meanings(rest) == l.items + Meanings(fs);
  }

  /** The counting pass finds as many slots as the filling pass fills. */
  lemma ParsesVector(fs: Forms, toks: seq<Token>, k: nat)
    requires GoodSlots(fs) && Has(toks, k, AllToks(fs)) && Has(toks, k + |AllToks(fs)|, [Mark(RightPar)])
    ensures ParseVector(toks, k) == (Vector(|Meanings(fs)|, Meanings(fs)), k + |AllToks(fs)| + 1)
    decreases fs, 1
  {
    hide *;
    HasOne(toks, k + |AllToks(fs)|, Mark(RightPar));
    ParsesSlots(fs, toks, k, []);
    assert [] + Meanings(fs) == Meanings(fs);
    CountsSlots(fs, toks, k);
    SlotsEnd(toks, k + |AllToks(fs)|, Meanings(fs));
    VectorIs(toks, k);
  }

  lemma SlotsEnd(toks: seq<Token>, k: nat, slots: seq<Datum>)
    requires k < |toks| && toks[k] == Mark(RightPar)
    ensures ParseSlots(toks, k, slots) == (slots, k + 1) && CountSlots(toks, k, 0) == 0
  {
    assert CountSlots(toks, k + 1, -1) == 0;
  }

  lemma VectorIs(toks: seq<Token>, k: nat)
    ensures ParseVector(toks, k) ==
      (Vector(CountSlots(toks, k, 0), ParseSlots(toks, k, []).0), ParseSlots(toks, k, []).1)
  {
  }

  lemma SlotTurn(toks: seq<Token>, k: nat, slots: seq<Datum>)
    requires k < |toks| && !Closes(toks[k].kind)
    ensures var (slot, k1) := ParseSlot(toks, k);
            ParseSlots(toks, k, slots) == ParseSlots(toks, k1, slots + [slot])
  {
  }

  /** A slot of a vector is parsed like an element of a list, or is a word of its own. */
  lemma ParsesSlot(f: Form, toks: seq<Token>, k: nat)
    requires GoodSlot(f) && Has(toks, k, Toks(f))
    ensures k < |toks| && !Closes(toks[k].kind) && ParseSlot(toks, k) == (Meaning(f), k + |Toks(f)|)
    decreases f, 2
  {
    hide *;
    Unfold(f);
    if f.Word? {
      HasOne(toks, k, f.token);
      SlotWord(toks, k);
    } else {
      ParsesForm(f, toks, k);
      OpensForm(f, toks, k);
      NestedBracket(toks, k);
    }
  }

  lemma SlotWord(toks: seq<Token>, k: nat)
    requires k < |toks| && !IsBracket(toks[k].kind)
    ensures ParseSlot(toks, k) == (ToObj(toks[k]), k + 1) && !Closes(toks[k].kind)
  {
  }

  lemma OpensForm(f: Form, toks: seq<Token>, k: nat)
    requires (f.ListOf? || f.DottedOf? || f.VectorOf?) && Has(toks, k, Toks(f))
    ensures k < |toks| && (toks[k] == Mark(LeftPar) || toks[k] == Mark(LeftSharpPar))
  {
    hide *;
    Unfold(f);
    assert Toks(f) == Toks(f)[..1] + Toks(f)[1..];
    HasParts(toks, k, Toks(f)[..1], Toks(f)[1..]);
  }

  lemma {:induction false} ParsesSlots(fs: Forms, toks: seq<Token>, k: nat, slots: seq<Datum>)
    requires GoodSlots(fs) && Has(toks, k, AllToks(fs))
    ensures ParseSlots(toks, k, slots) == ParseSlots(toks, k + |AllToks(fs)|, slots + Meanings(fs))
    decreases fs, 0
  {
    hide *;
    UnfoldAll(fs);
    match fs
    case Empty =>
      assert slots + [] == slots;
    case More(f, rest) =>
      HasParts(toks, k, Toks(f), AllToks(rest));
      ParsesSlot(f, toks, k);
      SlotTurn(toks, k, slots);
      ParsesSlots(rest, toks, k + |Toks(f)|, slots + [Meaning(f)]);
      assert slots + [Meaning(f)] + Meanings(rest) == slots + Meanings(fs);
  }

  // ---- The counting pass ---------------------------------------------------------------------

  lemma {:induction false} CountsSlots(fs: Forms, toks: seq<Token>, k: nat)
    requires GoodSlots(fs) && Has(toks, k, AllToks(fs))
    ensures CountSlots(toks, k, 0) == |Meanings(fs)| + CountSlots(toks, k + |AllToks(fs)|, 0)
  {
    hide *;
    UnfoldAll(fs);
    match fs
    case Empty =>
    case More(f, rest) =>
      HasParts(toks, k, Toks(f), AllToks(rest));
      CountsForm(f, toks, k, 0);
      CountsSlots(rest, toks, k + |Toks(f)|);
  }

  /** A datum at depth 0 counts as one slot, and inside a datum as none. */
  lemma {:induction false} CountsForm(f: Form, toks: seq<Token>, k: nat, par: nat)
    requires Has(toks, k, Toks(f)) && if par == 0 then GoodSlot(f) else Good(f) || GoodSlot(f)
    ensures CountSlots(toks, k, par) == (if par == 0 then 1 else 0) + CountSlots(toks, k + |Toks(f)|, par)
    decreases f, 1
  {
    hide *;
    Unfold(f);
    match f
    case Word(t) =>
      HasOne(toks, k, t);
      CountWord(toks, k, par);
    case QuoteOf(g) =>
      HasParts(toks, k, [Mark(Quote)], Toks(g));
      Basics();
      CountWord(toks, k, par);
      CountsForm(g, toks, k + 1, par);
    case ListOf(items) =>
      CountsBracketed(f, items, Mark(LeftPar), toks, k, par);
    case DottedOf(items, point, tail) =>
      CountsDotted(f, toks, k, par);
    case VectorOf(items) =>
      CountsBracketed(f, items, Mark(LeftSharpPar), toks, k, par);
  }

  lemma CountsBracketed(f: Form, items: Forms, open: Token, toks: seq<Token>, k: nat, par: nat)
    requires Toks(f) == [open] + (AllToks(items) + [Mark(RightPar)])
    requires (GoodAll(items) || GoodSlots(items)) && items < f
    requires (open == Mark(LeftPar) || open == Mark(LeftSharpPar)) && Has(toks, k, Toks(f))
    ensures CountSlots(toks, k, par) == (if par == 0 then 1 else 0) + CountSlots(toks, k + |Toks(f)|, par)
    decreases f, 0
  {
    hide *;
    Basics();
    HasParts(toks, k, [open], AllToks(items) + [Mark(RightPar)]);
    HasParts(toks, k + 1, AllToks(items), [Mark(RightPar)]);
    HasOne(toks, k + 1 + |AllToks(items)|, Mark(RightPar));
    CountOpen(toks, k, par);
    CountsInside(items, toks, k + 1, par + 1);
    CountClose(toks, k + 1 + |AllToks(items)|, par);
  }

  lemma CountsDotted(f: Form, toks: seq<Token>, k: nat, par: nat)
    requires f.DottedOf? && Good(f) && Has(toks, k, Toks(f))
    ensures CountSlots(toks, k, par) == (if par == 0 then 1 else 0) + CountSlots(toks, k + |Toks(f)|, par)
    decreases f, 0
  {
    hide *;
    Unfold(f);
    Basics();
    var k1, k2 := DottedParts(f, toks, k);
    CountOpen(toks, k, par);
    CountsInside(f.items, toks, k + 1, par + 1);
    CountWord(toks, k1, par + 1);
    CountsForm(f.tail, toks, k1 + 1, par + 1);
    CountClose(toks, k2, par);
  }

  lemma {:induction false} CountsInside(fs: Forms, toks: seq<Token>, k: nat, par: nat)
    requires par > 0 && (GoodAll(fs) || GoodSlots(fs)) && Has(toks, k, AllToks(fs))
    ensures CountSlots(toks, k, par) == CountSlots(toks, k + |AllToks(fs)|, par)
    decreases fs, 0
  {
    hide *;
    UnfoldAll(fs);
    match fs
    case Empty =>
    case More(f, rest) =>
      HasParts(toks, k, Toks(f), AllToks(rest));
      CountsForm(f, toks, k, par);
      CountsInside(rest, toks, k + |Toks(f)|, par);
  }

  // ---- The whole reader ----------------------------------------------------------------------

  /** read makes the value of a well-formed datum of the tokens that begin with it. */
  lemma ParsesTop(f: Form, toks: seq<Token>)
    requires Good(f) && Has(toks, 0, Toks(f))
    ensures ParseTop(toks) == Meaning(f)
  {
    hide Has, Good, Toks, Meaning, ParseList, ParseVector, ParseQuoted;
    ParsesForm(f, toks, 0);
  }

  /** In a list that begins with a point the parser gives up before its end, so that a vector around
      it is filled with more slots than were counted. */
  lemma OverfilledVector()
    ensures exists toks :: var d := ParseVector(toks, 0).0; d.len == 1 && |d.slots| == 4
  {
    var a := Token(True, "");
    var toks := [Mark(LeftPar), Token(Point, "."), a, a, a, a, Mark(RightPar), Mark(RightPar)];
    var s := [Void, Bool(true), Bool(true), Bool(true)];
    OverfilledSlots(toks, a, s);
    OverfilledCount(toks, a);
    VectorIs(toks, 0);
    assert ParseVector(toks, 0).0 == Vector(1, s);
  }

  lemma OverfilledSlots(toks: seq<Token>, a: Token, s: seq<Datum>)
    requires a == Token(True, "")
    requires toks == [Mark(LeftPar), Token(Point, "."), a, a, a, a, Mark(RightPar), Mark(RightPar)]
    requires s == [Void, Bool(true), Bool(true), Bool(true)]
    ensures ParseSlots(toks, 0, []) == (s, 7)
  {
    hide *;
    GivesUp(toks, a);
    assert toks[0] == Mark(LeftPar) && toks[6] == Mark(RightPar);
    NestedBracket(toks, 0);
    SlotTurn(toks, 0, []);
    var t := Bool(true);
    assert [] + [Void] == [Void] && [Void] + [t] == [Void, t] && [Void, t] + [t] == [Void, t, t];
    assert [Void, t, t] + [t] == s;
    TrueSlot(toks, 3, [Void]);
    TrueSlot(toks, 4, [Void, Bool(true)]);
    TrueSlot(toks, 5, [Void, Bool(true), Bool(true)]);
    SlotsEnd(toks, 6, s);
  }

  lemma GivesUp(toks: seq<Token>, a: Token)
    requires a == Token(True, "") && |toks| > 3
    requires toks[0] == Mark(LeftPar) && toks[1] == Token(Point, ".") && toks[2] == a
    ensures ParseList(toks, 1, NOTHING) == (Void, 3)
  {
    hide ParseSlots, ParseVector, ParseQuoted, Extend;
    var l := NOTHING.(dotted := true);
    ListPoint(toks, 1, NOTHING);
    assert ParseNested(toks, 2) == (Bool(true), 3);
    assert ParseList(toks, 2, l) == (Void, 3);
  }

  lemma TrueSlot(toks: seq<Token>, k: nat, slots: seq<Datum>)
    requires k < |toks| && toks[k] == Token(True, "")
    ensures ParseSlots(toks, k, slots) == ParseSlots(toks, k + 1, slots + [Bool(true)])
  {
    hide ParseSlots, ParseSlot;
    SlotWord(toks, k);
    SlotTurn(toks, k, slots);
  }

  lemma OverfilledCount(toks: seq<Token>, a: Token)
    requires a == Token(True, "")
    requires toks == [Mark(LeftPar), Token(Point, "."), a, a, a, a, Mark(RightPar), Mark(RightPar)]
    ensures CountSlots(toks, 0, 0) == 1
  {
    hide *;
    Basics();
    CountOpen(toks, 0, 0);
    CountWord(toks, 1, 1);
    CountWord(toks, 2, 1);
    CountWord(toks, 3, 1);
    CountWord(toks, 4, 1);
    CountWord(toks, 5, 1);
    CountClose(toks, 6, 0);
    SlotsEnd(toks, 7, []);
  }

  /** Or of fewer: the parser gives up before the parenthesis that closes the inner list, takes it for the
      vector's own, and leaves three slots as they were allocated. */
  lemma UnderfilledVector()
    ensures exists toks :: ParseVector(toks, 0).0 == Vector(4, [Void])
  {
    var a := Token(True, "");
    var toks := [Mark(LeftPar), Token(Point, "."), a, Mark(RightPar), a, a, a, Mark(RightPar)];
    UnderfilledSlots(toks, a);
    UnderfilledCount(toks, a);
    VectorIs(toks, 0);
    assert ParseVector(toks, 0).0 == Vector(4, [Void]);
  }

  lemma UnderfilledSlots(toks: seq<Token>, a: Token)
    requires a == Token(True, "")
    requires toks == [Mark(LeftPar), Token(Point, "."), a, Mark(RightPar), a, a, a, Mark(RightPar)]
    ensures ParseSlots(toks, 0, []) == ([Void], 4)
  {
    hide *;
    GivesUp(toks, a);
    assert toks[0] == Mark(LeftPar) && toks[3] == Mark(RightPar);
    NestedBracket(toks, 0);
    SlotTurn(toks, 0, []);
    assert [] + [Void] == [Void];
    SlotsEnd(toks, 3, [Void]);
  }

  lemma UnderfilledCount(toks: seq<Token>, a: Token)
    requires a == Token(True, "")
    requires toks == [Mark(LeftPar), Token(Point, "."), a, Mark(RightPar), a, a, a, Mark(RightPar)]
    ensures CountSlots(toks, 0, 0) == 4
  {
    hide *;
    Basics();
    CountOpen(toks, 0, 0);
    CountWord(toks, 1, 1);
    CountWord(toks, 2, 1);
    CountClose(toks, 3, 0);
    CountWord(toks, 4, 0);
    CountWord(toks, 5, 0);
    CountWord(toks, 6, 0);
    SlotsEnd(toks, 7, []);
  }
}
