/** What the printers write, the reader reads back (kscm/scheme/read.c, display.c). */
module RoundTrip {
  import opened CStrings
  import opened Decimal
  import Number
  import opened Syntax
  import opened Scanner
  import opened Parser
  import opened WellFormed
  import opened Printer

  /** The alphabet of the words that the scanner takes whole. */
  predicate PlainChar(c: char) {
    IsPrint(c) && c !in " ()\"'`,@.\\"
  }

  predicate PlainWord(w: string) {
    w != "" && w[0] != '#' && forall i | 0 <= i < |w| :: PlainChar(w[i])
  }

  predicate NumberChar(c: char) {
    IsDigit(c) || c == '#'
  }

  /** A word of digits and # alone is a number to the scanner, any other plain word a symbol. */
  function KindOf(w: string): Kind {
    if forall i | 0 <= i < |w| :: NumberChar(w[i]) then NumberWord else SymbolWord
  }

  predicate IsName(w: string) {
    PlainWord(w) && exists i | 0 <= i < |w| :: !NumberChar(w[i])
  }

  /** The data that are read back. */
  ghost predicate Readable(d: Datum) {
    match d
    case Null => true
    case Bool(_) => true
    case Int(n) => 0 <= n <= INT_MAX
    case Sym(name) => IsName(name)
    case Pair(car, cdr) => Readable(car) && Readable(cdr)
    case Vector(len, slots) => len == |slots| > 0 && forall i | 0 <= i < |slots| :: Readable(slots[i])
    case _ => false
  }

  // ---- The shape of a datum ------------------------------------------------------------------

  ghost function FormOf(d: Datum): Form
    requires Readable(d)
    decreases d
  {
    match d
    case Null => ListOf(Empty)
    case Bool(b) => Word(Mark(if b then True else False))
    case Int(n) => Word(Token(NumberWord, Numeral(n)))
    case Sym(name) => Word(Token(SymbolWord, name))
    case Pair(_, _) =>
      var last := LastCdr(d);
      if last.Null? then ListOf(ItemForms(d)) else DottedOf(ItemForms(d), Token(Point, "."), FormOf(last))
    case Vector(_, _) => VectorOf(SlotForms(d, 0))
  }

  /** What follows the last pair of a list. */
  ghost function LastCdr(d: Datum): (r: Datum)
    requires Readable(d) && d.Pair?
    ensures r < d && Readable(r) && !r.Pair?
  {
    if d.cdr.Pair? then LastCdr(d.cdr) else d.cdr
  }

  ghost function ItemForms(d: Datum): (r: Forms)
    requires Readable(d) && d.Pair?
    ensures r.More?
    decreases d, 0
  {
    More(FormOf(d.car), if d.cdr.Pair? then ItemForms(d.cdr) else Empty)
  }

  ghost function SlotForms(d: Datum, i: nat): Forms
    requires Readable(d) && d.Vector? && i <= |d.slots|
    decreases d, |d.slots| - i
  {
    if i == |d.slots| then Empty else More(FormOf(d.slots[i]), SlotForms(d, i + 1))
  }

  lemma {:induction false} FormOfGood(d: Datum)
    requires Readable(d)
    ensures Good(FormOf(d)) && GoodSlot(FormOf(d)) && Meaning(FormOf(d)) == d
    decreases d, 1
  {
    if d.Pair? {
      ItemFormsGood(d);
      if !LastCdr(d).Null? {
        FormOfGood(LastCdr(d));
      }
      PairFormGood(d);
    } else if d.Vector? {
      SlotFormsGood(d, 0);
      VectorFormGood(d);
    } else {
      AtomFormGood(d);
    }
  }

  lemma AtomFormGood(d: Datum)
    requires Readable(d) && !d.Pair? && !d.Vector?
    ensures Good(FormOf(d)) && GoodSlot(FormOf(d)) && Meaning(FormOf(d)) == d
  {
    if d.Int? {
      IntFormGood(d.n);
    }
  }

  lemma IntFormGood(n: int)
    requires 0 <= n <= INT_MAX
    ensures FormOf(Int(n)) == Word(Token(NumberWord, Numeral(n)))
    ensures Good(FormOf(Int(n))) && GoodSlot(FormOf(Int(n))) && Meaning(FormOf(Int(n))) == Int(n)
  {
    hide Numeral, Number.AtoiValue;
    Number.AtoiOfNumeral(n);
  }

  lemma PairFormGood(d: Datum)
    requires Readable(d) && d.Pair? && GoodAll(ItemForms(d)) && Chain(Meanings(ItemForms(d)), LastCdr(d)) == d
    requires var last := LastCdr(d); last.Null? || (Good(FormOf(last)) && Meaning(FormOf(last)) == last)
    ensures Good(FormOf(d)) && GoodSlot(FormOf(d)) && Meaning(FormOf(d)) == d
  {
    hide Chain, Meanings, ItemForms, LastCdr, GoodAll, Good, GoodSlot, Meaning, Readable;
    Unfold(FormOf(d));
  }

  lemma VectorFormGood(d: Datum)
    requires Readable(d) && d.Vector? && GoodSlots(SlotForms(d, 0)) && Meanings(SlotForms(d, 0)) == d.slots[0..]
    ensures Good(FormOf(d)) && GoodSlot(FormOf(d)) && Meaning(FormOf(d)) == d
  {
    hide Meanings, SlotForms, GoodSlots, Good, GoodSlot, Meaning;
    Unfold(FormOf(d));
    assert d.slots[0..] == d.slots;
  }

  lemma {:induction false} ItemFormsGood(d: Datum)
    requires Readable(d) && d.Pair?
    ensures GoodAll(ItemForms(d)) && Chain(Meanings(ItemForms(d)), LastCdr(d)) == d
    decreases d, 0
  {
    FormOfGood(d.car);
    if d.cdr.Pair? {
      ItemFormsGood(d.cdr);
      var vs := Meanings(ItemForms(d));
      assert vs[1..] == Meanings(ItemForms(d.cdr));
    }
  }

  lemma {:induction false} SlotFormsGood(d: Datum, i: nat)
    requires Readable(d) && d.Vector? && i <= |d.slots|
    ensures GoodSlots(SlotForms(d, i)) && Meanings(SlotForms(d, i)) == d.slots[i..]
    decreases d, 0, |d.slots| - i
  {
    if i < |d.slots| {
      FormOfGood(d.slots[i]);
      SlotFormsGood(d, i + 1);
      assert d.slots[i..] == [d.slots[i]] + d.slots[i + 1..];
    }
  }

  // ---- Scanning ------------------------------------------------------------------------------

  /** The text s is in the input from pos on. */
  ghost predicate Lies(input: string, pos: nat, s: string) {
    pos + |s| <= |input| && input[pos..pos + |s|] == s
  }

  lemma LiesParts(input: string, pos: nat, a: string, b: string)
    requires Lies(input, pos, a + b)
    ensures Lies(input, pos, a) && Lies(input, pos + |a|, b)
    ensures a != "" ==> At(input, pos) == a[0]
  {
    var s := input[pos..pos + |a| + |b|];
    assert input[pos..pos + |a|] == s[..|a|] == a;
    assert input[pos + |a|..pos + |a| + |b|] == s[|a|..] == b;
    if a != "" {
      assert input[pos] == s[0];
    }
  }

  lemma LiesAt(input: string, pos: nat, s: string, i: nat)
    requires Lies(input, pos, s) && i < |s|
    ensures At(input, pos + i) == s[i]
  {
    assert input[pos..pos + |s|][i] == input[pos + i];
  }

  /** Between words, with no decimal point seen. */
  predicate Between(x: Lex) {
    !x.inWord && x.word == Mark(End) && !x.isFloat && !x.finished
  }

  function Plus(x: Lex, toks: seq<Token>): Lex {
    x.(made := x.made + toks)
  }

  /** The state behind a datum and a blank. */
  ghost function Next(x: Lex, d: Datum): (y: Lex)
    requires Readable(d)
    ensures y == Plus(x, Toks(FormOf(d)))
    ensures Between(x) ==> Between(y) && y.stack == x.stack
  {
    Plus(x, Toks(FormOf(d)))
  }

  /** y has scanned the tokens behind those of x, perhaps not yet ended the last. */
  ghost predicate Past(x: Lex, y: Lex, toks: seq<Token>) {
    Close(y) == Plus(x, toks)
  }

  lemma PartsReadable(d: Datum)
    requires Readable(d) && Printable(d)
    ensures d.Pair? ==> Readable(d.car) && Printable(d.car) && Readable(d.cdr) && Printable(d.cdr)
    ensures d.Pair? && d.cdr.Pair? ==> Bracketed(d.cdr)
    ensures d.Vector? ==> forall i | 0 <= i < |d.slots| :: Readable(d.slots[i]) && Printable(d.slots[i])
  {
  }

  lemma PastPlus(x: Lex, y: Lex, a: seq<Token>, b: seq<Token>)
    requires Past(Plus(x, a), y, b)
    ensures Past(x, y, a + b)
  {
    assert x.made + a + b == x.made + (a + b);
  }

  lemma OneStep(x: Lex, input: string, pos: nat)
    requires !Ends(At(input, pos)) && !Step(x, At(input, pos), At(input, pos + 1)).0.finished
    ensures var (y, n) := Step(x, At(input, pos), At(input, pos + 1));
            Run(x, input, pos) == Run(y, input, pos + n)
  {
  }

  /** A blank ends the datum before it. */
  lemma ScanBlank(x: Lex, y: Lex, toks: seq<Token>, input: string, pos: nat)
    requires Between(x) && x.stack > 0 && Past(x, y, toks) && At(input, pos) == ' '
    ensures Run(y, input, pos) == Run(Plus(x, toks), input, pos + 1)
  {
    OneStep(y, input, pos);
  }

  /** A parenthesis ends the datum before it, and the list. */
  lemma ScanRightPar(x: Lex, y: Lex, toks: seq<Token>, input: string, pos: nat)
    requires Between(x) && x.stack > 0 && Past(x, y, toks) && At(input, pos) == ')'
    ensures var z := Shut(Plus(x, toks));
            Run(y, input, pos) == if x.stack == 1 then (z, pos + 1) else Run(z, input, pos + 1)
  {
  }

  // ---- Words ---------------------------------------------------------------------------------

  /** The state inside word w. */
  function InWord(x: Lex, w: string): Lex {
    x.(inWord := true, word := Token(KindOf(w), w))
  }

  lemma FirstChar(x: Lex, c: char, d: char)
    requires Between(x) && PlainChar(c) && c != '#'
    ensures !Ends(c) && Step(x, c, d) == (InWord(x, [c]), 1) && !InWord(x, [c]).finished
  {
    assert [c][0] == c && "" + [c] == [c];
    assert KindOf([c]) == if NumberChar(c) then NumberWord else SymbolWord;
  }

  lemma NextChar(x: Lex, w: string, c: char, d: char)
    requires Between(x) && PlainChar(c)
    ensures !Ends(c) && Step(InWord(x, w), c, d) == (InWord(x, w + [c]), 1) && !InWord(x, w + [c]).finished
  {
    KindAppend(w, c);
  }

  lemma KindAppend(w: string, c: char)
    ensures KindOf(w + [c]) == if NumberChar(c) then KindOf(w) else SymbolWord
  {
    var v := w + [c];
    assert v[|w|] == c && forall i | 0 <= i < |w| :: v[i] == w[i];
    if KindOf(w) == SymbolWord {
      var i :| 0 <= i < |w| && !NumberChar(w[i]);
      assert !NumberChar(v[i]);
    }
  }

  lemma {:induction false} ScanWord(w: string, j: nat, x: Lex, input: string, pos: nat)
    requires PlainWord(w) && 0 < j <= |w| && Between(x) && Lies(input, pos, w)
    ensures Run(x, input, pos) == Run(InWord(x, w[..j]), input, pos + j)
  {
    hide *;
    LiesAt(input, pos, w, j - 1);
    WordChar(w, j);
    var c := w[j - 1];
    if j == 1 {
      FirstChar(x, c, At(input, pos + 1));
      OneStep(x, input, pos);
    } else {
      ScanWord(w, j - 1, x, input, pos);
      NextChar(x, w[..j - 1], c, At(input, pos + j));
      OneStep(InWord(x, w[..j - 1]), input, pos + j - 1);
    }
  }

  lemma WordChar(w: string, j: nat)
    requires PlainWord(w) && 0 < j <= |w|
    ensures PlainChar(w[j - 1]) && w[..j] == w[..j - 1] + [w[j - 1]]
    ensures j == 1 ==> w[0] != '#' && w[..j] == [w[0]]
  {
  }

  /** A number or a symbol. */
  lemma ScanAtom(d: Datum, x: Lex, input: string, pos: nat) returns (y: Lex)
    requires Readable(d) && (d.Int? || d.Sym?) && Between(x) && Lies(input, pos, Text(d))
    ensures y.inWord && Run(x, input, pos) == Run(y, input, pos + |Text(d)|) && Past(x, y, Toks(FormOf(d)))
  {
    var w := Text(d);
    PlainText(d);
    ScanWord(w, |w|, x, input, pos);
    assert w[..|w|] == w;
    y := InWord(x, w);
  }

  lemma PlainText(d: Datum)
    requires Readable(d) && (d.Int? || d.Sym?)
    ensures Printable(d) && PlainWord(Text(d)) && FormOf(d) == Word(Token(KindOf(Text(d)), Text(d)))
  {
    var w := Text(d);
    if d.Int? {
      forall i | 0 <= i < |w|
        ensures PlainChar(w[i]) && NumberChar(w[i]) && w[i] != '#'
      {
        assert IsDigit(w[i]);
      }
    }
  }

  // ---- Data ----------------------------------------------------------------------------------

  predicate Bracketed(d: Datum) {
    d.Null? || d.Pair? || d.Vector?
  }

  /** The text and the tokens between the brackets of a datum. */
  ghost function InnerText(d: Datum): string
    requires Readable(d) && Printable(d) && Bracketed(d)
  {
    if d.Null? then "" else if d.Pair? then ItemsText(d) else SlotsText(d, 0)
  }

  ghost function Inner(d: Datum): seq<Token>
    requires Readable(d) && Bracketed(d)
  {
    if d.Null? then []
    else if d.Pair? then AllToks(ItemForms(d)) + Ending(LastCdr(d))
    else AllToks(SlotForms(d, 0))
  }

  /** The point and what follows it at the end of a dotted list. */
  ghost function Ending(last: Datum): seq<Token>
    requires Readable(last)
  {
    if last.Null? then [] else [Token(Point, ".")] + Toks(FormOf(last))
  }

  function OpenText(d: Datum): string {
    if d.Vector? then "#(" else "("
  }

  function OpenKind(d: Datum): Kind {
    if d.Vector? then LeftSharpPar else LeftPar
  }

  lemma Parts(d: Datum)
    requires Readable(d) && Printable(d) && Bracketed(d)
    ensures Text(d) == OpenText(d) + (InnerText(d) + ")")
    ensures Toks(FormOf(d)) == [Mark(OpenKind(d))] + Inner(d) + [Mark(RightPar)]
  {
    hide AllToks, ItemForms, LastCdr, ItemsText, SlotsText, SlotForms;
    if d.Pair? {
      var last := LastCdr(d);
      PairParts(d, AllToks(ItemForms(d)), last);
    } else if d.Null? {
      NullParts();
    }
  }

  lemma NullParts()
    ensures AllToks(Empty) == []
  {
  }

  lemma PairParts(d: Datum, items: seq<Token>, last: Datum)
    requires Readable(d) && d.Pair? && items == AllToks(ItemForms(d)) && last == LastCdr(d)
    ensures Toks(FormOf(d)) == [Mark(LeftPar)] + Inner(d) + [Mark(RightPar)]
  {
    hide AllToks, ItemForms, LastCdr, Readable;
    var close := [Mark(RightPar)];
    if last.Null? {
      assert items + [] == items;
      assert [Mark(LeftPar)] + (items + close) == [Mark(LeftPar)] + items + close;
    } else {
      var t := Toks(FormOf(last));
      var p := [Token(Point, ".")];
      assert items + (p + (t + close)) == items + (p + t) + close;
      assert [Mark(LeftPar)] + (items + (p + (t + close))) == [Mark(LeftPar)] + (items + (p + t)) + close;
    }
  }

  /** The state behind the opening bracket of a datum. */
  function Opened(x: Lex, d: Datum): (z: Lex)
    ensures Between(x) ==> Between(z) && z.stack == x.stack + 1
  {
    Plus(x, [Mark(OpenKind(d))]).(stack := x.stack + 1)
  }

  /** The opening bracket. */
  lemma ScanOpen(d: Datum, x: Lex, input: string, pos: nat)
    requires Bracketed(d) && Between(x) && Lies(input, pos, OpenText(d))
    ensures Run(x, input, pos) == Run(Opened(x, d), input, pos + |OpenText(d)|)
  {
    LiesAt(input, pos, OpenText(d), 0);
    if d.Vector? {
      LiesAt(input, pos, OpenText(d), 1);
    }
    OneStep(x, input, pos);
  }

  /** A datum in brackets; the last bracket of all completes it. */
  lemma {:induction false} ScanBracketed(d: Datum, x: Lex, input: string, pos: nat)
    requires Readable(d) && Printable(d) && Bracketed(d) && Between(x) && x.stack >= 0 && Lies(input, pos, Text(d))
    ensures var y := Plus(x, Toks(FormOf(d))).(finished := x.stack == 0);
            Run(x, input, pos) == if x.stack == 0 then (y, pos + |Text(d)|) else Run(y, input, pos + |Text(d)|)
    decreases d, 3, 0
  {
    hide *;
    Parts(d);
    LiesParts(input, pos, OpenText(d), InnerText(d) + ")");
    ScanOpen(d, x, input, pos);
    var z := Opened(x, d);
    var pos1 := pos + |OpenText(d)|;
    LiesParts(input, pos1, InnerText(d), ")");
    var y := ScanInner(d, z, input, pos1);
    LiesAt(input, pos1 + |InnerText(d)|, ")", 0);
    ScanRightPar(z, y, Inner(d), input, pos1 + |InnerText(d)|);
    Closed(x, d);
  }

  lemma Closed(x: Lex, d: Datum)
    requires Between(x) && Readable(d) && Bracketed(d)
    ensures Shut(Plus(Opened(x, d), Inner(d))) ==
      Plus(x, [Mark(OpenKind(d))] + Inner(d) + [Mark(RightPar)]).(finished := x.stack == 0)
  {
    hide Inner;
    assert x.made + [Mark(OpenKind(d))] + Inner(d) + [Mark(RightPar)] ==
      x.made + ([Mark(OpenKind(d))] + Inner(d) + [Mark(RightPar)]);
  }

  /** What lies between brackets. */
  lemma {:induction false} ScanInner(d: Datum, x: Lex, input: string, pos: nat) returns (y: Lex)
    requires Readable(d) && Printable(d) && Bracketed(d) && Between(x) && x.stack > 0
    requires Lies(input, pos, InnerText(d))
    ensures Run(x, input, pos) == Run(y, input, pos + |InnerText(d)|) && Past(x, y, Inner(d))
    decreases d, 2, 0
  {
    hide Run, Lies, Text, ItemsText, SlotsText;
    match d
    case Pair(_, _) =>
      y := ScanItems(d, x, input, pos);
    case Vector(_, _) =>
      y := ScanSlots(d, 0, x, input, pos);
    case _ =>
      y := x;
  }

  /** A datum inside brackets. */
  lemma {:induction false} ScanDatum(d: Datum, x: Lex, input: string, pos: nat) returns (y: Lex)
    requires Readable(d) && Printable(d) && Between(x) && x.stack > 0 && Lies(input, pos, Text(d))
    ensures Run(x, input, pos) == Run(y, input, pos + |Text(d)|) && Past(x, y, Toks(FormOf(d)))
    decreases d, 4, 0
  {
    if Bracketed(d) {
      ScanBracketed(d, x, input, pos);
      y := Plus(x, Toks(FormOf(d)));
    } else if d.Bool? {
      ScanBool(d, x, input, pos);
      y := Plus(x, Toks(FormOf(d)));
    } else {
      y := ScanAtom(d, x, input, pos);
    }
  }

  lemma ScanBool(d: Datum, x: Lex, input: string, pos: nat)
    requires d.Bool? && Between(x) && Lies(input, pos, Text(d))
    ensures Run(x, input, pos) == Run(Plus(x, Toks(FormOf(d))), input, pos + 2)
  {
    LiesAt(input, pos, Text(d), 0);
    LiesAt(input, pos, Text(d), 1);
    OneStep(x, input, pos);
  }

  /** A datum and the blank behind it. */
  lemma {:induction false} ScanSpaced(d: Datum, x: Lex, input: string, pos: nat)
    requires Readable(d) && Printable(d) && Between(x) && x.stack > 0 && Lies(input, pos, Text(d) + " ")
    ensures Run(x, input, pos) == Run(Plus(x, Toks(FormOf(d))), input, pos + |Text(d)| + 1)
    decreases d, 5, 0
  {
    hide *;
    LiesParts(input, pos, Text(d), " ");
    LiesAt(input, pos + |Text(d)|, " ", 0);
    var y := ScanDatum(d, x, input, pos);
    ScanBlank(x, y, Toks(FormOf(d)), input, pos + |Text(d)|);
  }

  lemma {:induction false} ScanItems(d: Datum, x: Lex, input: string, pos: nat) returns (y: Lex)
    requires d.Pair? && Readable(d) && Printable(d) && Between(x) && x.stack > 0 && Lies(input, pos, ItemsText(d))
    ensures Run(x, input, pos) == Run(y, input, pos + |ItemsText(d)|) && Past(x, y, Inner(d))
    decreases d, 1, 0
  {
    hide *;
    PartsReadable(d);
    InnerParts(d);
    ItemsParts(d);
    if d.cdr.Null? {
      y := ScanDatum(d.car, x, input, pos);
    } else if d.cdr.Pair? {
      LiesParts(input, pos, Text(d.car) + " ", ItemsText(d.cdr));
      ScanSpaced(d.car, x, input, pos);
      y := ScanItems(d.cdr, Next(x, d.car), input, pos + |Text(d.car)| + 1);
      PastPlus(x, y, Toks(FormOf(d.car)), Inner(d.cdr));
    } else {
      y := ScanTail(d, x, input, pos);
    }
  }

  lemma ItemsParts(d: Datum)
    requires Printable(d) && d.Pair?
    ensures d.cdr.Null? ==> ItemsText(d) == Text(d.car)
    ensures d.cdr.Pair? ==> ItemsText(d) == (Text(d.car) + " ") + ItemsText(d.cdr)
    ensures !d.cdr.Null? && !d.cdr.Pair? ==> ItemsText(d) == (Text(d.car) + " ") + (". " + Text(d.cdr))
  {
  }

  lemma InnerParts(d: Datum)
    requires Readable(d) && d.Pair?
    ensures d.cdr.Null? ==> Inner(d) == Toks(FormOf(d.car))
    ensures d.cdr.Pair? ==> Inner(d) == Toks(FormOf(d.car)) + Inner(d.cdr)
    ensures !d.cdr.Null? && !d.cdr.Pair? ==>
      Inner(d) == Toks(FormOf(d.car)) + ([Token(Point, ".")] + Toks(FormOf(d.cdr)))
  {
    hide *;
    ItemToks(d);
    InnerIs(d);
    LastCdrIs(d);
    var ta := Toks(FormOf(d.car));
    if d.cdr.Pair? {
      InnerIs(d.cdr);
      Assoc(ta, AllToks(ItemForms(d.cdr)), Ending(LastCdr(d)));
    } else if d.cdr.Null? {
      Assoc(ta, [], []);
    }
  }

  lemma Assoc<T>(a: seq<T>, b: seq<T>, c: seq<T>)
    ensures (a + b) + c == a + (b + c) && (c == [] ==> b + c == b && a + c == a)
  {
  }

  lemma InnerIs(d: Datum)
    requires Readable(d) && d.Pair?
    ensures Bracketed(d) && Inner(d) == AllToks(ItemForms(d)) + Ending(LastCdr(d))
  {
  }

  lemma LastCdrIs(d: Datum)
    requires Readable(d) && d.Pair?
    ensures Readable(d.car) && Readable(d.cdr) && LastCdr(d) == if d.cdr.Pair? then LastCdr(d.cdr) else d.cdr
    ensures d.cdr.Null? ==> Ending(LastCdr(d)) == []
    ensures !d.cdr.Null? && !d.cdr.Pair? ==> Ending(LastCdr(d)) == [Token(Point, ".")] + Toks(FormOf(d.cdr))
  {
  }

  lemma ItemToks(d: Datum)
    requires Readable(d) && d.Pair?
    ensures d.cdr.Pair? ==> AllToks(ItemForms(d)) == Toks(FormOf(d.car)) + AllToks(ItemForms(d.cdr))
    ensures !d.cdr.Pair? ==> AllToks(ItemForms(d)) == Toks(FormOf(d.car))
  {
    hide FormOf, Toks;
    if !d.cdr.Pair? {
      assert AllToks(Empty) == [];
      assert Toks(FormOf(d.car)) + [] == Toks(FormOf(d.car));
    }
  }

  /** The last element, the point, and what follows it. */
  lemma {:induction false} ScanTail(d: Datum, x: Lex, input: string, pos: nat) returns (y: Lex)
    requires Readable(d) && Printable(d) && d.Pair? && !d.cdr.Pair? && !d.cdr.Null?
    requires Between(x) && x.stack > 0 && Lies(input, pos, ItemsText(d))
    ensures Run(x, input, pos) == Run(y, input, pos + |ItemsText(d)|) && Past(x, y, Inner(d))
    decreases d, 0, 0
  {
    hide *;
    PartsReadable(d);
    InnerParts(d);
    ItemsParts(d);
    var ta := Toks(FormOf(d.car));
    LiesParts(input, pos, Text(d.car) + " ", ". " + Text(d.cdr));
    ScanSpaced(d.car, x, input, pos);
    var x1 := Next(x, d.car);
    var pos1 := pos + |Text(d.car)| + 1;
    LiesParts(input, pos1, ". ", Text(d.cdr));
    var x2 := Pointed(x1);
    ScanPoint(x1, input, pos1);
    y := ScanDatum(d.cdr, x2, input, pos1 + 2);
    PastPlus(x1, y, [Token(Point, ".")], Toks(FormOf(d.cdr)));
    PastPlus(x, y, ta, [Token(Point, ".")] + Toks(FormOf(d.cdr)));
  }

  /** The state behind a point and a blank. */
  function Pointed(x: Lex): (y: Lex)
    ensures y == Plus(x, [Token(Point, ".")])
    ensures Between(x) ==> Between(y) && y.stack == x.stack
  {
    Plus(x, [Token(Point, ".")])
  }

  lemma ScanPoint(x: Lex, input: string, pos: nat)
    requires Between(x) && x.stack > 0 && Lies(input, pos, ". ")
    ensures Run(x, input, pos) == Run(Plus(x, [Token(Point, ".")]), input, pos + 2)
  {
    LiesAt(input, pos, ". ", 0);
    LiesAt(input, pos, ". ", 1);
    assert "" + ['.'] == ".";
    var y := x.(inWord := true, word := Token(Point, "."));
    OneStep(x, input, pos);
    OneStep(y, input, pos + 1);
  }

  lemma {:induction false} ScanSlots(d: Datum, i: nat, x: Lex, input: string, pos: nat) returns (y: Lex)
    requires Readable(d) && Printable(d) && d.Vector? && i < |d.slots|
    requires Between(x) && x.stack > 0 && Lies(input, pos, SlotsText(d, i))
    ensures Run(x, input, pos) == Run(y, input, pos + |SlotsText(d, i)|) && Past(x, y, AllToks(SlotForms(d, i)))
    decreases d, 1, |d.slots| - i
  {
    hide *;
    PartsReadable(d);
    SlotsParts(d, i);
    var a := d.slots[i];
    if i + 1 == |d.slots| {
      y := ScanDatum(a, x, input, pos);
    } else {
      LiesParts(input, pos, Text(a) + " ", SlotsText(d, i + 1));
      ScanSpaced(a, x, input, pos);
      y := ScanSlots(d, i + 1, Next(x, a), input, pos + |Text(a)| + 1);
      PastPlus(x, y, Toks(FormOf(a)), AllToks(SlotForms(d, i + 1)));
    }
  }

  lemma SlotsParts(d: Datum, i: nat)
    requires Readable(d) && Printable(d) && d.Vector? && i < |d.slots|
    ensures i + 1 == |d.slots| ==>
      SlotsText(d, i) == Text(d.slots[i]) && AllToks(SlotForms(d, i)) == Toks(FormOf(d.slots[i]))
    ensures i + 1 < |d.slots| ==>
      SlotsText(d, i) == (Text(d.slots[i]) + " ") + SlotsText(d, i + 1) &&
      AllToks(SlotForms(d, i)) == Toks(FormOf(d.slots[i])) + AllToks(SlotForms(d, i + 1))
  {
    if i + 1 == |d.slots| {
      assert SlotForms(d, i + 1) == Empty;
      assert AllToks(SlotForms(d, i)) == Toks(FormOf(d.slots[i])) + [];
    }
  }

  // ---- The text of a datum, read ---------------------------------------------------------------

  /** What may follow the text of a datum: anything behind a bracket, a blank or nothing behind a
      word, and nothing behind #t or #f, after which the scanner goes on. */
  predicate Ended(d: Datum, rest: string) {
    if Bracketed(d) then true
    else if d.Bool? then rest == ""
    else rest == "" || IsSpace(rest[0])
  }

  /** Where the reader leaves the port. */
  ghost function TextEnd(d: Datum): nat
    requires Printable(d)
  {
    |Text(d)| + if Bracketed(d) then 0 else 1
  }

  /** The scanner makes the tokens of the datum of its text. */
  lemma ScansText(d: Datum, input: string, pos: nat, rest: string)
    requires Readable(d) && Printable(d) && Ended(d, rest) && Lies(input, pos, Text(d) + rest)
    requires pos + |Text(d) + rest| == |input|
    ensures Scan(input, pos) == Toks(FormOf(d)) + [Mark(End)]
    ensures Run(START, input, pos).1 == pos + TextEnd(d) && !Run(START, input, pos).0.glued
  {
    hide Run, Lies, Text, FormOf, Toks, Readable, Printable, Ended, TextEnd;
    ScansFrom(START, d, input, pos, rest);
    assert [] + Toks(FormOf(d)) == Toks(FormOf(d));
  }

  /** The same behind tokens already made, outside all brackets. */
  lemma ScansFrom(x: Lex, d: Datum, input: string, pos: nat, rest: string)
    requires Between(x) && x.stack == 0 && !x.glued
    requires Readable(d) && Printable(d) && Ended(d, rest) && Lies(input, pos, Text(d) + rest)
    requires pos + |Text(d) + rest| == |input|
    ensures Finish(Run(x, input, pos).0) == x.made + Toks(FormOf(d)) + [Mark(End)]
    ensures Run(x, input, pos).1 == pos + TextEnd(d) && !Run(x, input, pos).0.glued
  {
    hide Run, Lies, Text, FormOf, Toks, Readable, Printable;
    LiesParts(input, pos, Text(d), rest);
    if Bracketed(d) {
      ScanBracketed(d, x, input, pos);
    } else if d.Bool? {
      ScanBool(d, x, input, pos);
      BoolText(d);
      EndsThere(Plus(x, Toks(FormOf(d))), input, pos + 2);
    } else {
      AtomOnly(d);
      var y := ScanAtom(d, x, input, pos);
      ScansEnd(y, input, pos + |Text(d)|, rest);
    }
  }

  lemma BoolText(d: Datum)
    requires d.Bool?
    ensures |Text(d)| == 2
  {
  }

  lemma AtomOnly(d: Datum)
    requires Readable(d) && !Bracketed(d) && !d.Bool?
    ensures d.Int? || d.Sym?
  {
  }

  lemma EndsThere(x: Lex, input: string, pos: nat)
    requires pos == |input|
    ensures Run(x, input, pos) == (x, pos + 1)
  {
  }

  /** A word at the end of the input, or before a blank, is the last token. */
  lemma ScansEnd(y: Lex, input: string, pos: nat, rest: string)
    requires y.inWord && y.stack == 0 && !y.finished && !y.glued && Lies(input, pos, rest) && pos + |rest| == |input|
    requires rest == "" || IsSpace(rest[0])
    ensures Finish(Run(y, input, pos).0) == Close(y).made + [Mark(End)]
    ensures Run(y, input, pos).1 == pos + 1 && !Run(y, input, pos).0.glued
  {
    if rest != "" {
      LiesAt(input, pos, rest, 0);
    }
  }

  /** Reading the text of a datum gives the datum, whatever the token buffer holds behind its tokens;
      and the reader stops where the text ends. */
  lemma ReadsBack(d: Datum, input: string, pos: nat, rest: string, toks: seq<Token>)
    requires Readable(d) && Printable(d) && Ended(d, rest) && Lies(input, pos, Text(d) + rest)
    requires pos + |Text(d) + rest| == |input| && Scan(input, pos) <= toks
    ensures ParseTop(toks) == d && Run(START, input, pos).1 == pos + TextEnd(d)
  {
    ScansText(d, input, pos, rest);
    FormOfGood(d);
    var f := FormOf(d);
    assert toks[0..|Toks(f)|] == Toks(f);
    ParsesTop(f, toks);
  }

  /** A plain word is read as a symbol exactly when some character is neither a digit nor #. */
  lemma ReadsAsSymbol(w: string)
    requires PlainWord(w)
    ensures Scan(w, 0) == [Token(KindOf(w), w), Mark(End)]
    ensures Scan(w, 0)[0].kind == SymbolWord <==> IsName(w)
  {
    assert w[0..|w|] == w && w[..|w|] == w && [] + [Token(KindOf(w), w)] == [Token(KindOf(w), w)];
    assert Lies(w, 0, w);
    ScanWord(w, |w|, START, w, 0);
    assert Lies(w, |w|, "");
    ScansEnd(InWord(START, w), w, |w|, "");
  }

  // ---- The reader and the printers together ----------------------------------------------------

  /** read. The tokens behind those of this call are what earlier calls left. */
  method Read(port: Port, tokens: array<Token>) returns (form: Datum)
    requires tokens.Length == TOKENS && NoStrings(port.buf) && Fits(port.buf, port.Position())
    modifies port, tokens
    ensures Scan(port.buf, old(port.Position())) <= tokens[..] && form == ParseTop(tokens[..])
    ensures port.Position() == Run(START, port.buf, old(port.Position())).1
  {
    ghost var toks := Scan(port.buf, port.Position());
    var n := MakeTokenSeq(port, tokens);
    assert toks == tokens[..][..n];
    var kind := tokens[0].kind;
    var k;
    if kind == LeftPar {
      form, k := CreateList(tokens[..], 1);
    } else if kind == RightPar {
      form := Void;
    } else if kind == LeftSharpPar {
      form, k := CreateVector(tokens[..], 1);
    } else if kind == Quote {
      form, k := CreateQuoted(tokens[..], 1);
    } else {
      form := TokenToObj(tokens[0]);
    }
  }

  /** An object is printed into a buffer, and the buffer is read. */
  method PrintAndRead(d: Datum, buf: array<char>, tokens: array<Token>) returns (form: Datum)
    requires Readable(d) && Printable(d) && |Text(d)| < buf.Length
    requires tokens.Length == TOKENS && |Toks(FormOf(d))| < TOKENS && Writes(START, Text(d), 0) <= EXPR_LEN
    modifies buf, tokens
    ensures form == d
  {
    var cnt := ObjToString(buf, 0, d);
    var port := new Port(buf[..cnt]);
    assert port.buf == Text(d) + "";
    assert Lies(port.buf, 0, Text(d) + "");
    ScansText(d, port.buf, 0, "");
    CleanText(d);
    form := Read(port, tokens);
    ReadsBack(d, port.buf, 0, "", tokens[..]);
  }

  /** Text that can be read holds neither quotes nor backslashes. */
  predicate Clean(s: string) {
    forall i | 0 <= i < |s| :: s[i] != '"' && s[i] != '\\'
  }

  lemma {:induction false} CleanText(d: Datum)
    requires Readable(d) && Printable(d)
    ensures Clean(Text(d))
    decreases d, 1
  {
    if d.Int? || d.Sym? {
      PlainText(d);
    } else if d.Pair? {
      CleanItems(d);
    } else if d.Vector? {
      CleanSlots(d, 0);
    }
  }

  lemma {:induction false} CleanItems(d: Datum)
    requires Readable(d) && Printable(d) && d.Pair?
    ensures Clean(ItemsText(d))
    decreases d, 0
  {
    CleanText(d.car);
    if d.cdr.Pair? {
      CleanItems(d.cdr);
    } else if !d.cdr.Null? {
      CleanText(d.cdr);
    }
  }

  lemma {:induction false} CleanSlots(d: Datum, i: nat)
    requires Readable(d) && Printable(d) && d.Vector? && i < |d.slots|
    ensures Clean(SlotsText(d, i))
    decreases d, 0, |d.slots| - i
  {
    CleanText(d.slots[i]);
    if i + 1 < |d.slots| {
      CleanSlots(d, i + 1);
    }
  }
}
