/** Quote marks, read: what the reader makes of the text of a datum behind any number of them, by itself
    or in a list, and of the other marks that stand for a token (kscm/scheme/read.c). */
module QuoteReading {
  import opened CStrings
  import opened Syntax
  import opened Scanner
  import opened Parser
  import opened WellFormed
  import opened Printer
  import opened RoundTrip

  function Marks(n: nat): string {
    if n == 0 then "" else "'" + Marks(n - 1)
  }

  function MarkTokens(n: nat): seq<Token> {
    if n == 0 then [] else [Mark(Quote)] + MarkTokens(n - 1)
  }

  /** What n quote marks in front of a datum mean. */
  function Quotes(n: nat, d: Datum): Datum {
    if n == 0 then d else Pair(Sym("quote"), Pair(Quotes(n - 1, d), Null))
  }

  ghost function QuotedForm(n: nat, d: Datum): Form
    requires Readable(d)
  {
    if n == 0 then FormOf(d) else QuoteOf(QuotedForm(n - 1, d))
  }

  lemma {:induction false} QuotedFormGood(n: nat, d: Datum)
    requires Readable(d)
    ensures Good(QuotedForm(n, d)) && Meaning(QuotedForm(n, d)) == Quotes(n, d)
    ensures Toks(QuotedForm(n, d)) == MarkTokens(n) + Toks(FormOf(d))
  {
    if n == 0 {
      FormOfGood(d);
      assert MarkTokens(0) + Toks(FormOf(d)) == Toks(FormOf(d));
    } else {
      QuotedFormGood(n - 1, d);
      assert [Mark(Quote)] + (MarkTokens(n - 1) + Toks(FormOf(d))) ==
        [Mark(Quote)] + MarkTokens(n - 1) + Toks(FormOf(d));
    }
  }

  lemma {:induction false} MarksLength(n: nat)
    ensures |Marks(n)| == n
  {
    if n > 0 {
      MarksLength(n - 1);
    }
  }

  /** The quote marks. */
  lemma {:induction false} ScanMarks(n: nat, x: Lex, input: string, pos: nat)
    requires Between(x) && Lies(input, pos, Marks(n))
    ensures Run(x, input, pos) == Run(Plus(x, MarkTokens(n)), input, pos + n)
    decreases n
  {
    hide Run, Lies;
    if n == 0 {
      assert x.made + [] == x.made;
    } else {
      LiesParts(input, pos, "'", Marks(n - 1));
      ScanMark(x, input, pos);
      ScanMarks(n - 1, Plus(x, [Mark(Quote)]), input, pos + 1);
      assert x.made + [Mark(Quote)] + MarkTokens(n - 1) == x.made + MarkTokens(n);
    }
  }

  lemma ScanMark(x: Lex, input: string, pos: nat)
    requires Between(x) && At(input, pos) == '\''
    ensures Run(x, input, pos) == Run(Plus(x, [Mark(Quote)]), input, pos + 1)
  {
    hide Sharp, OnPoint, OnOther, Blank, Open, Shut;
    OneStep(x, input, pos);
  }

  /** n quote marks and the text of a datum are scanned to the tokens of the quoted datum. */
  lemma ScansQuoted(n: nat, d: Datum, input: string, pos: nat, rest: string)
    requires Readable(d) && Printable(d) && Ended(d, rest) && Lies(input, pos, Marks(n) + (Text(d) + rest))
    requires pos + n + |Text(d) + rest| == |input|
    ensures Scan(input, pos) == Toks(QuotedForm(n, d)) + [Mark(End)]
    ensures Run(START, input, pos).1 == pos + n + TextEnd(d) && !Run(START, input, pos).0.glued
  {
    hide Run, Lies, Text, FormOf, Toks, Readable, Printable, Ended, TextEnd, MarkTokens, Marks;
    MarksLength(n);
    LiesParts(input, pos, Marks(n), Text(d) + rest);
    ScanMarks(n, START, input, pos);
    ScansFrom(Plus(START, MarkTokens(n)), d, input, pos + n, rest);
    QuotedFormGood(n, d);
    assert [] + MarkTokens(n) == MarkTokens(n);
  }

  /** Reading them gives the datum quoted n times, whatever the token buffer holds behind. */
  lemma ReadsQuoted(n: nat, d: Datum, input: string, pos: nat, rest: string, toks: seq<Token>)
    requires Readable(d) && Printable(d) && Ended(d, rest) && Lies(input, pos, Marks(n) + (Text(d) + rest))
    requires pos + n + |Text(d) + rest| == |input| && Scan(input, pos) <= toks
    ensures ParseTop(toks) == Quotes(n, d) && Run(START, input, pos).1 == pos + n + TextEnd(d)
  {
    hide Run, Lies, Text, FormOf, Readable, Printable, Ended, TextEnd, Marks, ParseTop, Good, Meaning;
    ScansQuoted(n, d, input, pos, rest);
    QuotedFormGood(n, d);
    var f := QuotedForm(n, d);
    assert toks[0..|Toks(f)|] == Toks(f);
    ParsesTop(f, toks);
  }

  // ---- In a list -----------------------------------------------------------------------------

  /** The list of one element. */
  ghost function ListForm(n: nat, d: Datum): Form
    requires Readable(d)
  {
    ListOf(More(QuotedForm(n, d), Empty))
  }

  lemma ListFormGood(n: nat, d: Datum)
    requires Readable(d)
    ensures Good(ListForm(n, d)) && Meaning(ListForm(n, d)) == Pair(Quotes(n, d), Null)
    ensures Toks(ListForm(n, d)) == [Mark(LeftPar)] + MarkTokens(n) + Toks(FormOf(d)) + [Mark(RightPar)]
  {
    hide QuotedForm, Quotes, FormOf, MarkTokens, Good, Meaning, Toks;
    QuotedFormGood(n, d);
    OneItem(QuotedForm(n, d));
    var t := Toks(QuotedForm(n, d));
    assert [Mark(LeftPar)] + (t + [Mark(RightPar)]) ==
      [Mark(LeftPar)] + MarkTokens(n) + Toks(FormOf(d)) + [Mark(RightPar)];
  }

  lemma OneItem(f: Form)
    requires Good(f)
    ensures Good(ListOf(More(f, Empty))) && Meaning(ListOf(More(f, Empty))) == Pair(Meaning(f), Null)
    ensures Toks(ListOf(More(f, Empty))) == [Mark(LeftPar)] + (Toks(f) + [Mark(RightPar)])
  {
    var fs := More(f, Empty);
    assert GoodAll(Empty) && GoodAll(fs);
    assert Meanings(Empty) == [] && Meanings(fs) == [Meaning(f)];
    var vs := [Meaning(f)];
    assert vs[1..] == [] && Chain(vs, Null) == Pair(Meaning(f), Null);
    assert AllToks(Empty) == [] && AllToks(fs) == Toks(f) + [] == Toks(f);
  }

  /** A quoted datum inside brackets. */
  lemma ScanQuotedDatum(n: nat, d: Datum, x: Lex, input: string, pos: nat) returns (y: Lex)
    requires Readable(d) && Printable(d) && Between(x) && x.stack > 0 && Lies(input, pos, Marks(n) + Text(d))
    ensures Run(x, input, pos) == Run(y, input, pos + n + |Text(d)|)
    ensures Past(x, y, MarkTokens(n) + Toks(FormOf(d)))
  {
    hide Run, Lies, Text, FormOf, Toks, Readable, Printable, MarkTokens, Marks;
    MarksLength(n);
    LiesParts(input, pos, Marks(n), Text(d));
    ScanMarks(n, x, input, pos);
    y := ScanDatum(d, Plus(x, MarkTokens(n)), input, pos + n);
    PastPlus(x, y, MarkTokens(n), Toks(FormOf(d)));
  }

  /** A list whose one element is quoted is scanned to its tokens and reads as the list of it; the reader
      stops behind its parenthesis. */
  lemma ReadsQuotedInList(n: nat, d: Datum, input: string, pos: nat, toks: seq<Token>)
    requires Readable(d) && Printable(d) && Lies(input, pos, "(" + (Marks(n) + Text(d) + ")"))
    requires Scan(input, pos) <= toks
    ensures Scan(input, pos) == Toks(ListForm(n, d)) + [Mark(End)] && ParseTop(toks) == Pair(Quotes(n, d), Null)
    ensures Run(START, input, pos).1 == pos + n + |Text(d)| + 2 && !Run(START, input, pos).0.glued
  {
    hide Run, Lies, Text, FormOf, Toks, Readable, Printable, MarkTokens, Marks, Quotes, ParseTop, Good, Meaning;
    MarksLength(n);
    var list := Pair(Null, Null);
    LiesParts(input, pos, "(", Marks(n) + Text(d) + ")");
    ScanOpen(list, START, input, pos);
    var x := Opened(START, list);
    LiesParts(input, pos + 1, Marks(n) + Text(d), ")");
    var y := ScanQuotedDatum(n, d, x, input, pos + 1);
    LiesAt(input, pos + 1 + n + |Text(d)|, ")", 0);
    var ts := MarkTokens(n) + Toks(FormOf(d));
    ScanRightPar(x, y, ts, input, pos + 1 + n + |Text(d)|);
    ListFormGood(n, d);
    var f := ListForm(n, d);
    assert [] + [Mark(LeftPar)] + ts + [Mark(RightPar)] == Toks(f);
    assert toks[0..|Toks(f)|] == Toks(f);
    ParsesTop(f, toks);
  }

  // ---- The other marks -----------------------------------------------------------------------

  /** The texts that are tokens of their own wherever a word may begin. */
  predicate IsMark(text: string, kind: Kind) {
    (text == "'" && kind == Quote) || (text == "`" && kind == BackQuote) || (text == "," && kind == Comma) ||
    (text == ",@" && kind == CommaAt) || (text == "#t" && kind == True) || (text == "#f" && kind == False) ||
    (text == "#b" && kind == Number2) || (text == "#o" && kind == Number8) || (text == "#d" && kind == Number10) ||
    (text == "#x" && kind == Number16) || (text == "#i" && kind == Inexact) || (text == "#e" && kind == Exact)
  }

  lemma MarkScans(x: Lex, input: string, pos: nat, text: string, kind: Kind)
    requires Between(x) && IsMark(text, kind) && Lies(input, pos, text)
    requires text == "," ==> At(input, pos + 1) != '@'
    ensures Run(x, input, pos) == Run(Plus(x, [Mark(kind)]), input, pos + |text|)
  {
    hide OnPoint, OnOther, Blank, Open, Shut;
    LiesAt(input, pos, text, 0);
    if |text| == 2 {
      LiesAt(input, pos, text, 1);
    }
    OneStep(x, input, pos);
  }
}
