/** What the scanner makes of words with points, at signs and parentheses in them (kscm/scheme/read.c). */
module ScanLaws {
  import opened CStrings
  import opened Decimal
  import opened Syntax
  import opened Scanner
  import opened RoundTrip

  predicate Digits(w: string) {
    w != "" && AllDigits(w)
  }

  /** The state inside a word of this kind, with a decimal point seen or not. */
  function Inside(x: Lex, kind: Kind, text: string, float: bool): Lex {
    x.(inWord := true, word := Token(kind, text), isFloat := float)
  }

  lemma DigitStep(x: Lex, kind: Kind, text: string, float: bool, input: string, pos: nat)
    requires Between(x) && IsDigit(At(input, pos)) && (kind == NumberWord || kind == SymbolWord || kind == Point)
    ensures Run(Inside(x, kind, text, float), input, pos) ==
      Run(Inside(x, if kind == Point then NumberWord else kind, text + [At(input, pos)], float || kind == Point),
          input, pos + 1)
  {
    hide Sharp, OnPoint, Blank, Open, Shut;
    OneStep(Inside(x, kind, text, float), input, pos);
  }

  /** Digits go on a word that is a number or a symbol already. */
  lemma {:induction false} DigitsGoOn(x: Lex, kind: Kind, text: string, float: bool, b: string, input: string, pos: nat)
    requires Between(x) && (kind == NumberWord || kind == SymbolWord) && AllDigits(b) && Lies(input, pos, b)
    ensures Run(Inside(x, kind, text, float), input, pos) ==
      Run(Inside(x, kind, text + b, float), input, pos + |b|)
    decreases |b|
  {
    hide Run, Inside, IsDigit;
    if b == "" {
      assert text + b == text;
    } else {
      LiesAt(input, pos, b, 0);
      assert b == [b[0]] + b[1..];
      LiesParts(input, pos, [b[0]], b[1..]);
      DigitStep(x, kind, text, float, input, pos);
      DigitsGoOn(x, kind, text + [b[0]], float, b[1..], input, pos + 1);
      assert text + [b[0]] + b[1..] == text + b;
    }
  }

  lemma PointStep(x: Lex, kind: Kind, text: string, float: bool, input: string, pos: nat)
    requires Between(x) && At(input, pos) == '.' && (kind == NumberWord || kind == SymbolWord)
    ensures Run(Inside(x, kind, text, float), input, pos) ==
      Run(Inside(x, if float then SymbolWord else kind, text + ".", float || kind == NumberWord), input, pos + 1)
  {
    hide Sharp, OnOther, Blank, Open, Shut;
    OneStep(Inside(x, kind, text, float), input, pos);
  }

  lemma FirstDigit(x: Lex, input: string, pos: nat)
    requires Between(x) && IsDigit(At(input, pos))
    ensures Run(x, input, pos) == Run(Inside(x, NumberWord, [At(input, pos)], false), input, pos + 1)
  {
    hide Sharp, OnPoint, Blank, Open, Shut;
    assert "" + [At(input, pos)] == [At(input, pos)];
    OneStep(x, input, pos);
  }

  lemma {:induction false} ScanDigits(x: Lex, a: string, input: string, pos: nat)
    requires Between(x) && Digits(a) && Lies(input, pos, a)
    ensures Run(x, input, pos) == Run(Inside(x, NumberWord, a, false), input, pos + |a|)
  {
    hide Run, Inside, IsDigit;
    LiesAt(input, pos, a, 0);
    assert a == [a[0]] + a[1..];
    LiesParts(input, pos, [a[0]], a[1..]);
    FirstDigit(x, input, pos);
    DigitsGoOn(x, NumberWord, [a[0]], false, a[1..], input, pos + 1);
  }

  /** Digits, a point, digits: one number. */
  lemma DecimalIsNumber(x: Lex, a: string, b: string, input: string, pos: nat)
    requires Between(x) && Digits(a) && AllDigits(b) && Lies(input, pos, a + ("." + b))
    ensures Run(x, input, pos) == Run(Inside(x, NumberWord, a + "." + b, true), input, pos + |a| + 1 + |b|)
  {
    hide Run, Inside, Digits, Lies;
    LiesParts(input, pos, a, "." + b);
    LiesParts(input, pos + |a|, ".", b);
    ScanDigits(x, a, input, pos);
    PointStep(x, NumberWord, a, false, input, pos + |a|);
    DigitsGoOn(x, NumberWord, a + ".", true, b, input, pos + |a| + 1);
  }

  /** A second point makes it a symbol. */
  lemma TwoPointsAreSymbol(x: Lex, a: string, b: string, c: string, input: string, pos: nat)
    requires Between(x) && Digits(a) && AllDigits(b) && AllDigits(c) && Lies(input, pos, a + ("." + b) + ("." + c))
    ensures Run(x, input, pos) ==
      Run(Inside(x, SymbolWord, a + "." + b + "." + c, true), input, pos + |a| + |b| + |c| + 2)
  {
    hide Run, Inside, Digits, Lies;
    LiesParts(input, pos, a + ("." + b), "." + c);
    DecimalIsNumber(x, a, b, input, pos);
    var p := pos + |a| + 1 + |b|;
    LiesParts(input, p, ".", c);
    PointStep(x, NumberWord, a + "." + b, true, input, p);
    DigitsGoOn(x, SymbolWord, a + "." + b + ".", true, c, input, p + 1);
  }

  lemma FirstPoint(x: Lex, input: string, pos: nat)
    requires Between(x) && At(input, pos) == '.'
    ensures Run(x, input, pos) == Run(Inside(x, Point, ".", false), input, pos + 1)
  {
    hide Sharp, OnOther, Blank, Open, Shut;
    assert "" + ['.'] == ".";
    OneStep(x, input, pos);
  }

  /** A point in front of digits belongs to a number. */
  lemma PointFirstIsNumber(x: Lex, b: string, input: string, pos: nat)
    requires Between(x) && Digits(b) && Lies(input, pos, "." + b)
    ensures Run(x, input, pos) == Run(Inside(x, NumberWord, "." + b, true), input, pos + 1 + |b|)
  {
    hide Run, Inside, IsDigit;
    LiesParts(input, pos, ".", b);
    FirstPoint(x, input, pos);
    LiesAt(input, pos + 1, b, 0);
    assert b == [b[0]] + b[1..];
    LiesParts(input, pos + 1, [b[0]], b[1..]);
    DigitStep(x, Point, ".", false, input, pos + 1);
    DigitsGoOn(x, NumberWord, "." + [b[0]], true, b[1..], input, pos + 2);
    assert "." + [b[0]] + b[1..] == "." + b;
  }

  /** A word right before a left parenthesis is lost. */
  lemma WordBeforeParIsLost(x: Lex, w: string, input: string, pos: nat)
    requires Between(x) && PlainWord(w) && Lies(input, pos, w + "(")
    ensures Run(x, input, pos) == Run(Plus(x, [Mark(LeftPar)]).(stack := x.stack + 1), input, pos + |w| + 1)
  {
    hide *;
    WholeWord(x, w, "(", input, pos);
    LostAtPar(x, w, input, pos + |w|);
  }

  /** An at sign inside a word is left out of it. */
  lemma AtSignIsLost(x: Lex, w: string, input: string, pos: nat)
    requires Between(x) && PlainWord(w) && Lies(input, pos, w + "@")
    ensures Run(x, input, pos) == Run(InWord(x, w), input, pos + |w| + 1)
  {
    hide *;
    WholeWord(x, w, "@", input, pos);
    LostAtSign(x, w, input, pos + |w|);
  }

  lemma WholeWord(x: Lex, w: string, end: string, input: string, pos: nat)
    requires Between(x) && PlainWord(w) && |end| == 1 && Lies(input, pos, w + end)
    ensures Run(x, input, pos) == Run(InWord(x, w), input, pos + |w|) && At(input, pos + |w|) == end[0]
  {
    hide Run, Lies, InWord, Between;
    LiesParts(input, pos, w, end);
    LiesAt(input, pos + |w|, end, 0);
    ScanWord(w, |w|, x, input, pos);
    assert w[..|w|] == w;
  }

  lemma LostAtPar(x: Lex, w: string, input: string, pos: nat)
    requires Between(x) && At(input, pos) == '('
    ensures Run(InWord(x, w), input, pos) == Run(Plus(x, [Mark(LeftPar)]).(stack := x.stack + 1), input, pos + 1)
  {
    hide KindOf, Sharp, OnOther, OnPoint, Blank, Shut, IsSpace;
    NoSpace();
    OneStep(InWord(x, w), input, pos);
  }

  lemma LostAtSign(x: Lex, w: string, input: string, pos: nat)
    requires Between(x) && At(input, pos) == '@'
    ensures Run(InWord(x, w), input, pos) == Run(InWord(x, w), input, pos + 1)
  {
    hide KindOf, Sharp, OnOther, OnPoint, Blank, Shut, Open, IsSpace;
    NoSpace();
    OneStep(InWord(x, w), input, pos);
  }

  lemma NoSpace()
    ensures !IsSpace('(') && !IsSpace('@')
  {
  }
}
