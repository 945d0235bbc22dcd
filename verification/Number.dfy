/** Numerals to numbers and back: strtol and atoi (lib/strtol.c, lib/number.c), and the decimal writer
    of the kernel (lib/number.c). unsigned long and long have 32 bits. */
module Number {
  import opened CStrings
  import opened Decimal

  const ULONG_MAX: nat := 0xFFFF_FFFF
  const LONG_MAX: int := 0x7FFF_FFFF
  const LONG_MIN: int := -0x8000_0000

  // ---- What strtol is for --------------------------------------------------------------------

  /** The rules of section 7.20.1.4 of C99, and those of the kernel: there letters are no digits, and the
      hexadecimal prefix is 0X alone, whatever follows it. */
  datatype Rules = Standard | Kernel

  /** The digit a character stands for; 36 when it is none. */
  function DigitOf(c: char): nat {
    if IsDigit(c) then DigitValue(c)
    else if IsUpper(c) then (c as nat - 'A' as nat) + 10
    else if IsLower(c) then (c as nat - 'a' as nat) + 10
    else 36
  }

  predicate IsBaseDigit(c: char, base: nat, rules: Rules) {
    DigitOf(c) < base && (rules.Standard? || IsDigit(c))
  }

  predicate AllBaseDigits(s: string, base: nat, rules: Rules) {
    forall i | 0 <= i < |s| :: IsBaseDigit(s[i], base, rules)
  }

  /** The value of a string of digits in a base. */
  function BaseValue(s: string, base: nat): nat {
    if s == [] then 0 else BaseValue(s[..|s| - 1], base) * base + DigitOf(s[|s| - 1])
  }

  /** e ends the longest run of base digits that starts at k. */
  ghost predicate DigitRun(s: string, k: nat, e: nat, base: nat, rules: Rules) {
    k <= e <= |s| && AllBaseDigits(s[k..e], base, rules) && !IsBaseDigit(At(s, e), base, rules)
  }

  /** k ends the longest run of white space that starts s. */
  ghost predicate Blank(s: string, k: nat) {
    k <= |s| && (forall i | 0 <= i < k :: IsSpace(s[i])) && !IsSpace(At(s, k))
  }

  function Base(base: int): nat {
    if base < 0 || base == 1 || base > 36 then 10 else base
  }

  /** A sign may follow the white space, */
  function AfterSign(s: string, k: nat): nat {
    if At(s, k) == '-' || At(s, k) == '+' then k + 1 else k
  }

  /** and a prefix that tells base 16 may follow the sign; without one, base 0 is 8 or 10. */
  function HasHexPrefix(s: string, k: nat, rules: Rules): bool {
    At(s, k) == '0' &&
    match rules
    case Standard => (At(s, k + 1) == 'x' || At(s, k + 1) == 'X') && IsBaseDigit(At(s, k + 2), 16, Standard)
    case Kernel => At(s, k + 1) == 'X'
  }

  function DigitsFrom(s: string, k: nat, base: nat, rules: Rules): (nat, nat) {
    if (base == 16 || base == 0) && HasHexPrefix(s, k, rules) then (k + 2, 16)
    else if base == 0 then (k, if At(s, k) == '0' then 8 else 10)
    else (k, base)
  }

  function Signed(negative: bool, n: int): int {
    if negative then -n else n
  }

  function Clamp(v: int): int {
    if v < LONG_MIN then LONG_MIN else if v > LONG_MAX then LONG_MAX else v
  }

  /** (r, end, range) converts s: the value of the longest run of digits, signed and clamped, with
      the index behind it; or 0 and index 0 when there is none. */
  ghost predicate Converts(s: string, base: int, rules: Rules, r: int, end: nat, range: bool) {
    exists k: nat, e: nat :: Blank(s, k) && ConvertsAt(s, base, rules, k, e, r, end, range)
  }

  ghost predicate ConvertsAt(s: string, base: int, rules: Rules, k: nat, e: nat, r: int, end: nat, range: bool) {
    var (start, b) := DigitsFrom(s, AfterSign(s, k), Base(base), rules);
    DigitRun(s, start, e, b, rules) &&
    if e == start then r == 0 && end == 0 && !range
    else
      var v := Signed(At(s, k) == '-', BaseValue(s[start..e], b));
      r == Clamp(v) && end == e && (range <==> v != Clamp(v))
  }

  /** There is only one way to convert a string. */
  lemma ConvertsUniquely(s: string, base: int, rules: Rules, r: int, end: nat, range: bool,
                         r': int, end': nat, range': bool)
    requires Converts(s, base, rules, r, end, range) && Converts(s, base, rules, r', end', range')
    ensures r == r' && end == end' && range == range'
  {
    var k: nat, e: nat :| Blank(s, k) && ConvertsAt(s, base, rules, k, e, r, end, range);
    var k': nat, e': nat :| Blank(s, k') && ConvertsAt(s, base, rules, k', e', r', end', range');
    assert k == k';
    var (start, b) := DigitsFrom(s, AfterSign(s, k), Base(base), rules);
    RunsEndAlike(s, start, e, e', b, rules);
  }

  lemma RunsEndAlike(s: string, k: nat, e: nat, e': nat, base: nat, rules: Rules)
    requires DigitRun(s, k, e, base, rules) && DigitRun(s, k, e', base, rules)
    ensures e == e'
  {
    if e < e' {
      InRun(s, k, e', base, e, rules);
    } else if e' < e {
      InRun(s, k, e, base, e', rules);
    }
  }

  lemma InRun(s: string, k: nat, e: nat, base: nat, j: nat, rules: Rules)
    requires k <= j < e <= |s| && AllBaseDigits(s[k..e], base, rules)
    ensures IsBaseDigit(s[j], base, rules)
  {
    assert s[k..e][j - k] == s[j];
  }

  // ---- strtol --------------------------------------------------------------------------------

  function Appended(i: nat, base: nat, c: nat): nat {
    i * base + c
  }

  /** What the test of the loop means: with the digit appended the number fits an unsigned long. */
  lemma NoWrap(i: nat, c: nat, base: nat)
    requires 0 < base && c < base
    ensures Appended(i, base, c) == i * base + c
    ensures Appended(i, base, c) <= ULONG_MAX <==>
      !(i > ULONG_MAX / base || (i == ULONG_MAX / base && c > ULONG_MAX % base))
  {
    Euclid(ULONG_MAX, base);
    NoWrapBelow(i, c, base, ULONG_MAX / base, ULONG_MAX % base);
  }

  lemma NoWrapBelow(i: nat, c: nat, base: nat, cutoff: nat, cutlim: nat)
    requires cutoff * base + cutlim == ULONG_MAX && c < base && cutlim < base
    ensures i * base + c <= ULONG_MAX <==> !(i > cutoff || (i == cutoff && c > cutlim))
  {
    Distribute(cutoff, 1, base);
    Scale(cutoff + 1, i, base);
    Distribute(i, 1, base);
    Scale(i + 1, cutoff, base);
  }

  lemma Euclid(n: nat, k: nat)
    requires k > 0
    ensures n == (n / k) * k + n % k && 0 <= n % k < k && n / k >= 0
  {
  }

  lemma Scale(a: nat, b: nat, k: nat)
    ensures a <= b ==> a * k <= b * k
  {
  }

  lemma Append(s: string, k: nat, e: nat, base: nat)
    requires k <= e < |s| && AllBaseDigits(s[k..e], base, Kernel) && IsBaseDigit(s[e], base, Kernel)
    ensures AllBaseDigits(s[k..e + 1], base, Kernel)
    ensures BaseValue(s[k..e + 1], base) == Appended(BaseValue(s[k..e], base), base, DigitValue(s[e]))
  {
    var t := s[k..e + 1];
    assert t[..|t| - 1] == s[k..e] && t[|t| - 1] == s[e];
  }

  lemma NoDigits(s: string, k: nat, base: nat)
    requires k <= |s|
    ensures AllBaseDigits(s[k..k], base, Kernel) && BaseValue(s[k..k], base) == 0
  {
  }

  lemma StaysAbove(v: nat, c: nat, base: nat)
    requires base > 0
    ensures v > ULONG_MAX ==> Appended(v, base, c) > ULONG_MAX
  {
    Scale(1, base, v);
  }

  /** The digits from k on, accumulated in an unsigned long that never wraps. */
  method ScanDigits(s: string, k: nat, base: nat) returns (i: nat, overflow: bool, e: nat)
    requires k <= |s| && 0 < base
    ensures DigitRun(s, k, e, base, Kernel) && i <= ULONG_MAX
    ensures overflow <==> BaseValue(s[k..e], base) > ULONG_MAX
    ensures !overflow ==> i == BaseValue(s[k..e], base)
  {
    hide BaseValue, AllBaseDigits, Appended, IsAlpha, ToUpper;
    var cutoff, cutlim := ULONG_MAX / base, ULONG_MAX % base;
    overflow := false;
    i := 0;
    e := k;
    NoDigits(s, k, base);
    while At(s, e) != '\0'
      invariant k <= e <= |s| && AllBaseDigits(s[k..e], base, Kernel) && i <= ULONG_MAX
      invariant if overflow then BaseValue(s[k..e], base) > ULONG_MAX else i == BaseValue(s[k..e], base)
      decreases |s| - e
    {
      var c: int;
      if IsDigit(s[e]) {
        c := DigitValue(s[e]);
      } else if IsAlpha(s[e]) {
        c := (ToUpper(s[e]) as int - 'A' as int + 10) % 0x100;
      } else {
        break;
      }
      NoAlpha(s[e]);
      if c >= base {
        break;
      }
      Append(s, k, e, base);
      NoWrap(i, c, base);
      StaysAbove(BaseValue(s[k..e], base), c, base);
      if i > cutoff || (i == cutoff && c > cutlim) {
        overflow := true;
      } else {
        i := i * base + c;
      }
      e := e + 1;
    }
  }

  method SkipSpace(s: string) returns (k: nat)
    ensures Blank(s, k)
  {
    k := 0;
    while IsSpace(At(s, k))
      invariant k <= |s| && forall i | 0 <= i < k :: IsSpace(s[i])
      decreases |s| - k
    {
      k := k + 1;
    }
  }

  lemma NothingThere(s: string, k: nat, base: nat)
    requires k <= |s| && At(s, k) == '\0'
    ensures DigitRun(s, k, k, base, Kernel)
  {
  }

  /** strtol: the value, the index *endptr gets, and whether errno becomes ERANGE. */
  method Strtol(s: string, base: int) returns (r: int, end: nat, range: bool)
    ensures Converts(s, base, Kernel, r, end, range)
  {
    hide BaseValue, AllBaseDigits, IsBaseDigit, DigitRun, IsAlpha, ToUpper;
    var b := if base < 0 || base == 1 || base > 36 then 10 else base;
    var blank := SkipSpace(s);
    var k := blank;
    if At(s, k) == '\0' {
      NothingThere(s, k, DigitsFrom(s, k, b, Kernel).1);
      assert ConvertsAt(s, base, Kernel, blank, k, 0, 0, false);
      return 0, 0, false;
    }
    var negative := false;
    if At(s, k) == '-' {
      negative := true;
      k := k + 1;
    } else if At(s, k) == '+' {
      k := k + 1;
    }
    ToUpperKeeps(At(s, k + 1));
    if b == 16 && At(s, k) == '0' && ToUpper(At(s, k + 1)) == 'X' {
      k := k + 2;
    }
    if b == 0 {
      if At(s, k) == '0' {
        if ToUpper(At(s, k + 1)) == 'X' {
          k := k + 2;
          b := 16;
        } else {
          b := 8;
        }
      } else {
        b := 10;
      }
    }
    assert DigitsFrom(s, AfterSign(s, blank), Base(base), Kernel) == (k, b);
    var i, overflow, e := ScanDigits(s, k, b);
    if e == k {
      assert ConvertsAt(s, base, Kernel, blank, e, 0, 0, false);
      return 0, 0, false;
    }
    if i > (if negative then 0x8000_0000 else LONG_MAX) {
      overflow := true;
    }
    if overflow {
      r, end, range := if negative then LONG_MIN else LONG_MAX, e, true;
    } else {
      r, end, range := if negative then -i else i, e, false;
    }
    assert ConvertsAt(s, base, Kernel, blank, e, r, end, range);
  }

  /** The end of the run of digits that starts at k. */
  function RunEnd(s: string, k: nat, base: nat, rules: Rules): (e: nat)
    requires k <= |s| && base <= 36
    ensures DigitRun(s, k, e, base, rules)
    decreases |s| - k
  {
    if !IsBaseDigit(At(s, k), base, rules) then k
    else
      var e := RunEnd(s, k + 1, base, rules);
      assert s[k..e] == [s[k]] + s[k + 1..e];
      e
  }

  function BlankEnd(s: string, k: nat): (e: nat)
    requires k <= |s| && forall i | 0 <= i < k :: IsSpace(s[i])
    ensures Blank(s, e)
    decreases |s| - k
  {
    if IsSpace(At(s, k)) then BlankEnd(s, k + 1) else k
  }

  /** Every string converts to something. */
  lemma CanConvert(s: string, base: int, rules: Rules)
    ensures exists r: int, end: nat, range: bool :: Converts(s, base, rules, r, end, range)
  {
    var k := BlankEnd(s, 0);
    var (start, b) := DigitsFrom(s, AfterSign(s, k), Base(base), rules);
    var e := RunEnd(s, start, b, rules);
    var v := if e == start then 0 else Signed(At(s, k) == '-', BaseValue(s[start..e], b));
    var end := if e == start then 0 else e;
    assert Blank(s, k) && ConvertsAt(s, base, rules, k, e, Clamp(v), end, v != Clamp(v));
    assert Converts(s, base, rules, Clamp(v), end, v != Clamp(v));
  }

  /** The number atoi makes of s. */
  ghost function AtoiValue(s: string): (r: int)
    ensures exists end: nat, range: bool :: Converts(s, 10, Kernel, r, end, range)
  {
    CanConvert(s, 10, Kernel);
    var r: int :| exists end: nat, range: bool :: Converts(s, 10, Kernel, r, end, range);
    r
  }

  method Atoi(s: string) returns (r: int)
    ensures r == AtoiValue(s)
  {
    var end, range;
    r, end, range := Strtol(s, 10);
    ghost var end': nat, range': bool :| Converts(s, 10, Kernel, AtoiValue(s), end', range');
    ConvertsUniquely(s, 10, Kernel, r, end, range, AtoiValue(s), end', range');
  }

  // ---- What the letter classes cost ----------------------------------------------------------

  /** The digits C99 asks for, from k on, are decimal, behind a prefix, if any, with a capital X, and a
      0X is not the end of them. */
  predicate PlainNumeral(s: string, k: nat, base: nat)
    requires k <= |s| && base <= 36
  {
    var (start, b) := DigitsFrom(s, k, base, Standard);
    (forall i | start <= i < RunEnd(s, start, b, Standard) :: IsDigit(s[i])) &&
    (start > k ==> At(s, k + 1) == 'X') &&
    !(start == k && (base == 16 || base == 0) && At(s, k) == '0' && At(s, k + 1) == 'X')
  }

  /** strtol gives what C99 asks for if and only if the numeral is plain. */
  lemma StandardExactly(s: string, base: int, r: int, end: nat, range: bool)
    requires (base == 0 || 2 <= base <= 36) && Converts(s, base, Kernel, r, end, range)
    ensures Converts(s, base, Standard, r, end, range) <==> PlainNumeral(s, AfterSign(s, BlankEnd(s, 0)), base)
  {
    hide BaseValue, DigitRun, DigitsFrom, PlainNumeral;
    var k := BlankEnd(s, 0);
    var a := AfterSign(s, k);
    var (start, b) := DigitsFrom(s, a, base, Standard);
    StartsInside(s, a, base);
    var e := RunEnd(s, start, b, Standard);
    var k': nat, e': nat :| Blank(s, k') && ConvertsAt(s, base, Kernel, k', e', r, end, range);
    assert k' == k;
    StandardAt(s, base, k, e, r, end, range);
    if DigitsFrom(s, a, base, Kernel) == (start, b) {
      SameStart(s, a, base, e, e');
    } else {
      OtherStart(s, a, base, e, e');
    }
  }

  lemma StartsInside(s: string, k: nat, base: nat)
    requires k <= |s| && base <= 36
    ensures k <= DigitsFrom(s, k, base, Standard).0 <= |s| && DigitsFrom(s, k, base, Standard).1 <= 36
  {
  }

  /** Where both rules begin with the same digit, the kernel stops at the first letter. */
  lemma SameStart(s: string, k: nat, base: nat, e: nat, e': nat)
    requires k <= |s| && base <= 36 && DigitsFrom(s, k, base, Kernel) == DigitsFrom(s, k, base, Standard)
    requires var (start, b) := DigitsFrom(s, k, base, Standard);
             DigitRun(s, start, e, b, Standard) && DigitRun(s, start, e', b, Kernel)
    ensures DigitsFrom(s, k, base, Standard).0 <= e' <= e
    ensures PlainNumeral(s, k, base) <==> e' == e
  {
    var (start, b) := DigitsFrom(s, k, base, Standard);
    hide DigitRun;
    DecimalRun(s, start, b, e, e');
    RunsEndAlike(s, start, e, RunEnd(s, start, b, Standard), b, Standard);
  }

  /** They begin differently at 0x before a hexadecimal digit, where the kernel reads the zero only, and
      at 0X before anything else, where it reads nothing. */
  lemma OtherStart(s: string, k: nat, base: nat, e: nat, e': nat)
    requires k <= |s| && base <= 36 && DigitsFrom(s, k, base, Kernel) != DigitsFrom(s, k, base, Standard)
    requires var (start, b) := DigitsFrom(s, k, base, Standard);
             DigitRun(s, start, e, b, Standard)
    requires var (start', b') := DigitsFrom(s, k, base, Kernel);
             DigitRun(s, start', e', b', Kernel)
    ensures !PlainNumeral(s, k, base)
    ensures e > DigitsFrom(s, k, base, Standard).0 && (e' == DigitsFrom(s, k, base, Kernel).0 || e' != e)
  {
    hide DigitRun;
    var (start, b) := DigitsFrom(s, k, base, Standard);
    var (start', b') := DigitsFrom(s, k, base, Kernel);
    LongerRun(s, start, e, b, Standard);
    if start > k {
      assert At(s, k + 1) == 'x';
      ShortRun(s, k, e', b', Kernel);
    } else {
      EmptyRun(s, k + 2, e', b', Kernel);
    }
  }

  lemma StandardAt(s: string, base: int, k: nat, e: nat, r: int, end: nat, range: bool)
    requires Blank(s, k)
    requires var (start, b) := DigitsFrom(s, AfterSign(s, k), Base(base), Standard);
             DigitRun(s, start, e, b, Standard)
    ensures Converts(s, base, Standard, r, end, range) <==> ConvertsAt(s, base, Standard, k, e, r, end, range)
  {
    if Converts(s, base, Standard, r, end, range) {
      var k': nat, e': nat :| Blank(s, k') && ConvertsAt(s, base, Standard, k', e', r, end, range);
      assert k' == k;
      var (start, b) := DigitsFrom(s, AfterSign(s, k), Base(base), Standard);
      RunsEndAlike(s, start, e, e', b, Standard);
    }
  }

  lemma LongerRun(s: string, k: nat, e: nat, base: nat, rules: Rules)
    requires DigitRun(s, k, e, base, rules) && IsBaseDigit(At(s, k), base, rules)
    ensures e > k
  {
  }

  lemma EmptyRun(s: string, k: nat, e: nat, base: nat, rules: Rules)
    requires DigitRun(s, k, e, base, rules) && !IsBaseDigit(At(s, k), base, rules)
    ensures e == k
  {
    if e > k {
      InRun(s, k, e, base, k, rules);
    }
  }

  lemma ShortRun(s: string, k: nat, e: nat, base: nat, rules: Rules)
    requires DigitRun(s, k, e, base, rules) && !IsBaseDigit(At(s, k + 1), base, rules)
    ensures e <= k + 1
  {
    if e > k + 1 {
      InRun(s, k, e, base, k + 1, rules);
    }
  }

  /** Letters are digits to C99, and no digits to the kernel. */
  lemma LettersLost()
    ensures Converts("ff", 16, Kernel, 0, 0, false) && Converts("ff", 16, Standard, 0xFF, 2, false)
  {
    var s := "ff";
    assert s[0..0] == "" && s[0..2] == s && s[..1] == "f" && "f"[..0] == "";
    assert BaseValue("f", 16) == 15 && BaseValue(s, 16) == 0xFF;
    assert Blank(s, 0) && ConvertsAt(s, 16, Kernel, 0, 0, 0, 0, false);
    assert ConvertsAt(s, 16, Standard, 0, 2, 0xFF, 2, false);
  }

  /** From one start, the decimal digits of a run end where the run does, or at its first letter. */
  lemma DecimalRun(s: string, k: nat, base: nat, e: nat, e': nat)
    requires DigitRun(s, k, e, base, Standard) && DigitRun(s, k, e', base, Kernel)
    ensures k <= e' <= e <= |s| && (e' == e <==> forall i | k <= i < e :: IsDigit(s[i]))
  {
    if e < e' {
      InRun(s, k, e', base, e, Kernel);
    } else if e' < e {
      InRun(s, k, e, base, e', Standard);
    }
    forall i | k <= i < e'
      ensures IsDigit(s[i])
    {
      InRun(s, k, e', base, i, Kernel);
    }
  }

  // ---- itoa ----------------------------------------------------------------------------------

  function Pow10(k: nat): nat {
    if k == 0 then 1 else 10 * Pow10(k - 1)
  }

  /** The text of n, ended by a null character, is in buf from at. */
  ghost predicate Holds(buf: seq<char>, at: nat, text: string) {
    at + |text| < |buf| && buf[at..at + |text|] == text && buf[at + |text|] == '\0'
  }

  /** Each of the k digits still to come makes the numeral longer by one. */
  lemma {:induction false} NumeralLength(front: nat, k: nat, rest: nat)
    requires front > 0 && rest < Pow10(k)
    ensures |Numeral(front * Pow10(k) + rest)| == |Numeral(front)| + k
  {
    if k > 0 {
      NumeralLength(front, k - 1, rest / 10);
      PowPositive(k - 1);
      Scale(1, front, Pow10(k - 1));
      TenTimes(front, k);
      var m: nat := front * Pow10(k - 1) + rest / 10;
      Prefix(front * Pow10(k) + rest, m, rest);
    }
  }

  lemma TenTimes(front: nat, k: nat)
    requires k > 0
    ensures front * Pow10(k) == 10 * (front * Pow10(k - 1)) == 10 * front * Pow10(k - 1)
  {
  }

  lemma Prefix(n: nat, m: nat, rest: nat)
    requires m > 0 && n == 10 * (m - rest / 10) + rest
    ensures |Numeral(n)| == |Numeral(m)| + 1
  {
    assert n == 10 * m + rest % 10;
  }

  lemma PowPositive(k: nat)
    ensures Pow10(k) > 0
  {
  }

  /** front and the last k digits, which make rest, are n. */
  ghost predicate Parts(n: nat, front: nat, k: nat, rest: nat) {
    front > 0 && n == front * Pow10(k) + rest && rest < Pow10(k)
  }

  lemma AllWritten(n: nat, front: nat, rest: nat)
    ensures Parts(n, front, 0, rest) ==> n == front
  {
  }

  /** One more digit. */
  lemma NextDigit(n: nat, front: nat, k: nat, rest: nat, t: nat, d: nat, rest': nat)
    requires Parts(n, front, k, rest) && k > 0
    requires t == Pow10(k - 1) && t > 0 && d == rest / t && rest' == rest % t
    ensures d < 10 && Parts(n, 10 * front + d, k - 1, rest')
    ensures Numeral(10 * front + d) == Numeral(front) + [DigitChar(d)]
  {
    hide Numeral, Pow10;
    Shift(k);
    Euclid(rest, t);
    Scale(10, d, t);
    TenTimes(front, k);
    Distribute(10 * front, d, t);
    NumeralAppend(front, d);
  }

  lemma NumeralAppend(front: nat, d: nat)
    requires front > 0 && d < 10
    ensures Numeral(10 * front + d) == Numeral(front) + [DigitChar(d)]
  {
    assert (10 * front + d) / 10 == front;
  }

  lemma Distribute(a: nat, b: nat, t: nat)
    ensures (a + b) * t == a * t + b * t
  {
  }

  lemma FirstDigit(n: nat, k: nat)
    requires 0 < n < 10 * Pow10(k) && Pow10(k) > 0 && n / Pow10(k) != 0
    ensures 0 < n / Pow10(k) < 10 && n == (n / Pow10(k)) * Pow10(k) + n % Pow10(k)
    ensures Numeral(n / Pow10(k)) == [DigitChar(n / Pow10(k))]
  {
    var t := Pow10(k);
    Euclid(n, t);
    Scale(10, n / t, t);
  }

  lemma NonzeroQuotient(n: nat, t: nat)
    requires t > 0 && n / t == 0
    ensures n < t
  {
    Euclid(n, t);
  }

  /** __itoaU_dec. */
  method ItoaUDec(n: nat, buf: array<char>, at: nat)
    requires n <= ULONG_MAX && at + |Numeral(n)| < buf.Length
    modifies buf
    ensures Holds(buf[..], at, Numeral(n))
    ensures forall j | 0 <= j < buf.Length && !(at <= j <= at + |Numeral(n)|) :: buf[j] == old(buf[j])
  {
    hide Numeral, Pow10;
    ZeroNumeral(n);
    buf[at] := '0';
    buf[at + 1] := '\0';
    if n == 0 {
      assert buf[..][at..at + 1] == ['0'];
      return;
    }
    var t := 1000000000;
    ghost var k: nat := 9;  // t is the k-th power of 10
    BillionIsPower();
    while t > 0 && n / t == 0
      invariant n < 10 * t && t == Pow10(k)
      decreases t
      modifies {}
    {
      NonzeroQuotient(n, t);
      Shift(k);
      t := t / 10;
      k := k - 1;
    }
    FirstDigit(n, k);
    NumeralLength(n / t, k, n % t);
    buf[at] := '0' + (n / t) as char;
    Shift(k);
    assert buf[at..at + 1] == Numeral(n / t);
    WriteDigits(n % t, t / 10, buf, at + 1, n, at, n / t, k);
  }

  /** The digits behind those of front, which are written. */
  method WriteDigits(rest: nat, power: nat, buf: array<char>, at: nat,
                     ghost n: nat, ghost start: nat, ghost front: nat, ghost k: nat)
    requires Parts(n, front, k, rest)
    requires power == if k == 0 then 0 else Pow10(k - 1)
    requires start + |Numeral(n)| < buf.Length && |Numeral(n)| == |Numeral(front)| + k
    requires at == start + |Numeral(front)| && buf[start..at] == Numeral(front)
    modifies buf
    ensures Holds(buf[..], start, Numeral(n))
    ensures forall j | 0 <= j < buf.Length && !(start <= j <= start + |Numeral(n)|) :: buf[j] == old(buf[j])
  {
    hide Numeral, Pow10, Parts;
    var p: nat, numb: nat, t: nat := at, rest, power;
    ghost var front: nat, k: nat := front, k;
    while t != 0
      invariant t == (if k == 0 then 0 else Pow10(k - 1)) && Parts(n, front, k, numb)
      invariant |Numeral(n)| == |Numeral(front)| + k && p == start + |Numeral(front)| < buf.Length
      invariant buf[start..p] == Numeral(front)
      invariant forall j | 0 <= j < buf.Length && !(start <= j <= start + |Numeral(n)|) :: buf[j] == old(buf[j])
      decreases k
    {
      Shift(k);
      NextDigit(n, front, k, numb, t, numb / t, numb % t);
      front := 10 * front + numb / t;
      buf[p] := '0' + (numb / t) as char;
      assert buf[start..p + 1] == buf[start..p] + [buf[p]];
      p, numb, t := p + 1, numb % t, t / 10;
      k := k - 1;
      Shift(k);
    }
    Shift(k);
    PowPositive(if k > 0 then k - 1 else 0);
    AllWritten(n, front, numb);
    buf[p] := '\0';
    assert buf[..][start..p] == Numeral(n);
  }

  lemma ZeroNumeral(n: nat)
    ensures n == 0 ==> Numeral(n) == ['0']
  {
  }

  lemma BillionIsPower()
    ensures Pow10(9) == 1000000000
  {
    assert Pow10(3) == 1000;
    assert Pow10(6) == 1000 * Pow10(3);
  }

  lemma Shift(k: nat)
    ensures Pow10(k) / 10 == if k == 0 then 0 else Pow10(k - 1)
    ensures Pow10(0) == 1 && (k > 0 ==> Pow10(k) == 10 * Pow10(k - 1))
  {
  }

  // ---- Round trip ----------------------------------------------------------------------------

  lemma {:induction false} DecimalValue(s: string)
    requires AllDigits(s)
    ensures AllBaseDigits(s, 10, Kernel) && BaseValue(s, 10) == ValueOf(s)
  {
    if s != [] {
      DecimalValue(s[..|s| - 1]);
    }
  }

  /** atoi inverts itoa on 0 to INT_MAX; above that it gives INT_MAX. */
  lemma AtoiOfItoa(n: nat, r: int, end: nat, range: bool)
    requires Converts(Numeral(n), 10, Kernel, r, end, range)
    ensures r == (if n <= LONG_MAX then n else LONG_MAX) && end == |Numeral(n)| && (range <==> n > LONG_MAX)
  {
    var s := Numeral(n);
    DecimalValue(s);
    NumeralValue(n);
    assert IsDigit(s[0]);
    assert s[0..|s|] == s;
    assert DigitRun(s, 0, |s|, 10, Kernel);
    var v := Clamp(n);
    assert Blank(s, 0) && ConvertsAt(s, 10, Kernel, 0, |s|, v, |s|, n != v);
    ConvertsUniquely(s, 10, Kernel, r, end, range, v, |s|, n != v);
  }

  /** What atoi makes of the text itoa writes. */
  lemma AtoiOfNumeral(n: nat)
    ensures AtoiValue(Numeral(n)) == if n <= LONG_MAX then n else LONG_MAX
  {
    var end: nat, range: bool :| Converts(Numeral(n), 10, Kernel, AtoiValue(Numeral(n)), end, range);
    AtoiOfItoa(n, AtoiValue(Numeral(n)), end, range);
  }

  // ---- Signs, blanks and bad bases -----------------------------------------------------------

  /** A base that is none is 10. */
  lemma BadBaseIsTen(s: string, base: int, rules: Rules, r: int, end: nat, range: bool)
    requires base < 0 || base == 1 || base > 36
    ensures Converts(s, base, rules, r, end, range) <==> Converts(s, 10, rules, r, end, range)
  {
    hide DigitRun, DigitsFrom, Blank;
    forall k: nat, e: nat
      ensures ConvertsAt(s, base, rules, k, e, r, end, range) <==> ConvertsAt(s, 10, rules, k, e, r, end, range)
    {
    }
  }

  /** Blanks, a sign, and a numeral: atoi gives the number, as far as an int goes. */
  lemma AtoiSigned(blanks: string, sign: string, n: nat)
    requires (forall i | 0 <= i < |blanks| :: IsSpace(blanks[i])) && (sign == "" || sign == "+" || sign == "-")
    ensures var v := if sign == "-" then -(n as int) else n as int;
            AtoiValue(blanks + sign + Numeral(n)) ==
            if v > 0x7FFF_FFFF then 0x7FFF_FFFF else if v < -0x8000_0000 then -0x8000_0000 else v
  {
    var s := blanks + sign + Numeral(n);
    SignedConverts(blanks, sign, n);
    var v := Clamp(Signed(sign == "-", n));
    var end: nat, range: bool :| Converts(s, 10, Kernel, AtoiValue(s), end, range);
    hide Converts;
    ConvertsUniquely(s, 10, Kernel, AtoiValue(s), end, range, v, |s|, v != Signed(sign == "-", n));
  }

  lemma SignedConverts(blanks: string, sign: string, n: nat)
    requires (forall i | 0 <= i < |blanks| :: IsSpace(blanks[i])) && (sign == "" || sign == "+" || sign == "-")
    ensures var s := blanks + sign + Numeral(n);
            var v := Signed(sign == "-", n);
            Converts(s, 10, Kernel, Clamp(v), |s|, Clamp(v) != v)
  {
    hide BaseValue, AllBaseDigits, Numeral, DigitRun, Blank, AfterSign, Clamp;
    var s := blanks + sign + Numeral(n);
    SignedParts(blanks, sign, n);
    DecimalValue(Numeral(n));
    NumeralValue(n);
    var v := Signed(sign == "-", n);
    assert ConvertsAt(s, 10, Kernel, |blanks|, |s|, Clamp(v), |s|, Clamp(v) != v);
  }

  lemma SignedParts(blanks: string, sign: string, n: nat)
    requires (forall i | 0 <= i < |blanks| :: IsSpace(blanks[i])) && (sign == "" || sign == "+" || sign == "-")
    ensures var s := blanks + sign + Numeral(n);
            var start := |blanks| + |sign|;
            Blank(s, |blanks|) && AfterSign(s, |blanks|) == start < |s| && s[start..|s|] == Numeral(n) &&
            DigitRun(s, start, |s|, 10, Kernel) && (At(s, |blanks|) == '-' <==> sign == "-")
  {
    var s := blanks + sign + Numeral(n);
    var start := |blanks| + |sign|;
    assert s[start..|s|] == Numeral(n);
    assert IsDigit(Numeral(n)[0]) && s[start] == Numeral(n)[0];
    if sign != "" {
      assert s[|blanks|] == sign[0];
    }
    DecimalValue(Numeral(n));
  }
}
