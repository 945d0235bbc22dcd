/** The printers: the text of an object, written into a buffer (kscm/scheme/display.c, list.c,
    vector.c). */
module Printer {
  import opened Decimal
  import opened Number
  import opened Syntax

  /** Objects with a text: C strings, ints, and vectors whose slots are filled. */
  ghost predicate Printable(d: Datum) {
    match d
    case Void => false
    case Str(s) => '\0' !in s
    case Int(n) => -0x8000_0000 <= n <= INT_MAX
    case Sym(name) => '\0' !in name
    case Pair(car, cdr) => Printable(car) && Printable(cdr)
    case Vector(len, slots) => len == |slots| && forall i | 0 <= i < |slots| :: Printable(slots[i])
    case _ => true
  }

  /** %d prints an int as an unsigned one. */
  function Unsigned(n: int): nat
    requires -0x8000_0000 <= n
  {
    if n < 0 then n + 0x1_0000_0000 else n
  }

  function CharName(c: char): string {
    if c == ' ' then "space" else if c == '\n' then "newline" else [c]
  }

  /** The text of an object; quotes and backslashes within a string are not escaped. */
  ghost function Text(d: Datum): string
    requires Printable(d)
    decreases d
  {
    match d
    case Null => "()"
    case Bool(b) => if b then "#t" else "#f"
    case Int(n) => Numeral(Unsigned(n))
    case Sym(name) => name
    case Char(c) => "#\\" + CharName(c)
    case Str(s) => "\"" + s + "\""
    case Pair(_, _) => "(" + ItemsText(d) + ")"
    case Vector(_, slots) => if slots == [] then "#)" else "#(" + SlotsText(d, 0) + ")"
  }

  /** Characters are written as section 6.3.4 of R5RS names them, */
  lemma CharTexts(c: char)
    ensures Text(Char(' ')) == "#\\space" && Text(Char('\n')) == "#\\newline"
    ensures c != ' ' && c != '\n' ==> Text(Char(c)) == ['#', '\\', c]
  {
  }

  /** so different ones differently. */
  lemma CharTextsDiffer(a: char, b: char)
    ensures Text(Char(a)) == Text(Char(b)) <==> a == b
  {
    CharTexts(a);
    CharTexts(b);
    assert |Text(Char(' '))| == 7 && |Text(Char('\n'))| == 9;
    assert a != ' ' && a != '\n' ==> |Text(Char(a))| == 3 && Text(Char(a))[2] == a;
    assert b != ' ' && b != '\n' ==> |Text(Char(b))| == 3 && Text(Char(b))[2] == b;
  }

  /** A string is written between quotes, as it is. */
  lemma StringText(s: string)
    requires '\0' !in s
    ensures var t := Text(Str(s)); |t| == |s| + 2 && t[0] == '"' && t[|t| - 1] == '"' && t[1..|t| - 1] == s
  {
  }

  /** A negative number is written as the unsigned one of its 32 bits. */
  lemma NegativeText(n: int)
    requires -0x8000_0000 <= n < 0
    ensures ValueOf(Text(Int(n))) == 0x1_0000_0000 + n
  {
    NumeralValue(n + 0x1_0000_0000);
  }

  /** The elements of a list, and what follows its last pair. */
  ghost function ItemsText(d: Datum): string
    requires Printable(d) && d.Pair?
    decreases d, 0
  {
    if d.cdr.Null? then Text(d.car)
    else if d.cdr.Pair? then Text(d.car) + " " + ItemsText(d.cdr)
    else Text(d.car) + " . " + Text(d.cdr)
  }

  ghost function SlotsText(d: Datum, i: nat): string
    requires Printable(d) && d.Vector? && i < |d.slots|
    decreases d, |d.slots| - i
  {
    if i + 1 == |d.slots| then Text(d.slots[i]) else Text(d.slots[i]) + " " + SlotsText(d, i + 1)
  }

  // ---- What the loops write ------------------------------------------------------------------

  /** What the loop over a list still writes from p on: a blank behind each element. */
  ghost function ListRest(p: Datum): string
    requires Printable(p)
  {
    if p.Pair? then Text(p.car) + " " + ListRest(p.cdr)
    else if p.Null? then ""
    else ". " + Text(p) + " "
  }

  ghost function VectorRest(d: Datum, i: nat): string
    requires Printable(d) && d.Vector? && i <= |d.slots|
    decreases |d.slots| - i
  {
    if i == |d.slots| then "" else Text(d.slots[i]) + " " + VectorRest(d, i + 1)
  }

  lemma {:induction false} ListRestText(p: Datum)
    requires Printable(p) && p.Pair?
    ensures ListRest(p) == ItemsText(p) + " "
  {
    if p.cdr.Pair? {
      ListRestText(p.cdr);
    } else {
      assert p.cdr.Null? ==> ListRest(p) == Text(p.car) + " " + "";
    }
  }

  lemma {:induction false} VectorRestText(d: Datum, i: nat)
    requires Printable(d) && d.Vector? && i < |d.slots|
    ensures VectorRest(d, i) == SlotsText(d, i) + " "
    decreases |d.slots| - i
  {
    if i + 1 < |d.slots| {
      VectorRestText(d, i + 1);
    } else {
      assert VectorRest(d, i) == Text(d.slots[i]) + " " + "";
    }
  }

  // ---- The writers ---------------------------------------------------------------------------

  /** Only the text at at, and the null character behind it, is written. */
  twostate predicate Wrote(buf: array<char>, at: nat, n: nat)
    reads buf
  {
    forall j | 0 <= j < buf.Length && !(at <= j <= at + n) :: buf[j] == old(buf[j])
  }

  method Strcpy(buf: array<char>, at: nat, s: string)
    requires at + |s| < buf.Length
    modifies buf
    ensures Holds(buf[..], at, s) && Wrote(buf, at, |s|)
  {
    var i := 0;
    while i < |s|
      invariant i <= |s| && buf[at..at + i] == s[..i] && Wrote(buf, at, |s|)
    {
      buf[at + i] := s[i];
      assert buf[at..at + i + 1] == buf[at..at + i] + [s[i]];
      i := i + 1;
    }
    buf[at + i] := '\0';
    assert buf[..][at..at + |s|] == s;
  }

  /** The end of the text just written. */
  method Strlen(buf: array<char>, at: nat, ghost text: string) returns (n: nat)
    requires Holds(buf[..], at, text) && '\0' !in text
    ensures n == |text|
  {
    n := 0;
    while buf[at + n] != '\0'
      invariant n <= |text|
      decreases |text| - n
    {
      n := n + 1;
    }
  }

  /** A character constant. */
  method PutChar(buf: array<char>, at: nat, c: char) returns (cnt: nat)
    requires at + |Text(Char(c))| < buf.Length
    modifies buf
    ensures cnt == |Text(Char(c))| && Holds(buf[..], at, Text(Char(c))) && Wrote(buf, at, cnt)
  {
    buf[at] := '#';
    buf[at + 1] := '\\';
    if c == ' ' {
      Strcpy(buf, at + 2, "space");
      cnt := 7;
    } else if c == '\n' {
      Strcpy(buf, at + 2, "newline");
      cnt := 9;
    } else {
      buf[at + 2] := c;
      buf[at + 3] := '\0';
      cnt := 3;
    }
    assert buf[..][at + 2..at + cnt] == CharName(c);
    assert buf[..][at..at + cnt] == "#\\" + CharName(c);
  }

  /** A string in quotes. */
  method PutString(buf: array<char>, at: nat, s: string) returns (cnt: nat)
    requires '\0' !in s && at + |Text(Str(s))| < buf.Length
    modifies buf
    ensures cnt == |Text(Str(s))| && Holds(buf[..], at, Text(Str(s))) && Wrote(buf, at, cnt)
  {
    var des := at;
    buf[des] := '"';
    des := des + 1;
    Strcpy(buf, des, s);
    cnt := Strlen(buf, des, s);
    assert buf[..][des..des + cnt] == s;
    des := des + cnt;
    buf[des] := '"';
    buf[des + 1] := '\0';
    cnt := cnt + 2;
    assert buf[at + 1..des] == s;
    assert buf[..][at..at + cnt] == "\"" + s + "\"";
  }

  /** scheme_obj_to_string. */
  method ObjToString(buf: array<char>, at: nat, d: Datum) returns (cnt: nat)
    requires Printable(d) && at + |Text(d)| < buf.Length
    modifies buf
    ensures cnt == |Text(d)| && Holds(buf[..], at, Text(d)) && Wrote(buf, at, cnt)
    decreases d, 1
  {
    match d
    case Int(n) =>
      IntFits(n);
      ItoaUDec(if n < 0 then n + 0x1_0000_0000 else n, buf, at);
      cnt := Strlen(buf, at, Text(d));
    case Sym(name) =>
      Strcpy(buf, at, name);
      cnt := |name|;
    case Char(c) =>
      cnt := PutChar(buf, at, c);
    case Str(s) =>
      cnt := PutString(buf, at, s);
    case Null =>
      Strcpy(buf, at, "()");
      cnt := 2;
    case Pair(_, _) =>
      cnt := ListToString(buf, at, d);
    case Vector(_, _) =>
      cnt := VectorToString(buf, at, d);
    case Bool(b) =>
      Strcpy(buf, at, if b then "#t" else "#f");
      cnt := 2;
  }

  lemma IntFits(n: int)
    requires Printable(Int(n))
    ensures Unsigned(n) <= ULONG_MAX
  {
  }

  /** An element and the blank behind it. */
  method PutElement(buf: array<char>, at: nat, des: nat, d: Datum) returns (end: nat)
    requires Printable(d) && at <= des && des + |Text(d)| < buf.Length
    modifies buf
    ensures end == des + |Text(d)| + 1
    ensures buf[at..end] == old(buf[at..des]) + (Text(d) + " ") && Wrote(buf, des, |Text(d)|)
    decreases d, 2
  {
    ghost var front := buf[at..des];
    var n := ObjToString(buf, des, d);
    assert buf[at..des] == front && buf[..][des..des + n] == Text(d);
    end := des + n;
    buf[end] := ' ';
    end := end + 1;
    assert buf[at..end] == front + (Text(d) + " ");
  }

  lemma TailRest(front: string, p: Datum)
    requires Printable(p) && !p.Pair? && !p.Null?
    ensures front + ListRest(p) == front + ['.'] + [' '] + (Text(p) + " ")
    ensures |ListRest(p)| == |Text(p)| + 3
  {
  }

  /** The point and what follows it. */
  method PutTail(buf: array<char>, at: nat, des: nat, p: Datum) returns (end: nat)
    requires Printable(p) && !p.Pair? && !p.Null? && at <= des && des + |ListRest(p)| <= buf.Length
    modifies buf
    ensures end == des + |ListRest(p)|
    ensures buf[at..end] == old(buf[at..des]) + ListRest(p) && Wrote(buf, des, |ListRest(p)|)
    decreases p, 3
  {
    ghost var front := buf[at..des];
    TailRest(front, p);
    hide ListRest, Text;
    buf[des] := '.';
    assert buf[at..des + 1] == front + ['.'];
    buf[des + 1] := ' ';
    assert buf[at..des + 2] == buf[at..des + 1] + [' '];
    end := PutElement(buf, at, des + 2, p);
  }

  /** The last blank gives way to a parenthesis. */
  method PutEnd(buf: array<char>, at: nat, des: nat, ghost text: string)
    requires at < des < buf.Length && des == at + |text|
    requires text == buf[at..des - 1] + ")"
    modifies buf
    ensures Holds(buf[..], at, text) && Wrote(buf, at, |text|)
  {
    ghost var front := buf[at..des - 1];
    buf[des - 1] := ')';
    buf[des] := '\0';
    assert buf[at..des - 1] == front;
    assert buf[..][at..des] == front + ")";
  }

  /** scheme_list_to_string. */
  method ListToString(buf: array<char>, at: nat, list: Datum) returns (cnt: nat)
    requires Printable(list) && list.Pair? && at + |Text(list)| < buf.Length
    modifies buf
    ensures cnt == |Text(list)| && Holds(buf[..], at, Text(list)) && Wrote(buf, at, cnt)
    decreases list, 0
  {
    hide ItemsText, Holds, Text, ListRest;
    EndOf(list);
    ghost var whole := "(" + ListRest(list);
    buf[at] := '(';
    var des := at + 1;
    var p := list;
    while p.Pair?
      invariant Printable(p) && at < des && des <= at + |Text(list)| && (p == list || p < list)
      invariant buf[at..des] + ListRest(p) == whole
      invariant Wrote(buf, at, |Text(list)|)
      decreases p
    {
      PairRest(buf[at..des], p);
      des := PutElement(buf, at, des, p.car);
      p := p.cdr;
    }
    NoRest();
    if !p.Null? {
      des := PutTail(buf, at, des, p);
    }
    assert buf[at..des] == whole;
    PutEnd(buf, at, des, Text(list));
    cnt := des - at;
  }

  lemma PairRest(front: string, p: Datum)
    requires Printable(p) && p.Pair?
    ensures front + ListRest(p) == front + (Text(p.car) + " ") + ListRest(p.cdr)
    ensures |ListRest(p)| == |Text(p.car)| + 1 + |ListRest(p.cdr)|
  {
  }

  lemma SlotRest(front: string, d: Datum, i: nat)
    requires Printable(d) && d.Vector? && i < |d.slots|
    ensures front + VectorRest(d, i) == front + (Text(d.slots[i]) + " ") + VectorRest(d, i + 1)
    ensures |VectorRest(d, i)| == |Text(d.slots[i])| + 1 + |VectorRest(d, i + 1)|
  {
  }

  lemma AllSlots(d: Datum)
    requires Printable(d) && d.Vector?
    ensures d.len == |d.slots| && VectorRest(d, d.len) == ""
  {
  }

  lemma NoRest()
    ensures ListRest(Null) == ""
  {
  }

  lemma EndOf(list: Datum)
    requires Printable(list) && list.Pair?
    ensures var whole := "(" + ListRest(list);
            |whole| == |Text(list)| && whole[|whole| - 1] == ' ' && Text(list) == whole[..|whole| - 1] + ")"
  {
    ListRestText(list);
    var whole := "(" + ListRest(list);
    assert whole == "(" + ItemsText(list) + " ";
    assert whole[..|whole| - 1] == "(" + ItemsText(list);
  }

  lemma EndOfVector(vector: Datum)
    requires Printable(vector) && vector.Vector?
    ensures var whole := "#(" + VectorRest(vector, 0);
            |whole| == |Text(vector)| && Text(vector) == whole[..|whole| - 1] + ")"
    ensures vector.slots != [] ==> VectorRest(vector, 0) != []
  {
    var whole := "#(" + VectorRest(vector, 0);
    if vector.slots == [] {
      assert whole == "#(";
    } else {
      VectorRestText(vector, 0);
      assert whole == "#(" + SlotsText(vector, 0) + " ";
      assert whole[..|whole| - 1] == "#(" + SlotsText(vector, 0);
    }
  }

  /** scheme_vector_to_string. In an empty vector the parenthesis overwrites the one before it. */
  method VectorToString(buf: array<char>, at: nat, vector: Datum) returns (cnt: nat)
    requires Printable(vector) && vector.Vector? && at + |Text(vector)| < buf.Length
    modifies buf
    ensures cnt == |Text(vector)| && Holds(buf[..], at, Text(vector)) && Wrote(buf, at, cnt)
    decreases vector, 0
  {
    hide SlotsText, Holds, Text, VectorRest;
    AllSlots(vector);
    EndOfVector(vector);
    ghost var whole := "#(" + VectorRest(vector, 0);
    buf[at] := '#';
    buf[at + 1] := '(';
    var des := at + 2;
    var i := 0;
    while i < vector.len
      invariant i <= vector.len && at + 2 <= des <= at + |Text(vector)|
      invariant buf[at..des] + VectorRest(vector, i) == whole
      invariant Wrote(buf, at, |Text(vector)|)
    {
      SlotRest(buf[at..des], vector, i);
      des := PutElement(buf, at, des, vector.slots[i]);
      i := i + 1;
    }
    assert buf[at..des] == whole;
    PutEnd(buf, at, des, Text(vector));
    cnt := des - at;
  }
}
