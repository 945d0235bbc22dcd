/** Reading and printing with symbol objects: the data of the reader, each symbol standing for the
    object the symbol table holds for its name (kscm/scheme/read.c, symbol.c). */
module Interning {
  import opened Options
  import opened Symbols
  import S = Syntax
  import Scanner
  import WellFormed
  import Printer
  import RoundTrip

  datatype Object =
    | Null
    | Void
    | Bool(b: bool)
    | Int(n: int)
    | Sym(symbol: Symbol)
    | Char(c: char)
    | Str(s: string)
    | Pair(car: Object, cdr: Object)
    | Vector(len: nat, slots: seq<Object>)

  /** The datum with names for the symbols. */
  function Named(o: Object): S.Datum {
    match o
    case Null => S.Null
    case Void => S.Void
    case Bool(b) => S.Bool(b)
    case Int(n) => S.Int(n)
    case Sym(symbol) => S.Sym(symbol.name)
    case Char(c) => S.Char(c)
    case Str(s) => S.Str(s)
    case Pair(car, cdr) => S.Pair(Named(car), Named(cdr))
    case Vector(len, slots) => S.Vector(len, seq(|slots|, i requires 0 <= i < |slots| => Named(slots[i])))
  }

  ghost function Held(t: seq<Chain>, name: string): Option<Symbol>
    requires |t| == TABLE_SIZE
  {
    Lookup(t[Hash(name)], name)
  }

  /** All symbols of the object are those of the table. */
  ghost predicate Interned(o: Object, t: seq<Chain>)
    requires |t| == TABLE_SIZE
    decreases o
  {
    match o
    case Sym(symbol) => Held(t, symbol.name) == Some(symbol)
    case Pair(car, cdr) => Interned(car, t) && Interned(cdr, t)
    case Vector(_, slots) => forall i | 0 <= i < |slots| :: Interned(slots[i], t)
    case _ => true
  }

  /** The table only grows. */
  ghost predicate Kept(t: seq<Chain>, t': seq<Chain>)
    requires |t| == TABLE_SIZE && |t'| == TABLE_SIZE
  {
    forall name | Held(t, name).Some? :: Held(t', name) == Held(t, name)
  }

  lemma {:induction false} StaysInterned(o: Object, t: seq<Chain>, t': seq<Chain>)
    requires |t| == TABLE_SIZE && |t'| == TABLE_SIZE && Kept(t, t') && Interned(o, t)
    ensures Interned(o, t')
    decreases o
  {
    match o
    case Pair(car, cdr) =>
      StaysInterned(car, t, t');
      StaysInterned(cdr, t, t');
    case Vector(_, slots) =>
      forall i | 0 <= i < |slots|
        ensures Interned(slots[i], t')
      {
        StaysInterned(slots[i], t, t');
      }
    case _ =>
  }

  /** Objects of one table that read alike are the same, symbol objects included. */
  lemma {:induction false} SameObject(a: Object, b: Object, t: seq<Chain>)
    requires |t| == TABLE_SIZE && Interned(a, t) && Interned(b, t) && Named(a) == Named(b)
    ensures a == b
    decreases a
  {
    match a
    case Pair(car, cdr) =>
      SameObject(car, b.car, t);
      SameObject(cdr, b.cdr, t);
    case Vector(_, slots) =>
      SameSlots(a, b, t);
    case _ =>
  }

  lemma SameSlots(a: Object, b: Object, t: seq<Chain>)
    requires a.Vector? && |t| == TABLE_SIZE && Interned(a, t) && Interned(b, t) && Named(a) == Named(b)
    ensures a == b
    decreases a, 0
  {
    var (na, nb) := (Named(a), Named(b));
    assert |a.slots| == |na.slots| == |nb.slots| == |b.slots|;
    forall i | 0 <= i < |a.slots|
      ensures a.slots[i] == b.slots[i]
    {
      assert Named(a.slots[i]) == na.slots[i] == nb.slots[i] == Named(b.slots[i]);
      SameObject(a.slots[i], b.slots[i], t);
    }
  }

  /** The names are C strings. */
  ghost predicate NamesOk(d: S.Datum) {
    match d
    case Sym(name) => CString(name)
    case Pair(car, cdr) => NamesOk(car) && NamesOk(cdr)
    case Vector(_, slots) => forall i | 0 <= i < |slots| :: NamesOk(slots[i])
    case _ => true
  }

  /** Each symbol of a datum, from left to right, made by scheme_make_symbol. */
  method Intern(d: S.Datum, table: SymbolTable) returns (o: Object)
    requires table.Valid() && NamesOk(d)
    modifies table.table
    ensures table.Valid() && Named(o) == d && Interned(o, table.table[..])
    ensures Kept(old(table.table[..]), table.table[..])
    decreases d, 1
  {
    match d
    case Null => o := Null;
    case Void => o := Void;
    case Bool(b) => o := Bool(b);
    case Int(n) => o := Int(n);
    case Char(c) => o := Char(c);
    case Str(s) => o := Str(s);
    case Sym(name) =>
      ghost var t := table.table[..];
      assert forall str :: table.Find(str) == Held(t, str);
      var symbol := table.MakeSymbol(name);
      assert forall str :: table.Find(str) == Held(table.table[..], str);
      o := Sym(symbol);
    case Pair(car, cdr) =>
      var a := Intern(car, table);
      ghost var t := table.table[..];
      var b := Intern(cdr, table);
      StaysInterned(a, t, table.table[..]);
      o := Pair(a, b);
    case Vector(len, _) =>
      var slots := InternSlots(d, table);
      o := Vector(len, slots);
  }

  method InternSlots(d: S.Datum, table: SymbolTable) returns (slots: seq<Object>)
    requires table.Valid() && d.Vector? && NamesOk(d)
    modifies table.table
    ensures table.Valid() && |slots| == |d.slots| && forall i | 0 <= i < |slots| :: Named(slots[i]) == d.slots[i]
    ensures forall i | 0 <= i < |slots| :: Interned(slots[i], table.table[..])
    ensures Kept(old(table.table[..]), table.table[..])
    decreases d, 0
  {
    slots := [];
    while |slots| < |d.slots|
      invariant table.Valid() && |slots| <= |d.slots|
      invariant forall i | 0 <= i < |slots| :: Named(slots[i]) == d.slots[i]
      invariant forall i | 0 <= i < |slots| :: Interned(slots[i], table.table[..])
      invariant Kept(old(table.table[..]), table.table[..])
    {
      ghost var t := table.table[..];
      var o := Intern(d.slots[|slots|], table);
      forall i | 0 <= i < |slots|
        ensures Interned(slots[i], table.table[..])
      {
        StaysInterned(slots[i], t, table.table[..]);
      }
      slots := slots + [o];
    }
  }

  lemma {:induction false} ReadableNames(d: S.Datum)
    requires RoundTrip.Readable(d)
    ensures NamesOk(d)
  {
    match d
    case Pair(car, cdr) =>
      ReadableNames(car);
      ReadableNames(cdr);
    case Vector(_, slots) =>
      forall i | 0 <= i < |slots|
        ensures NamesOk(slots[i])
      {
        ReadableNames(slots[i]);
      }
    case _ =>
  }

  /** An object printed into a buffer and read from it comes back as itself: equal in structure, with
      the same symbol objects. */
  method PrintAndReadObject(o: Object, table: SymbolTable, buf: array<char>, tokens: array<S.Token>)
      returns (back: Object)
    requires table.Valid() && Interned(o, table.table[..])
    requires RoundTrip.Readable(Named(o)) && Printer.Printable(Named(o)) && |Printer.Text(Named(o))| < buf.Length
    requires tokens.Length == Scanner.TOKENS && |WellFormed.Toks(RoundTrip.FormOf(Named(o)))| < Scanner.TOKENS
    requires Scanner.Writes(Scanner.START, Printer.Text(Named(o)), 0) <= Scanner.EXPR_LEN
    modifies table.table, buf, tokens
    ensures back == o && table.Valid()
  {
    ghost var t := table.table[..];
    var d := RoundTrip.PrintAndRead(Named(o), buf, tokens);
    assert table.table[..] == t;
    ReadableNames(d);
    back := Intern(d, table);
    StaysInterned(o, t, table.table[..]);
    SameObject(back, o, table.table[..]);
  }
}
