/** The symbol table: one object for each name, in hash chains (kscm/scheme/symbol.c). */
module Symbols {
  import opened Options
  import opened CStrings

  const TABLE_SIZE: nat := 1031

  class Symbol {
    const name: string

    constructor (name: string)
      ensures this.name == name
    {
      this.name := name;
    }
  }

  datatype Chain = Nil | Node(str: string, symbol: Symbol, next: Chain)

  predicate CString(s: string) {
    forall i | 0 <= i < |s| :: s[i] != '\0' && s[i] < 256 as char
  }

  // ---- The hash ------------------------------------------------------------------------------

  /** A 32-bit int. */
  function Wrap(n: int): int {
    (n + 0x8000_0000) % 0x1_0000_0000 - 0x8000_0000
  }

  /** A char is signed. */
  function Signed(c: char): int {
    if c < 128 as char then c as int else c as int - 256
  }

  /** The sum over s from its i-th character on, the last one first. */
  function Sum(s: string, i: nat): int
    requires i <= |s|
    decreases |s| - i
  {
    if i == |s| then 0 else Wrap(34 * Sum(s, i + 1) + Signed(s[i]))
  }

  function Hash(s: string): (k: nat)
    ensures k < TABLE_SIZE
  {
    var h := Wrap(Sum(s, 0) * 5);
    h % 0x1_0000_0000 / 2 % TABLE_SIZE
  }

  /** The sum without wrapping. */
  function Polynomial(s: string, i: nat): int
    requires i <= |s|
    decreases |s| - i
  {
    if i == |s| then 0 else 34 * Polynomial(s, i + 1) + Signed(s[i])
  }

  lemma WrapDiffers(n: int) returns (q: int)
    ensures Wrap(n) == n + 0x1_0000_0000 * q
  {
    q := -((n + 0x8000_0000) / 0x1_0000_0000);
  }

  lemma WrapShifted(n: int, q: int)
    ensures Wrap(n + 0x1_0000_0000 * q) == Wrap(n)
  {
  }

  /** Wrapping at every step comes to wrapping once. */
  lemma {:induction false} SumWrapsOnce(s: string, i: nat)
    requires i <= |s|
    ensures Sum(s, i) == Wrap(Polynomial(s, i))
    decreases |s| - i
  {
    hide Wrap, Signed;
    if i < |s| {
      SumWrapsOnce(s, i + 1);
      var q := WrapDiffers(Polynomial(s, i + 1));
      WrapShifted(34 * Polynomial(s, i + 1) + Signed(s[i]), 34 * q);
    } else {
      SmallStays(0);
    }
  }

  lemma SmallStays(n: int)
    ensures -0x8000_0000 <= n < 0x8000_0000 ==> Wrap(n) == n
  {
  }

  /** The hash of a name of one character, which is signed. */
  lemma HashOfOne(c: char)
    requires c < 256 as char
    ensures Hash([c]) ==
      (if c < 128 as char then 5 * c as nat else 0x1_0000_0000 - 5 * (256 - c as nat)) / 2 % 1031
  {
    hide Wrap;
    assert Sum([c], 1) == 0;
    SmallStays(Signed(c));
    SmallStays(Signed(c) * 5);
    assert Sum([c], 0) == Signed(c);
  }

  /** _hash_symbol. */
  method HashSymbol(s: string) returns (k: nat)
    requires CString(s)
    ensures k == Hash(s)
  {
    hide Wrap;
    var h := 0;
    var i := 0;
    while At(s, i) != '\0'
      invariant i <= |s|
      decreases |s| - i
    {
      i := i + 1;
    }
    while i > 0
      invariant i <= |s| && h == Sum(s, i)
    {
      i := i - 1;
      h := Wrap(h + Wrap(Wrap(Wrap(h * 32) + h) + Signed(s[i])));
      WrapsOnce(Sum(s, i + 1), Signed(s[i]));
    }
    WrapAdds(h, h * 4);
    h := Wrap(h + Wrap(h * 4));
    k := h % 0x1_0000_0000 / 2 % TABLE_SIZE;
  }

  /** Wrapping at every step is wrapping once. */
  lemma WrapsOnce(h: int, c: int)
    ensures Wrap(h + Wrap(Wrap(Wrap(h * 32) + h) + c)) == Wrap(34 * h + c)
  {
    hide Wrap;
    WrapAdds(h, h * 32);
    WrapAdds(c, 33 * h);
    WrapAdds(h, 33 * h + c);
  }

  lemma WrapAdds(a: int, b: int)
    ensures Wrap(a + Wrap(b)) == Wrap(a + b) && Wrap(Wrap(b) + a) == Wrap(a + b)
  {
    var m := (b + 0x8000_0000) / 0x1_0000_0000;
    assert Wrap(b) == b - 0x1_0000_0000 * m;
    Period(a + b, m);
  }

  lemma Period(a: int, m: int)
    ensures Wrap(a - 0x1_0000_0000 * m) == Wrap(a)
  {
    var x := a + 0x8000_0000;
    assert (x - 0x1_0000_0000 * m) % 0x1_0000_0000 == x % 0x1_0000_0000;
  }

  /** _symbol_eq_p. */
  method SymbolEq(a: string, b: string) returns (eq: bool)
    requires CString(a) && CString(b)
    ensures eq <==> a == b
  {
    var i := 0;
    while At(a, i) != '\0' && At(b, i) != '\0'
      invariant i <= |a| && i <= |b| && a[..i] == b[..i]
      decreases |a| - i
    {
      if a[i] != b[i] {
        return false;
      }
      i := i + 1;
    }
    return At(a, i) == '\0' && At(b, i) == '\0';
  }

  // ---- The chains ----------------------------------------------------------------------------

  function Keys(c: Chain): seq<string> {
    match c
    case Nil => []
    case Node(str, _, next) => [str] + Keys(next)
  }

  function Lookup(c: Chain, str: string): Option<Symbol> {
    match c
    case Nil => None
    case Node(key, symbol, next) => if key == str then Some(symbol) else Lookup(next, str)
  }

  /** Every name of bucket k has hash k, is there once, and its symbol carries it. */
  ghost predicate ChainOk(c: Chain, k: nat) {
    match c
    case Nil => true
    case Node(str, symbol, next) =>
      CString(str) && Hash(str) == k && symbol.name == str && str !in Keys(next) && ChainOk(next, k)
  }

  ghost predicate TableOk(t: seq<Chain>) {
    |t| == TABLE_SIZE && forall k: nat | k < TABLE_SIZE :: ChainOk(t[k], k)
  }

  lemma {:induction false} KeyOk(c: Chain, k: nat, str: string)
    requires ChainOk(c, k)
    ensures str in Keys(c) <==> Lookup(c, str).Some?
    ensures str in Keys(c) ==> Hash(str) == k && Lookup(c, str).value.name == str
    ensures multiset(Keys(c))[str] <= 1
  {
    if c.Node? {
      KeyOk(c.next, k, str);
    }
  }

  /** A name sits in the table at most once, in the bucket of its hash. */
  lemma EntryOnce(t: seq<Chain>, str: string)
    requires TableOk(t)
    ensures forall k: nat :: k < TABLE_SIZE && str in Keys(t[k]) ==> k == Hash(str)
    ensures multiset(Keys(t[Hash(str)]))[str] <= 1
  {
    forall k: nat | k < TABLE_SIZE
      ensures str in Keys(t[k]) ==> k == Hash(str)
      ensures multiset(Keys(t[k]))[str] <= 1
    {
      KeyOk(t[k], k, str);
    }
  }

  /** Two entries hold the same symbol only if they are the entry of one name. */
  lemma SymbolsDiffer(t: seq<Chain>, a: string, b: string)
    requires TableOk(t) && Lookup(t[Hash(a)], a).Some? && Lookup(t[Hash(b)], b).Some?
    ensures Lookup(t[Hash(a)], a) == Lookup(t[Hash(b)], b) <==> a == b
  {
    KeyOk(t[Hash(a)], Hash(a), a);
    KeyOk(t[Hash(b)], Hash(b), b);
  }

  // ---- The table -----------------------------------------------------------------------------

  class SymbolTable {
    const table: array<Chain>

    /** scheme_init_symbol. */
    constructor ()
      ensures Valid() && fresh(table) && forall str :: Find(str) == None
    {
      table := new Chain[TABLE_SIZE](_ => Nil);
    }

    ghost predicate Valid()
      reads this, table
    {
      TableOk(table[..])
    }

    /** The symbol the table holds for a name. */
    ghost function Find(str: string): Option<Symbol>
      requires table.Length == TABLE_SIZE
      reads this, table
    {
      Lookup(table[Hash(str)], str)
    }

    /** scheme_make_symbol. */
    method MakeSymbol(str: string) returns (sym: Symbol)
      requires Valid() && CString(str)
      modifies table
      ensures Valid() && sym.name == str && Find(str) == Some(sym)
      ensures forall other | other != str :: Find(other) == old(Find(other))
      ensures if old(Find(str)).Some? then sym == old(Find(str)).value && table[..] == old(table[..]) else fresh(sym)
    {
      hide Hash;
      var k := HashSymbol(str);
      ghost var t := table[..];
      var p := table[k];
      assert p == t[k];
      KeyOk(p, k, str);
      while p.Node?
        invariant ChainOk(p, k) && Lookup(p, str) == Lookup(t[k], str)
        decreases p
        modifies {}
      {
        var eq := SymbolEq(p.str, str);
        if eq {
          return p.symbol;
        }
        p := p.next;
      }
      sym := new Symbol(str);
      table[k] := Node(str, sym, table[k]);
      assert table[..] == t[k := Node(str, sym, t[k])];
    }

    /** Any sequence of calls: the symbols are the same exactly where the names are. */
    method MakeAll(names: seq<string>) returns (syms: seq<Symbol>)
      requires Valid() && forall i | 0 <= i < |names| :: CString(names[i])
      modifies table
      ensures Valid() && |syms| == |names|
      ensures forall i, j | 0 <= i < |names| && 0 <= j < |names| :: syms[i] == syms[j] <==> names[i] == names[j]
    {
      syms := [];
      while |syms| < |names|
        invariant Valid() && |syms| <= |names|
        invariant forall i | 0 <= i < |syms| :: Find(names[i]) == Some(syms[i]) && syms[i].name == names[i]
      {
        var sym := MakeSymbol(names[|syms|]);
        syms := syms + [sym];
      }
    }
  }
}
