/** The token parsers of the reader (kscm/scheme/read.c): lists, vectors and quoted data advance one
    cursor over the token buffer. */
module Parser {
  import opened Number
  import opened Syntax

  /** The token under the cursor; what lies behind the buffer is not modelled. */
  function TokenAt(toks: seq<Token>, k: nat): Token {
    if k < |toks| then toks[k] else Mark(End)
  }

  predicate Closes(kind: Kind) {
    kind == End || kind == RightPar
  }

  /** _token_to_obj. */
  ghost function ToObj(t: Token): Datum {
    match t.kind
    case SymbolWord => Sym(t.text)
    case True => Bool(true)
    case False => Bool(false)
    case NumberWord => Int(AtoiValue(t.text))
    case CharWord => Char(if t.text == "" then '\0' else t.text[0])
    case StringWord => Str(t.text)
    case _ => Void
  }

  // ---- A list under construction -------------------------------------------------------------

  /** The elements so far; a point seen; and the datum behind it, if any. */
  datatype Building = Building(items: seq<Datum>, dotted: bool, tail: Datum, tailed: bool)

  const NOTHING := Building([], false, Null, false)

  function Chain(items: seq<Datum>, tail: Datum): Datum {
    if items == [] then tail else Pair(items[0], Chain(items[1..], tail))
  }

  /** The datum at the end of the list so far: its last pair, or what follows the point. A further
      datum behind a point becomes the cdr of the one before, which must be a pair. */
  function Extend(l: Building, car: Datum): (r: Building)
    requires CanExtend(l)
  {
    if !l.dotted then l.(items := l.items + [car])
    else if !l.tailed then l.(tail := car, tailed := true)
    else l.(items := l.items + [l.tail.car], tail := car)
  }

  predicate CanExtend(l: Building) {
    !l.dotted || (l.items != [] && (l.tailed ==> l.tail.Pair?))
  }

  // ---- The parsers on all token sequences ----------------------------------------------------

  /** The loop of _create_list from cursor k on: the object, and where the cursor is left. */
  ghost function ParseList(toks: seq<Token>, k: nat, l: Building): (r: (Datum, nat))
    ensures r.1 > k
    decreases |toks| - k, 1
  {
    var kind := TokenAt(toks, k).kind;
    if Closes(kind) then (Chain(l.items, l.tail), k + 1)
    else if kind == Point then
      if l.dotted then (Void, k + 1) else ParseList(toks, k + 1, l.(dotted := true))
    else
      var (car, k1) := ParseNested(toks, k);
      if CanExtend(l) then ParseList(toks, k1, Extend(l, car)) else (Void, k1)
  }

  /** An element of a list. */
  ghost function ParseNested(toks: seq<Token>, k: nat): (r: (Datum, nat))
    requires k < |toks|
    ensures r.1 > k
    decreases |toks| - k, 0
  {
    match toks[k].kind
    case LeftPar => ParseList(toks, k + 1, NOTHING)
    case LeftSharpPar => ParseVector(toks, k + 1)
    case Quote => ParseQuoted(toks, k + 1)
    case _ => (ToObj(toks[k]), k + 1)
  }

  /** The counting pass of _create_vector. */
  function CountSlots(toks: seq<Token>, k: nat, par: int): nat
    decreases |toks| - k
  {
    var kind := TokenAt(toks, k).kind;
    if kind == End || par < 0 then 0
    else if kind == LeftPar || kind == LeftSharpPar then CountSlots(toks, k + 1, par + 1)
    else if kind == RightPar then (if par == 1 then 1 else 0) + CountSlots(toks, k + 1, par - 1)
    else (if par == 0 then 1 else 0) + CountSlots(toks, k + 1, par)
  }

  /** The filling pass: to it a quote mark or a point is an object of its own. */
  ghost function ParseSlots(toks: seq<Token>, k: nat, slots: seq<Datum>): (r: (seq<Datum>, nat))
    ensures r.1 > k
    decreases |toks| - k, 1
  {
    if Closes(TokenAt(toks, k).kind) then (slots, k + 1)
    else
      var (slot, k1) := ParseSlot(toks, k);
      ParseSlots(toks, k1, slots + [slot])
  }

  ghost function ParseSlot(toks: seq<Token>, k: nat): (r: (Datum, nat))
    requires k < |toks|
    ensures r.1 > k
    decreases |toks| - k, 0
  {
    match toks[k].kind
    case LeftPar => ParseList(toks, k + 1, NOTHING)
    case LeftSharpPar => ParseVector(toks, k + 1)
    case _ => (ToObj(toks[k]), k + 1)
  }

  /** _create_vector. */
  ghost function ParseVector(toks: seq<Token>, k: nat): (r: (Datum, nat))
    ensures r.1 > k
    decreases |toks| - k, 2
  {
    var (slots, k1) := ParseSlots(toks, k, []);
    (Vector(CountSlots(toks, k, 0), slots), k1)
  }

  function Quoted(text: Datum): Datum {
    Pair(Sym("quote"), Pair(text, Null))
  }

  /** _create_quoted. */
  ghost function ParseQuoted(toks: seq<Token>, k: nat): (r: (Datum, nat))
    ensures r.1 >= k
    decreases |toks| - k, 2
  {
    var kind := TokenAt(toks, k).kind;
    if kind == RightPar then (Void, k)
    else
      var (text, k1) :=
        match kind
        case LeftPar => ParseList(toks, k + 1, NOTHING)
        case LeftSharpPar => ParseVector(toks, k + 1)
        case Quote => ParseQuoted(toks, k + 1)
        case _ => (ToObj(TokenAt(toks, k)), k + 1);
      (Quoted(text), k1)
  }

  /** The dispatch of read on the first token. */
  ghost function ParseTop(toks: seq<Token>): Datum {
    match TokenAt(toks, 0).kind
    case LeftPar => ParseList(toks, 1, NOTHING).0
    case RightPar => Void
    case LeftSharpPar => ParseVector(toks, 1).0
    case Quote => ParseQuoted(toks, 1).0
    case _ => ToObj(TokenAt(toks, 0))
  }

  // ---- The parsers as the source writes them -------------------------------------------------

  method TokenToObj(t: Token) returns (obj: Datum)
    ensures obj == ToObj(t)
  {
    match t.kind
    case SymbolWord => obj := Sym(t.text);
    case True => obj := Bool(true);
    case False => obj := Bool(false);
    case NumberWord =>
      var n := Atoi(t.text);
      obj := Int(n);
    case CharWord => obj := Char(if t.text == "" then '\0' else t.text[0]);
    case StringWord => obj := Str(t.text);
    case _ => obj := Void;
  }

  method CreateList(toks: seq<Token>, k0: nat) returns (obj: Datum, k: nat)
    ensures (obj, k) == ParseList(toks, k0, NOTHING)
    decreases |toks| - k0, 1
  {
    var l := NOTHING;
    k := k0;
    while !Closes(TokenAt(toks, k).kind)
      invariant k >= k0 && ParseList(toks, k0, NOTHING) == ParseList(toks, k, l)
      decreases |toks| - k
    {
      var car;
      ghost var at := k;
      var kind := toks[k].kind;
      if kind == Point {
        k := k + 1;
        if l.dotted {
          return Void, k;
        }
        l := l.(dotted := true);
        continue;
      } else if kind == LeftPar {
        car, k := CreateList(toks, k + 1);
      } else if kind == LeftSharpPar {
        car, k := CreateVector(toks, k + 1);
      } else if kind == Quote {
        car, k := CreateQuoted(toks, k + 1);
      } else {
        car := TokenToObj(toks[k]);
        k := k + 1;
      }
      assert (car, k) == ParseNested(toks, at);
      if !CanExtend(l) {
        return Void, k;
      }
      l := Extend(l, car);
    }
    return Chain(l.items, l.tail), k + 1;
  }

  method CountPass(toks: seq<Token>, k0: nat) returns (len: nat)
    ensures len == CountSlots(toks, k0, 0)
  {
    len := 0;
    var par := 0;
    var t := k0;
    while TokenAt(toks, t).kind != End && par >= 0
      invariant CountSlots(toks, k0, 0) == len + CountSlots(toks, t, par)
      decreases |toks| - t
    {
      var kind := toks[t].kind;
      if kind == LeftPar || kind == LeftSharpPar {
        par := par + 1;
      } else if kind == RightPar {
        par := par - 1;
        if par == 0 {
          len := len + 1;
        }
      } else if par == 0 {
        len := len + 1;
      }
      t := t + 1;
    }
  }

  method CreateVector(toks: seq<Token>, k0: nat) returns (obj: Datum, k: nat)
    ensures (obj, k) == ParseVector(toks, k0)
    decreases |toks| - k0, 1
  {
    var len := CountPass(toks, k0);
    var slots := [];
    k := k0;
    while !Closes(TokenAt(toks, k).kind)
      invariant k >= k0 && ParseSlots(toks, k0, []) == ParseSlots(toks, k, slots)
      decreases |toks| - k
    {
      var slot;
      ghost var at := k;
      var kind := toks[k].kind;
      if kind == LeftPar {
        slot, k := CreateList(toks, k + 1);
      } else if kind == LeftSharpPar {
        slot, k := CreateVector(toks, k + 1);
      } else {
        slot := TokenToObj(toks[k]);
        k := k + 1;
      }
      assert (slot, k) == ParseSlot(toks, at);
      slots := slots + [slot];
    }
    return Vector(len, slots), k + 1;
  }

  method CreateQuoted(toks: seq<Token>, k0: nat) returns (obj: Datum, k: nat)
    ensures (obj, k) == ParseQuoted(toks, k0)
    decreases |toks| - k0, 1
  {
    var text;
    match TokenAt(toks, k0).kind {
      case LeftPar =>
        text, k := CreateList(toks, k0 + 1);
      case RightPar =>
        return Void, k0;
      case LeftSharpPar =>
        text, k := CreateVector(toks, k0 + 1);
      case Quote =>
        text, k := CreateQuoted(toks, k0 + 1);
      case _ =>
        text := TokenToObj(TokenAt(toks, k0));
        k := k0 + 1;
    }
    obj := Quoted(text);
  }
}
