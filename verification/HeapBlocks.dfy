/** The kernel heap as a tiling of the pages it was given, in units of one block header (8 bytes),
    and what each change of the heap structure does to it (lib/malloc.c). */
module HeapBlocks {

  const UNIT: nat := 8
  const PAGE_UNITS: nat := 512
  const HEAP_BASE: nat := 0x800000 / UNIT

  /** The heap: the header fields by header address, the head of the free list, and what the
      structure stands for: the block each unit belongs to, the free blocks in address order, and
      the pages obtained. */
  datatype Heap = Heap(size: map<nat, nat>, next: map<nat, nat>, list: nat,
                       owner: map<nat, nat>, free: seq<nat>, pages: set<nat>)

  function PageOf(u: nat): nat {
    u - u % PAGE_UNITS
  }

  ghost predicate IsBlock(h: Heap, a: nat) {
    a in h.owner && h.owner[a] == a
  }

  ghost predicate Within(h: Heap, a: nat, u: nat) {
    a in h.size && a <= u < a + h.size[a]
  }

  /** The block of unit u holds it. */
  ghost predicate UnitOk(h: Heap, u: nat) {
    u in h.owner ==> IsBlock(h, h.owner[u]) && Within(h, h.owner[u], u)
  }

  /** A unit that block a holds is a's. */
  ghost predicate SpanOk(h: Heap, a: nat, u: nat) {
    IsBlock(h, a) && Within(h, a, u) ==> u in h.owner && h.owner[u] == a
  }

  /** The units are those of the pages. */
  ghost predicate PageOk(h: Heap, u: nat) {
    u in h.owner <==> PageOf(u) in h.pages
  }

  /** Every unit of every page belongs to exactly one block, and blocks hold nothing else. */
  ghost predicate Tiled(h: Heap) {
    (forall u: nat :: UnitOk(h, u)) && (forall a: nat, u: nat :: SpanOk(h, a, u)) &&
    (forall u: nat :: PageOk(h, u)) &&
    (forall p | p in h.pages :: p % PAGE_UNITS == 0 && p >= HEAP_BASE)
  }

  predicate Ascending(s: seq<nat>) {
    forall i, j | 0 <= i < j < |s| :: s[i] < s[j]
  }

  function After(i: nat, n: nat): nat {
    if i + 1 == n then 0 else i + 1
  }

  /** The free blocks form one cycle in address order. */
  ghost predicate Cycle(next: map<nat, nat>, free: seq<nat>) {
    forall i: nat | i < |free| :: LinkOk(next, free, i)
  }

  ghost predicate LinkOk(next: map<nat, nat>, free: seq<nat>, i: nat)
    requires i < |free|
  {
    free[i] in next && next[free[i]] == free[After(i, |free|)]
  }

  /** ... whose lowest block is the head of the list; the null pointer stands for no free block. */
  ghost predicate ListOk(h: Heap) {
    Ascending(h.free) && Cycle(h.next, h.free) && h.list == (if h.free == [] then 0 else h.free[0]) &&
    forall i | 0 <= i < |h.free| :: IsBlock(h, h.free[i])
  }

  ghost predicate Ok(h: Heap) {
    Tiled(h) && ListOk(h)
  }

  ghost predicate IsLive(h: Heap, a: nat) {
    IsBlock(h, a) && a !in h.free
  }

  /** The live blocks of h' are those of h and b, and the old ones are where they were. */
  ghost predicate LivePlus(h: Heap, h': Heap, b: nat) {
    (forall a :: IsLive(h', a) <==> IsLive(h, a) || a == b) && !IsLive(h, b) &&
    (forall a | IsLive(h, a) :: a in h.size && a in h'.size && h'.size[a] == h.size[a])
  }

  /** The live blocks of h' are those of h, where they were. */
  ghost predicate LiveSame(h: Heap, h': Heap) {
    (forall a :: IsLive(h', a) <==> IsLive(h, a)) &&
    (forall a | IsLive(h, a) :: a in h.size && a in h'.size && h'.size[a] == h.size[a])
  }

  /** The live blocks of h' are those of h but b, where they were. */
  ghost predicate LiveMinus(h: Heap, h': Heap, b: nat) {
    (forall a :: IsLive(h', a) <==> IsLive(h, a) && a != b) && IsLive(h, b) &&
    (forall a | IsLive(h', a) :: a in h.size && a in h'.size && h'.size[a] == h.size[a])
  }

  // ---- kmalloc -------------------------------------------------------------------------------

  /** The head block is exactly as large as asked, other blocks are free, and all of them are
      smaller: first fit, which looks at the head last, takes the head as it is. */
  ghost predicate TakesHead(h: Heap, n: nat) {
    |h.free| > 1 && h.free[0] in h.size && h.size[h.free[0]] == n &&
    forall i | 0 < i < |h.free| :: h.free[i] in h.size && h.size[h.free[i]] < n
  }

  /** All free blocks are too small for n units. */
  ghost predicate NoFit(h: Heap, n: nat) {
    forall i | 0 <= i < |h.free| :: h.free[i] in h.size && h.size[h.free[i]] < n
  }

  /** The upper n units of free block i become a live block. */
  ghost function Split(h: Heap, i: nat, n: nat): Heap
    requires i < |h.free| && h.free[i] in h.size && n <= h.size[h.free[i]]
  {
    var p := h.free[i];
    var b := p + h.size[p] - n;
    h.(size := h.size[p := h.size[p] - n][b := n],
       owner := map u | u in h.owner :: if b <= u < b + n then b else h.owner[u])
  }

  lemma SplitOk(h: Heap, i: nat, n: nat)
    requires Ok(h) && i < |h.free| && 0 < n
    requires h.free[i] in h.size && n < h.size[h.free[i]]
    ensures var b := h.free[i] + h.size[h.free[i]] - n;
            Ok(Split(h, i, n)) && LivePlus(h, Split(h, i, n), b)
  {
    var h' := Split(h, i, n);
    SplitBlocks(h, i, n);
    SplitTiled(h, i, n);
    assert forall a | IsBlock(h, a) :: Within(h, a, a) by {
      BlockHoldsItself(h);
    }
  }

  lemma BlockHoldsItself(h: Heap)
    requires Tiled(h)
    ensures forall a | IsBlock(h, a) :: Within(h, a, a)
  {
    forall a | IsBlock(h, a)
      ensures Within(h, a, a)
    {
      assert UnitOk(h, a);
    }
  }

  lemma SplitBlocks(h: Heap, i: nat, n: nat)
    requires Ok(h) && i < |h.free| && 0 < n
    requires h.free[i] in h.size && n < h.size[h.free[i]]
    ensures var b := h.free[i] + h.size[h.free[i]] - n;
            !IsBlock(h, b) && forall a: nat :: IsBlock(Split(h, i, n), a) <==> IsBlock(h, a) || a == b
  {
    var p := h.free[i];
    var b := p + h.size[p] - n;
    assert IsBlock(h, p) && SpanOk(h, p, b);
    forall a: nat
      ensures IsBlock(Split(h, i, n), a) <==> IsBlock(h, a) || a == b
    {
      if b <= a {
        assert SpanOk(h, p, a);
      }
    }
  }

  lemma SplitTiled(h: Heap, i: nat, n: nat)
    requires Ok(h) && i < |h.free| && 0 < n
    requires h.free[i] in h.size && n < h.size[h.free[i]]
    ensures Tiled(Split(h, i, n))
  {
    var h' := Split(h, i, n);
    var p := h.free[i];
    var b := p + h.size[p] - n;
    SplitBlocks(h, i, n);
    forall u: nat
      ensures UnitOk(h', u)
    {
      assert UnitOk(h, u) && SpanOk(h, p, u);
    }
    forall a: nat, u: nat
      ensures SpanOk(h', a, u)
    {
      assert SpanOk(h, p, u) && SpanOk(h, a, u) && UnitOk(h, u);
    }
    forall u: nat
      ensures PageOk(h', u)
    {
      assert PageOk(h, u);
    }
  }

  /** Free block i becomes live as it is. */
  ghost function Unlink(h: Heap, i: nat): Heap
    requires 0 < i < |h.free|
  {
    h.(next := h.next[h.free[i - 1] := h.free[After(i, |h.free|)]], free := h.free[..i] + h.free[i + 1..])
  }

  lemma UnlinkOk(h: Heap, i: nat)
    requires Ok(h) && 0 < i < |h.free|
    ensures Ok(Unlink(h, i)) && LivePlus(h, Unlink(h, i), h.free[i])
  {
    var h' := Unlink(h, i);
    RemovedCycle(h.next, h.free, i);
    forall a
      ensures a in h'.free <==> a in h.free && a != h.free[i]
    {
      InRemoved(h.free, i, a);
    }
    assert forall a :: IsBlock(h', a) == IsBlock(h, a);
    SameBlocks(h, h');
    BlockHoldsItself(h);
  }

  lemma SameBlocks(h: Heap, h': Heap)
    requires Tiled(h) && h'.size == h.size && h'.owner == h.owner && h'.pages == h.pages
    ensures Tiled(h')
  {
    forall u: nat
      ensures UnitOk(h', u) && PageOk(h', u)
    {
      assert UnitOk(h, u) && PageOk(h, u);
    }
    forall a: nat, u: nat
      ensures SpanOk(h', a, u)
    {
      assert SpanOk(h, a, u);
    }
  }

  /** The only free block becomes live as it is. */
  ghost function UnlinkOnly(h: Heap): Heap
    requires |h.free| == 1
  {
    h.(list := 0, free := [])
  }

  lemma UnlinkOnlyOk(h: Heap)
    requires Ok(h) && |h.free| == 1
    ensures Ok(UnlinkOnly(h)) && LivePlus(h, UnlinkOnly(h), h.free[0])
  {
    SameBlocks(h, UnlinkOnly(h));
    BlockHoldsItself(h);
  }

  lemma InRemoved(s: seq<nat>, i: nat, a: nat)
    requires Ascending(s) && i < |s|
    ensures a in s[..i] + s[i + 1..] <==> a in s && a != s[i]
  {
    var t := s[..i] + s[i + 1..];
    if a in t {
      var j :| 0 <= j < |t| && t[j] == a;
      assert a == s[if j < i then j else j + 1];
    }
    if a in s && a != s[i] {
      var j :| 0 <= j < |s| && s[j] == a;
      assert t[if j < i then j else j - 1] == a;
    }
  }

  lemma RemovedAscending(s: seq<nat>, i: nat)
    requires Ascending(s) && 0 < i < |s|
    ensures var t := s[..i] + s[i + 1..]; Ascending(t) && t != [] && t[0] == s[0]
    ensures forall k | 0 <= k < |s| && k != i - 1 :: s[k] != s[i - 1]
  {
  }

  lemma RemovedCycle(next: map<nat, nat>, s: seq<nat>, i: nat)
    requires Ascending(s) && Cycle(next, s) && 0 < i < |s|
    ensures var t := s[..i] + s[i + 1..];
            Ascending(t) && t != [] && t[0] == s[0] && Cycle(next[s[i - 1] := s[After(i, |s|)]], t)
  {
    var t := s[..i] + s[i + 1..];
    var next' := next[s[i - 1] := s[After(i, |s|)]];
    RemovedAscending(s, i);
    hide Ascending;
    forall j: nat | j < |t|
      ensures LinkOk(next', t, j)
    {
      assert LinkOk(next, s, if j < i then j else j + 1);
      if j < i - 1 {
        assert t[j] == s[j] && t[After(j, |t|)] == s[After(j, |s|)];
      } else if j == i - 1 {
        assert t[j] == s[i - 1] && t[After(j, |t|)] == s[After(i, |s|)];
      } else {
        assert t[j] == s[j + 1] && t[After(j, |t|)] == s[After(j + 1, |s|)];
      }
    }
  }

  /** The units of a page, all owned by its first one. */
  function PageOwner(page: nat, n: nat): (m: map<nat, nat>)
    ensures forall u: nat :: u in m <==> page <= u < page + n
    ensures forall u | u in m :: m[u] == page
  {
    if n == 0 then map[] else PageOwner(page, n - 1)[page + n - 1 := page]
  }

  /** A new page above all others becomes the last free block, or the only one. */
  ghost function Extend(h: Heap, page: nat): Heap {
    var last := if h.free == [] then page else h.free[|h.free| - 1];
    var first := if h.free == [] then page else h.free[0];
    h.(size := h.size[page := PAGE_UNITS],
       next := h.next[last := page][page := first],
       list := first,
       owner := h.owner + PageOwner(page, PAGE_UNITS),
       free := h.free + [page],
       pages := h.pages + {page})
  }

  /** A page that the heap may get. */
  ghost predicate NewPage(h: Heap, page: nat) {
    page % PAGE_UNITS == 0 && page >= HEAP_BASE && forall p | p in h.pages :: p < page
  }

  lemma BelowPage(u: nat, page: nat)
    requires page % PAGE_UNITS == 0 && PageOf(u) < page
    ensures u < page
  {
  }

  lemma UnitsBelow(h: Heap, page: nat)
    requires Tiled(h) && NewPage(h, page)
    ensures forall u | u in h.owner :: u < page
  {
    forall u | u in h.owner
      ensures u < page
    {
      assert PageOk(h, u);
      BelowPage(u, page);
    }
  }

  lemma ExtendTiled(h: Heap, page: nat)
    requires Tiled(h) && NewPage(h, page)
    ensures Tiled(Extend(h, page))
    ensures forall a :: IsBlock(Extend(h, page), a) <==> IsBlock(h, a) || a == page
    ensures forall u | u in h.owner :: u < page
  {
    hide PageOf;
    var h' := Extend(h, page);
    UnitsBelow(h, page);
    forall u: nat
      ensures PageOk(h', u)
    {
      assert PageOk(h, u);
      PageOfRange(u, page);
    }
    forall u: nat
      ensures UnitOk(h', u)
    {
      assert UnitOk(h, u);
    }
    forall a: nat, u: nat
      ensures SpanOk(h', a, u)
    {
      assert SpanOk(h, a, u);
    }
  }

  lemma ExtendOk(h: Heap, page: nat)
    requires Ok(h) && NewPage(h, page)
    ensures Ok(Extend(h, page)) && LiveSame(h, Extend(h, page))
  {
    var h' := Extend(h, page);
    var n := |h.free|;
    ExtendTiled(h, page);
    BlockHoldsItself(h);
    assert forall i | 0 <= i < n :: IsBlock(h, h.free[i]) && h.free[i] < page;
    forall i: nat | i < n + 1
      ensures LinkOk(h'.next, h'.free, i)
    {
      if i + 1 < n {
        assert LinkOk(h.next, h.free, i);
      }
    }
  }

  /** What a walk along the list finds at its i-th block. */
  lemma Walk(h: Heap, i: nat)
    requires Ok(h) && i < |h.free|
    ensures h.free[i] in h.next && h.next[h.free[i]] == h.free[After(i, |h.free|)]
    ensures h.free[i] in h.size && (h.free[i] == h.list <==> i == 0) && h.list == h.free[0]
  {
    assert LinkOk(h.next, h.free, i) && IsBlock(h, h.free[i]);
    BlockHoldsItself(h);
  }

  lemma ExtendShape(h: Heap, page: nat)
    requires Ok(h) && NewPage(h, page)
    ensures var h' := Extend(h, page);
            h'.free == h.free + [page] && page in h'.size &&
            forall i | 0 <= i < |h.free| ::
              h.free[i] in h.size && h'.free[i] in h'.size && h'.size[h.free[i]] == h.size[h.free[i]]
  {
    UnitsBelow(h, page);
    BlockHoldsItself(h);
    assert forall i | 0 <= i < |h.free| :: IsBlock(h, h.free[i]);
  }

  lemma LiveSameTrans(h: Heap, h1: Heap, h2: Heap)
    requires LiveSame(h, h1) && LiveSame(h1, h2)
    ensures LiveSame(h, h2)
  {
  }

  lemma LiveSameRefl(h: Heap)
    requires Tiled(h)
    ensures LiveSame(h, h)
  {
    BlockHoldsItself(h);
  }

  lemma LivePlusTrans(h: Heap, h1: Heap, h2: Heap, b: nat)
    requires LiveSame(h, h1) && LivePlus(h1, h2, b)
    ensures LivePlus(h, h2, b)
  {
  }

  // ---- kfree ---------------------------------------------------------------------------------

  /** Block p takes over the block b right behind it. */
  ghost function Absorb(h: Heap, p: nat, b: nat): Heap
    requires p in h.size && b in h.size
  {
    h.(size := h.size[p := h.size[p] + h.size[b]],
       owner := map u | u in h.owner :: if h.owner[u] == b then p else h.owner[u])
  }

  lemma AbsorbTiled(h: Heap, p: nat, b: nat)
    requires Tiled(h) && IsBlock(h, p) && IsBlock(h, b) && p in h.size && b in h.size && p + h.size[p] == b
    ensures Tiled(Absorb(h, p, b)) && p != b
    ensures forall a :: IsBlock(Absorb(h, p, b), a) <==> IsBlock(h, a) && a != b
  {
    var h' := Absorb(h, p, b);
    assert UnitOk(h, p) && UnitOk(h, b);
    forall u: nat
      ensures UnitOk(h', u) && PageOk(h', u)
    {
      assert UnitOk(h, u) && PageOk(h, u);
    }
    forall a: nat, u: nat
      ensures SpanOk(h', a, u)
    {
      assert SpanOk(h, a, u) && SpanOk(h, b, u);
    }
  }

  /** The block below a block, where its own page or the page below reaches up to it. */
  ghost predicate LowerFree(h: Heap, b: nat) {
    b > 0 && b - 1 in h.owner && h.owner[b - 1] in h.free
  }

  /** The last free block below b. */
  ghost predicate Before(h: Heap, i: nat, b: nat) {
    i < |h.free| && h.free[i] < b && (i + 1 < |h.free| ==> b < h.free[i + 1])
  }

  lemma LastBelow(s: seq<nat>, i: nat, j: nat, b: nat)
    requires Ascending(s) && i < |s| && j < |s| && s[j] < b && (i + 1 < |s| ==> b < s[i + 1])
    ensures s[j] <= s[i]
  {
  }

  /** The lower neighbour is free exactly when the last free block below b ends at b. */
  lemma LowerFreeEnds(h: Heap, i: nat, b: nat)
    requires Ok(h) && IsLive(h, b) && Before(h, i, b)
    ensures h.free[i] in h.size && (LowerFree(h, b) <==> h.free[i] + h.size[h.free[i]] == b)
  {
    var p := h.free[i];
    assert IsBlock(h, p) && UnitOk(h, p) && UnitOk(h, b);
    if p + h.size[p] == b {
      assert SpanOk(h, p, b - 1);
    }
    if LowerFree(h, b) {
      var q := h.owner[b - 1];
      assert UnitOk(h, b - 1) && SpanOk(h, q, b) && SpanOk(h, q, p);
      var j :| 0 <= j < |h.free| && h.free[j] == q;
      LastBelow(h.free, i, j, b);
    }
  }

  /** Freeing b when its lower neighbour p = free[i] is free. */
  lemma MergeLowOk(h: Heap, i: nat, b: nat)
    requires Ok(h) && IsLive(h, b) && i < |h.free| && h.free[i] in h.size && b in h.size
    requires h.free[i] + h.size[h.free[i]] == b
    ensures var h' := Absorb(h, h.free[i], b);
            Ok(h') && LiveMinus(h, h', b)
  {
    AbsorbTiled(h, h.free[i], b);
    BlockHoldsItself(h);
  }

  /** Free block i takes over the next free block when that one is adjacent. */
  ghost function MergeNext(h: Heap, i: nat): Heap
    requires i + 1 < |h.free| && h.free[i] in h.size && h.free[i + 1] in h.size && h.free[i + 1] in h.next
  {
    Absorb(h, h.free[i], h.free[i + 1]).(
      next := h.next[h.free[i] := h.next[h.free[i + 1]]],
      free := h.free[..i + 1] + h.free[i + 2..])
  }

  lemma MergeNextOk(h: Heap, i: nat)
    requires Ok(h) && i + 1 < |h.free|
    requires h.free[i] in h.size && h.free[i + 1] in h.size && h.free[i] + h.size[h.free[i]] == h.free[i + 1]
    requires h.free[i + 1] in h.next
    ensures var h' := MergeNext(h, i);
            Ok(h') && LiveSame(h, h')
  {
    var (p, b) := (h.free[i], h.free[i + 1]);
    assert IsBlock(h, p) && IsBlock(h, b);
    AbsorbTiled(h, p, b);
    SameBlocks(Absorb(h, p, b), MergeNext(h, i));
    assert LinkOk(h.next, h.free, i + 1);
    RemovedCycle(h.next, h.free, i + 1);
    forall a
      ensures a in MergeNext(h, i).free <==> a in h.free && a != b
    {
      InRemoved(h.free, i + 1, a);
    }
    BlockHoldsItself(h);
  }

  /** A block that is its own successor lies on no cycle through another block. */
  lemma SelfLoopOnNoCycle(next: map<nat, nat>, s: seq<nat>, b: nat)
    requires Ascending(s) && Cycle(next, s) && b in s && b in next && next[b] == b
    ensures s == [b]
  {
    var i: nat :| i < |s| && s[i] == b;
    assert LinkOk(next, s, i);
    assert After(i, |s|) == i;
  }

  // ---- Sizes ---------------------------------------------------------------------------------

  /** The heap holds 512 units per page. */
  lemma HeapUnits(h: Heap)
    requires Ok(h)
    ensures |h.owner| == PAGE_UNITS * |h.pages|
  {
    forall u: nat
      ensures u in h.owner <==> PageOf(u) in h.pages
    {
      assert PageOk(h, u);
    }
    TotalUnits(h.pages, h.owner);
  }

  lemma {:induction false} TotalUnits(pages: set<nat>, owner: map<nat, nat>)
    requires forall u: nat :: u in owner <==> PageOf(u) in pages
    requires forall p | p in pages :: p % PAGE_UNITS == 0
    ensures |owner| == PAGE_UNITS * |pages|
    decreases |pages|
  {
    if pages == {} {
      assert owner == map[];
    } else {
      var p :| p in pages;
      var units := PageUnits(p, PAGE_UNITS);
      forall u: nat
        ensures PageOf(u) == p <==> u in units
      {
        PageOfRange(u, p);
      }
      var owner' := owner - units;
      forall u: nat
        ensures u in owner' <==> PageOf(u) in pages - {p}
      {
        assert u in owner <==> PageOf(u) in pages;
      }
      TotalUnits(pages - {p}, owner');
      assert owner.Keys == owner'.Keys + units && owner'.Keys !! units;
      assert |owner.Keys| == |owner'.Keys| + |units|;
    }
  }

  lemma PageOfRange(u: nat, p: nat)
    requires p % PAGE_UNITS == 0
    ensures PageOf(u) == p <==> p <= u < p + PAGE_UNITS
  {
  }

  function PageUnits(p: nat, n: nat): (s: set<nat>)
    ensures |s| == n && forall u: nat :: u in s <==> p <= u < p + n
  {
    if n == 0 then {} else PageUnits(p, n - 1) + {p + n - 1}
  }
}
