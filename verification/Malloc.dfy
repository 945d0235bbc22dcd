/** The kernel's first-fit allocator over one circular free list (lib/malloc.c). Addresses are
    counted in units of one block header; header fields live in two maps. */
module Malloc {
  import opened HeapBlocks

  const SIZE_LIMIT: nat := 0x1_0000_0000  // size_t has 32 bits

  /** Units for a request: its bytes rounded up, and a header; the sum wraps as size_t does. */
  function Units(nbytes: nat): nat {
    (nbytes + UNIT - 1) % SIZE_LIMIT / UNIT + 1
  }

  /** The block behind a header holds the request, unless the rounding wrapped. */
  lemma UnitsHold(nbytes: nat)
    requires nbytes < SIZE_LIMIT
    ensures (Units(nbytes) - 1) * UNIT >= nbytes <==> nbytes <= 0xFFFF_FFF8
    ensures nbytes <= 0xFFFF_FFF8 ==> (Units(nbytes) - 1) * UNIT < nbytes + UNIT
  {
  }

  class KernelHeap {
    var size: map<nat, nat>   // header fields by header address
    var next: map<nat, nat>
    var list: nat             // head of the free list; 0 is the null pointer
    var coming: seq<nat>      // answers the heap region will give; 0 is a failure, as is no answer
    ghost var owner: map<nat, nat>
    ghost var free: seq<nat>
    ghost var pages: set<nat>

    ghost function View(): Heap
      reads this
    {
      Heap(size, next, list, owner, free, pages)
    }

    /** Pages to come are distinct and above those obtained, as a region that grows up gives them. */
    ghost predicate SupplyOk()
      reads this
    {
      Supply(View(), coming)
    }

    ghost predicate Valid()
      reads this
    {
      Ok(View()) && SupplyOk()
    }

    /** kscm_init_heap: the first heap page is one free block. */
    constructor (coming: seq<nat>)
      requires forall i | 0 <= i < |coming| && coming[i] != 0 ::
        coming[i] % PAGE_UNITS == 0 && coming[i] > HEAP_BASE && forall j | 0 <= j < i :: coming[j] < coming[i]
      ensures Valid() && free == [HEAP_BASE] && pages == {HEAP_BASE} && this.coming == coming
      ensures View() == FirstPage() && forall a :: !IsLive(View(), a)
    {
      size := map[HEAP_BASE := (4096 - 1) / UNIT + 1];
      next := map[HEAP_BASE := HEAP_BASE];
      list := HEAP_BASE;
      this.coming := coming;
      owner := PageOwner(HEAP_BASE, PAGE_UNITS);
      free := [HEAP_BASE];
      pages := {HEAP_BASE};
      new;
      FirstPageOk();
      assert View() == FirstPage();
    }

    /** expand_region for the heap: the next answer of the region. */
    method Expand() returns (page: nat)
      modifies this`coming
      ensures coming == Rest(old(coming)) && page == Answer(old(coming))
    {
      page := if coming == [] then 0 else coming[0];
      coming := if coming == [] then [] else coming[1..];
    }

    /** The new page is written and linked behind block q, before block p. */
    method LinkPage(ptr: nat, q: nat, p: nat)
      requires Ok(View()) && NewPage(View(), ptr)
      requires if free == [] then q == ptr == p else q == free[|free| - 1] && p == list
      modifies this`size, this`next, this`list, this`owner, this`free, this`pages
      ensures View() == Extend(old(View()), ptr)
    {
      next := next[q := ptr];
      size := size[ptr := (4096 - 1) / UNIT + 1];
      next := next[ptr := p];
      list := p;
      owner := owner + PageOwner(ptr, PAGE_UNITS);
      free := free + [ptr];
      pages := pages + {ptr};
    }

    /** Block p, behind q in the list, is taken as it is. */
    method TakeWhole(q: nat, p: nat, ghost i: nat) returns (ptr: nat)
      requires Ok(View()) && i < |free| && p == free[i] && q == free[if i == 0 then |free| - 1 else i - 1]
      requires p in size && p in next
      modifies this`next, this`list, this`free
      ensures View() == Taken(old(View()), i, size[p]) && ptr - 1 == p
      ensures Tiled(View()) && LivePlus(old(View()), View(), p)
      ensures Ok(View()) <==> !(i == 0 && old(|free|) > 1)
      ensures i == 0 && old(|free|) > 1 ==> list == p
    {
      hide Ok, Tiled, ListOk, LivePlus, Cycle;
      ghost var h := View();
      Walk(h, i);
      next := next[q := next[p]];
      if q == p {
        list := 0;
      }
      OnlyOne(h, i);
      free := free[..i] + free[i + 1..];
      if |h.free| == 1 {
        UnlinkOnlyOk(h);
        assert next == h.next;
      } else if i > 0 {
        UnlinkOk(h, i);
      } else {
        HeadLost(h);
      }
      assert View() == Taken(h, i, size[p]);
      OkTiled(View());
      ptr := p + 1;
    }

    /** The upper n units of block p are taken. */
    method TakeUpper(p: nat, n: nat, ghost i: nat) returns (ptr: nat)
      requires Ok(View()) && i < |free| && p == free[i] && p in size && 0 < n < size[p]
      modifies this`size, this`owner
      ensures View() == Split(old(View()), i, n) && ptr == p + old(size)[p] - n + 1
      ensures Ok(View()) && Tiled(View()) && LivePlus(old(View()), View(), ptr - 1)
      ensures ptr - 1 in size && size[ptr - 1] == n
    {
      hide Ok, Tiled, LivePlus;
      SplitOk(View(), i, n);
      size := size[p := size[p] - n];
      var b := p + size[p];
      size := size[b := n];
      owner := map u | u in owner :: if b <= u < b + n then b else owner[u];
      OkTiled(View());
      ptr := b + 1;
    }

    /** Block p, behind q in the list, is taken as it is when it fits exactly; otherwise its upper
        end is. Taking the head as it is leaves the list on a block in use. */
    method Take(q: nat, p: nat, n: nat, ghost i: nat) returns (ptr: nat)
      requires Ok(View()) && i < |free| && p == free[i] && q == free[if i == 0 then |free| - 1 else i - 1]
      requires p in size && p in next && 0 < n <= size[p]
      modifies this`size, this`next, this`list, this`owner, this`free
      ensures View() == Taken(old(View()), i, n) && ptr - 1 == TakenAt(old(View()), i, n)
      ensures Tiled(View()) && ptr > 0 && LivePlus(old(View()), View(), ptr - 1)
      ensures ptr - 1 in size && size[ptr - 1] == n
      ensures Ok(View()) <==> !(i == 0 && old(size[p]) == n && old(|free|) > 1)
      ensures i == 0 && old(size[p]) == n && old(|free|) > 1 ==> list == p == ptr - 1
    {
      hide Ok, Tiled, ListOk, LivePlus, Cycle, Split;
      Walk(View(), i);
      if size[p] == n {
        ptr := TakeWhole(q, p, i);
      } else {
        ptr := TakeUpper(p, n, i);
      }
    }

    /** One more page for the list, behind block q and before block p, if the region gives one. */
    method Enlarge(q: nat, p: nat) returns (ok: bool)
      requires Valid() && (if free == [] then q == 0 == p else q == free[|free| - 1] && p == list)
      modifies this
      ensures Valid() && LiveSame(old(View()), View()) && coming == Rest(old(coming))
      ensures ok <==> Answer(old(coming)) != 0
      ensures ok ==> |coming| < |old(coming)|
      ensures View() == if ok then Extend(old(View()), Answer(old(coming))) else old(View())
      ensures ok ==> |free| == |old(free)| + 1 && SameBelow(old(View()), View())
    {
      ghost var h, supply := View(), coming;
      hide Tiled, LivePlus, LiveSame, Extend, Cycle, Supply;
      OkFacts(h);
      var page := Expand();
      if page == 0 {
        SupplyRest(h, supply);
        return false;
      }
      SupplyHead(h, supply);
      LinkPage(page, if list == 0 then page else q, if list == 0 then page else p);
      ExtendShape(h, page);
      ExtendOk(h, page);
      StillComing(h, page, supply);
      ok := true;
    }

    /** Enlarge within a search that has come back to the head. */
    method Widen(q: nat, p: nat, n: nat, ghost h0: Heap, ghost supply: seq<nat>, ghost k: nat) returns (ok: bool)
      requires Valid() && free != [] && p == list && q == free[|free| - 1]
      requires Seeking(h0, supply, View(), coming, 0, k, n) && p in size && size[p] < n
      modifies this
      ensures Valid()
      ensures ok ==>
        |coming| < |old(coming)| && |free| == |old(free)| + 1 && p == free[0] && p in next && next[p] == free[1]
      ensures ok ==> Seeking(h0, supply, View(), coming, 1, k + 1, n)
      ensures !ok ==> LiveSame(h0, View()) && NoFit(h0, n) && !TakesHead(h0, n)
      ensures !ok ==> Starved(h0, supply, View(), coming, n) && Tiled(View())
    {
      ghost var h, before := View(), coming;
      hide Ok, Tiled, LivePlus, LiveSame, Supply, TakesHead, Starved, NoFit, SameBelow, Seeking, Extend;
      Walk(h, 0);
      ok := Enlarge(q, p);
      if ok {
        SeekGrown(h0, supply, h, before, k, n, View());
        Walk(View(), 0);
      } else {
        SeekRefused(h0, supply, h, before, k, n);
        OkTiled(h);
      }
    }

    /** The walk from the block behind the head, the head last, to the first block of n units; where
        it comes back to the head, the list is enlarged. */
    method Find(n: nat) returns (found: bool, q: nat, p: nat, ghost i: nat, ghost k: nat)
      requires Valid() && free != [] && n > 0
      modifies this
      ensures Valid()
      ensures found ==> i < |free| && p == free[i] && q == free[if i == 0 then |free| - 1 else i - 1]
      ensures found ==> p in size && p in next && size[p] >= n
      ensures found ==> Seeking(old(View()), old(coming), View(), coming, i, k, n)
      ensures !found ==> LiveSame(old(View()), View()) && Starved(old(View()), old(coming), View(), coming, n)
      ensures !found ==> NoFit(old(View()), n) && !TakesHead(old(View()), n)
    {
      ghost var h0, supply := View(), coming;
      hide Ok, Tiled, LivePlus, LiveSame, Supply, TakesHead, Starved, NoFit, SameBelow, Answer, Rest, Seeking;
      Walk(h0, 0);
      SeekStart(h0, supply, n);
      k := 0;
      q := list;
      p := next[q];
      i := After(0, |free|);
      while true
        invariant Valid() && i < |free| && p == free[i] && q == free[if i == 0 then |free| - 1 else i - 1]
        invariant Seeking(h0, supply, View(), coming, i, k, n)
        decreases |coming|, if i == 0 then 0 else |free| - i
      {
        Walk(View(), i);
        if size[p] >= n {
          found := true;
          return;
        }
        if p == list {
          var ok := Widen(q, p, n, h0, supply, k);
          if !ok {
            found := false;
            return;
          }
          k := k + 1;
        } else {
          SeekNext(h0, supply, View(), coming, i, k, n);
        }
        q, p := p, next[p];
        i := After(i, |free|);
      }
    }

    /** The block found is taken. */
    method Search(n: nat) returns (ptr: nat)
      requires Valid() && free != [] && n > 0
      modifies this
      ensures Tiled(View())
      ensures ptr != 0 ==>
        LivePlus(old(View()), View(), ptr - 1) && ptr - 1 in size && size[ptr - 1] == n
      ensures ptr != 0 ==> Served(old(View()), old(coming), View(), coming, ptr - 1, n)
      ensures Valid() <==> !TakesHead(old(View()), n)
      ensures TakesHead(old(View()), n) ==> ptr != 0 && list == ptr - 1 && TakenOff(old(View()), View())
      ensures ptr == 0 ==> LiveSame(old(View()), View()) && Starved(old(View()), old(coming), View(), coming, n)
      ensures ptr == 0 ==> NoFit(old(View()), n)
    {
      ghost var h0, supply := View(), coming;
      hide Ok, Tiled, LivePlus, LiveSame, Supply, TakesHead, Starved, Served, NoFit, Seeking, Taken, TakenAt, TakenOff;
      var found, q, p, i, k := Find(n);
      if !found {
        OkTiled(View());
        return 0;
      }
      ghost var h := View();
      ptr := Take(q, p, n, i);
      SeekFound(h0, supply, h, coming, i, k, n, View(), ptr - 1);
    }

    /** First fit. 0 stands for the null pointer. With no free block at all and no page to get, the
        C code writes through a null pointer, so it must not be called then. */
    method Kmalloc(nbytes: nat) returns (ptr: nat)
      requires Valid() && nbytes < SIZE_LIMIT && (free == [] ==> Answer(coming) != 0)
      modifies this
      ensures Tiled(View())
      ensures ptr != 0 ==>
        LivePlus(old(View()), View(), ptr - 1) && ptr - 1 in size && size[ptr - 1] == Units(nbytes)
      ensures ptr != 0 ==> Served(old(View()), old(coming), View(), coming, ptr - 1, Units(nbytes))
      ensures ptr == 0 ==>
        LiveSame(old(View()), View()) && Starved(old(View()), old(coming), View(), coming, Units(nbytes)) &&
        NoFit(old(View()), Units(nbytes))
      ensures Valid() <==> !TakesHead(old(View()), Units(nbytes))
      ensures TakesHead(old(View()), Units(nbytes)) ==>
        ptr != 0 && list == ptr - 1 &&
        forall owner, free, pages :: !Ok(Heap(size, next, list, owner, free, pages))
    {
      var n := Units(nbytes);
      ghost var h0, supply := View(), coming;
      hide Ok, Tiled, LivePlus, LiveSame, Supply, Starved, Served, TakenOff;
      OkFacts(h0);
      if list == 0 {
        var ok := Enlarge(0, 0);
        ghost var h1, rest := View(), coming;
        ptr := Search(n);
        if ptr == 0 {
          LiveSameTrans(h0, h1, View());
          StarvedLater(h0, supply, View(), coming, n);
        } else {
          LivePlusTrans(h0, h1, View(), ptr - 1);
          ServedLater(h0, supply, View(), coming, ptr - 1, n);
        }
        return;
      }
      ptr := Search(n);
      if TakesHead(h0, n) {
        forall owner, free, pages
          ensures !Ok(Heap(size, next, list, owner, free, pages))
        {
          HeadOffCycle(h0, View(), Heap(size, next, list, owner, free, pages));
        }
      }
    }

    /** The free block behind which a block in use is to be linked: the last one below it, or the
        last one of all. It reaches up to that block exactly when the lower neighbour is free. */
    method Behind(b: nat) returns (p: nat, ghost i: nat)
      requires Ok(View()) && free != [] && IsLive(View(), b)
      ensures i < |free| && p == free[i] && p in next && p in size && next[p] == free[After(i, |free|)]
      ensures Before(View(), i, b) || (i + 1 == |free| && b < free[0])
      ensures p + size[p] == b <==> LowerFree(View(), b)
    {
      ghost var h := View();
      hide Ok, Tiled, Cycle, LowerFree, IsLive;
      p := list;
      i := 0;
      Walk(h, 0);
      LiveNotFree(h, b);
      while !(b > p && b < next[p])
        invariant i < |free| && p == free[i] && p in next && p in size
        invariant next[p] == free[After(i, |free|)]
        invariant b > free[0] ==> b > p
        decreases |free| - i
      {
        if p >= next[p] && (b > p || b < next[p]) {
          break;
        }
        Rising(h, i);
        i := i + 1;
        p := next[p];
        Walk(h, i);
      }
      Rising(h, i);
      WhereLowerEnds(h, i, b);
    }

    /** The end of kfree: block b, which is p or linked behind it, joins the block it reaches up to
        or is linked to it. */
    method Close(b: nat, p: nat, ghost i: nat)
      requires p in size && b in size && p in next
      requires if b == p then Ok(View()) && i < |free| && p == free[i] else next[p] == b && size[b] > 0
      modifies this`size, this`next, this`owner, this`free
      ensures b == p ==> Ok(View()) && LiveSame(old(View()), View()) && owner.Keys == old(owner.Keys)
      ensures b != p ==> View() == old(View()).(next := old(next)[b := b])
    {
      ghost var g := View();
      hide Ok, LiveSame;
      if b == p {
        Walk(g, i);
        Rising(g, i);
        OkFacts(g);
      }
      var s := next[p];
      if b + size[b] == s {
        Walk(g, i + 1);
        MergeNextOk(g, i);
        size := size[b := size[b] + size[s]];
        next := next[b := next[s]];
        owner := map u | u in owner :: if owner[u] == s then b else owner[u];
        free := free[..i + 1] + free[i + 2..];
        assert View() == MergeNext(g, i);
      } else {
        assert b == p ==> next[b := s] == next;
        next := next[b := s];
        assert b == p ==> View() == g;
      }
    }

    /** The block goes back to the free list. Only a free lower neighbour that it can join keeps the
        list a list: otherwise the block is linked behind its predecessor and then to itself, and the
        rest of the list can no longer be reached, whatever one takes the free blocks to be. */
    method Kfree(ptr: nat)
      requires Valid() && free != [] && ptr > 0 && IsLive(View(), ptr - 1)
      modifies this`size, this`next, this`owner, this`free
      ensures Valid() <==> LowerFree(old(View()), ptr - 1)
      ensures LowerFree(old(View()), ptr - 1) ==>
        LiveMinus(old(View()), View(), ptr - 1) && owner.Keys == old(owner.Keys) && list == old(list)
      ensures !LowerFree(old(View()), ptr - 1) ==>
        forall owner, free, pages :: !Ok(Heap(size, next, list, owner, free, pages))
    {
      ghost var h := View();
      var b := ptr - 1;
      hide Ok, Tiled, Cycle, Supply, LowerFree, LiveMinus, LiveSame, IsLive, Before;
      var p, i := Behind(b);
      LiveNotFree(h, b);
      ghost var joined := p + size[p] == b;
      if p + size[p] == b {
        MergeLowOk(h, i, b);
        size := size[p := size[p] + size[b]];
        owner := map u | u in owner :: if owner[u] == b then p else owner[u];
        assert View() == Absorb(h, p, b);
        b := p;
      } else {
        next := next[p := b];
      }
      ghost var g := View();
      Close(b, p, i);
      if joined {
        LiveMinusTrans(h, g, View(), ptr - 1);
      }
      SameSupply(h, View(), coming);
      if !joined {
        forall owner, free, pages
          ensures !Ok(Heap(size, next, list, owner, free, pages))
        {
          ListLost(h, i, ptr - 1, Heap(size, next, list, owner, free, pages));
        }
      }
    }
  }

  /** The free blocks of h are still there, as large as before. */
  ghost predicate SameBelow(h: Heap, h': Heap) {
    |h.free| <= |h'.free| &&
    forall j | 0 <= j < |h.free| ::
      h'.free[j] == h.free[j] && h.free[j] in h.size && h.free[j] in h'.size && h'.size[h.free[j]] == h.size[h.free[j]]
  }

  /** The blocks behind the head and before the i-th are too small. */
  ghost predicate SmallUpTo(h: Heap, i: nat, n: nat) {
    i < |h.free| &&
    forall j | 1 <= j < (if i == 0 then |h.free| else i) :: h.free[j] in h.size && h.size[h.free[j]] < n
  }

  lemma LiveNotFree(h: Heap, b: nat)
    requires Ok(h) && IsLive(h, b)
    ensures b in h.size && h.size[b] > 0 && b !in h.free
  {
    BlockHoldsItself(h);
  }

  /** Addresses rise along the free list, but for the step from its last block to its head. */
  lemma Rising(h: Heap, i: nat)
    requires Ok(h) && i < |h.free|
    ensures i + 1 < |h.free| ==> h.free[i] < h.free[After(i, |h.free|)]
    ensures i + 1 == |h.free| ==> h.free[i] >= h.free[After(i, |h.free|)]
    ensures h.free[i] >= h.free[0] && h.free[i] in h.size && h.size[h.free[i]] > 0
  {
    BlockHoldsItself(h);
    assert IsBlock(h, h.free[i]);
  }

  /** Where the search of kfree ends, the block found ends at b exactly when the lower neighbour of
      b is free. */
  lemma WhereLowerEnds(h: Heap, i: nat, b: nat)
    requires Ok(h) && IsLive(h, b) && i < |h.free|
    requires Before(h, i, b) || (i + 1 == |h.free| && b < h.free[0])
    ensures h.free[i] in h.size && (LowerFree(h, b) <==> h.free[i] + h.size[h.free[i]] == b)
  {
    Walk(h, i);
    if Before(h, i, b) {
      LowerFreeEnds(h, i, b);
    } else {
      NoneBelow(h, b);
    }
  }

  lemma NoneBelow(h: Heap, b: nat)
    requires Ok(h) && h.free != [] && b < h.free[0]
    ensures !LowerFree(h, b)
  {
    if b > 0 && b - 1 in h.owner {
      assert UnitOk(h, b - 1);
    }
  }

  lemma SameSupply(h: Heap, h': Heap, coming: seq<nat>)
    requires Supply(h, coming) && h'.pages == h.pages
    ensures Supply(h', coming)
  {
  }

  /** A head whose links lead to a block that is its own successor heads no free list. */
  lemma ListLost(h: Heap, i: nat, b: nat, h': Heap)
    requires Ok(h) && IsLive(h, b) && i < |h.free|
    requires h'.list == h.list && h'.next == h.next[h.free[i] := b][b := b]
    ensures !Ok(h')
  {
    if Ok(h') {
      LiveNotFree(h, b);
      OkFacts(h);
      OkFacts(h');
      Follow(h, i, b, h', i);
      assert LinkOk(h'.next, h'.free, i);
      SelfLoopOnNoCycle(h'.next, h'.free, b);
      assert false;
    }
  }

  /** Up to block i the links are the old ones. */
  lemma {:induction false} Follow(h: Heap, i: nat, b: nat, h': Heap, j: nat)
    requires Ok(h) && b !in h.free && i < |h.free| && j <= i && Ok(h') && h'.free != []
    requires h'.list == h.list && h'.next == h.next[h.free[i] := b][b := b]
    ensures j < |h'.free| && h'.free[j] == h.free[j]
  {
    if j > 0 {
      Follow(h, i, b, h', j - 1);
      assert LinkOk(h.next, h.free, j - 1) && LinkOk(h'.next, h'.free, j - 1);
      assert h'.next[h.free[j - 1]] == h.next[h.free[j - 1]] == h.free[j];
    }
  }

  lemma LiveMinusTrans(h: Heap, h1: Heap, h2: Heap, b: nat)
    requires LiveMinus(h, h1, b) && LiveSame(h1, h2)
    ensures LiveMinus(h, h2, b)
  {
  }

  /** The heap after k of the pages to come. */
  ghost function GrownBy(h: Heap, supply: seq<nat>, k: nat): Heap
    requires k <= |supply|
    decreases k
  {
    if k == 0 then h else GrownBy(Extend(h, supply[0]), supply[1..], k - 1)
  }

  lemma {:induction false} GrownOnce(h: Heap, supply: seq<nat>, k: nat)
    requires k < |supply|
    ensures GrownBy(h, supply, k + 1) == Extend(GrownBy(h, supply, k), supply[k])
    decreases k
  {
    if k > 0 {
      GrownOnce(Extend(h, supply[0]), supply[1..], k - 1);
    }
  }

  /** The region gives k pages, and before each of them no free block is large enough. */
  ghost predicate PagesNeeded(h: Heap, supply: seq<nat>, k: nat, n: nat) {
    k <= |supply| && forall j: nat | j < k :: supply[j] != 0 && NoFit(GrownBy(h, supply, j), n)
  }

  /** n units are served: as many pages are obtained as are needed until a block fits, and block b of
      h' is cut from the one that fits first. */
  ghost predicate Served(h: Heap, supply: seq<nat>, h': Heap, coming: seq<nat>, b: nat, n: nat) {
    exists k: nat ::
      k <= |supply| && PagesNeeded(h, supply, k, n) && CutFrom(GrownBy(h, supply, k), h', b, n) && coming == supply[k..]
  }

  /** They are not: no block fits, however many pages were given, and then the region refused one. */
  ghost predicate Starved(h: Heap, supply: seq<nat>, h': Heap, coming: seq<nat>, n: nat) {
    exists k: nat ::
      k <= |supply| && PagesNeeded(h, supply, k, n) && NoFit(h', n) && h' == GrownBy(h, supply, k) &&
      Answer(supply[k..]) == 0 && coming == Rest(supply[k..])
  }

  /** The state of a search that began in h0 with the answers of supply to come, has obtained k
      pages since, and now looks at free block i. */
  ghost predicate Seeking(h0: Heap, supply: seq<nat>, h: Heap, coming: seq<nat>, i: nat, k: nat, n: nat) {
    Ok(h) && Supply(h, coming) && LiveSame(h0, h) && SmallUpTo(h, i, n) &&
    k <= |supply| && PagesNeeded(h0, supply, k, n) && coming == supply[k..] && h == GrownBy(h0, supply, k) &&
    (k > 0 ==> NoFit(h0, n) && h.free[0] in h.size && h.size[h.free[0]] < n)
  }

  lemma SeekStart(h: Heap, supply: seq<nat>, n: nat)
    requires Ok(h) && h.free != [] && Supply(h, supply)
    ensures Seeking(h, supply, h, supply, After(0, |h.free|), 0, n)
  {
    LiveSameRefl(h);
  }

  lemma SeekNext(h0: Heap, supply: seq<nat>, h: Heap, coming: seq<nat>, i: nat, k: nat, n: nat)
    requires Seeking(h0, supply, h, coming, i, k, n) && 0 < i < |h.free|
    requires h.free[i] in h.size && h.size[h.free[i]] < n
    ensures Seeking(h0, supply, h, coming, After(i, |h.free|), k, n)
  {
    hide Ok, LiveSame, Supply, PagesNeeded;
  }

  lemma SeekGrown(h0: Heap, supply: seq<nat>, h: Heap, coming: seq<nat>, k: nat, n: nat, h': Heap)
    requires Seeking(h0, supply, h, coming, 0, k, n) && h.free[0] in h.size && h.size[h.free[0]] < n
    requires Answer(coming) != 0 && h' == Extend(h, Answer(coming)) && Ok(h') && Supply(h', Rest(coming))
    requires LiveSame(h, h') && SameBelow(h, h') && |h'.free| == |h.free| + 1
    ensures h'.free[0] == h.free[0] && Seeking(h0, supply, h', Rest(coming), After(0, |h'.free|), k + 1, n)
  {
    hide Ok, LiveSame, Supply, Extend, GrownBy;
    LiveSameTrans(h0, h, h');
    GrownOnce(h0, supply, k);
    assert NoFit(h, n);
    GrownNot(h0, supply);
  }

  lemma GrownNot(h: Heap, supply: seq<nat>)
    ensures GrownBy(h, supply, 0) == h
  {
  }

  lemma SeekFound(h0: Heap, supply: seq<nat>, h: Heap, coming: seq<nat>, i: nat, k: nat, n: nat, h': Heap, b: nat)
    requires Seeking(h0, supply, h, coming, i, k, n) && h.free[i] in h.size && h.size[h.free[i]] >= n
    requires LivePlus(h, h', b) && h.free[i] in h.next && h' == Taken(h, i, n) && b == TakenAt(h, i, n)
    ensures LivePlus(h0, h', b) && Supply(h', coming) && Served(h0, supply, h', coming, b, n)
    ensures TakesHead(h0, n) <==> i == 0 && h.size[h.free[i]] == n && |h.free| > 1
    ensures TakesHead(h0, n) ==> TakenOff(h0, h')
  {
    hide PagesNeeded, Taken, TakenAt, TakenOff, LivePlus, LiveSame, Ok, TakesHead, Supply;
    LivePlusTrans(h0, h, h', b);
    SamePages(h, i, n);
    SameSupply(h, h', coming);
    GrownNot(h0, supply);
    assert CutFrom(h, h', b, n);
    HeadTaken(h0, h, i, k, n, h');
  }

  lemma SamePages(h: Heap, i: nat, n: nat)
    requires i < |h.free| && h.free[i] in h.size && h.free[i] in h.next && n <= h.size[h.free[i]]
    ensures Taken(h, i, n).pages == h.pages
  {
  }

  lemma HeadTaken(h0: Heap, h: Heap, i: nat, k: nat, n: nat, h': Heap)
    requires Ok(h) && SmallUpTo(h, i, n) && h.free[i] in h.size && h.size[h.free[i]] >= n
    requires if k == 0 then h == h0 else NoFit(h0, n) && h.free[0] in h.size && h.size[h.free[0]] < n
    requires h.free[i] in h.next && h' == Taken(h, i, n)
    ensures TakesHead(h0, n) <==> i == 0 && h.size[h.free[i]] == n && |h.free| > 1
    ensures TakesHead(h0, n) ==> TakenOff(h0, h')
  {
    hide Ok, Split, Unlink, UnlinkOnly;
  }

  lemma SeekRefused(h0: Heap, supply: seq<nat>, h: Heap, coming: seq<nat>, k: nat, n: nat)
    requires Seeking(h0, supply, h, coming, 0, k, n) && h.free[0] in h.size && h.size[h.free[0]] < n
    requires Answer(coming) == 0
    ensures LiveSame(h0, h) && NoFit(h0, n) && !TakesHead(h0, n) && Starved(h0, supply, h, Rest(coming), n)
  {
    hide Ok, LiveSame, Supply, PagesNeeded;
    GrownNot(h0, supply);
    assert NoFit(h, n);
  }

  /** A page obtained for an empty list is one of those needed. */
  lemma OneMorePage(h: Heap, supply: seq<nat>, k: nat, n: nat)
    requires supply != [] && supply[0] != 0 && h.free == [] && k < |supply|
    requires PagesNeeded(Extend(h, supply[0]), supply[1..], k, n)
    ensures PagesNeeded(h, supply, k + 1, n)
    ensures GrownBy(h, supply, k + 1) == GrownBy(Extend(h, supply[0]), supply[1..], k)
    ensures supply[k + 1..] == supply[1..][k..]
  {
    hide Extend;
    forall j: nat | j < k + 1
      ensures supply[j] != 0 && NoFit(GrownBy(h, supply, j), n)
    {
      if j > 0 {
        assert GrownBy(h, supply, j) == GrownBy(Extend(h, supply[0]), supply[1..], j - 1);
        assert supply[j] == supply[1..][j - 1];
      }
    }
  }

  lemma ServedLater(h: Heap, supply: seq<nat>, h': Heap, coming: seq<nat>, b: nat, n: nat)
    requires supply != [] && supply[0] != 0 && h.free == []
    requires Served(Extend(h, supply[0]), supply[1..], h', coming, b, n)
    ensures Served(h, supply, h', coming, b, n)
  {
    hide Extend, CutFrom, PagesNeeded, GrownBy;
    var h1, rest := Extend(h, supply[0]), supply[1..];
    var k: nat :| k <= |rest| && PagesNeeded(h1, rest, k, n) && CutFrom(GrownBy(h1, rest, k), h', b, n) &&
      coming == rest[k..];
    OneMorePage(h, supply, k, n);
  }

  lemma StarvedLater(h: Heap, supply: seq<nat>, h': Heap, coming: seq<nat>, n: nat)
    requires supply != [] && supply[0] != 0 && h.free == []
    requires Starved(Extend(h, supply[0]), supply[1..], h', coming, n)
    ensures Starved(h, supply, h', coming, n)
  {
    hide Extend, NoFit, PagesNeeded, GrownBy;
    var h1, rest := Extend(h, supply[0]), supply[1..];
    var k: nat :| k <= |rest| && PagesNeeded(h1, rest, k, n) && NoFit(h', n) && h' == GrownBy(h1, rest, k) &&
      Answer(rest[k..]) == 0 && coming == Rest(rest[k..]);
    OneMorePage(h, supply, k, n);
  }

  /** The last block is linked past the head, which the list still points to. */
  ghost predicate TakenOff(h: Heap, h': Heap) {
    |h.free| > 1 && h'.list == h.list && h.free[0] in h.next &&
    h'.next == h.next[h.free[|h.free| - 1] := h.next[h.free[0]]]
  }

  /** Links that lead from the head to a cycle it is not on are no free list. */
  lemma HeadOffCycle(h: Heap, h1: Heap, h': Heap)
    requires Ok(h) && TakenOff(h, h1) && h'.list == h1.list && h'.next == h1.next
    ensures !Ok(h')
  {
    if Ok(h') {
      OkFacts(h);
      OkFacts(h');
      var last: nat := |h'.free| - 1;
      OffHead(h, h1, h', last);
      assert LinkOk(h'.next, h'.free, last);
      OffHeadStep(h, h1, h'.free[last]);
      assert false;
    }
  }

  /** The links lead from the head or another free block to a free block other than the head. */
  lemma OffHeadStep(h: Heap, h1: Heap, a: nat)
    requires Ok(h) && TakenOff(h, h1) && a in h.free
    ensures a in h1.next && h1.next[a] in h.free && h1.next[a] != h.free[0]
  {
    hide Tiled;
    var i :| 0 <= i < |h.free| && h.free[i] == a;
    assert LinkOk(h.next, h.free, i) && LinkOk(h.next, h.free, 0);
  }

  lemma {:induction false} OffHead(h: Heap, h1: Heap, h': Heap, j: nat)
    requires Ok(h) && TakenOff(h, h1) && Ok(h') && h'.list == h1.list && h'.next == h1.next && j < |h'.free|
    ensures h'.free[j] in h.free
  {
    hide Tiled;
    if j > 0 {
      OffHead(h, h1, h', j - 1);
      OffHeadStep(h, h1, h'.free[j - 1]);
      assert LinkOk(h'.next, h'.free, j - 1);
    }
  }

  lemma OkFacts(h: Heap)
    requires Ok(h)
    ensures Tiled(h) && LiveSame(h, h) && (h.list == 0 <==> h.free == [])
  {
    LiveSameRefl(h);
    if h.list == 0 {
      NoneFree(h);
    }
  }

  lemma SupplyHead(h: Heap, coming: seq<nat>)
    requires Supply(h, coming) && coming != [] && coming[0] != 0
    ensures NewPage(h, coming[0])
  {
  }

  lemma SupplyRest(h: Heap, coming: seq<nat>)
    requires Supply(h, coming)
    ensures Supply(h, Rest(coming))
  {
  }

  /** Pages to come stay above the pages obtained. */
  ghost predicate Supply(h: Heap, coming: seq<nat>) {
    forall i | 0 <= i < |coming| && coming[i] != 0 ::
      NewPage(h, coming[i]) && forall j | 0 <= j < i :: coming[j] < coming[i]
  }

  lemma StillComing(h: Heap, page: nat, coming: seq<nat>)
    requires Supply(h, coming) && coming != [] && coming[0] == page != 0
    ensures Supply(Extend(h, page), coming[1..])
  {
  }

  /** The head becomes live as it is, and the list stays on it. */
  ghost function TakeHead(h: Heap): Heap
    requires h.free != [] && h.free[0] in h.next
  {
    h.(next := h.next[h.free[|h.free| - 1] := h.next[h.free[0]]], free := h.free[1..])
  }

  lemma HeadLost(h: Heap)
    requires Ok(h) && |h.free| > 1 && h.free[0] in h.next
    ensures Tiled(TakeHead(h)) && LivePlus(h, TakeHead(h), h.free[0]) && !Ok(TakeHead(h))
  {
    BlockHoldsItself(h);
    SameBlocks(h, TakeHead(h));
  }

  /** What is left when n units are taken from free block i. */
  ghost function Taken(h: Heap, i: nat, n: nat): Heap
    requires i < |h.free| && h.free[i] in h.size && h.free[i] in h.next && n <= h.size[h.free[i]]
  {
    if h.size[h.free[i]] > n then Split(h, i, n)
    else if |h.free| == 1 then UnlinkOnly(h)
    else if i > 0 then Unlink(h, i)
    else TakeHead(h)
  }

  /** The block taken: the upper end of free block i. */
  ghost function TakenAt(h: Heap, i: nat, n: nat): nat
    requires i < |h.free| && h.free[i] in h.size && n <= h.size[h.free[i]]
  {
    h.free[i] + h.size[h.free[i]] - n
  }

  /** Free block i is the first that holds n units, in the order of the list from behind its head. */
  ghost predicate FitsFirst(h: Heap, i: nat, n: nat) {
    SmallUpTo(h, i, n) && h.free[i] in h.size && h.free[i] in h.next && n <= h.size[h.free[i]]
  }

  /** Block b of h' is cut from the block of h that fits first. */
  ghost predicate CutFrom(h: Heap, h': Heap, b: nat, n: nat) {
    exists i: nat :: FitsFirst(h, i, n) && h' == Taken(h, i, n) && b == TakenAt(h, i, n)
  }

  /** The block before a block is that block itself exactly when it is the only one. */
  lemma OnlyOne(h: Heap, i: nat)
    requires Ok(h) && i < |h.free|
    ensures h.free[if i == 0 then |h.free| - 1 else i - 1] == h.free[i] <==> |h.free| == 1
  {
  }

  lemma OkTiled(h: Heap)
    ensures Ok(h) ==> Tiled(h)
  {
  }

  lemma NoneFree(h: Heap)
    requires Ok(h) && h.list == 0
    ensures h.free == []
  {
    assert PageOk(h, 0);
  }

  function Answer(coming: seq<nat>): nat {
    if coming == [] then 0 else coming[0]
  }

  function Rest(coming: seq<nat>): seq<nat> {
    if coming == [] then [] else coming[1..]
  }

  /** The heap of one page, all free. */
  ghost function FirstPage(): Heap {
    Heap(map[HEAP_BASE := PAGE_UNITS], map[HEAP_BASE := HEAP_BASE], HEAP_BASE,
         PageOwner(HEAP_BASE, PAGE_UNITS), [HEAP_BASE], {HEAP_BASE})
  }

  lemma FirstPageOk()
    ensures Ok(FirstPage()) && forall a :: !IsLive(FirstPage(), a)
  {
    forall u: nat
      ensures UnitOk(FirstPage(), u) && PageOk(FirstPage(), u)
    {
      PageOfRange(u, HEAP_BASE);
    }
    assert LinkOk(FirstPage().next, FirstPage().free, 0);
  }

  /** Three requests: for two units; for one more than are left, so that a second page is cut; and for
      what is left of the first page. The third takes the head as it is, and the free list is lost. */
  method TakeHeadRun() returns (heap: KernelHeap, p: nat)
    ensures p > 0 && IsLive(heap.View(), p - 1) && heap.list == p - 1
    ensures forall owner, free, pages :: !Ok(Heap(heap.size, heap.next, heap.list, owner, free, pages))
  {
    hide Ok, LivePlus, LiveSame, IsLive, Served, Starved, CutFrom, PageOwner, TakesHead, Tiled, Supply;
    var page: nat := HEAP_BASE + PAGE_UNITS;
    heap := new KernelHeap([page]);
    SingleFit(FirstPage());
    p := heap.Kmalloc(8);
    ghost var h1 := heap.View();
    ServedAtOnce(FirstPage(), [page], h1, heap.coming, p - 1, 2);
    CutSingle(FirstPage(), h1, p - 1);
    SingleFit(h1);
    SecondPageGiven(h1, page);
    p := heap.Kmalloc(4080);
    ghost var h2 := heap.View();
    SecondPageCut(h1, page, h2, heap.coming, p - 1);
    p := heap.Kmalloc(4072);
    StillLive(h2, heap.View(), p - 1, p - 1);
  }

  lemma SecondPageGiven(h: Heap, page: nat)
    requires |h.free| == 1 && page != 0
    ensures forall h', coming :: !Starved(h, [page], h', coming, 511)
  {
    hide PageOwner, PagesNeeded;
    assert GrownBy(h, [page], 0) == h && GrownBy(h, [page], 1) == Extend(h, page);
    assert Extend(h, page).free[1] == page;
  }

  lemma SecondPageCut(h: Heap, page: nat, h': Heap, coming: seq<nat>, b: nat)
    requires |h.free| == 1 && h.free[0] in h.size && h.size[h.free[0]] == 510 && h.free[0] < page
    requires Served(h, [page], h', coming, b, 511)
    ensures h'.free != [] && TakesHead(h', 510)
  {
    hide PageOwner, PagesNeeded, CutFrom, Extend, TakesHead;
    var k: nat :| k <= 1 && PagesNeeded(h, [page], k, 511) && CutFrom(GrownBy(h, [page], k), h', b, 511) &&
      coming == [page][k..];
    assert GrownBy(h, [page], 0) == h && GrownBy(h, [page], 1) == Extend(h, page);
    CutTooSmall(h, h', b);
    CutLast(h, page, h', b);
  }

  lemma CutTooSmall(h: Heap, h': Heap, b: nat)
    requires |h.free| == 1 && h.free[0] in h.size && h.size[h.free[0]] == 510
    ensures !CutFrom(h, h', b, 511)
  {
  }

  lemma CutLast(h: Heap, page: nat, h': Heap, b: nat)
    requires |h.free| == 1 && h.free[0] in h.size && h.size[h.free[0]] == 510 && h.free[0] < page
    requires CutFrom(Extend(h, page), h', b, 511)
    ensures h'.free != [] && TakesHead(h', 510)
  {
    hide PageOwner;
    var g := Extend(h, page);
    assert g.free == [h.free[0], page] && g.size[page] == 512 && g.size[h.free[0]] == 510;
    var i: nat :| FitsFirst(g, i, 511) && h' == Taken(g, i, 511) && b == TakenAt(g, i, 511);
    assert i == 1 && h' == Split(g, 1, 511);
  }

  /** Two requests, and the first block freed while the second, right below it, is in use: the free
      list is lost. */
  method FreeUpperFirst() returns (heap: KernelHeap)
    ensures forall owner, free, pages :: !Ok(Heap(heap.size, heap.next, heap.list, owner, free, pages))
  {
    hide Ok, LivePlus, LiveSame, IsLive, CutFrom, LowerFree, PageOwner, TakesHead, Tiled, Served, Starved;
    heap := new KernelHeap([]);
    SingleFit(FirstPage());
    var a := heap.Kmalloc(8);
    ghost var h1 := heap.View();
    ServedAtOnce(FirstPage(), [], h1, heap.coming, a - 1, 2);
    CutSingle(FirstPage(), h1, a - 1);
    StillLive(FirstPage(), h1, a - 1, a - 1);
    SingleFit(h1);
    var b := heap.Kmalloc(8);
    ServedAtOnce(h1, [], heap.View(), heap.coming, b - 1, 2);
    CutSingle(h1, heap.View(), b - 1);
    StillLive(h1, heap.View(), a - 1, b - 1);
    UpperOfTwo(heap.View(), a - 1, b - 1);
    heap.Kfree(a);
  }

  /** While some block fits, no page is asked for. */
  lemma ServedAtOnce(h: Heap, supply: seq<nat>, h': Heap, coming: seq<nat>, b: nat, n: nat)
    requires !NoFit(h, n) && Served(h, supply, h', coming, b, n)
    ensures CutFrom(h, h', b, n) && coming == supply
  {
    hide CutFrom, NoFit;
    assert GrownBy(h, supply, 0) == h;
  }

  lemma SingleFit(h: Heap)
    requires |h.free| == 1 && h.free[0] in h.size && h.size[h.free[0]] > 2
    ensures !NoFit(h, 2) && forall n :: !TakesHead(h, n)
  {
  }

  lemma CutSingle(h: Heap, h': Heap, b: nat)
    requires |h.free| == 1 && h.free[0] in h.size && h.size[h.free[0]] > 2 && CutFrom(h, h', b, 2)
    ensures h'.free == h.free && h'.free[0] in h'.size && h'.size[h.free[0]] == h.size[h.free[0]] - 2
    ensures b == h'.free[0] + h'.size[h.free[0]] && b !in h'.free
  {
    var i: nat :| FitsFirst(h, i, 2) && h' == Taken(h, i, 2) && b == TakenAt(h, i, 2);
  }

  /** A block right above a live one has no free lower neighbour. */
  lemma UpperOfTwo(h: Heap, a: nat, b: nat)
    requires Tiled(h) && IsLive(h, b) && b in h.size && b + h.size[b] == a
    ensures !LowerFree(h, a)
  {
    BlockHoldsItself(h);
    if a > 0 {
      assert SpanOk(h, b, a - 1);
    }
  }

  lemma StillLive(h: Heap, h': Heap, a: nat, b: nat)
    requires LivePlus(h, h', b)
    ensures (IsLive(h, a) ==> IsLive(h', a)) && IsLive(h', b)
  {
  }
}
