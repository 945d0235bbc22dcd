/** The kernel's memory regions and the paging underneath them (mm/memory.c). */
module Memory {
  import opened Options
  import opened Frames
  import opened PageTables

  datatype Flag = Fixed | ExpandUp | ExpandDown

  datatype Region = Region(start: nat, size: nat, flag: Flag)
  {
    function End(): nat {
      start + size
    }
  }

  // Region numbers; entry 4 only bounds the slots.
  const MM_TEXT: nat := 0
  const MM_HEAP: nat := 1
  const MM_STACK: nat := 2
  const MM_SLOTS: nat := 3
  const MM_END: nat := 4

  const CODE_SIZE: nat := 0x400000
  const HEAP_START: nat := LOW_MEM
  const STACK_BASE: nat := 0x40000000 - 0x400000
  const STACK_START: nat := STACK_BASE - PAGE
  const SLOTS_START: nat := 0x40000000
  const SLOTS_SIZE: nat := 0x20000000

  // The memory above 1 MB is given in KB, by 16 bits.
  const MAX_HIGH: nat := 0xFFFF * 1024 + 0x100000

  /** Text, heap, stack and slots lie in this order without overlap; heap and slots start where
      they always did and the stack ends where it always did. */
  ghost predicate RegionsOk(rs: seq<Region>) {
    |rs| == 5 &&
    (forall i | 0 <= i < 5 :: rs[i].start % PAGE == 0 && rs[i].size % PAGE == 0) &&
    rs[MM_TEXT] == Region(0, CODE_SIZE, Fixed) &&
    rs[MM_HEAP].flag == ExpandUp && rs[MM_HEAP].start == HEAP_START &&
    rs[MM_HEAP].End() <= rs[MM_STACK].start &&
    rs[MM_STACK].flag == ExpandDown && rs[MM_STACK].End() == STACK_BASE &&
    rs[MM_SLOTS].flag == ExpandUp && rs[MM_SLOTS].start == SLOTS_START &&
    rs[MM_SLOTS].End() <= SLOTS_START + SLOTS_SIZE &&
    rs[MM_END] == Region(SLOTS_START + SLOTS_SIZE, 0, ExpandUp)
  }

  predicate InRegion(r: Region, p: nat) {
    r.start <= p < r.End()
  }

  /** The region table of a freshly booted kernel. */
  function InitialRegions(): seq<Region> {
    [Region(0, CODE_SIZE, Fixed), Region(HEAP_START, PAGE, ExpandUp), Region(STACK_START, PAGE, ExpandDown),
     Region(SLOTS_START, PAGE, ExpandUp), Region(SLOTS_START + SLOTS_SIZE, 0, ExpandUp)]
  }

  lemma InitialOk()
    ensures RegionsOk(InitialRegions())
  {
  }

  /** The memory map at boot, in addresses: 4 MB of text, the heap from 8 MB on, the stack below 4 MB under
      1 GB, 512 MB of slots from 1 GB on; frames from 8 MB to 2 GB, one bit each in 16320 words; and no
      machine has memory from 65 MB on. */
  lemma MemoryMap()
    ensures InitialRegions() ==
      [Region(0, 0x400000, Fixed), Region(0x800000, 0x1000, ExpandUp), Region(0x3FBFF000, 0x1000, ExpandDown),
       Region(0x40000000, 0x1000, ExpandUp), Region(0x60000000, 0, ExpandUp)]
    ensures LOW_MEM == 0x800000 && LOW_MEM + PAGING_PAGES * 0x1000 == 0x80000000
    ensures BITMAP_SIZE == 16320 && 32 * BITMAP_SIZE == PAGING_PAGES
    ensures MAX_HIGH == 65 * 0x100000 - 0x400
  {
  }

  /** The region after a growth step and the page it gained; None when a neighbour is in the way. */
  function Grow(rs: seq<Region>, region: nat): Option<(Region, nat)>
    requires |rs| == 5 && region < 4
  {
    var r := rs[region];
    if r.flag.ExpandUp? then
      if r.End() + PAGE > rs[region + 1].start then None
      else Some((r.(size := r.size + PAGE), r.End()))
    else if r.flag.ExpandDown? && region > 0 && r.start >= PAGE then
      if r.start - PAGE < rs[region - 1].End() then None
      else Some((r.(start := r.start - PAGE, size := r.size + PAGE), r.start - PAGE))
    else None
  }

  /** What stands in the way of one more page: the stack and the heap for one another, the end of their
      range for the slots; the text never grows. */
  ghost predicate InTheWay(rs: seq<Region>, region: nat)
    requires |rs| == 5
  {
    if region == MM_HEAP then rs[MM_HEAP].End() + PAGE > rs[MM_STACK].start
    else if region == MM_STACK then rs[MM_STACK].start < rs[MM_HEAP].End() + PAGE
    else if region == MM_SLOTS then rs[MM_SLOTS].End() + PAGE > SLOTS_START + SLOTS_SIZE
    else true
  }

  /** One more page p: below the start of the stack, at the end of heap and slots. */
  ghost predicate OneMore(region: nat, r: Region, r': Region, p: nat) {
    r'.size == r.size + PAGE && r'.flag == r.flag &&
    if region == MM_STACK then r'.start + PAGE == r.start && p == r'.start
    else r'.start == r.start && p == r.start + r.size
  }

  lemma GrowExactly(rs: seq<Region>, region: nat)
    requires RegionsOk(rs) && region <= MM_SLOTS
    ensures Grow(rs, region) == None <==> InTheWay(rs, region)
    ensures Grow(rs, region).Some? ==>
      var (r, p) := Grow(rs, region).value; OneMore(region, rs[region], r, p) && p != 0
  {
  }

  /** A region table after a growth step that gained page p. */
  ghost predicate Grown(rs: seq<Region>, region: nat, r: Region, p: nat) {
    |rs| == 5 && region < 4 &&
    RegionsOk(rs[region := r]) && p % PAGE == 0 && InRegion(r, p) &&
    (forall i | 0 <= i < 5 :: !InRegion(rs[i], p)) &&
    (forall q | InRegion(rs[region], q) :: InRegion(r, q)) &&
    Managed(p / PAGE / ENTRIES)
  }

  lemma GrowHeap(rs: seq<Region>)
    requires RegionsOk(rs) && Grow(rs, MM_HEAP).Some?
    ensures var (r, p) := Grow(rs, MM_HEAP).value; Grown(rs, MM_HEAP, r, p)
  {
    SlotBounds(rs[MM_HEAP].End(), 2, 255);
  }

  lemma GrowStack(rs: seq<Region>)
    requires RegionsOk(rs) && Grow(rs, MM_STACK).Some?
    ensures var (r, p) := Grow(rs, MM_STACK).value; Grown(rs, MM_STACK, r, p)
  {
    SlotBounds(rs[MM_STACK].start - PAGE, 2, 255);
  }

  lemma GrowSlots(rs: seq<Region>)
    requires RegionsOk(rs) && Grow(rs, MM_SLOTS).Some?
    ensures var (r, p) := Grow(rs, MM_SLOTS).value; Grown(rs, MM_SLOTS, r, p)
  {
    SlotBounds(rs[MM_SLOTS].End(), 256, 384);
  }

  /** Growing keeps the layout, and the page gained belonged to no region before. */
  lemma GrowOk(rs: seq<Region>, region: nat)
    requires RegionsOk(rs) && region < 4 && Grow(rs, region).Some?
    ensures region != MM_TEXT
    ensures var (r, p) := Grow(rs, region).value; Grown(rs, region, r, p)
  {
    hide Grown;
    if region == MM_HEAP {
      GrowHeap(rs);
    } else if region == MM_STACK {
      GrowStack(rs);
    } else if region == MM_SLOTS {
      GrowSlots(rs);
    }
  }

  lemma SlotBounds(p: nat, lo: nat, hi: nat)
    requires lo * 0x400000 <= p < hi * 0x400000
    ensures lo <= p / PAGE / ENTRIES < hi
  {
    assert p == p / PAGE * PAGE + p % PAGE;
  }

  /** Frames that are free and really exist. */
  ghost function LowFree(free: set<nat>, high: nat): set<nat> {
    set n | n in free && n * PAGE + LOW_MEM < high
  }

  /** The frames behind the end of memory are free: they are never handed out for good. */
  ghost predicate AboveFree(free: set<nat>, high: nat) {
    forall n: nat | n < PAGING_PAGES && n * PAGE + LOW_MEM >= high :: n in free
  }

  /** The bitmap covers more frames than there can be, so it never runs empty. */
  lemma NeverEmpty(free: set<nat>, high: nat)
    requires AboveFree(free, high) && high <= MAX_HIGH
    ensures free != {}
  {
    assert PAGING_PAGES - 1 in free;
  }

  class Mmu {
    const frames: FrameMap
    const dir: array<nat>
    const regions: array<Region>
    const high: nat
    var phys: map<nat, seq<nat>>
    ghost var granted: set<nat>  // pages handed out by successful growth steps

    /** A machine with its physical memory; nothing is set up yet. */
    constructor (high: nat, phys: map<nat, seq<nat>>)
      requires high <= MAX_HIGH
      ensures Separate() && fresh(Repr()) && this.high == high && this.phys == phys && granted == {}
      ensures forall n: nat :: n in frames.Free() <==> n < PAGING_PAGES
    {
      this.high := high;
      this.phys := phys;
      granted := {};
      dir := new nat[ENTRIES];
      regions := new Region[5](_ => Region(0, 0, Fixed));
      frames := new FrameMap();
    }

    ghost function Repr(): set<object>
      reads this
    {
      {this, frames, frames.words, dir, regions}
    }

    ghost predicate Separate()
      reads this
    {
      dir.Length == ENTRIES && regions.Length == 5 && frames.words.Length == BITMAP_SIZE && high <= MAX_HIGH
    }

    ghost function Mem(): Mem
      reads this, dir
    {
      PageTables.Mem(dir[..], phys)
    }

    /** The flat map the page tables stand for. */
    ghost function Lookup(vpn: nat): Option<nat>
      reads this, dir
    {
      Translate(Mem(), vpn)
    }

    ghost predicate Paging()
      reads this, frames, frames.words, dir
    {
      PagingOk(Mem(), frames.Free(), high)
    }

    /** Every mapped page lies in a region. */
    ghost predicate Covered()
      reads this, dir, regions
    {
      CoveredBy(Mem(), regions[..])
    }

    /** Pages granted are mapped. */
    ghost predicate Granted()
      reads this, dir
    {
      forall p | p in granted :: p % PAGE == 0 && Lookup(p / PAGE).Some?
    }

    ghost predicate Valid()
      reads this, Repr()
    {
      Separate() && Paging() && AboveFree(frames.Free(), high) && RegionsOk(regions[..]) && Covered() && Granted()
    }

    /** Whether the page of vpn has a page table or a frame is left to make one. */
    ghost predicate TableRoom(vpn: nat)
      requires Slot(vpn) < dir.Length
      reads this, frames, frames.words, dir
    {
      dir[Slot(vpn)] != 0 || LowFree(frames.Free(), high) != {}
    }

    /** A window on the frame for the code that follows. */
    method TempMapPage(frame: nat)
      requires Separate()
      modifies dir
      ensures dir[..] == old(dir[..])[TEMP_SLOT := WindowEntry(frame)]
    {
      dir[TEMP_SLOT] := WindowEntry(frame);
    }

    /** Boot: the region table, an empty page directory, one stack page and one heap page. What the
        large-page slots and the physical memory hold does not matter. */
    method InitPaging()
      requires Separate() && LOW_MEM + 4 * PAGE <= high && granted == {}
      requires Shape(Mem(), high) && (forall n: nat :: n in frames.Free() <==> n < PAGING_PAGES)
      modifies this`phys, dir, regions, frames.words
      ensures Valid() && regions[..] == InitialRegions()
      ensures Lookup(HEAP_START / PAGE).Some? && Lookup(STACK_START / PAGE).Some?
    {
      InitRegions();
      ClearDirectory();
      BootPages();
      InitialOk();
    }

    /** The first page tables and pages. */
    method BootPages()
      requires Separate() && LOW_MEM + 4 * PAGE <= high && Shape(Mem(), high)
      requires forall s: nat | Managed(s) :: dir[s] == 0
      requires forall n: nat :: n in frames.Free() <==> n < PAGING_PAGES
      modifies this`phys, dir, frames.words
      ensures Paging() && AboveFree(frames.Free(), high) && CoveredBy(Mem(), InitialRegions())
      ensures Lookup(HEAP_START / PAGE).Some? && Lookup(STACK_START / PAGE).Some?
    {
      NoTables(Mem(), frames.Free(), high);
      hide Translate, TablesOk, MappedOk, IsTable, InitialRegions, CoveredBy, FreeSet, LowFree, Remapped, Shape;
      BootTable();
      ghost var m0 := Mem();
      assert forall v: nat :: Lookup(v) == Translate(m0, v);
      BootStack();
      ghost var m1 := Mem();
      StackOnly(m0, m1);
      assert forall v: nat :: Lookup(v) == Translate(m1, v);
      var frame := BootHeap();
      BootCovered(m0, m1, Mem(), LOW_MEM + PAGE, frame);
    }

    /** The first heap page. */
    method BootHeap() returns (frame: nat)
      requires Separate() && Paging() && LOW_MEM + 4 * PAGE <= high
      requires (forall n: nat :: n in frames.Free() <==> 2 <= n < PAGING_PAGES)
      requires forall f :: IsTable(Mem(), f) ==> f == LOW_MEM
      requires forall v: nat :: Lookup(v) == None || Lookup(v) == Some(LOW_MEM + PAGE)
      modifies this`phys, dir, frames.words
      ensures Paging() && AboveFree(frames.Free(), high)
      ensures Remapped(old(Mem()), Mem(), HEAP_START / PAGE, frame)
    {
      assert 2 in frames.Free() && 3 in frames.Free();
      ghost var m := Mem();
      frame := frames.GetFreeFrame();
      assert frame == LOW_MEM + 2 * PAGE;
      assert 3 in LowFree(frames.Free(), high);
      assert Paging() by {
        FewerFree(m, old(frames.Free()), frames.Free(), high);
      }
      assert forall v: nat :: Lookup(v) == Translate(m, v);
      hide Translate, TablesOk, MappedOk, IsTable;
      var ok := PutPage(HEAP_START, frame);
    }

    method InitRegions()
      requires Separate()
      modifies regions
      ensures regions[..] == InitialRegions()
    {
      regions[MM_TEXT] := Region(0, CODE_SIZE, Fixed);
      regions[MM_HEAP] := Region(HEAP_START, PAGE, ExpandUp);
      regions[MM_STACK] := Region(STACK_START, PAGE, ExpandDown);
      regions[MM_SLOTS] := Region(SLOTS_START, PAGE, ExpandUp);
      regions[MM_END] := Region(SLOTS_START + SLOTS_SIZE, 0, ExpandUp);
    }

    method ClearDirectory()
      requires Separate()
      modifies dir
      ensures forall s: nat | Managed(s) :: dir[s] == 0
    {
      for i := LOW_MEM / 0x400000 to ENTRIES
        invariant forall j | 2 <= j < i :: dir[j] == 0
      {
        dir[i] := 0;
      }
    }

    /** The first page table. */
    method BootTable()
      requires Separate() && Paging() && LOW_MEM + 4 * PAGE <= high
      requires forall s: nat | Managed(s) :: dir[s] == 0
      requires forall n: nat :: n in frames.Free() <==> n < PAGING_PAGES
      modifies this`phys, dir, frames.words
      ensures Paging() && (forall n: nat :: n in frames.Free() <==> 1 <= n < PAGING_PAGES)
      ensures HasTable(Mem(), Slot(STACK_START / PAGE)) && Base(dir[Slot(STACK_START / PAGE)]) == LOW_MEM
      ensures (forall v: nat :: Lookup(v) == None) && (forall f :: IsTable(Mem(), f) ==> f == LOW_MEM)
    {
      var slot := Slot(STACK_START / PAGE);
      ghost var m, free := Mem(), frames.Free();
      hide Translate, TablesOk, MappedOk, IsTable, FreeSet;
      assert 0 in free;
      var table := frames.GetFreeFrame();
      assert table == LOW_MEM;
      dir[slot] := table + 7;
      TempMapPage(table);
      phys := phys[table := seq<nat>(ENTRIES, _ => 0)];
      assert Mem() == Opened(AddTable(m, slot, table, 7), WindowEntry(table));
      FirstTable(m, free, high, slot, table);
    }

    /** The first stack page. */
    method BootStack()
      requires Separate() && Paging() && LOW_MEM + 4 * PAGE <= high
      requires HasTable(Mem(), Slot(STACK_START / PAGE)) && Base(dir[Slot(STACK_START / PAGE)]) == LOW_MEM
      requires forall n: nat :: n in frames.Free() <==> 1 <= n < PAGING_PAGES
      requires (forall v: nat :: Lookup(v) == None) && (forall f :: IsTable(Mem(), f) ==> f == LOW_MEM)
      modifies this`phys, frames.words
      ensures Paging() && (forall n: nat :: n in frames.Free() <==> 2 <= n < PAGING_PAGES)
      ensures Remapped(old(Mem()), Mem(), STACK_START / PAGE, LOW_MEM + PAGE)
      ensures forall f :: IsTable(Mem(), f) ==> f == LOW_MEM
    {
      var vpn := STACK_START / PAGE;
      ghost var m, free := Mem(), frames.Free();
      assert forall v: nat :: Translate(m, v) == Lookup(v);
      hide Translate, TablesOk, MappedOk, IsTable, FreeSet;
      assert 1 in free;
      var page := frames.GetFreeFrame();
      assert page == LOW_MEM + PAGE;
      var entries: seq<nat> := phys[LOW_MEM][vpn % ENTRIES := page + 7];
      phys := phys[LOW_MEM := entries];
      FirstPage(m, free, frames.Free(), high, vpn, page);
    }

    /** Maps the page at ptr to the frame `page`. It fails, changing nothing, exactly when the frame
        is outside the physical memory. Otherwise the flat map is updated at this page only, exactly
        when there is a page table for it or a frame to make one; and frames keep having one use each
        exactly when, besides, the frame was in use for nothing yet. */
    method PutPage(ptr: nat, page: nat) returns (ok: bool)
      requires Separate() && Paging() && Managed(ptr / PAGE / ENTRIES) && page % PAGE == 0
      modifies this`phys, dir, frames.words
      ensures ok <==> LOW_MEM <= page < high
      ensures !ok ==> Mem() == old(Mem()) && frames.Free() == old(frames.Free())
      ensures frames.Free() <= old(frames.Free())
      ensures ok ==>
        (Remapped(old(Mem()), Mem(), ptr / PAGE, page) <==> old(TableRoom(ptr / PAGE)))
      ensures ok ==>
        (Paging() <==> old(TableRoom(ptr / PAGE)) && Unused(old(Mem()), old(frames.Free()), ptr / PAGE, page))
      ensures old(TableRoom(ptr / PAGE)) && AboveFree(old(frames.Free()), high) ==> AboveFree(frames.Free(), high)
    {
      hide TablesOk, MappedOk, IsTable, FreeSet, Unused, AboveFree;
      if page < LOW_MEM || page >= high {
        return false;
      }
      var vpn := ptr / PAGE;
      var slot := Slot(vpn);
      ghost var m0, free0 := Mem(), frames.Free();
      var frame := Base(dir[slot]);
      if dir[slot] == 0 {
        frame := frames.GetFreeFrame();
        dir[slot] := frame + 3;
        TempMapPage(frame);
        if frame in phys {
          phys := phys[frame := seq<nat>(ENTRIES, _ => 0)];
        }
      } else {
        TempMapPage(frame);
      }
      assert Mem() == WithTable(m0, slot, frame);
      var table := Base(dir[slot]);
      if table in phys && |phys[table]| == ENTRIES {
        var entries: seq<nat> := phys[table][vpn % ENTRIES := page + 3];
        phys := phys[table := entries];
      }
      PageWritten(m0, free0, frames.Free(), high, vpn, page, frame);
      TableTaken(free0, frames.Free(), high, frame);
      ok := true;
    }

    /** The first half of a growth step: the region table. */
    method GrowRegion(region: nat) returns (p: nat)
      requires Separate() && RegionsOk(regions[..]) && region <= MM_SLOTS
      modifies regions
      ensures p == 0 <==> InTheWay(old(regions[..]), region)
      ensures p == 0 <==> Grow(old(regions[..]), region) == None
      ensures p == 0 ==> regions[..] == old(regions[..])
      ensures p != 0 ==> OneMore(region, old(regions[region]), regions[region], p)
      ensures p != 0 ==> Grow(old(regions[..]), region) == Some((regions[region], p))
      ensures regions[..] == old(regions[..])[region := regions[region]]
    {
      var r := regions[region];
      match r.flag {
        case ExpandUp =>
          if r.start + r.size + PAGE > regions[region + 1].start {
            return 0;
          }
          p := r.start + r.size;
        case ExpandDown =>
          var t := regions[region - 1];
          if r.start - PAGE < t.start + t.size {
            return 0;
          }
          r := r.(start := r.start - PAGE);
          p := r.start;
        case Fixed =>
          return 0;
      }
      regions[region] := r.(size := r.size + PAGE);
    }

    /** Grows a region by one page; 0 stands for the failure pointer. It fails exactly when a
        neighbour is in the way or no existing frame is free; the region grows unless a neighbour is
        in the way, so also when there is no frame for its page. A page gained is new and mapped to a
        frame that was free; everything else stays mapped as it was, provided a frame was left for the
        page table if one was needed. */
    method ExpandRegion(region: nat) returns (p: nat)
      requires Valid()
      modifies this`phys, this`granted, dir, regions, frames.words
      ensures p == 0 <==>
        region > MM_SLOTS || InTheWay(old(regions[..]), region) || old(LowFree(frames.Free(), high)) == {}
      ensures p == 0 ==>
        if region > MM_SLOTS || InTheWay(old(regions[..]), region) then regions[..] == old(regions[..])
        else
          OneMore(region, old(regions[region]), regions[region],
                  if region == MM_STACK then regions[region].start else old(regions[region]).End())
      ensures p != 0 ==> OneMore(region, old(regions[region]), regions[region], p)
      ensures p == 0 <==>
        region > MM_SLOTS || Grow(old(regions[..]), region) == None || old(LowFree(frames.Free(), high)) == {}
      ensures p == 0 ==> Valid() && granted == old(granted)
      ensures p == 0 ==> Mem() == old(Mem()) && frames.Free() == old(frames.Free())
      ensures regions[..] ==
        if region <= MM_SLOTS && Grow(old(regions[..]), region).Some?
        then old(regions[..])[region := Grow(old(regions[..]), region).value.0]
        else old(regions[..])
      ensures p == 0 ==>
        (regions[..] == old(regions[..]) <==> region > MM_SLOTS || Grow(old(regions[..]), region) == None)
      ensures p != 0 ==>
        Grow(old(regions[..]), region) == Some((regions[region], p)) &&
        Grown(old(regions[..]), region, regions[region], p) &&
        granted == old(granted) + {p} && p !in old(granted)
      ensures p != 0 ==>
        (Valid() <==> old(dir[..])[Slot(p / PAGE)] != 0 || |old(LowFree(frames.Free(), high))| > 1)
      ensures p != 0 && Valid() ==>
        exists frame: nat ::
          Remapped(old(Mem()), Mem(), p / PAGE, frame) && frame >= LOW_MEM &&
          FrameNumber(frame) in old(LowFree(frames.Free(), high))
    {
      hide Translate, TablesOk, MappedOk, IsTable, RegionsOk, CoveredBy, Remapped, FreeSet, Shape, Unused, AboveFree;
      if region > MM_SLOTS {
        return 0;
      }
      ghost var rs, free0, m0 := regions[..], frames.Free(), Mem();
      GrowExactly(rs, region);
      p := GrowRegion(region);
      if p == 0 {
        return 0;
      }
      GrowOk(rs, region);
      GrownCovered(m0, rs, region, regions[region], p);
      NeverEmpty(free0, high);
      var f := frames.GetFreeFrame();
      LowestLow(free0, frames.Free(), high, f);
      FrameUnused(m0, free0, frames.Free(), high, f);
      LowTaken(free0, frames.Free(), high, f);
      assert forall v: nat :: Lookup(v) == Translate(m0, v);
      var ok := PutPage(p, f);
      if !ok {
        frames.FreeFrame(f);
        assert frames.Free() == free0;
        return 0;
      }
      granted := granted + {p};
      GrantedNext(m0, Mem(), regions[..], p, f, old(granted));
    }
  }

  lemma LowTaken(free: set<nat>, free': set<nat>, high: nat, f: nat)
    requires AboveFree(free, high) && f >= LOW_MEM && f % PAGE == 0 && free' == free - {FrameNumber(f)}
    ensures f < high ==> AboveFree(free', high)
  {
    assert f == FrameNumber(f) * PAGE + LOW_MEM;
  }

  /** A page table in the lowest free frame takes no frame behind the end of memory if another is left. */
  lemma TableTaken(free: set<nat>, free': set<nat>, high: nat, frame: nat)
    ensures AboveFree(free, high) && free' == free ==> AboveFree(free', high)
    ensures
      (&& AboveFree(free, high) && LowFree(free, high) != {}
       && frame >= LOW_MEM && frame % PAGE == 0 && FrameNumber(frame) in free
       && free' == free - {FrameNumber(frame)} && forall n | n in free :: FrameNumber(frame) <= n)
      ==> AboveFree(free', high)
  {
    if LowFree(free, high) != {} && frame >= LOW_MEM {
      var n :| n in LowFree(free, high);
    }
  }

  /** The frame is not free, holds no page table, and no other page is mapped to it. */
  ghost predicate Unused(m: Mem, free: set<nat>, vpn: nat, page: nat) {
    page >= LOW_MEM && FrameNumber(page) !in free && !IsTable(m, page) &&
    forall v: nat | v != vpn :: Translate(m, v) != Some(page)
  }

  /** A frame just taken is neither mapped nor a page table. */
  lemma FrameUnused(m: Mem, free: set<nat>, free': set<nat>, high: nat, f: nat)
    requires PagingOk(m, free, high) && free' <= free
    requires f != 0 ==> f >= LOW_MEM && FrameNumber(f) in free && FrameNumber(f) !in free'
    ensures PagingOk(m, free', high)
    ensures f != 0 ==> forall vpn :: Unused(m, free', vpn, f)
  {
  }

  lemma GrantedNext(m0: Mem, m: Mem, rs: seq<Region>, p: nat, f: nat, granted: set<nat>)
    requires CoveredBy(m0, rs) && InSome(rs, p) && p % PAGE == 0
    requires forall q | q in granted :: q % PAGE == 0 && Translate(m0, q / PAGE).Some?
    requires Translate(m0, p / PAGE) == None
    ensures p !in granted
    ensures Remapped(m0, m, p / PAGE, f) ==>
      CoveredBy(m, rs) && forall q | q in granted + {p} :: q % PAGE == 0 && Translate(m, q / PAGE).Some?
  {
    assert p / PAGE * PAGE == p;
  }

  /** The lowest free frame exists exactly when some free frame does. */
  lemma LowestLow(free: set<nat>, free': set<nat>, high: nat, f: nat)
    requires f == 0 <==> free == {}
    requires f == 0 ==> free' == free
    requires f != 0 ==>
      f >= LOW_MEM && f % PAGE == 0 && FrameNumber(f) in free && free' == free - {FrameNumber(f)} &&
      forall n | n in free :: FrameNumber(f) <= n
    ensures LOW_MEM <= f < high <==> LowFree(free, high) != {}
    ensures LOW_MEM <= f < high ==>
      FrameNumber(f) in LowFree(free, high) && (LowFree(free', high) != {} <==> |LowFree(free, high)| > 1)
  {
    if LOW_MEM <= f < high {
      assert f == FrameNumber(f) * PAGE + LOW_MEM;
      var low, low' := LowFree(free, high), LowFree(free', high);
      assert FrameNumber(f) in low && low' == low - {FrameNumber(f)};
      assert low == low' + {FrameNumber(f)};
    } else {
      forall n | n in free
        ensures n !in LowFree(free, high)
      {
        assert f == FrameNumber(f) * PAGE + LOW_MEM;
      }
    }
  }

  ghost predicate CoveredBy(m: Mem, rs: seq<Region>) {
    forall v: nat | Translate(m, v).Some? :: InSome(rs, v * PAGE)
  }

  ghost predicate InSome(rs: seq<Region>, p: nat) {
    exists i: nat :: i < |rs| && InRegion(rs[i], p)
  }

  lemma StackOnly(m0: Mem, m1: Mem)
    requires forall v: nat :: Translate(m0, v) == None
    requires Remapped(m0, m1, STACK_START / PAGE, LOW_MEM + PAGE)
    ensures forall v: nat :: Translate(m1, v) == None || Translate(m1, v) == Some(LOW_MEM + PAGE)
  {
  }

  lemma BootCovered(m0: Mem, m1: Mem, m2: Mem, stack: nat, heap: nat)
    requires forall v: nat :: Translate(m0, v) == None
    requires Remapped(m0, m1, STACK_START / PAGE, stack) && Remapped(m1, m2, HEAP_START / PAGE, heap)
    ensures CoveredBy(m2, InitialRegions())
    ensures Translate(m2, HEAP_START / PAGE).Some? && Translate(m2, STACK_START / PAGE).Some?
  {
    assert InRegion(InitialRegions()[MM_HEAP], HEAP_START) && InRegion(InitialRegions()[MM_STACK], STACK_START);
  }

  /** A region that grew covers what it did and the page it gained. */
  lemma GrownCovered(m: Mem, rs: seq<Region>, region: nat, r: Region, p: nat)
    requires CoveredBy(m, rs) && Grown(rs, region, r, p)
    ensures CoveredBy(m, rs[region := r]) && Translate(m, p / PAGE) == None
    ensures InSome(rs[region := r], p)
  {
    var rs' := rs[region := r];
    forall v: nat | Translate(m, v).Some?
      ensures InSome(rs', v * PAGE) && v != p / PAGE
    {
      assert InSome(rs, v * PAGE);
      var i: nat :| i < |rs| && InRegion(rs[i], v * PAGE);
      assert InRegion(rs'[i], v * PAGE);
    }
    assert InRegion(rs'[region], p);
  }

  function Opened(m: Mem, entry: nat): Mem
    requires |m.dir| == ENTRIES
  {
    m.(dir := m.dir[TEMP_SLOT := entry])
  }

  /** Memory once the slot has a page table, in `frame`, and the window is on it. */
  function WithTable(m: Mem, slot: nat, frame: nat): Mem
    requires |m.dir| == ENTRIES && slot < ENTRIES
  {
    Opened(if m.dir[slot] == 0 then AddTable(m, slot, frame, 3) else m, WindowEntry(frame))
  }

  /** Memory m2 maps page vpn to the frame and translates all other pages as m does. */
  ghost predicate Remapped(m: Mem, m2: Mem, vpn: nat, page: nat) {
    forall v: nat :: Translate(m2, v) == if v == vpn then Some(page) else Translate(m, v)
  }

  lemma EntryWritten(m0: Mem, m1: Mem, free: set<nat>, high: nat, vpn: nat, page: nat, room: bool)
    requires |m1.dir| == ENTRIES && Managed(Slot(vpn)) && page % PAGE == 0 && page >= LOW_MEM
    requires if room then
               PagingOk(m1, free, high) && HasTable(m1, Slot(vpn)) &&
               forall v: nat :: Translate(m1, v) == Translate(m0, v)
             else HasTable(m1, Slot(vpn)) && Base(m1.dir[Slot(vpn)]) !in m1.phys
    ensures var m2 := SetEntry(m1, vpn, page + 3);
            (Remapped(m0, m2, vpn, page) <==> room) &&
            (PagingOk(m2, free, high) <==> room && Unused(m1, free, vpn, page))
  {
    hide Translate, TablesOk, MappedOk, IsTable, Shape, Unused;
    if room {
      EntryMapped(m1, free, high, vpn, page);
    } else {
      EntryLost(m0, m1, free, high, vpn, page);
    }
  }

  lemma EntryMapped(m1: Mem, free: set<nat>, high: nat, vpn: nat, page: nat)
    requires PagingOk(m1, free, high) && HasTable(m1, Slot(vpn)) && page % PAGE == 0 && page >= LOW_MEM
    ensures |m1.dir| == ENTRIES && Managed(Slot(vpn))
    ensures var m2 := SetEntry(m1, vpn, page + 3);
            Remapped(m1, m2, vpn, page) && (PagingOk(m2, free, high) <==> Unused(m1, free, vpn, page))
  {
    hide Translate, TablesOk, MappedOk, IsTable;
    SetEntryRefines(m1, free, high, vpn, page, 3);
    if Unused(m1, free, vpn, page) {
      SetEntryOk(m1, free, high, vpn, page, 3);
    } else {
      NotFresh(m1, SetEntry(m1, vpn, page + 3), free, vpn, page);
    }
  }

  lemma EntryLost(m0: Mem, m1: Mem, free: set<nat>, high: nat, vpn: nat, page: nat)
    requires |m1.dir| == ENTRIES && HasTable(m1, Slot(vpn)) && Base(m1.dir[Slot(vpn)]) !in m1.phys
    ensures var m2 := SetEntry(m1, vpn, page + 3);
            !Remapped(m0, m2, vpn, page) && !PagingOk(m2, free, high)
  {
    var m2 := SetEntry(m1, vpn, page + 3);
    hide MappedOk, IsTable, Shape;
    assert Translate(m2, vpn) == None;
    assert HasTable(m2, Slot(vpn));
  }

  /** A frame that has another use cannot be mapped without harm. */
  lemma NotFresh(m1: Mem, m2: Mem, free: set<nat>, vpn: nat, page: nat)
    requires page >= LOW_MEM && m2.dir == m1.dir && Remapped(m1, m2, vpn, page) && !Unused(m1, free, vpn, page)
    ensures !MappedOk(m2, free)
  {
    assert Translate(m2, vpn) == Some(page);
    if IsTable(m1, page) {
      var s: nat :| HasTable(m1, s) && Base(m1.dir[s]) == page;
      assert HasTable(m2, s) && IsTable(m2, page);
    } else if FrameNumber(page) !in free {
      var v: nat :| v != vpn && Translate(m1, v) == Some(page);
      assert Translate(m2, v) == Translate(m2, vpn);
    }
  }

  lemma PageWritten(m: Mem, free: set<nat>, free': set<nat>, high: nat, vpn: nat, page: nat, frame: nat)
    requires PagingOk(m, free, high) && Managed(Slot(vpn)) && LOW_MEM <= page < high && page % PAGE == 0
    requires var entry := m.dir[Slot(vpn)];
             if entry != 0 then frame == Base(entry) && free' == free
             else if frame == 0 then free == {} == free'
             else
               frame >= LOW_MEM && frame % PAGE == 0 && FrameNumber(frame) in free &&
               free' == free - {FrameNumber(frame)} && forall n | n in free :: FrameNumber(frame) <= n
    ensures var m2 := SetEntry(WithTable(m, Slot(vpn), frame), vpn, page + 3);
            var room := m.dir[Slot(vpn)] != 0 || LowFree(free, high) != {};
            (Remapped(m, m2, vpn, page) <==> room) &&
            (PagingOk(m2, free', high) <==> room && Unused(m, free, vpn, page))
  {
    hide Unused, Remapped;
    var slot := Slot(vpn);
    var m1 := WithTable(m, slot, frame);
    if m.dir[slot] == 0 {
      hide Translate, TablesOk, MappedOk;
      NewTable(m, free, high, slot, frame, 3, WindowEntry(frame));
      EntryWritten(m, m1, free', high, vpn, page, frame in m.phys);
      if frame in m.phys {
        SameUse(m, m1, free, free', vpn, page, frame);
      }
    } else {
      assert HasTable(m, slot);
      WindowKeeps(m, free, high, WindowEntry(frame));
      assert forall s: nat :: HasTable(m1, s) == HasTable(m, s);
      SameTables(m, m1);
      SameTables(m1, m);
      hide Translate, TablesOk, MappedOk;
      EntryWritten(m, m1, free, high, vpn, page, true);
      SameUse(m, m1, free, free, vpn, page, frame);
    }
  }

  /** The page table does not change what the frame is used for. */
  lemma SameUse(m: Mem, m1: Mem, free: set<nat>, free': set<nat>, vpn: nat, page: nat, frame: nat)
    requires page % PAGE == 0 && forall v: nat :: Translate(m1, v) == Translate(m, v)
    requires if free' == free then forall f :: IsTable(m1, f) <==> IsTable(m, f)
      else
        frame >= LOW_MEM && frame % PAGE == 0 && FrameNumber(frame) in free && free' == free - {FrameNumber(frame)} &&
        forall f :: IsTable(m1, f) <==> IsTable(m, f) || f == frame
    ensures Unused(m1, free', vpn, page) <==> Unused(m, free, vpn, page)
  {
    hide Translate, IsTable;
    if free' != free && page >= LOW_MEM && FrameNumber(page) == FrameNumber(frame) {
      assert page == frame;
    }
  }

  lemma FewerFree(m: Mem, free: set<nat>, free': set<nat>, high: nat)
    requires PagingOk(m, free, high) && free' <= free
    ensures PagingOk(m, free', high)
  {
  }

  lemma FirstPage(m: Mem, free: set<nat>, free': set<nat>, high: nat, vpn: nat, page: nat)
    requires PagingOk(m, free, high) && HasTable(m, Slot(vpn)) && free' <= free
    requires page >= LOW_MEM && page % PAGE == 0 && FrameNumber(page) in free && FrameNumber(page) !in free'
    requires forall v: nat :: Translate(m, v) == None
    ensures var m2 := SetEntry(m, vpn, page + 7);
            PagingOk(m2, free', high) && Remapped(m, m2, vpn, page) && forall f :: IsTable(m2, f) ==> IsTable(m, f)
  {
    hide Translate, TablesOk, MappedOk, IsTable;
    FrameUnused(m, free, free', high, page);
    SetEntryRefines(m, free', high, vpn, page, 7);
    assert Unused(m, free', vpn, page);
    SetEntryOk(m, free', high, vpn, page, 7);
    SameTables(m, SetEntry(m, vpn, page + 7));
  }

  /** The only page table maps nothing yet. */
  lemma FirstTable(m: Mem, free: set<nat>, high: nat, slot: nat, table: nat)
    requires PagingOk(m, free, high) && Managed(slot) && forall s: nat | Managed(s) :: m.dir[s] == 0
    requires table in m.phys && FrameNumber(table) in free && forall n | n in free :: FrameNumber(table) <= n
    ensures var m1 := Opened(AddTable(m, slot, table, 7), WindowEntry(table));
            PagingOk(m1, free - {FrameNumber(table)}, high) && HasTable(m1, slot) && Base(m1.dir[slot]) == table &&
            (forall v: nat :: Translate(m1, v) == None) && (forall f :: IsTable(m1, f) ==> f == table)
  {
    NewTable(m, free, high, slot, table, 7, WindowEntry(table));
    BaseFlags(table, 7);
    assert forall s: nat :: !HasTable(m, s);
    assert forall v: nat :: Translate(m, v) == None;
  }

  /** A new page table in the lowest free frame: it exists exactly when some free frame does. */
  lemma NewTable(m: Mem, free: set<nat>, high: nat, slot: nat, frame: nat, flags: nat, entry: nat)
    requires PagingOk(m, free, high) && Managed(slot) && m.dir[slot] == 0 && (flags == 3 || flags == 7)
    requires frame == 0 <==> free == {}
    requires frame != 0 ==>
      frame >= LOW_MEM && frame % PAGE == 0 && FrameNumber(frame) in free &&
      forall n | n in free :: FrameNumber(frame) <= n
    ensures frame in m.phys <==> LowFree(free, high) != {}
    ensures var m' := Opened(AddTable(m, slot, frame, flags), entry);
            if frame in m.phys then
              PagingOk(m', free - {FrameNumber(frame)}, high) && HasTable(m', slot) &&
              (forall v: nat :: Translate(m', v) == Translate(m, v)) &&
              (forall f :: IsTable(m', f) <==> IsTable(m, f) || f == frame)
            else HasTable(m', slot) && Base(m'.dir[slot]) !in m'.phys
  {
    if frame in m.phys {
      assert FrameNumber(frame) in LowFree(free, high);
      AddTableKeeps(m, free, high, slot, frame, flags);
      var m1 := AddTable(m, slot, frame, flags);
      WindowKeeps(m1, free - {FrameNumber(frame)}, high, entry);
      var m2 := Opened(m1, entry);
      assert forall s: nat :: HasTable(m2, s) <==> HasTable(m, s) || s == slot;
      assert Base(m2.dir[slot]) == frame;
      forall f
        ensures IsTable(m2, f) <==> IsTable(m, f) || f == frame
      {
        if IsTable(m, f) {
          var s: nat :| HasTable(m, s) && Base(m.dir[s]) == f;
          assert HasTable(m2, s) && Base(m2.dir[s]) == f;
        }
      }
    } else {
      BaseFlags(frame, flags);
      forall n | n in free
        ensures n !in LowFree(free, high)
      {
        assert FrameNumber(frame) <= n;
      }
    }
  }
}
