/** The two-level page table as memory contents, and the flat map from virtual pages to frames that
    it stands for (mm/memory.c, include/asm/page.h). Entries and addresses are 32-bit numbers;
    masking and or-ing of flag bits are written as the arithmetic they amount to. */
module PageTables {
  import opened Options
  import opened Frames

  const ENTRIES: nat := 1024
  const TEMP_SLOT: nat := 255

  /** Slots 0 and 1 are the kernel's own large pages, the temporary slot is a moving window. */
  predicate Managed(slot: nat) {
    2 <= slot < ENTRIES && slot != TEMP_SLOT
  }

  /** entry & ~0xfff */
  function Base(entry: nat): nat {
    entry - entry % PAGE
  }

  predicate Present(entry: nat) {
    entry % 2 == 1
  }

  function Slot(vpn: nat): nat {
    vpn / ENTRIES
  }

  // The page directory and the contents of the physical frames that exist.
  datatype Mem = Mem(dir: seq<nat>, phys: map<nat, seq<nat>>)

  ghost predicate Shape(m: Mem, high: nat) {
    |m.dir| == ENTRIES &&
    (forall f | f in m.phys :: f % PAGE == 0 && LOW_MEM <= f < high && |m.phys[f]| == ENTRIES) &&
    (forall f | LOW_MEM <= f < high && f % PAGE == 0 :: f in m.phys)
  }

  /** The frame a virtual page is mapped to. */
  function Translate(m: Mem, vpn: nat): Option<nat> {
    var slot := Slot(vpn);
    if !Managed(slot) || slot >= |m.dir| || !Present(m.dir[slot]) || Base(m.dir[slot]) !in m.phys then None
    else
      var table := m.phys[Base(m.dir[slot])];
      if vpn % ENTRIES >= |table| || !Present(table[vpn % ENTRIES]) then None
      else Some(Base(table[vpn % ENTRIES]))
  }

  /** What the processor makes of a linear address: its upper ten bits select the directory entry, the
      next ten the table entry, and the rest is the offset. */
  function Walk(m: Mem, linear: nat): Option<nat> {
    var (slot, index) := (linear / 0x400000, linear / 0x1000 % 0x400);
    if slot >= |m.dir| || m.dir[slot] % 2 == 0 then None
    else
      var base := m.dir[slot] / 0x1000 * 0x1000;
      if base !in m.phys || index >= |m.phys[base]| || m.phys[base][index] % 2 == 0 then None
      else Some(m.phys[base][index] / 0x1000 * 0x1000 + linear % 0x1000)
  }

  /** Outside the large pages of slots 0, 1 and 255 the flat map is what the processor sees. */
  lemma WalkTranslates(m: Mem, linear: nat)
    requires linear / 0x400000 != 0 && linear / 0x400000 != 1 && linear / 0x400000 != 255 && |m.dir| <= 1024
    ensures Walk(m, linear) ==
      match Translate(m, linear / 0x1000)
      case None => None
      case Some(frame) => Some(frame + linear % 0x1000)
  {
    SplitAddress(linear);
    BaseDivides(if Slot(linear / 0x1000) < |m.dir| then m.dir[Slot(linear / 0x1000)] else 0);
    if Slot(linear / 0x1000) < |m.dir| && Base(m.dir[Slot(linear / 0x1000)]) in m.phys {
      var table := m.phys[Base(m.dir[Slot(linear / 0x1000)])];
      BaseDivides(if linear / 0x1000 % ENTRIES < |table| then table[linear / 0x1000 % ENTRIES] else 0);
    }
  }

  lemma SplitAddress(linear: nat)
    ensures Slot(linear / 0x1000) == linear / 0x400000
  {
  }

  lemma BaseDivides(entry: nat)
    ensures Base(entry) == entry / 0x1000 * 0x1000
  {
  }

  predicate HasTable(m: Mem, slot: nat) {
    Managed(slot) && slot < |m.dir| && m.dir[slot] != 0
  }

  /** Page tables sit in existing frames that are in use, a different one for every slot. */
  ghost predicate TablesOk(m: Mem, free: set<nat>) {
    (forall s: nat | HasTable(m, s) ::
       Present(m.dir[s]) && Base(m.dir[s]) in m.phys && Base(m.dir[s]) >= LOW_MEM &&
       FrameNumber(Base(m.dir[s])) !in free) &&
    (forall s: nat, t: nat | HasTable(m, s) && HasTable(m, t) && s != t :: Base(m.dir[s]) != Base(m.dir[t]))
  }

  ghost predicate IsTable(m: Mem, frame: nat) {
    exists s: nat :: HasTable(m, s) && Base(m.dir[s]) == frame
  }

  /** Mapped frames are in use, hold no page table, and are mapped once. */
  ghost predicate MappedOk(m: Mem, free: set<nat>) {
    (forall v: nat | Translate(m, v).Some? ::
       var f := Translate(m, v).value;
       f >= LOW_MEM && f % PAGE == 0 && FrameNumber(f) !in free && !IsTable(m, f)) &&
    (forall v: nat, w: nat | Translate(m, v).Some? && Translate(m, v) == Translate(m, w) :: v == w)
  }

  ghost predicate PagingOk(m: Mem, free: set<nat>, high: nat) {
    Shape(m, high) && TablesOk(m, free) && MappedOk(m, free)
  }

  /** Memory after a page table, all of its entries empty, has been put in `frame` for `slot`. */
  function AddTable(m: Mem, slot: nat, frame: nat, flags: nat): Mem
    requires |m.dir| == ENTRIES && slot < ENTRIES
  {
    Mem(m.dir[slot := frame + flags],
        if frame in m.phys then m.phys[frame := seq<nat>(ENTRIES, _ => 0)] else m.phys)
  }

  /** Memory after the table entry of a page has been written. */
  function SetEntry(m: Mem, vpn: nat, entry: nat): Mem
    requires |m.dir| == ENTRIES && Slot(vpn) < ENTRIES
  {
    var table := Base(m.dir[Slot(vpn)]);
    if table in m.phys && vpn % ENTRIES < |m.phys[table]| then
      var entries: seq<nat> := m.phys[table][vpn % ENTRIES := entry];
      m.(phys := m.phys[table := entries])
    else m
  }

  lemma BaseFlags(frame: nat, flags: nat)
    requires frame % PAGE == 0 && (flags == 3 || flags == 7)
    ensures Base(frame + flags) == frame && Present(frame + flags)
  {
  }

  /** A fresh page table changes no translation. */
  lemma AddTableKeeps(m: Mem, free: set<nat>, high: nat, slot: nat, frame: nat, flags: nat)
    requires PagingOk(m, free, high) && Managed(slot) && m.dir[slot] == 0 && (flags == 3 || flags == 7)
    requires frame in m.phys && FrameNumber(frame) in free
    ensures var m' := AddTable(m, slot, frame, flags);
            PagingOk(m', free - {FrameNumber(frame)}, high) &&
            HasTable(m', slot) && Base(m'.dir[slot]) == frame &&
            forall v: nat :: Translate(m', v) == Translate(m, v)
  {
    var m' := AddTable(m, slot, frame, flags);
    BaseFlags(frame, flags);
    assert forall s: nat | HasTable(m', s) :: s == slot || (HasTable(m, s) && m'.dir[s] == m.dir[s]);
    forall v: nat
      ensures Translate(m', v) == Translate(m, v)
    {
      var s := Slot(v);
      if Managed(s) && s != slot && m.dir[s] != 0 {
        assert HasTable(m, s);
      }
    }
    forall v: nat | Translate(m', v).Some?
      ensures !IsTable(m', Translate(m', v).value)
    {
      var f := Translate(m, v).value;
      assert Translate(m, v).Some? && !IsTable(m, f);
      forall s: nat | HasTable(m', s)
        ensures Base(m'.dir[s]) != f
      {
        assert s == slot || HasTable(m, s);
      }
    }
  }

  /** A directory without page tables. */
  lemma NoTables(m: Mem, free: set<nat>, high: nat)
    requires Shape(m, high) && forall s: nat | Managed(s) :: m.dir[s] == 0
    ensures PagingOk(m, free, high) && forall v: nat :: Translate(m, v) == None
  {
    assert forall s: nat :: !HasTable(m, s);
  }

  /** Writing one entry changes the translation of that page and of no other. */
  lemma SetEntryRefines(m: Mem, free: set<nat>, high: nat, vpn: nat, page: nat, flags: nat)
    requires PagingOk(m, free, high) && HasTable(m, Slot(vpn))
    requires page >= LOW_MEM && page % PAGE == 0 && (flags == 3 || flags == 7)
    ensures var m' := SetEntry(m, vpn, page + flags);
            forall v: nat :: Translate(m', v) == if v == vpn then Some(page) else Translate(m, v)
    ensures Shape(SetEntry(m, vpn, page + flags), high) && TablesOk(SetEntry(m, vpn, page + flags), free)
  {
    var m' := SetEntry(m, vpn, page + flags);
    var table := Base(m.dir[Slot(vpn)]);
    BaseFlags(page, flags);
    assert table in m.phys;
    assert forall s: nat | HasTable(m', s) :: HasTable(m, s);
    forall v: nat
      ensures Translate(m', v) == if v == vpn then Some(page) else Translate(m, v)
    {
      var s := Slot(v);
      if s == Slot(vpn) {
        assert v % ENTRIES == vpn % ENTRIES <==> v == vpn;
      } else if Managed(s) && m.dir[s] != 0 {
        assert HasTable(m, s) && Base(m.dir[s]) != table;
      }
    }
  }

  /** A frame in use that holds no table and is not mapped yet may be mapped. */
  lemma SetEntryOk(m: Mem, free: set<nat>, high: nat, vpn: nat, page: nat, flags: nat)
    requires PagingOk(m, free, high) && HasTable(m, Slot(vpn))
    requires page >= LOW_MEM && page % PAGE == 0 && (flags == 3 || flags == 7)
    requires FrameNumber(page) !in free && !IsTable(m, page)
    requires forall v: nat | v != vpn :: Translate(m, v) != Some(page)
    ensures PagingOk(SetEntry(m, vpn, page + flags), free, high)
  {
    var m' := SetEntry(m, vpn, page + flags);
    SetEntryRefines(m, free, high, vpn, page, flags);
    assert m'.dir == m.dir;
    forall f
      ensures IsTable(m', f) ==> IsTable(m, f)
    {
      if IsTable(m', f) {
        var s: nat :| HasTable(m', s) && Base(m'.dir[s]) == f;
        assert HasTable(m, s);
      }
    }
  }

  lemma SameTables(m: Mem, m': Mem)
    requires forall s: nat :: HasTable(m', s) ==> HasTable(m, s) && m'.dir[s] == m.dir[s]
    ensures forall f :: IsTable(m', f) ==> IsTable(m, f)
  {
    forall f | IsTable(m', f)
      ensures IsTable(m, f)
    {
      var s: nat :| HasTable(m', s) && Base(m'.dir[s]) == f;
      assert HasTable(m, s);
    }
  }

  /** The window's directory entry takes no part in the translation. */
  lemma WindowKeeps(m: Mem, free: set<nat>, high: nat, entry: nat)
    requires PagingOk(m, free, high)
    ensures var m' := m.(dir := m.dir[TEMP_SLOT := entry]);
            PagingOk(m', free, high) && forall v: nat :: Translate(m', v) == Translate(m, v)
  {
    var m' := m.(dir := m.dir[TEMP_SLOT := entry]);
    assert forall s: nat :: HasTable(m', s) == HasTable(m, s);
    SameTables(m, m');
    hide IsTable;
    forall v: nat
      ensures Translate(m', v) == Translate(m, v)
    {
    }
  }

  // ---- The temporary window ------------------------------------------------------------------

  /** (addr & 0xffc00000) | 0x87: the directory entry of the large page around addr. */
  function WindowEntry(addr: nat): nat {
    addr / 0x400000 * 0x400000 + 0x87
  }

  /** (addr & 0x3fffff) | (TEMP_PAGE << 22): where the window shows addr. */
  function WindowAddress(addr: nat): nat {
    addr % 0x400000 + TEMP_SLOT * 0x400000
  }

  /** What a large-page directory entry maps a linear address to. */
  function LargeTranslate(entry: nat, linear: nat): nat {
    entry / 0x400000 * 0x400000 + linear % 0x400000
  }

  predicate Writable(entry: nat) {
    entry / 2 % 2 == 1
  }

  predicate ForUser(entry: nat) {
    entry / 4 % 2 == 1
  }

  /** The entry maps a page of 4 MB by itself. */
  predicate LargePage(entry: nat) {
    entry / 0x80 % 2 == 1
  }

  lemma WindowFlags(large: nat)
    ensures var entry := large * 0x400000 + 0x87;
            Present(entry) && Writable(entry) && ForUser(entry) && LargePage(entry)
  {
  }

  /** Through the window the kernel reaches exactly the bytes of the frame it was opened for. */
  lemma WindowReaches(frame: nat, offset: nat)
    requires frame % PAGE == 0 && offset < PAGE
    ensures var linear := WindowAddress(frame) + offset;
            linear / 0x400000 == TEMP_SLOT && LargeTranslate(WindowEntry(frame), linear) == frame + offset
    ensures Present(WindowEntry(frame)) && Writable(WindowEntry(frame)) && ForUser(WindowEntry(frame))
    ensures LargePage(WindowEntry(frame))
  {
    var (large, page) := (frame / 0x400000, frame / PAGE % ENTRIES);
    assert frame == large * 0x400000 + page * PAGE;
    LargeSplit(large, page * PAGE);
    LargeSplit(TEMP_SLOT, page * PAGE + offset);
    LargeSplit(large, 0x87);
    WindowFlags(large);
  }

  lemma LargeSplit(large: nat, offset: nat)
    requires offset < 0x400000
    ensures (large * 0x400000 + offset) / 0x400000 == large && (large * 0x400000 + offset) % 0x400000 == offset
  {
  }
}
