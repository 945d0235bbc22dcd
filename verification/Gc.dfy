/** Object allocation: one region a generation, one page a region, objects cut from the page in order,
    regions in a ring (kscm/scheme/gc.c, gc.h). */
module Gc {

  const REGION_SIZE: nat := 4096
  const HEADER: nat := 32   // two slots
  const SLOT: nat := 16
  const SLOTS: nat := 254    // (REGION_SIZE - HEADER) / SLOT

  /** A 32-bit address with its low 12 bits cleared. */
  function RegionOf(obj: nat): nat {
    obj - obj % REGION_SIZE
  }

  /** A place for an object: a multiple of its size, behind a region header. */
  predicate IsSlot(o: nat) {
    HEADER <= o % REGION_SIZE && o % SLOT == 0
  }

  /** Assignment to a short keeps 16 bits. */
  function Short(n: int): int {
    (n + 0x8000) % 0x1_0000 - 0x8000
  }

  /** The header fields by region address, and what they stand for: the regions, oldest first, and
      the objects handed out. 0 is the null pointer. */
  datatype Space = Space(natural: nat, coordinator: nat,
                         prev: map<nat, nat>, next: map<nat, nat>, gen: map<nat, int>, top: map<nat, nat>,
                         ring: seq<nat>, objects: set<nat>)

  ghost predicate Distinct(ring: seq<nat>) {
    forall i, j | 0 <= i < j < |ring| :: ring[i] != ring[j]
  }

  function After(i: nat, n: nat): nat {
    if i + 1 == n then 0 else i + 1
  }

  /** The i-th oldest region is linked to its neighbours and carries the i-th generation number; all
      but the newest are full. */
  ghost predicate RegionOk(s: Space, i: nat)
    requires i < |s.ring|
  {
    var r := s.ring[i];
    var after := s.ring[After(i, |s.ring|)];
    r > 0 && r % REGION_SIZE == 0 &&
    r in s.next && s.next[r] == after && after in s.prev && s.prev[after] == r &&
    r in s.gen && s.gen[r] == Short(i) && r in s.top && HEADER <= s.top[r] - r <= REGION_SIZE &&
    (s.top[r] - r) % SLOT == 0 && (i + 1 < |s.ring| ==> s.top[r] == r + REGION_SIZE)
  }

  /** The objects are the slots below the top of their region. */
  ghost predicate ObjectOk(s: Space, o: nat) {
    o in s.objects <==>
      RegionOf(o) in s.ring && RegionOf(o) in s.top && IsSlot(o) && o < s.top[RegionOf(o)]
  }

  ghost predicate Ok(s: Space) {
    s.ring != [] && Distinct(s.ring) && s.natural == s.ring[0] && s.coordinator == s.ring[|s.ring| - 1] &&
    (forall i: nat | i < |s.ring| :: RegionOk(s, i)) && forall o: nat :: ObjectOk(s, o)
  }

  // ---- What a well-formed space gives --------------------------------------------------------

  /** Objects overlap neither one another nor a region header, and end within their region. */
  lemma ObjectsApart(s: Space, a: nat, b: nat)
    requires Ok(s) && a in s.objects && b in s.objects && a < b
    ensures a + SLOT <= b
    ensures forall i: nat | i < |s.ring| ::
      a >= s.ring[i] + HEADER || a + SLOT <= s.ring[i]
  {
    hide RegionOf, IsSlot;
    assert ObjectOk(s, a) && ObjectOk(s, b);
    SlotBounds(a);
    SlotBounds(b);
    Gap(a, b);
    forall i: nat | i < |s.ring|
      ensures a >= s.ring[i] + HEADER || a + SLOT <= s.ring[i]
    {
      assert RegionOk(s, i);
      Aligned(a, s.ring[i]);
    }
  }

  lemma Aligned(a: nat, r: nat)
    requires r % REGION_SIZE == 0 && IsSlot(a)
    ensures a >= r + HEADER || a + SLOT <= r
  {
    SlotBounds(a);
    if a < r {
      Multiple(256 * (r / REGION_SIZE));
      Gap(a, r);
    } else if a < r + REGION_SIZE {
      Rest(r / REGION_SIZE, a - r);
    }
  }

  lemma Gap(a: nat, b: nat)
    requires a < b && a % SLOT == 0 && b % SLOT == 0
    ensures a + SLOT <= b
  {
  }

  lemma SlotBounds(o: nat)
    requires IsSlot(o)
    ensures RegionOf(o) + HEADER <= o && o + SLOT <= RegionOf(o) + REGION_SIZE && (o - RegionOf(o)) % SLOT == 0
    ensures o % SLOT == 0
  {
    var r := o % REGION_SIZE;
    assert o == REGION_SIZE * (o / REGION_SIZE) + r;
    assert r % SLOT == 0;
  }

  lemma SlotAtRegion(r: nat, k: nat)
    requires r % REGION_SIZE == 0 && k < SLOTS
    ensures IsSlot(SlotAt(r, k)) && RegionOf(SlotAt(r, k)) == r
  {
    Rest(r / REGION_SIZE, HEADER + k * SLOT);
    Multiple(256 * (r / REGION_SIZE) + 2 + k);
  }

  lemma Rest(q: nat, x: nat)
    requires x < REGION_SIZE
    ensures (REGION_SIZE * q + x) % REGION_SIZE == x
  {
  }

  lemma Multiple(m: nat)
    ensures SLOT * m % SLOT == 0
  {
  }

  // ---- The header as a C structure -----------------------------------------------------------

  // The sizes of the fields of a region's header: prev, next, gen_numb, version, size, entry_table, top.
  const HEAD_FIELDS: seq<nat> := [4, 4, 2, 2, 2, 4, 4]

  // The sizes of the fields of an object: type, keyex, and three words for the largest of its variants.
  const OBJ_FIELDS: seq<nat> := [2, 2, 4, 4, 4]

  function AlignUp(n: nat, size: nat): nat {
    if size == 0 then n else (n + size - 1) / size * size
  }

  /** Where field i lies: behind the one before, at a multiple of its own size. The end, for i past the last
      field, is a multiple of a word. */
  function Offset(fields: seq<nat>, i: nat): nat
    requires i <= |fields|
  {
    if i == 0 then 0
    else AlignUp(Offset(fields, i - 1) + fields[i - 1], if i < |fields| then fields[i] else 4)
  }

  lemma {:induction false} HeadOffset(i: nat)
    requires i <= 7
    ensures Offset(HEAD_FIELDS, i) == [0, 4, 8, 10, 12, 16, 20, 24][i]
  {
    if i > 0 {
      HeadOffset(i - 1);
    }
  }

  /** A slot is as large as an object, and a header as the larger of its fields and the two objects it is
      aligned to; so the slots behind it are aligned as objects are. */
  lemma HeaderSize()
    ensures SLOT == Offset(OBJ_FIELDS, 5)
    ensures HEADER == if Offset(HEAD_FIELDS, 7) > 2 * SLOT then Offset(HEAD_FIELDS, 7) else 2 * SLOT
    ensures HEADER + SLOTS * SLOT == REGION_SIZE
  {
    HeadOffset(7);
    assert Offset(OBJ_FIELDS, 2) == 4;
    assert Offset(OBJ_FIELDS, 4) == 12;
  }

  /** No object lies over a field of any region's header. */
  lemma FieldsApart(s: Space, a: nat, r: nat, i: nat)
    requires Ok(s) && a in s.objects && r in s.ring && i < |HEAD_FIELDS|
    ensures var field := r + Offset(HEAD_FIELDS, i);
            a >= field + HEAD_FIELDS[i] || a + SLOT <= field
  {
    HeadOffset(i);
    hide Offset, RegionOf, IsSlot;
    var k: nat :| k < |s.ring| && s.ring[k] == r;
    assert ObjectOk(s, a) && RegionOk(s, k);
    Aligned(a, r);
  }

  /** Masking the address of an object, or of any byte of it, finds the region that holds it. */
  lemma MaskFindsRegion(s: Space, o: nat, byte: nat)
    requires Ok(s) && o in s.objects && byte < SLOT
    ensures RegionOf(o + byte) == RegionOf(o) && RegionOf(o) in s.ring
    ensures RegionOf(o) + HEADER <= o && o + SLOT <= RegionOf(o) + REGION_SIZE
  {
    assert ObjectOk(s, o);
    SlotBounds(o);
  }

  /** From the oldest region on, generation numbers rise exactly as long as they fit a short. */
  lemma RingOrder(s: Space)
    requires Ok(s)
    ensures |s.ring| <= 0x8000 <==>
      forall i: nat, j: nat :: i < j < |s.ring| ==>
        s.ring[i] in s.gen && s.ring[j] in s.gen && s.gen[s.ring[i]] < s.gen[s.ring[j]]
  {
    forall i: nat | i < |s.ring|
      ensures s.ring[i] in s.gen && s.gen[s.ring[i]] == Short(i)
    {
      assert RegionOk(s, i);
    }
    if |s.ring| > 0x8000 {
      var (i, j) := (0x7FFF, 0x8000);
      assert s.gen[s.ring[i]] > s.gen[s.ring[j]];
    }
  }

  /** Every region but the newest holds 254 objects; a region is full exactly when it holds them. */
  lemma ObjectCount(s: Space)
    requires Ok(s)
    ensures s.coordinator in s.top
    ensures |s.objects| == SLOTS * (|s.ring| - 1) + (s.top[s.coordinator] - s.coordinator - HEADER) / SLOT
    ensures s.top[s.coordinator] - s.coordinator == REGION_SIZE <==> |s.objects| == SLOTS * |s.ring|
  {
    var last: nat := |s.ring| - 1;
    hide RegionOf, IsSlot, Slots, FullObjects;
    assert RegionOk(s, last);
    var r := s.coordinator;
    var used: nat := (s.top[r] - r - HEADER) / SLOT;
    FullCount(s, last);
    SlotsCount(r, used);
    var newest := Slots(r, used);
    forall o: nat
      ensures o in s.objects <==> o in FullObjects(s, last) || o in newest
    {
      ObjectWhere(s, o, last, used);
    }
    assert s.objects == FullObjects(s, last) + newest;
    assert FullObjects(s, last) !! newest by {
      forall o | o in FullObjects(s, last)
        ensures o !in newest
      {
        InFull(s, last, o);
        InSlots(r, used, o);
      }
    }
  }

  lemma ObjectWhere(s: Space, o: nat, last: nat, used: nat)
    requires Ok(s) && last == |s.ring| - 1 && s.coordinator in s.top && s.coordinator % REGION_SIZE == 0
    requires used <= SLOTS && s.top[s.coordinator] == SlotAt(s.coordinator, used)
    ensures o in s.objects <==> o in FullObjects(s, last) || o in Slots(s.coordinator, used)
  {
    hide RegionOf, IsSlot, Slots, FullObjects;
    assert ObjectOk(s, o);
    InSlots(s.coordinator, used, o);
    if RegionOf(o) in s.ring {
      var i :| 0 <= i < |s.ring| && s.ring[i] == RegionOf(o);
      assert RegionOk(s, i);
      assert i < last ==> s.ring[..last][i] == RegionOf(o);
    }
    InFull(s, last, o);
    if IsSlot(o) {
      SlotBounds(o);
    }
  }

  /** The first n slots of region r. */
  ghost function Slots(r: nat, n: nat): set<nat> {
    if n == 0 then {} else Slots(r, n - 1) + {SlotAt(r, n - 1)}
  }

  function SlotAt(r: nat, k: nat): nat {
    r + HEADER + k * SLOT
  }

  lemma {:induction false} InSlots(r: nat, n: nat, o: nat)
    requires r % REGION_SIZE == 0 && n <= SLOTS
    ensures o in Slots(r, n) <==> RegionOf(o) == r && IsSlot(o) && o < SlotAt(r, n)
  {
    if n > 0 {
      hide RegionOf, IsSlot;
      InSlots(r, n - 1, o);
      SlotAtRegion(r, n - 1);
      if IsSlot(o) && RegionOf(o) == r {
        SlotBounds(o);
        NextSlotAt(r, n - 1, o);
      }
    } else if IsSlot(o) && RegionOf(o) == r {
      SlotBounds(o);
    }
  }

  lemma NextSlotAt(r: nat, k: nat, o: nat)
    requires o >= r && (o - r) % SLOT == 0
    ensures o < SlotAt(r, k + 1) <==> o < SlotAt(r, k) || o == SlotAt(r, k)
  {
    NextSlot(o - r, HEADER + k * SLOT);
    Multiple(2 + k);
  }

  lemma {:induction false} SlotsCount(r: nat, n: nat)
    requires r % REGION_SIZE == 0 && n <= SLOTS
    ensures |Slots(r, n)| == n
  {
    if n > 0 {
      hide RegionOf, IsSlot;
      SlotsCount(r, n - 1);
      InSlots(r, n - 1, SlotAt(r, n - 1));
    }
  }

  /** The slots of the n oldest regions. */
  ghost function FullObjects(s: Space, n: nat): set<nat>
    requires n <= |s.ring|
  {
    if n == 0 then {} else FullObjects(s, n - 1) + Slots(s.ring[n - 1], SLOTS)
  }

  lemma {:induction false} InFull(s: Space, n: nat, o: nat)
    requires Ok(s) && n <= |s.ring|
    ensures o in FullObjects(s, n) <==>
      RegionOf(o) in s.ring[..n] && IsSlot(o)
  {
    if n > 0 {
      hide RegionOf, IsSlot, Slots;
      InFull(s, n - 1, o);
      assert RegionOk(s, n - 1);
      InSlots(s.ring[n - 1], SLOTS, o);
      assert s.ring[..n] == s.ring[..n - 1] + [s.ring[n - 1]];
      if IsSlot(o) {
        SlotBounds(o);
      }
    }
  }

  lemma {:induction false} FullCount(s: Space, n: nat)
    requires Ok(s) && n <= |s.ring|
    ensures |FullObjects(s, n)| == SLOTS * n
  {
    if n > 0 {
      hide RegionOf, IsSlot, Slots;
      FullCount(s, n - 1);
      assert RegionOk(s, n - 1);
      SlotsCount(s.ring[n - 1], SLOTS);
      var (older, last) := (FullObjects(s, n - 1), Slots(s.ring[n - 1], SLOTS));
      forall o | o in older
        ensures o !in last
      {
        InFull(s, n - 1, o);
        InSlots(s.ring[n - 1], SLOTS, o);
      }
    }
  }

  lemma Newest(s: Space)
    requires Ok(s)
    ensures s.ring != [] && s.coordinator > 0 && s.natural == s.ring[0]
    ensures s.coordinator in s.gen && s.coordinator in s.top
  {
    assert RegionOk(s, |s.ring| - 1);
  }

  // ---- The steps -----------------------------------------------------------------------------

  /** The next free slot of the newest region is handed out. */
  ghost function Bumped(s: Space): Space
    requires s.coordinator in s.top
  {
    s.(top := s.top[s.coordinator := s.top[s.coordinator] + SLOT], objects := s.objects + {s.top[s.coordinator]})
  }

  lemma BumpOk(s: Space)
    requires Ok(s) && s.coordinator in s.top && s.top[s.coordinator] - s.coordinator != REGION_SIZE
    ensures Ok(Bumped(s)) && s.top[s.coordinator] !in s.objects
    ensures RegionOf(s.top[s.coordinator]) == s.coordinator
  {
    var s' := Bumped(s);
    hide IsSlot, RegionOf;
    var last: nat := |s.ring| - 1;
    var o1 := s.top[s.coordinator];
    assert RegionOk(s, last);
    SlotInside(s.coordinator, o1);
    assert ObjectOk(s, o1);
    forall i: nat | i < |s.ring|
      ensures RegionOk(s', i)
    {
      assert RegionOk(s, i);
    }
    forall o: nat
      ensures ObjectOk(s', o)
    {
      assert ObjectOk(s, o);
      if IsSlot(o) {
        SlotBounds(o);
        NextSlot(o, o1);
      }
    }
  }

  lemma SlotInside(r: nat, o: nat)
    requires r % REGION_SIZE == 0 && HEADER <= o - r < REGION_SIZE && (o - r) % SLOT == 0
    ensures RegionOf(o) == r && IsSlot(o) && o % SLOT == 0 && o - r + SLOT <= REGION_SIZE
  {
  }

  lemma NextSlot(o: nat, o1: nat)
    requires o1 % SLOT == 0
    ensures o % SLOT == 0 ==> (o < o1 + SLOT <==> o < o1 || o == o1)
  {
  }

  /** A page becomes the newest region. */
  ghost function Added(s: Space, r: nat): Space
    requires s.coordinator in s.gen
  {
    Space(s.natural, r,
          s.prev[r := s.coordinator][s.natural := r], s.next[s.coordinator := r][r := s.natural],
          s.gen[r := Short(s.gen[s.coordinator] + 1)], s.top[r := r + HEADER], s.ring + [r], s.objects)
  }

  lemma AddOk(s: Space, r: nat)
    requires Ok(s) && s.coordinator in s.top && s.top[s.coordinator] - s.coordinator == REGION_SIZE
    requires r > 0 && r % REGION_SIZE == 0 && r !in s.ring && s.coordinator in s.gen
    ensures Ok(Added(s, r))
  {
    hide RegionOf, IsSlot, Short;
    var s' := Added(s, r);
    var n := |s.ring|;
    forall i: nat | i < n + 1
      ensures RegionOk(s', i)
    {
      if i < n {
        AddedOld(s, r, i);
      } else {
        AddedNew(s, r);
      }
    }
    forall o: nat
      ensures ObjectOk(s', o)
    {
      AddedObject(s, r, o);
    }
  }

  lemma AddedOld(s: Space, r: nat, i: nat)
    requires Ok(s) && s.coordinator in s.top && s.top[s.coordinator] - s.coordinator == REGION_SIZE
    requires r > 0 && r % REGION_SIZE == 0 && r !in s.ring && s.coordinator in s.gen && i < |s.ring|
    ensures RegionOk(Added(s, r), i)
  {
    hide RegionOf, IsSlot, Short, ObjectOk;
    assert RegionOk(s, i);
    AddedLinks(s, r, i);
  }

  lemma AddedNew(s: Space, r: nat)
    requires Ok(s) && r > 0 && r % REGION_SIZE == 0 && r !in s.ring && s.coordinator in s.gen
    ensures RegionOk(Added(s, r), |s.ring|)
  {
    hide RegionOf, IsSlot, ObjectOk;
    assert RegionOk(s, |s.ring| - 1);
    assert RegionOk(s, 0);
  }

  lemma AddedObject(s: Space, r: nat, o: nat)
    requires Ok(s) && r % REGION_SIZE == 0 && r !in s.ring && s.coordinator in s.gen
    ensures ObjectOk(Added(s, r), o)
  {
    hide RegionOk, Short;
    assert ObjectOk(s, o);
    if RegionOf(o) == r && IsSlot(o) {
      SlotBounds(o);
    }
    assert forall x :: x in Added(s, r).ring <==> x in s.ring || x == r;
  }

  lemma AddedLinks(s: Space, r: nat, i: nat)
    requires Ok(s) && r !in s.ring && s.coordinator in s.gen && i < |s.ring|
    ensures var s' := Added(s, r);
            var (a, b) := (s'.ring[i], s'.ring[i + 1]);
            a in s'.next && s'.next[a] == b && b in s'.prev && s'.prev[b] == a
  {
    assert RegionOk(s, i);
  }

  /** The first region. */
  ghost function First(r: nat): Space {
    Space(r, r, map[r := r], map[r := r], map[r := 0], map[r := r + HEADER], [r], {})
  }

  lemma FirstOk(r: nat)
    requires r > 0 && r % REGION_SIZE == 0
    ensures Ok(First(r))
  {
    assert RegionOk(First(r), 0);
    forall o: nat
      ensures ObjectOk(First(r), o)
    {
      if RegionOf(o) == r && HEADER <= o % REGION_SIZE {
        assert o >= r + HEADER;
      }
    }
  }

  /** Pages to come are distinct and new. */
  ghost predicate Supply(ring: seq<nat>, coming: seq<nat>) {
    forall i | 0 <= i < |coming| && coming[i] != 0 ::
      coming[i] % REGION_SIZE == 0 && coming[i] !in ring && forall j | 0 <= j < i :: coming[j] != coming[i]
  }

  lemma SupplyStep(ring: seq<nat>, coming: seq<nat>)
    requires Supply(ring, coming) && coming != []
    ensures coming[0] == 0 ==> Supply(ring, coming[1..])
    ensures coming[0] != 0 ==>
      coming[0] % REGION_SIZE == 0 && coming[0] !in ring && Supply(ring + [coming[0]], coming[1..])
  {
  }

  // ---- The collector -------------------------------------------------------------------------

  class Collector {
    var natural: nat
    var regions: nat
    var coordinator: nat
    var prev: map<nat, nat>
    var next: map<nat, nat>
    var gen: map<nat, int>
    var version: map<nat, int>
    var size: map<nat, nat>
    var top: map<nat, nat>
    var tables: seq<bool>  // whether malloc will give the entry tables asked for
    var coming: seq<nat>   // answers the slot region will give; 0 is a failure, as is no answer
    ghost var ring: seq<nat>
    ghost var objects: set<nat>

    ghost function View(): Space
      reads this
    {
      Space(natural, coordinator, prev, next, gen, top, ring, objects)
    }

    ghost predicate SupplyOk()
      reads this
    {
      Supply(ring, coming)
    }

    ghost predicate Valid()
      reads this
    {
      Ok(View()) && regions == natural && SupplyOk()
    }

    /** The next generation can be set up: its entry table and its page will be given. */
    predicate CanGrow()
      reads this
    {
      tables != [] && tables[0] && coming != [] && coming[0] != 0
    }

    /** scheme_init_gc. */
    constructor (tables: seq<bool>, coming: seq<nat>)
      requires forall i | 0 <= i < |coming| && coming[i] != 0 ::
        coming[i] % REGION_SIZE == 0 && forall j | 0 <= j < i :: coming[j] != coming[i]
      ensures Valid() <==> tables != [] && tables[0] && coming != [] && coming[0] != 0
      ensures Valid() ==> |ring| == 1 && objects == {}
      ensures !Valid() ==> coordinator == 0
    {
      natural, regions, coordinator := 0, 0, 0;
      prev, next, gen, version, size, top := map[], map[], map[], map[], map[], map[];
      this.tables, this.coming := tables, coming;
      ring, objects := [], {};
      new;
      var reg := NewGeneration();
    }

    method AllocRegion() returns (reg: nat)
      modifies this`coming
      ensures reg == (if old(coming) == [] then 0 else old(coming)[0])
      ensures coming == (if old(coming) == [] then [] else old(coming)[1..])
    {
      if coming == [] {
        return 0;
      }
      reg := coming[0];
      coming := coming[1..];
    }

    /** A page enters the ring behind the newest region, or alone. */
    method Link(reg: nat) returns (newGen: int)
      requires coordinator == 0 || coordinator in gen
      modifies this`natural, this`regions, this`prev, this`next
      ensures old(coordinator) == 0 ==>
        natural == regions == reg && newGen == 0 && next == old(next)[reg := reg] && prev == old(prev)[reg := reg]
      ensures old(coordinator) != 0 ==>
        natural == old(natural) && regions == old(regions) && newGen == Short(gen[coordinator] + 1) &&
        next == old(next)[coordinator := reg][reg := regions] && prev == old(prev)[reg := coordinator][regions := reg]
    {
      if coordinator == 0 {
        newGen := 0;
        regions, natural := reg, reg;
        next := next[reg := reg];
        prev := prev[reg := reg];
      } else {
        newGen := Short(gen[coordinator] + 1);
        prev := prev[reg := coordinator];
        next := next[coordinator := reg];
        prev := prev[regions := reg];
        next := next[reg := regions];
      }
    }

    /** A page becomes the newest region. */
    method Enter(reg: nat)
      requires reg > 0 && reg % REGION_SIZE == 0 && reg !in ring
      requires if coordinator == 0
        then natural == 0 && ring == [] && objects == {} && prev == next == top == map[] && gen == map[]
        else Ok(View()) && regions == natural && coordinator in top && top[coordinator] - coordinator == REGION_SIZE
      modifies this`natural, this`regions, this`coordinator, this`prev, this`next, this`gen, this`version,
        this`size, this`top, this`ring
      ensures Ok(View()) && regions == natural && ring == old(ring) + [reg] && reg == coordinator
      ensures reg in top && top[reg] == reg + HEADER
    {
      hide Ok, RegionOf, IsSlot, Short;
      ghost var s := View();
      if coordinator != 0 {
        Newest(s);
      }
      var newGen := Link(reg);
      gen := gen[reg := newGen];
      version := version[reg := 0];
      size := size[reg := REGION_SIZE];
      top := top[reg := reg + HEADER];
      coordinator := reg;
      ring := ring + [reg];
      if s.coordinator == 0 {
        FirstOk(reg);
        assert View() == First(reg);
      } else {
        AddOk(s, reg);
        assert View() == Added(s, reg);
      }
    }

    method NewGeneration() returns (reg: nat)
      requires SupplyOk()
      requires if coordinator == 0
        then natural == 0 && ring == [] && objects == {} && prev == next == top == map[] && gen == map[]
        else Ok(View()) && regions == natural && coordinator in top && top[coordinator] - coordinator == REGION_SIZE
      modifies this
      ensures reg != 0 <==> old(CanGrow())
      ensures reg == 0 ==> View() == old(View()) && regions == old(regions) && SupplyOk()
      ensures reg != 0 ==> Valid() && reg == coordinator && ring == old(ring) + [reg] && objects == old(objects)
      ensures reg != 0 ==> reg in top && top[reg] == reg + HEADER
    {
      hide Ok, RegionOf, IsSlot, Supply;
      var given := tables != [] && tables[0];
      tables := if tables == [] then [] else tables[1..];
      if !given {
        return 0;
      }
      if coming != [] {
        SupplyStep(ring, coming);
      }
      reg := AllocRegion();
      if reg != 0 {
        Enter(reg);
      }
    }

    /** An object is a new slot of the newest region, unless that one is full and no other can be set
        up: then the address is the one behind the page, which masking does not take to the region. */
    method AllocObj() returns (obj: nat)
      requires Valid()
      modifies this
      ensures old(coordinator in top)
      ensures Valid() <==> old(top[coordinator] - coordinator != REGION_SIZE || CanGrow())
      ensures Valid() ==> obj !in old(objects) && objects == old(objects) + {obj} && RegionOf(obj) == coordinator
      ensures Valid() ==>
        ring == if old(top[coordinator] - coordinator == REGION_SIZE) then old(ring) + [coordinator] else old(ring)
      ensures !Valid() ==>
        obj == coordinator + REGION_SIZE && RegionOf(obj) != coordinator && coordinator == old(coordinator)
    {
      assert RegionOk(View(), |ring| - 1);
      if top[coordinator] - coordinator == REGION_SIZE {
        var reg := NewGeneration();
      }
      ghost var s := View();
      obj := top[coordinator];
      top := top[coordinator := obj + SLOT];
      objects := objects + {obj};
      if obj - coordinator != REGION_SIZE {
        BumpOk(s);
        assert View() == Bumped(s);
      } else {
        assert RegionOk(s, |ring| - 1);
        assert !RegionOk(View(), |ring| - 1);
      }
    }
  }
}
