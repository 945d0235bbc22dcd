/** The physical frame allocator: one bit per 4 KB frame in an array of 32-bit words, a set bit
    meaning a free frame (mm/memory.c). */
module Frames {

  const LOW_MEM: nat := 0x800000
  const TOTAL_MEMORY: nat := 0x80000000
  const PAGE: nat := 4096
  const PAGING_PAGES: nat := (TOTAL_MEMORY - LOW_MEM) / PAGE
  const BITMAP_SIZE: nat := PAGING_PAGES / 4 / 8

  // The word operations of the C code.
  predicate Meets(w: bv32, m: bv32) {
    w & m != 0
  }

  function Minus(w: bv32, m: bv32): bv32 {
    w & !m
  }

  function Plus(w: bv32, m: bv32): bv32 {
    w | m
  }

  function Shift(m: bv32): bv32 {
    m << 1
  }

  /** The word with just bit k set. */
  function Mask(k: nat): bv32
    requires k < 32
  {
    if k == 0 then 1 else Shift(Mask(k - 1))
  }

  /** The word with the bits below k set. */
  function LowMask(k: nat): bv32
    requires k <= 32
  {
    if k == 0 then 0 else Plus(LowMask(k - 1), Mask(k - 1))
  }

  predicate BitSet(w: bv32, k: nat)
    requires k < 32
  {
    Meets(w, Mask(k))
  }

  function Clear(w: bv32, k: nat): bv32
    requires k < 32
  {
    Minus(w, Mask(k))
  }

  function Set(w: bv32, k: nat): bv32
    requires k < 32
  {
    Plus(w, Mask(k))
  }

  lemma ShiftMeets(a: bv32, b: bv32)
    requires !Meets(a, b)
    ensures !Meets(Shift(a), Shift(b))
  {
  }

  lemma MinusOther(w: bv32, m: bv32, x: bv32)
    requires !Meets(m, x)
    ensures Meets(Minus(w, m), x) <==> Meets(w, x)
  {
    assert Minus(w, m) & x == w & x;
  }

  lemma PlusOther(w: bv32, m: bv32, x: bv32)
    requires !Meets(m, x)
    ensures Meets(Plus(w, m), x) <==> Meets(w, x)
  {
    Distributes(w, m, x);
    NoneOr(w & x);
  }

  lemma Distributes(w: bv32, m: bv32, x: bv32)
    ensures Plus(w, m) & x == (w & x) | (m & x)
  {
  }

  lemma NoneOr(a: bv32)
    ensures a | 0 == a
  {
  }

  lemma MinusOwn(w: bv32, m: bv32)
    ensures !Meets(Minus(w, m), m)
  {
  }

  lemma PlusOwn(w: bv32, m: bv32)
    ensures m != 0 ==> Meets(Plus(w, m), m)
  {
    assert Plus(w, m) & m == m;
  }

  lemma MeetsPlus(w: bv32, a: bv32, b: bv32)
    requires !Meets(w, a) && !Meets(w, b)
    ensures !Meets(w, Plus(a, b))
  {
  }

  lemma MeetsCommutes(a: bv32, b: bv32)
    ensures Meets(a, b) == Meets(b, a)
  {
  }

  lemma ShiftEven(m: bv32)
    ensures !Meets(1, Shift(m))
  {
  }

  lemma MeetsOnes(m: bv32)
    ensures Meets(m, 0xFFFF_FFFF) <==> m != 0
    ensures Meets(0xFFFF_FFFF, m) <==> m != 0
    ensures !Meets(0, m)
  {
  }

  lemma {:induction false} MaskDisjoint(j: nat, k: nat)
    requires j < 32 && k < 32 && j != k
    ensures !Meets(Mask(j), Mask(k))
    decreases j + k, j
  {
    hide Meets, Shift;
    if j > k {
      MaskDisjoint(k, j);
      MeetsCommutes(Mask(j), Mask(k));
    } else if j == 0 {
      ShiftEven(Mask(k - 1));
    } else {
      MaskDisjoint(j - 1, k - 1);
      ShiftMeets(Mask(j - 1), Mask(k - 1));
    }
  }

  lemma LastMask()
    ensures Mask(31) == 0x8000_0000 && LowMask(32) == 0xFFFF_FFFF
  {
    assert Mask(4) == 16 && LowMask(4) == 15;
    assert Mask(8) == 256 && LowMask(8) == 255;
    assert Mask(12) == 0x1000 && LowMask(12) == 0xFFF;
    assert Mask(16) == 0x10000 && LowMask(16) == 0xFFFF;
    assert Mask(20) == 0x100000 && LowMask(20) == 0xFFFFF;
    assert Mask(24) == 0x1000000 && LowMask(24) == 0xFFFFFF;
    assert Mask(28) == 0x10000000 && LowMask(28) == 0xFFFFFFF;
  }

  lemma ShiftZero()
    ensures Shift(0) == 0
  {
  }

  lemma {:induction false} MaskNonzero(k: nat)
    requires k < 32
    ensures Mask(k) != 0
    decreases 32 - k
  {
    if k == 31 {
      LastMask();
    } else {
      MaskNonzero(k + 1);
      ShiftZero();
    }
  }

  lemma {:induction false} NoLowBits(w: bv32, k: nat)
    requires k <= 32 && forall j | 0 <= j < k :: !BitSet(w, j)
    ensures !Meets(w, LowMask(k))
  {
    hide Meets, Plus;
    if k > 0 {
      NoLowBits(w, k - 1);
      assert !BitSet(w, k - 1);
      MeetsPlus(w, LowMask(k - 1), Mask(k - 1));
    } else {
      MeetsOnes(w);
      MeetsCommutes(w, 0);
    }
  }

  /** A word without set bits is zero. */
  lemma NoBits(w: bv32)
    requires forall j | 0 <= j < 32 :: !BitSet(w, j)
    ensures w == 0
  {
    hide Meets, Mask;
    NoLowBits(w, 32);
    LastMask();
    MeetsOnes(w);
  }

  /** Clearing a bit changes that bit and no other. */
  lemma ClearBit(w: bv32, k: nat, j: nat)
    requires k < 32 && j < 32
    ensures BitSet(Clear(w, k), j) <==> BitSet(w, j) && j != k
  {
    hide Meets, Minus, Mask;
    if j == k {
      MinusOwn(w, Mask(k));
    } else {
      MaskDisjoint(k, j);
      MinusOther(w, Mask(k), Mask(j));
    }
  }

  /** Setting a bit changes that bit and no other. */
  lemma SetBit(w: bv32, k: nat, j: nat)
    requires k < 32 && j < 32
    ensures BitSet(Set(w, k), j) <==> BitSet(w, j) || j == k
  {
    hide Meets, Plus, Mask;
    if j == k {
      MaskNonzero(k);
      PlusOwn(w, Mask(k));
    } else {
      MaskDisjoint(k, j);
      PlusOther(w, Mask(k), Mask(j));
    }
  }

  predicate FreeNumber(words: seq<bv32>, n: nat) {
    n / 32 < |words| && BitSet(words[n / 32], n % 32)
  }

  /** The numbers of the free frames. */
  ghost function FreeSet(words: seq<bv32>): set<nat> {
    set n: nat | n < 32 * |words| && FreeNumber(words, n)
  }

  function FrameNumber(frame: nat): nat
    requires frame >= LOW_MEM
  {
    (frame - LOW_MEM) / PAGE
  }

  // ---- Runs of calls -------------------------------------------------------------------------

  datatype FrameCall = Get(frame: nat) | Give(frame: nat)

  /** A call, its answer or argument, and the free frames before and after it. */
  ghost predicate Step(free: set<nat>, call: FrameCall, free': set<nat>) {
    match call
    case Get(frame) =>
      if free == {} then frame == 0 && free' == free
      else frame >= LOW_MEM && FrameNumber(frame) in free && free' == free - {FrameNumber(frame)}
    case Give(frame) => LOW_MEM <= frame < TOTAL_MEMORY && free' == free + {FrameNumber(frame)}
  }

  ghost predicate Run(frees: seq<set<nat>>, calls: seq<FrameCall>) {
    |frees| == |calls| + 1 && forall i: nat | i < |calls| :: Step(frees[i], calls[i], frees[i + 1])
  }

  /** The frames that were handed out and not given back since. */
  ghost function Held(calls: seq<FrameCall>): set<nat> {
    if calls == [] then {}
    else
      var held := Held(calls[..|calls| - 1]);
      match calls[|calls| - 1]
      case Get(frame) => if frame >= LOW_MEM then held + {FrameNumber(frame)} else held
      case Give(frame) => if frame >= LOW_MEM then held - {FrameNumber(frame)} else held
  }

  /** Over every run, no frame is free and held at once, */
  lemma {:induction false} FreeNotHeld(frees: seq<set<nat>>, calls: seq<FrameCall>)
    requires Run(frees, calls)
    ensures frees[|calls|] !! Held(calls)
  {
    if calls != [] {
      var n: nat := |calls| - 1;
      FreeNotHeld(frees[..n + 1], calls[..n]);
      assert Step(frees[n], calls[n], frees[n + 1]);
    }
  }

  /** so that no frame is handed out that someone holds; */
  lemma NeverTwice(frees: seq<set<nat>>, calls: seq<FrameCall>, i: nat)
    requires Run(frees, calls) && i < |calls| && calls[i].Get? && calls[i].frame != 0
    ensures calls[i].frame >= LOW_MEM && FrameNumber(calls[i].frame) !in Held(calls[..i])
  {
    FreeNotHeld(frees[..i + 1], calls[..i]);
    assert Step(frees[i], calls[i], frees[i + 1]);
  }

  /** and no frame gets lost or comes to be, if and only if those given back were the map's. */
  lemma {:induction false} FramesConserved(frees: seq<set<nat>>, calls: seq<FrameCall>)
    requires Run(frees, calls)
    ensures (forall i: nat | i <= |calls| :: frees[i] + Held(calls[..i]) == frees[0]) <==>
            forall i: nat | i < |calls| && calls[i].Give? ::
              calls[i].frame >= LOW_MEM && FrameNumber(calls[i].frame) in frees[0]
  {
    if forall i: nat | i < |calls| && calls[i].Give? ::
      calls[i].frame >= LOW_MEM && FrameNumber(calls[i].frame) in frees[0] {
      forall i: nat | i <= |calls|
        ensures frees[i] + Held(calls[..i]) == frees[0]
      {
        Conserved(frees, calls, i);
      }
    }
    if forall i: nat | i <= |calls| :: frees[i] + Held(calls[..i]) == frees[0] {
      forall i: nat | i < |calls| && calls[i].Give?
        ensures calls[i].frame >= LOW_MEM && FrameNumber(calls[i].frame) in frees[0]
      {
        assert Step(frees[i], calls[i], frees[i + 1]);
        assert frees[i + 1] + Held(calls[..i + 1]) == frees[0];
      }
    }
  }

  lemma {:induction false} Conserved(frees: seq<set<nat>>, calls: seq<FrameCall>, i: nat)
    requires Run(frees, calls) && i <= |calls|
    requires forall j: nat | j < |calls| && calls[j].Give? ::
               calls[j].frame >= LOW_MEM && FrameNumber(calls[j].frame) in frees[0]
    ensures frees[i] + Held(calls[..i]) == frees[0]
  {
    if i > 0 {
      Conserved(frees, calls, i - 1);
      assert Step(frees[i - 1], calls[i - 1], frees[i]);
      assert calls[..i][..i - 1] == calls[..i - 1];
    }
  }

  class FrameMap {
    const words: array<bv32>

    ghost predicate Valid()
      reads this
    {
      words.Length == BITMAP_SIZE
    }

    ghost function Free(): set<nat>
      reads this, words
    {
      FreeSet(words[..])
    }

    /** All frames start out free. */
    constructor ()
      ensures Valid() && fresh(words)
      ensures forall n: nat :: n in Free() <==> n < PAGING_PAGES
    {
      words := new bv32[BITMAP_SIZE](_ => 0xFFFF_FFFF);
      new;
      forall n: nat | n < PAGING_PAGES
        ensures FreeNumber(words[..], n)
      {
        AllOnes(n % 32);
        assert n / 32 < BITMAP_SIZE;
        assert words[..][n / 32] == 0xFFFF_FFFF;
      }
    }

    /** The lowest free frame, no longer free; 0 when there is none. */
    method GetFreeFrame() returns (frame: nat)
      requires Valid()
      modifies words
      ensures frame == 0 <==> old(Free()) == {}
      ensures frame == 0 ==> words[..] == old(words[..])
      ensures frame != 0 ==>
        LOW_MEM <= frame < TOTAL_MEMORY && frame % PAGE == 0 &&
        FrameNumber(frame) in old(Free()) && Free() == old(Free()) - {FrameNumber(frame)} &&
        forall m | m in old(Free()) :: FrameNumber(frame) <= m
      ensures Step(old(Free()), Get(frame), Free())
    {
      hide FreeSet, FreeNumber, Meets, Minus, Mask, Shift;
      ghost var before := words[..];
      var i := 0;
      while i < BITMAP_SIZE && words[i] == 0
        invariant 0 <= i <= BITMAP_SIZE
        invariant forall j | 0 <= j < i :: words[j] == 0
      {
        i := i + 1;
      }
      if i == BITMAP_SIZE {
        NoFrames(before);
        return 0;
      }
      var fn, t: bv32 := 0, 1;
      FirstMask();
      while t != 0
        invariant 0 <= fn < 32 && t == Mask(fn)
        invariant words[..] == before
        invariant forall j | 0 <= j < fn :: !BitSet(words[i], j)
        decreases 32 - fn
      {
        if Meets(words[i], t) {
          words[i] := Minus(words[i], t);
          break;
        }
        if fn == 31 {
          NoBits(words[i]);
        }
        NextMask(fn);
        fn := fn + 1;
        t := Shift(t);
      }
      MaskNonzero(fn);
      assert words[..] == before[i := Clear(before[i], fn)];
      Taken(before, i, fn);
      frame := (fn + i * 32) * PAGE + LOW_MEM;
    }

    /** The given frame is free afterwards. */
    method FreeFrame(frame: nat)
      requires Valid() && LOW_MEM <= frame < TOTAL_MEMORY
      modifies words
      ensures Free() == old(Free()) + {FrameNumber(frame)}
      ensures Step(old(Free()), Give(frame), Free())
    {
      ghost var before := words[..];
      var n := (frame - LOW_MEM) / PAGE;
      PutBit(before, n);
      words[n / 32] := Plus(words[n / 32], Mask(n % 32));
      assert words[..] == before[n / 32 := Set(before[n / 32], n % 32)];
    }
  }

  lemma NoFrames(words: seq<bv32>)
    requires forall j | 0 <= j < |words| :: words[j] == 0
    ensures FreeSet(words) == {}
  {
    ZeroWords(words, |words|);
  }

  lemma FirstMask()
    ensures Mask(0) == 1
  {
  }

  lemma NextMask(k: nat)
    requires k < 31
    ensures Mask(k + 1) == Shift(Mask(k))
  {
  }

  /** Clearing the lowest set bit of the first nonzero word takes the lowest frame. */
  lemma Taken(words: seq<bv32>, i: nat, fn: nat)
    requires |words| == BITMAP_SIZE && i < BITMAP_SIZE && fn < 32 && BitSet(words[i], fn)
    requires forall j | 0 <= j < i :: words[j] == 0
    requires forall j | 0 <= j < fn :: !BitSet(words[i], j)
    ensures var n := fn + i * 32;
            n < PAGING_PAGES && n in FreeSet(words) && (forall m | m in FreeSet(words) :: n <= m) &&
            FreeSet(words[i := Clear(words[i], fn)]) == FreeSet(words) - {n} &&
            n * PAGE + LOW_MEM < TOTAL_MEMORY && FrameNumber(n * PAGE + LOW_MEM) == n
  {
    hide BitSet, FreeSet, Clear;
    var n: nat := fn + i * 32;
    assert n / 32 == i && n % 32 == fn;
    TakeBit(words, n);
    LowestBit(words, n);
  }

  lemma AllOnes(k: nat)
    requires k < 32
    ensures BitSet(0xFFFF_FFFF, k)
  {
    hide Meets, Mask;
    MaskNonzero(k);
    MeetsOnes(Mask(k));
  }

  lemma ZeroWords(words: seq<bv32>, i: nat)
    requires i <= |words| && forall j | 0 <= j < i :: words[j] == 0
    ensures forall n: nat | n < 32 * i :: !FreeNumber(words, n)
  {
    forall n: nat | n < 32 * i
      ensures !FreeNumber(words, n)
    {
      assert n / 32 < i;
      MeetsOnes(Mask(n % 32));
    }
  }

  lemma TakeBit(words: seq<bv32>, n: nat)
    requires n / 32 < |words|
    ensures FreeSet(words[n / 32 := Clear(words[n / 32], n % 32)]) == FreeSet(words) - {n}
  {
    hide BitSet, Clear, Set;
    var after := words[n / 32 := Clear(words[n / 32], n % 32)];
    forall m: nat | m < 32 * |words|
      ensures FreeNumber(after, m) <==> FreeNumber(words, m) && m != n
    {
      if m / 32 == n / 32 {
        ClearBit(words[n / 32], n % 32, m % 32);
      }
    }
  }

  lemma PutBit(words: seq<bv32>, n: nat)
    requires n / 32 < |words|
    ensures FreeSet(words[n / 32 := Set(words[n / 32], n % 32)]) == FreeSet(words) + {n}
  {
    hide BitSet, Clear, Set;
    var after := words[n / 32 := Set(words[n / 32], n % 32)];
    forall m: nat | m < 32 * |words|
      ensures FreeNumber(after, m) <==> FreeNumber(words, m) || m == n
    {
      if m / 32 == n / 32 {
        SetBit(words[n / 32], n % 32, m % 32);
      }
    }
    assert n < 32 * |words|;
  }

  lemma LowestBit(words: seq<bv32>, n: nat)
    requires FreeNumber(words, n)
    requires forall j | 0 <= j < n / 32 :: words[j] == 0
    requires forall j | 0 <= j < n % 32 :: !BitSet(words[n / 32], j)
    ensures n in FreeSet(words) && forall m | m in FreeSet(words) :: n <= m
  {
    ZeroWords(words, n / 32);
    hide BitSet;
    assert n < 32 * |words|;
  }
}
