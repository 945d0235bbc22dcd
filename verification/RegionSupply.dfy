/** What the allocator and the collector assume of their pages is what the two regions that grow up give:
    the answers of successive expand_region calls (mm/memory.c). */
module RegionSupply {
  import opened Options
  import Memory
  import opened Frames
  import HeapBlocks
  import Malloc
  import Gc

  predicate GrowsUp(region: nat) {
    region == Memory.MM_HEAP || region == Memory.MM_SLOTS
  }

  function Start(region: nat): nat {
    if region == Memory.MM_HEAP then Memory.HEAP_START else Memory.SLOTS_START
  }

  /** The answers to calls for the region, and the region tables before, between and after them. Other
      regions may grow meanwhile, and a call that fails may have grown the region all the same. */
  ghost predicate RegionRun(region: nat, tables: seq<seq<Memory.Region>>, answers: seq<nat>) {
    GrowsUp(region) && |tables| == |answers| + 1 &&
    (forall i | 0 <= i < |tables| :: Memory.RegionsOk(tables[i])) &&
    forall i: nat | i < |answers| :: RegionStep(region, tables[i], tables[i + 1], answers[i])
  }

  ghost predicate RegionStep(region: nat, before: seq<Memory.Region>, after: seq<Memory.Region>, answer: nat)
    requires |before| == 5 && |after| == 5 && GrowsUp(region)
  {
    if answer == 0 then End(region, before) <= End(region, after)
    else Memory.Grow(before, region) == Some((after[region], answer))
  }

  function End(region: nat, rs: seq<Memory.Region>): nat
    requires |rs| == 5 && GrowsUp(region)
  {
    rs[region].End()
  }

  lemma {:induction false} EndsRise(region: nat, tables: seq<seq<Memory.Region>>, answers: seq<nat>, i: nat, j: nat)
    requires RegionRun(region, tables, answers) && i <= j < |tables|
    ensures End(region, tables[i]) <= End(region, tables[j])
    decreases j
  {
    if i < j {
      EndsRise(region, tables, answers, i, j - 1);
      assert RegionStep(region, tables[j - 1], tables[j], answers[j - 1]);
    }
  }

  /** An answer is the page at the end of the region, */
  lemma AnswerAt(region: nat, tables: seq<seq<Memory.Region>>, answers: seq<nat>, i: nat)
    requires RegionRun(region, tables, answers) && i < |answers| && answers[i] != 0
    ensures answers[i] == End(region, tables[i]) && End(region, tables[i + 1]) == answers[i] + PAGE
    ensures answers[i] % PAGE == 0 && answers[i] >= Start(region) + tables[0][region].size
  {
    assert RegionStep(region, tables[i], tables[i + 1], answers[i]);
    EndsRise(region, tables, answers, 0, i);
  }

  /** so that each is above all those before. */
  lemma AnswersRise(region: nat, tables: seq<seq<Memory.Region>>, answers: seq<nat>, j: nat, i: nat)
    requires RegionRun(region, tables, answers) && j < i < |answers| && answers[i] != 0
    ensures answers[j] == 0 || answers[j] + PAGE <= answers[i]
  {
    AnswerAt(region, tables, answers, i);
    if answers[j] != 0 {
      AnswerAt(region, tables, answers, j);
      EndsRise(region, tables, answers, j + 1, i);
    }
  }

  /** From the boot table on, page by page above the first one, as long as none is refused. */
  lemma {:induction false} FromBoot(region: nat, tables: seq<seq<Memory.Region>>, answers: seq<nat>, i: nat)
    requires RegionRun(region, tables, answers) && tables[0] == Memory.InitialRegions()
    requires i < |answers| && forall j | 0 <= j <= i :: answers[j] != 0
    ensures answers[i] == (if region == Memory.MM_HEAP then 0x801000 else 0x40001000) + 0x1000 * i
    decreases i
  {
    AnswerAt(region, tables, answers, i);
    if i > 0 {
      FromBoot(region, tables, answers, i - 1);
      AnswerAt(region, tables, answers, i - 1);
    }
  }

  /** The answers, as the allocator sees them. */
  function Units(answers: seq<nat>): seq<nat> {
    seq(|answers|, i requires 0 <= i < |answers| => answers[i] / HeapBlocks.UNIT)
  }

  lemma PageUnits(answer: nat)
    requires answer % PAGE == 0
    ensures answer / HeapBlocks.UNIT % HeapBlocks.PAGE_UNITS == 0
    ensures answer / HeapBlocks.UNIT * HeapBlocks.UNIT == answer
  {
    var q := answer / PAGE;
    assert answer == 4096 * q;
    assert answer / HeapBlocks.UNIT == 512 * q;
  }

  /** From a heap of at least one page on, the answers can be given to the allocator. */
  lemma AnswersAscend(tables: seq<seq<Memory.Region>>, answers: seq<nat>)
    requires RegionRun(Memory.MM_HEAP, tables, answers) && tables[0][Memory.MM_HEAP].size >= PAGE
    ensures var coming := Units(answers);
            forall i | 0 <= i < |coming| && coming[i] != 0 ::
              coming[i] % HeapBlocks.PAGE_UNITS == 0 && coming[i] > HeapBlocks.HEAP_BASE &&
              forall j | 0 <= j < i :: coming[j] < coming[i]
    ensures Malloc.Supply(Malloc.FirstPage(), Units(answers))
  {
    var coming := Units(answers);
    forall i | 0 <= i < |coming| && coming[i] != 0
      ensures coming[i] % HeapBlocks.PAGE_UNITS == 0 && coming[i] > HeapBlocks.HEAP_BASE
      ensures forall j | 0 <= j < i :: coming[j] < coming[i]
    {
      AnswerAt(Memory.MM_HEAP, tables, answers, i);
      PageUnits(answers[i]);
      forall j | 0 <= j < i
        ensures coming[j] < coming[i]
      {
        AnswersRise(Memory.MM_HEAP, tables, answers, j, i);
      }
    }
  }

  /** The answers for the slots region can be given to the collector. */
  lemma SlotsDistinct(tables: seq<seq<Memory.Region>>, answers: seq<nat>)
    requires RegionRun(Memory.MM_SLOTS, tables, answers)
    ensures Gc.Supply([], answers)
  {
    forall i | 0 <= i < |answers| && answers[i] != 0
      ensures answers[i] % Gc.REGION_SIZE == 0
      ensures forall j | 0 <= j < i :: answers[j] != answers[i]
    {
      AnswerAt(Memory.MM_SLOTS, tables, answers, i);
      forall j | 0 <= j < i
        ensures answers[j] != answers[i]
      {
        AnswersRise(Memory.MM_SLOTS, tables, answers, j, i);
      }
    }
  }
}
