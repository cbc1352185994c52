/** Words that a first pass is meant to find and does not: one for each way to lose one. */
module ScanLosses {
  import opened Numerals
  import opened MemoryMap
  import opened ScanFilters
  import opened UnknownScanner

  const PRIVATE := Attributes(true, true, true, ReadWrite, 0)

  function ZeroAt(a: nat): Byte {
    0
  }

  /** No first pass over this range returns the word. */
  ghost predicate Missed(m: Memory, low: nat, high: nat, a: nat) {
    forall cs, truncated | Captured(m, Int32, low, high, cs, truncated) :: !HasAddress(cs, a)
  }

  lemma NotCapturableIsMissed(m: Memory, low: nat, high: nat, a: nat)
    requires !Capturable(m, Int32, low, high, a)
    ensures Missed(m, low, high, a)
  {
  }

  /** Pages 0x10 and 0x11 cannot be queried, page 0x12 is private and writable. */
  function Gap(): Memory {
    Space(seq(0x12, _ => UNKNOWN) + [PRIVATE], ZeroAt)
  }

  /** A pass from inside the first page to inside the third steps from 0x11800 past the upper
      bound, although both bounds are 4-aligned. */
  lemma StepsOverAWord()
    ensures Eligible(Gap(), Int32, 0x10800, 0x12400, 0x12000)
    ensures SteppedOver(Gap(), 0x10800, 0x12400, 0x12000) && Missed(Gap(), 0x10800, 0x12400, 0x12000)
  {
    assert Page(Gap(), 0x12) == PRIVATE;
    NotCapturableIsMissed(Gap(), 0x10800, 0x12400, 0x12000);
  }

  /** Two megabytes of private, writable pages. */
  function Plain(): Memory {
    Space(seq(0x200, _ => PRIVATE), ZeroAt)
  }

  lemma {:induction false} PlainIsOneRun(p: nat)
    requires p < 0x200
    ensures RunEnd(Plain(), p) == 0x200
    decreases 0x200 - p
  {
    if p + 1 < 0x200 {
      PlainIsOneRun(p + 1);
    }
  }

  /** A pass from 0x10001 reads up to 0x110001 and goes on from there: the aligned word at
      0x110000 is in neither read. */
  lemma StraddlesAWord()
    ensures Eligible(Plain(), Int32, 0x10001, 0x120000, 0x110000)
    ensures Straddles(Plain(), 0x10001, 0x110000) && Missed(Plain(), 0x10001, 0x120000, 0x110000)
  {
    PlainIsEligible();
    AcrossChunks();
    NotCapturableIsMissed(Plain(), 0x10001, 0x120000, 0x110000);
  }

  lemma PlainIsEligible()
    ensures Eligible(Plain(), Int32, 0x10001, 0x120000, 0x110000)
  {
    assert Page(Plain(), 0x110) == PRIVATE;
  }

  lemma AcrossChunks()
    ensures Straddles(Plain(), 0x10001, 0x110000)
  {
    PlainIsOneRun(0x10);
    assert PageOf(0x10001) == 0x10 && PageOf(0x110000) == 0x110;
    assert ChunkOf(0x110000 - 0x10001) == 0 && ChunkOf(0x110000 - 0x10001 + 3) == 1;
  }
}
