/** The scan of a process for values that are not known yet: a first pass that captures every
    word, and passes that keep the words that changed as asked. */
module UnknownScanner {
  import opened Wrappers
  import opened Numerals
  import opened MemoryMap
  import opened ScanFilters

  const LOWEST := 0x1_0000
  const HIGHEST := 0xFFF0_0000
  const LIMIT := 8_000_000

  datatype Candidate = Candidate(address: U32, previousRaw: U32)

  predicate Writable(a: Attributes) {
    a.known && a.committed && a.protection == ReadWrite
  }

  // ---- filtering one word at a time ----

  /** What becomes of a candidate that is looked up and read by itself. */
  function Kept(m: Memory, kind: ScanKind, filter: FilterKind, c: Candidate): seq<Candidate> {
    if Writable(Page(m, PageOf(c.address))) && Read(m, c.address, 4).Some?
       && Matches(kind, c.previousRaw, WordIn(Read(m, c.address, 4).value, 0), filter)
    then [Candidate(c.address, WordIn(Read(m, c.address, 4).value, 0))]
    else []
  }

  function AllKept(m: Memory, kind: ScanKind, filter: FilterKind, cs: seq<Candidate>): seq<Candidate> {
    if cs == [] then []
    else AllKept(m, kind, filter, cs[..|cs| - 1]) + Kept(m, kind, filter, cs[|cs| - 1])
  }

  lemma AllKeptAppend(m: Memory, kind: ScanKind, filter: FilterKind, cs: seq<Candidate>, i: nat)
    requires i < |cs|
    ensures AllKept(m, kind, filter, cs[..i + 1]) == AllKept(m, kind, filter, cs[..i]) + Kept(m, kind, filter, cs[i])
  {
    assert cs[..i + 1][..i] == cs[..i];
  }

  lemma AllKeptStep(m: Memory, kind: ScanKind, filter: FilterKind, cs: seq<Candidate>, i: nat,
                    filtered: seq<Candidate>, keep: seq<Candidate>)
    requires i < |cs| && filtered == AllKept(m, kind, filter, cs[..i]) && keep == Kept(m, kind, filter, cs[i])
    ensures filtered + keep == AllKept(m, kind, filter, cs[..i + 1])
  {
    AllKeptAppend(m, kind, filter, cs, i);
  }

  // ---- capturing every word ----

  predicate Scannable(a: Attributes) {
    Writable(a) && a.isPrivate
  }

  /** The words a scan of `[low, high)` is meant to find. */
  predicate Eligible(m: Memory, kind: ScanKind, low: nat, high: nat, a: nat) {
    && a % 4 == 0 && low <= a && a + 4 <= high
    && Scannable(Page(m, PageOf(a)))
    && (kind.Float32? ==> IsFinite(Word(m, a)))
  }

  function ChunkOf(offset: nat): nat {
    offset / 0x10_0000
  }

  /** Lost by chunking: in the region of an unaligned `low`, a word across two chunks. */
  predicate Straddles(m: Memory, low: nat, a: nat) {
    low <= a && PageOf(a) < RunEnd(m, PageOf(low)) && ChunkOf(a - low) != ChunkOf(a - low + 3)
  }

  /** Lost by stepping over pages that cannot be queried from a `low` inside a page: the
      last step passes `high` and with it the page that `high` is in. */
  ghost predicate SteppedOver(m: Memory, low: nat, high: nat, a: nat) {
    && PageOf(a) == PageOf(high) && PageOf(low) < PageOf(high) && low % 0x1000 >= high % 0x1000
    && forall p | PageOf(low) <= p < PageOf(high) :: !Page(m, p).known
  }

  ghost predicate Capturable(m: Memory, kind: ScanKind, low: nat, high: nat, a: nat) {
    Eligible(m, kind, low, high, a) && !Straddles(m, low, a) && !SteppedOver(m, low, high, a)
  }

  /** From an aligned `low` nothing is lost if one bound is page-aligned or the first page can
      be queried. */
  lemma AlignedLosesNothing(m: Memory, kind: ScanKind, low: nat, high: nat, a: nat)
    requires Eligible(m, kind, low, high, a) && low % 4 == 0
    requires low % 0x1000 == 0 || high % 0x1000 == 0 || Page(m, PageOf(low)).known
    ensures Capturable(m, kind, low, high, a)
  {
    NotStraddling(m, low, a);
    NotSteppedOver(m, low, high, a);
  }

  lemma NotStraddling(m: Memory, low: nat, a: nat)
    requires a % 4 == 0 && low % 4 == 0
    ensures !Straddles(m, low, a)
  {
    if low <= a {
      assert (a - low) % 4 == 0;
      SameChunk(a - low);
    }
  }

  lemma NotSteppedOver(m: Memory, low: nat, high: nat, a: nat)
    requires low <= a && a + 4 <= high
    requires low % 0x1000 == 0 || high % 0x1000 == 0 || Page(m, PageOf(low)).known
    ensures !SteppedOver(m, low, high, a)
  {
  }

  lemma SameChunk(x: nat)
    requires x % 4 == 0
    ensures ChunkOf(x) == ChunkOf(x + 3)
  {
  }

  ghost predicate Ordered(cs: seq<Candidate>) {
    forall i, j | 0 <= i < j < |cs| :: cs[i].address < cs[j].address
  }

  /** The words below `upTo` are captured, in order, with their values. */
  ghost predicate CapturedUpTo(m: Memory, kind: ScanKind, low: nat, high: nat, upTo: nat, cs: seq<Candidate>) {
    && Ordered(cs) && |cs| <= LIMIT
    && (forall i | 0 <= i < |cs| ::
          && cs[i].address < upTo && Capturable(m, kind, low, high, cs[i].address)
          && cs[i].previousRaw == Word(m, cs[i].address))
    && (forall a: nat | Capturable(m, kind, low, high, a) && a < upTo :: HasAddress(cs, a))
  }

  ghost predicate HasAddress(cs: seq<Candidate>, a: nat) {
    exists i :: 0 <= i < |cs| && cs[i].address == a
  }

  lemma CapturedSkip(m: Memory, kind: ScanKind, low: nat, high: nat, upTo: nat, upTo': nat, cs: seq<Candidate>)
    requires CapturedUpTo(m, kind, low, high, upTo, cs) && upTo <= upTo'
    requires forall a: nat | upTo <= a < upTo' :: !Capturable(m, kind, low, high, a)
    ensures CapturedUpTo(m, kind, low, high, upTo', cs)
  {
  }

  lemma CapturedOne(m: Memory, kind: ScanKind, low: nat, high: nat, a: U32, cs: seq<Candidate>)
    requires CapturedUpTo(m, kind, low, high, a, cs) && |cs| < LIMIT && Capturable(m, kind, low, high, a)
    ensures CapturedUpTo(m, kind, low, high, a + 4, cs + [Candidate(a, Word(m, a))])
  {
    var c := Candidate(a, Word(m, a));
    OrderedOne(cs, c);
    forall b: nat | Capturable(m, kind, low, high, b) && b < a + 4 ensures HasAddress(cs + [c], b) {
      if b < a {
        assert HasAddress(cs, b);
      } else {
        Multiples(a, b);
      }
      AddressOne(cs, c, b);
    }
  }

  lemma Multiples(a: nat, b: nat)
    requires a <= b < a + 4 && a % 4 == 0 && b % 4 == 0
    ensures a == b
  {
  }

  lemma OrderedOne(cs: seq<Candidate>, c: Candidate)
    requires Ordered(cs) && forall i | 0 <= i < |cs| :: cs[i].address < c.address
    ensures Ordered(cs + [c])
  {
  }

  lemma AddressOne(cs: seq<Candidate>, c: Candidate, b: nat)
    requires HasAddress(cs, b) || b == c.address
    ensures HasAddress(cs + [c], b)
  {
    if HasAddress(cs, b) {
      var i :| 0 <= i < |cs| && cs[i].address == b;
      assert (cs + [c])[i].address == b;
    } else {
      assert (cs + [c])[|cs|].address == b;
    }
  }

  lemma NotCapturable(m: Memory, kind: ScanKind, low: nat, high: nat, a: nat, cs: seq<Candidate>)
    requires CapturedUpTo(m, kind, low, high, a, cs) && a % 4 == 0 && !Capturable(m, kind, low, high, a)
    ensures CapturedUpTo(m, kind, low, high, a + 4, cs)
  {
    forall b: nat | a <= b < a + 4 ensures !Capturable(m, kind, low, high, b) {
      if b % 4 == 0 {
        Multiples(a, b);
      }
    }
    CapturedSkip(m, kind, low, high, a, a + 4, cs);
  }

  /** The result of a first pass: in order, every capturable word with its value; or the
      first `LIMIT` of them, and then it says so. */
  ghost predicate Captured(m: Memory, kind: ScanKind, low: nat, high: nat, cs: seq<Candidate>, truncated: bool) {
    && Ordered(cs) && |cs| <= LIMIT && (truncated <==> |cs| == LIMIT)
    && (forall i | 0 <= i < |cs| ::
          Capturable(m, kind, low, high, cs[i].address) && cs[i].previousRaw == Word(m, cs[i].address))
    && (forall a: nat | Capturable(m, kind, low, high, a) ::
          HasAddress(cs, a) || (truncated && cs[|cs| - 1].address < a))
  }

  lemma CapturedAll(m: Memory, kind: ScanKind, low: nat, high: nat, upTo: nat, cs: seq<Candidate>)
    requires CapturedUpTo(m, kind, low, high, upTo, cs) && |cs| == LIMIT
    ensures Captured(m, kind, low, high, cs, true)
  {
    assert cs[|cs| - 1].address < upTo;
  }

  lemma CapturedWhole(m: Memory, kind: ScanKind, low: nat, high: nat, cs: seq<Candidate>)
    requires CapturedUpTo(m, kind, low, high, high, cs) && |cs| < LIMIT
    ensures Captured(m, kind, low, high, cs, false)
  {
    forall a: nat | Capturable(m, kind, low, high, a) ensures HasAddress(cs, a) {
      assert a < high;
    }
  }

  function Low(lowest: U32): U32 {
    if lowest > LOWEST then lowest else LOWEST
  }

  function High(highest: U32): U32 {
    if highest < HIGHEST then highest else HIGHEST
  }

  // ---- where the first pass is ----

  function Floor(a: nat): nat {
    PageOf(a) * 0x1000
  }

  /** Up to where the words have been dealt with. */
  function Done(low: nat, high: nat, address: nat): nat {
    if address >= high then high else if Floor(address) > low then Floor(address) else low
  }

  function NextAddress(end: nat, address: nat): nat {
    if end > address then end else address + 0x1000
  }

  function NextChunkBase(chunkBase: nat, end: nat): nat {
    if chunkBase < end then chunkBase else end
  }

  /** Only unknown pages so far, or somewhere a known one, and then a page-aligned address. */
  ghost predicate Position(m: Memory, low: nat, high: nat, address: nat) {
    low <= address
    && (address < high ==>
          || (address % 0x1000 == low % 0x1000 && forall p | PageOf(low) <= p < PageOf(address) :: !Page(m, p).known)
          || (address % 0x1000 == 0 && SawKnown(m, low, address) && RunEnd(m, PageOf(low)) <= PageOf(address)))
  }

  ghost predicate SawKnown(m: Memory, low: nat, address: nat) {
    exists p :: PageOf(low) <= p < PageOf(address) && Page(m, p).known
  }

  /** A part of the range in one scannable region, where nothing is stepped over; it starts
      at `low`, or at a page after the region of `low`. */
  ghost predicate ToScan(m: Memory, low: nat, high: nat, start: nat, end: nat) {
    && low <= start < end <= high && (end == high || end % 4 == 0)
    && (forall a: nat | start <= a < end :: Scannable(Page(m, PageOf(a))) && !SteppedOver(m, low, high, a))
    && (if start == low then PageOf(end - 1) < RunEnd(m, PageOf(low))
        else start % 4 == 0 && RunEnd(m, PageOf(low)) <= PageOf(start))
  }

  lemma UnknownPage(m: Memory, kind: ScanKind, low: nat, high: nat, address: nat, cs: seq<Candidate>)
    requires Position(m, low, high, address) && address < high && !Page(m, PageOf(address)).known
    requires CapturedUpTo(m, kind, low, high, Done(low, high, address), cs)
    ensures Position(m, low, high, address + 0x1000)
    ensures CapturedUpTo(m, kind, low, high, Done(low, high, address + 0x1000), cs)
  {
    var next := address + 0x1000;
    assert PageOf(next) == PageOf(address) + 1 && next % 0x1000 == address % 0x1000;
    PositionStepped(m, low, high, address);
    forall a: nat | Done(low, high, address) <= a < Done(low, high, next)
      ensures !Capturable(m, kind, low, high, a)
    {
      if Capturable(m, kind, low, high, a) {
        InUnknownPage(m, low, high, address, a);
      }
    }
    CapturedSkip(m, kind, low, high, Done(low, high, address), Done(low, high, next), cs);
  }

  lemma PositionStepped(m: Memory, low: nat, high: nat, address: nat)
    requires Position(m, low, high, address) && address < high && !Page(m, PageOf(address)).known
    ensures Position(m, low, high, address + 0x1000)
  {
    var next := address + 0x1000;
    assert PageOf(next) == PageOf(address) + 1 && next % 0x1000 == address % 0x1000;
    if address % 0x1000 == 0 && SawKnown(m, low, address) && RunEnd(m, PageOf(low)) <= PageOf(address) {
      var p :| PageOf(low) <= p < PageOf(address) && Page(m, p).known;
      assert PageOf(low) <= p < PageOf(next);
    } else {
      forall p | PageOf(low) <= p < PageOf(next) ensures !Page(m, p).known {
      }
    }
  }

  /** What a step over an unknown page passes is in that page, or stepped over. */
  lemma InUnknownPage(m: Memory, low: nat, high: nat, address: nat, a: nat)
    requires Position(m, low, high, address) && address < high && !Page(m, PageOf(address)).known
    requires Done(low, high, address) <= a < Done(low, high, address + 0x1000)
    requires a + 4 <= high && !SteppedOver(m, low, high, a)
    ensures PageOf(a) == PageOf(address)
  {
    var next := address + 0x1000;
    assert PageOf(next) == PageOf(address) + 1 && next % 0x1000 == address % 0x1000;
    assert PageOf(a) >= PageOf(address) by {
      assert Floor(address) <= a;
    }
    if PageOf(a) > PageOf(address) {
      assert next >= high;
      PageOrder(a, high);
      PageOrder(high, next);
      assert PageOf(a) == PageOf(high) == PageOf(next);
      SamePage(high, next);
      assert address % 0x1000 != 0;
      forall p | PageOf(low) <= p < PageOf(high) ensures !Page(m, p).known {
      }
      PageOrder(low, address);
      assert SteppedOver(m, low, high, a);
    }
  }

  lemma PageOrder(a: nat, b: nat)
    requires a <= b
    ensures PageOf(a) <= PageOf(b)
  {
  }

  lemma SamePage(a: nat, b: nat)
    requires a <= b && PageOf(a) == PageOf(b)
    ensures a % 0x1000 <= b % 0x1000
  {
  }

  /** The part of the range in a known region starts where the words have been dealt with. */
  lemma RegionToScan(m: Memory, low: nat, high: nat, address: nat, region: Region)
    requires Position(m, low, high, address) && address < high && Query(m, address) == Some(region)
    ensures
      var end := if region.base + region.size >= high then high else region.base + region.size;
      var start := if region.base > low then region.base else low;
      && start == Done(low, high, address) && start <= address < end
      && (Scannable(region.attributes) ==> ToScan(m, low, high, start, end))
  {
    var p := PageOf(address);
    var end := if region.base + region.size >= high then high else region.base + region.size;
    var start := if region.base > low then region.base else low;
    RegionCovers(m, region, address);
    assert region.base == Floor(address);
    forall a: nat | start <= a < end ensures Page(m, PageOf(a)) == region.attributes && !SteppedOver(m, low, high, a) {
      InRegion(m, address, region, a);
      NotSteppedInto(m, low, high, address, a);
    }
    if start != low {
      PageOrder(low, address);
      RunBefore(m, low, high, address);
    } else {
      InRegion(m, address, region, low);
      InRegion(m, address, region, end - 1);
      SameRun(m, p, PageOf(low), PageOf(end - 1));
    }
  }

  lemma InRegion(m: Memory, address: nat, region: Region, a: nat)
    requires Query(m, address) == Some(region) && region.base <= a < region.base + region.size
    ensures PageOf(address) <= PageOf(a) < RunEnd(m, PageOf(address)) && Page(m, PageOf(a)) == region.attributes
  {
  }

  lemma NotSteppedInto(m: Memory, low: nat, high: nat, address: nat, a: nat)
    requires Position(m, low, high, address) && address < high && Page(m, PageOf(address)).known
    ensures !SteppedOver(m, low, high, a)
  {
    if SteppedOver(m, low, high, a) {
      PageOrder(low, address);
      PageOrder(address, high);
      SamePage(address, high);
    }
  }

  /** A run that starts inside another's ends with it. */
  lemma {:induction false} SameRun(m: Memory, p: nat, q: nat, r: nat)
    requires p <= q <= r < RunEnd(m, p)
    ensures r < RunEnd(m, q)
    decreases q - p
  {
    if p < q {
      assert Page(m, p + 1) == Page(m, p);
      SameRun(m, p + 1, q, r);
    }
  }

  /** The run of `low` ends before the page of a later known region. */
  lemma RunBefore(m: Memory, low: nat, high: nat, address: nat)
    requires Position(m, low, high, address) && address < high && Page(m, PageOf(address)).known
    requires low < Floor(address)
    ensures RunEnd(m, PageOf(low)) <= PageOf(address)
  {
    if RunEnd(m, PageOf(low)) > PageOf(address) {
      PageOrder(low, address);
    }
  }

  lemma NothingInRegion(m: Memory, kind: ScanKind, low: nat, high: nat, start: nat, end: nat, address: nat,
                        region: Region, cs: seq<Candidate>)
    requires Query(m, address) == Some(region) && !Scannable(region.attributes)
    requires region.base <= start <= end <= region.base + region.size
    requires CapturedUpTo(m, kind, low, high, start, cs)
    ensures CapturedUpTo(m, kind, low, high, end, cs)
  {
    forall a: nat | start <= a < end ensures !Capturable(m, kind, low, high, a) {
      InRegion(m, address, region, a);
    }
    CapturedSkip(m, kind, low, high, start, end, cs);
  }

  /** After a known region the address is page-aligned, or the range is done. */
  lemma KnownRegion(m: Memory, low: nat, high: nat, address: nat, region: Region, end: nat)
    requires Position(m, low, high, address) && address < high && Query(m, address) == Some(region)
    requires end == if region.base + region.size >= high then high else region.base + region.size
    ensures Position(m, low, high, end) && Done(low, high, end) == end && end > address
  {
    RegionCovers(m, region, address);
    if end < high {
      assert end == RunEnd(m, PageOf(address)) * 0x1000 && PageOf(end) == RunEnd(m, PageOf(address));
      PageOrder(low, address);
      assert PageOf(low) <= PageOf(address) < PageOf(end) && SawKnown(m, low, end);
      RunEndsBy(m, low, address);
    }
  }

  lemma {:induction false} RunEndsBy(m: Memory, low: nat, address: nat)
    requires low <= address
    ensures RunEnd(m, PageOf(low)) <= RunEnd(m, PageOf(address))
  {
    PageOrder(low, address);
    RunEndGrows(m, PageOf(low), PageOf(address));
  }

  lemma {:induction false} RunEndGrows(m: Memory, p: nat, q: nat)
    requires p <= q
    ensures RunEnd(m, p) <= RunEnd(m, q)
    decreases q - p
  {
    if p < q {
      RunEndGrows(m, p + 1, q);
    }
  }

  // ---- inside a chunk ----

  /** A chunk of the part from `start` to `end`: a whole one, or what is left. */
  ghost predicate InChunks(start: nat, end: nat, chunkBase: nat, n: nat) {
    && start <= chunkBase < end && (chunkBase - start) % 0x10_0000 == 0
    && n <= CHUNK && chunkBase + n <= end && (n == CHUNK || chunkBase + n == end)
  }

  /** A buffer holds what is in memory. */
  ghost predicate BytesAt(m: Memory, base: nat, bytes: seq<Byte>) {
    forall i | 0 <= i < |bytes| :: bytes[i] == m.content(base + i)
  }

  lemma ChunkIsRead(m: Memory, low: nat, high: nat, start: nat, end: nat, chunkBase: nat, n: nat)
    requires ToScan(m, low, high, start, end) && InChunks(start, end, chunkBase, n)
    ensures Read(m, chunkBase, n).Some? && |Read(m, chunkBase, n).value| == n
    ensures BytesAt(m, chunkBase, Read(m, chunkBase, n).value)
  {
    forall a | chunkBase <= a < chunkBase + n ensures Readable(m, a) {
      assert Scannable(Page(m, PageOf(a)));
    }
  }

  /** How far the first aligned word of a chunk is. */
  function FirstOffset(chunkBase: nat): (offset: nat)
    ensures (chunkBase + offset) % 4 == 0 && offset < 4
  {
    (4 - chunkBase % 4) % 4
  }

  /** There is no aligned address in the last three before one. */
  lemma NoneBefore(aligned: nat, a: nat)
    requires aligned % 4 == 0 && a < aligned < a + 4
    ensures a % 4 != 0
  {
  }

  lemma BeforeFirstWord(m: Memory, kind: ScanKind, low: nat, high: nat, chunkBase: nat, offset: nat, cs: seq<Candidate>)
    requires CapturedUpTo(m, kind, low, high, chunkBase, cs) && offset < 4 && (chunkBase + offset) % 4 == 0
    ensures CapturedUpTo(m, kind, low, high, chunkBase + offset, cs)
  {
    forall a: nat | chunkBase <= a < chunkBase + offset ensures !Capturable(m, kind, low, high, a) {
      NoneBefore(chunkBase + offset, a);
    }
    CapturedSkip(m, kind, low, high, chunkBase, chunkBase + offset, cs);
  }

  lemma WordInChunk(m: Memory, kind: ScanKind, low: nat, high: nat, start: nat, end: nat, chunkBase: nat,
                    bytes: seq<Byte>, offset: nat)
    requires ToScan(m, low, high, start, end) && InChunks(start, end, chunkBase, |bytes|)
    requires BytesAt(m, chunkBase, bytes)
    requires (chunkBase + offset) % 4 == 0 && offset + 4 <= |bytes|
    ensures WordIn(bytes, offset) == Word(m, chunkBase + offset)
    ensures Capturable(m, kind, low, high, chunkBase + offset)
            <==> (kind.Float32? ==> IsFinite(Word(m, chunkBase + offset)))
  {
    var a := chunkBase + offset;
    assert bytes[offset + 1] == m.content(a + 1) && bytes[offset + 2] == m.content(a + 2)
           && bytes[offset + 3] == m.content(a + 3);
    assert Scannable(Page(m, PageOf(a))) && !SteppedOver(m, low, high, a);
    InOneChunk(m, low, high, start, end, chunkBase, |bytes|, a);
  }

  /** The buffer says of a word whether it is to be captured, and its value. */
  ghost predicate Decides(m: Memory, kind: ScanKind, low: nat, high: nat, a: nat, raw: U32) {
    raw == Word(m, a) && (Capturable(m, kind, low, high, a) <==> (kind.Float32? ==> IsFinite(raw)))
  }

  ghost predicate AllDecided(m: Memory, kind: ScanKind, low: nat, high: nat, chunkBase: nat, bytes: seq<Byte>) {
    forall o: nat | o + 4 <= |bytes| && (chunkBase + o) % 4 == 0 ::
      Decides(m, kind, low, high, chunkBase + o, WordIn(bytes, o))
  }

  lemma ChunkDecides(m: Memory, kind: ScanKind, low: nat, high: nat, start: nat, end: nat, chunkBase: nat,
                     bytes: seq<Byte>)
    requires ToScan(m, low, high, start, end) && InChunks(start, end, chunkBase, |bytes|)
    requires BytesAt(m, chunkBase, bytes)
    ensures AllDecided(m, kind, low, high, chunkBase, bytes)
  {
    forall o: nat | o + 4 <= |bytes| && (chunkBase + o) % 4 == 0
      ensures Decides(m, kind, low, high, chunkBase + o, WordIn(bytes, o))
    {
      WordInChunk(m, kind, low, high, start, end, chunkBase, bytes, o);
    }
  }

  lemma CapturedNext(m: Memory, kind: ScanKind, low: nat, high: nat, a: U32, next: nat, raw: U32,
                     cs: seq<Candidate>, cs': seq<Candidate>)
    requires CapturedUpTo(m, kind, low, high, a, cs) && |cs| < LIMIT && a % 4 == 0 && next == a + 4
    requires Decides(m, kind, low, high, a, raw)
    requires cs' == if kind.Float32? && !IsFinite(raw) then cs else cs + [Candidate(a, raw)]
    ensures CapturedUpTo(m, kind, low, high, next, cs')
  {
    if kind.Float32? && !IsFinite(raw) {
      NotCapturable(m, kind, low, high, a, cs);
    } else {
      CapturedOne(m, kind, low, high, a, cs);
    }
  }

  lemma InOneChunk(m: Memory, low: nat, high: nat, start: nat, end: nat, chunkBase: nat, n: nat, a: nat)
    requires ToScan(m, low, high, start, end) && InChunks(start, end, chunkBase, n)
    requires chunkBase <= a && a + 4 <= chunkBase + n
    ensures !Straddles(m, low, a)
  {
    if start == low {
      WholeChunk(chunkBase - low, a - low);
      WholeChunk(chunkBase - low, a - low + 3);
    } else {
      PageOrder(start, a);
    }
  }

  lemma WholeChunk(base: nat, x: nat)
    requires base % 0x10_0000 == 0 && base <= x < base + 0x10_0000
    ensures ChunkOf(x) == ChunkOf(base)
  {
  }

  /** What is left of a chunk after its last word is not capturable: it is past `high`, or
      it straddles. */
  lemma AfterLastWord(m: Memory, kind: ScanKind, low: nat, high: nat, start: nat, end: nat, chunkBase: nat, n: nat,
                      a: nat, cs: seq<Candidate>)
    requires ToScan(m, low, high, start, end) && InChunks(start, end, chunkBase, n)
    requires a % 4 == 0 && chunkBase <= a && chunkBase + n < a + 4 <= chunkBase + n + 7
    requires CapturedUpTo(m, kind, low, high, a, cs)
    ensures CapturedUpTo(m, kind, low, high, chunkBase + n, cs)
  {
    var top := chunkBase + n;
    if a <= top {
      if a < top {
        LastWord(m, kind, low, high, start, end, chunkBase, n, a);
      }
      CapturedLast(m, kind, low, high, a, top, cs);
    } else {
      CapturedLess(m, kind, low, high, a, top, cs);
    }
  }

  lemma CapturedLast(m: Memory, kind: ScanKind, low: nat, high: nat, a: nat, top: nat, cs: seq<Candidate>)
    requires CapturedUpTo(m, kind, low, high, a, cs) && a % 4 == 0 && a <= top < a + 4
    requires a < top ==> !Capturable(m, kind, low, high, a)
    ensures CapturedUpTo(m, kind, low, high, top, cs)
  {
    forall b: nat | a <= b < top ensures !Capturable(m, kind, low, high, b) {
      if b % 4 == 0 {
        Multiples(a, b);
      }
    }
    CapturedSkip(m, kind, low, high, a, top, cs);
  }

  lemma CapturedLess(m: Memory, kind: ScanKind, low: nat, high: nat, a: nat, top: nat, cs: seq<Candidate>)
    requires CapturedUpTo(m, kind, low, high, a, cs) && a % 4 == 0 && top < a < top + 4
    ensures CapturedUpTo(m, kind, low, high, top, cs)
  {
    forall i | 0 <= i < |cs| ensures cs[i].address < top {
      assert Capturable(m, kind, low, high, cs[i].address);
      Below(cs[i].address, a);
    }
  }

  lemma Below(x: nat, a: nat)
    requires x < a && x % 4 == 0 && a % 4 == 0
    ensures x + 4 <= a
  {
  }

  lemma LastWord(m: Memory, kind: ScanKind, low: nat, high: nat, start: nat, end: nat, chunkBase: nat, n: nat, a: nat)
    requires ToScan(m, low, high, start, end) && InChunks(start, end, chunkBase, n)
    requires a % 4 == 0 && chunkBase <= a < chunkBase + n < a + 4
    ensures !Capturable(m, kind, low, high, a)
  {
    if chunkBase + n < end {
      if start == low {
        NextChunk(chunkBase - low, a - low);
        PageOrder(a, end - 1);
        assert Straddles(m, low, a);
      } else {
        WholeWords(start, chunkBase, a);
      }
    } else if end < high {
      Below(a, end);
    }
  }

  /** From an aligned start no word crosses the end of a chunk. */
  lemma WholeWords(start: nat, chunkBase: nat, a: nat)
    requires start % 4 == 0 && a % 4 == 0 && start <= chunkBase && (chunkBase - start) % 0x10_0000 == 0
    requires a < chunkBase + 0x10_0000
    ensures a + 4 <= chunkBase + 0x10_0000
  {
    var k := (chunkBase - start) / 0x10_0000;
    assert chunkBase == start + 0x10_0000 * k;
    assert (chunkBase + 0x10_0000) % 4 == 0;
    Below(a, chunkBase + 0x10_0000);
  }

  lemma NextChunk(base: nat, x: nat)
    requires base % 0x10_0000 == 0 && base <= x < base + 0x10_0000 <= x + 3
    ensures ChunkOf(x) != ChunkOf(x + 3)
  {
    WholeChunk(base, x);
    WholeChunk(base + 0x10_0000, x + 3);
  }

  // ---- the scanner ----

  class UnknownScanner32 {
    var kind: ScanKind
    var truncated: bool
    var candidates: seq<Candidate>

    constructor ()
      ensures candidates == [] && !truncated && kind == Int32
    {
      kind, truncated, candidates := Int32, false, [];
    }

    ghost predicate Aligned()
      reads this
    {
      forall c | c in candidates :: c.address % 4 == 0 && c.address < HIGHEST
    }

    /** Captures every capturable word of the clamped range, or the first `LIMIT` of them;
        the 32-bit types say that no address wraps. */
    method Start(m: Memory, kind: ScanKind, lowest: U32, highest: U32) returns (ok: bool)
      modifies this
      ensures this.kind == kind && Aligned()
      ensures var low, high := Low(lowest), High(highest);
              && ok == (low < high)
              && (!ok ==> candidates == [] && !truncated)
              && (ok ==> Captured(m, kind, low, high, candidates, truncated))
    {
      candidates, this.kind, truncated := [], kind, false;
      var low: U32, high: U32 := Low(lowest), High(highest);
      if low >= high {
        return false;
      }
      var address: U32 := low;
      while address < high
        invariant low <= address && high <= HIGHEST && this.kind == kind && !truncated && |candidates| < LIMIT
        invariant Position(m, low, high, address)
        invariant CapturedUpTo(m, kind, low, high, Done(low, high, address), candidates)
        decreases high - address
      {
        var region := Query(m, address);
        if region.None? {
          UnknownPage(m, kind, low, high, address, candidates);
          address := address + 0x1000;
        } else {
          address := CaptureKnown(m, low, high, address, region.value);
          if truncated {
            return true;
          }
        }
      }
      CapturedWhole(m, kind, low, high, candidates);
      return true;
    }

    /** A region, if it is to be scanned, and where to go on. */
    method CaptureKnown(m: Memory, low: U32, high: U32, address: U32, region: Region) returns (next: U32)
      requires Position(m, low, high, address) && address < high <= HIGHEST && Query(m, address) == Some(region)
      requires !truncated && |candidates| < LIMIT
      requires CapturedUpTo(m, kind, low, high, Done(low, high, address), candidates)
      modifies this`candidates, this`truncated
      ensures !truncated ==> |candidates| < LIMIT && address < next && Position(m, low, high, next)
      ensures !truncated ==> CapturedUpTo(m, kind, low, high, Done(low, high, next), candidates)
      ensures truncated ==> Captured(m, kind, low, high, candidates, true)
    {
      RegionCovers(m, region, address);
      var end64 := region.base + region.size;
      var end: U32 := if end64 >= high then high else end64;
      var start: U32 := if region.base > low then region.base else low;
      RegionToScan(m, low, high, address, region);
      KnownRegion(m, low, high, address, region, end);
      if Scannable(region.attributes) {
        CaptureRegion(m, low, high, start, end);
      } else {
        NothingInRegion(m, kind, low, high, start, end, address, region, candidates);
      }
      next := NextAddress(end, address);
    }

    /** The chunks of a region. */
    method CaptureRegion(m: Memory, low: U32, high: U32, start: U32, end: U32)
      requires high <= HIGHEST && !truncated && |candidates| < LIMIT && ToScan(m, low, high, start, end)
      requires CapturedUpTo(m, kind, low, high, start, candidates)
      modifies this`candidates, this`truncated
      ensures !truncated ==> |candidates| < LIMIT && CapturedUpTo(m, kind, low, high, end, candidates)
      ensures truncated ==> Captured(m, kind, low, high, candidates, true)
    {
      var chunkBase: U32 := start;
      while chunkBase < end
        invariant start <= chunkBase && (chunkBase - start) % 0x10_0000 == 0 && !truncated && |candidates| < LIMIT
        invariant CapturedUpTo(m, kind, low, high, NextChunkBase(chunkBase, end), candidates)
        decreases end - chunkBase
      {
        CaptureNext(m, low, high, start, end, chunkBase);
        if truncated {
          return;
        }
        chunkBase := chunkBase + CHUNK;
      }
    }

    /** One turn of that loop. */
    method CaptureNext(m: Memory, low: U32, high: U32, start: U32, end: U32, chunkBase: U32)
      requires high <= HIGHEST && !truncated && |candidates| < LIMIT && ToScan(m, low, high, start, end)
      requires start <= chunkBase < end && (chunkBase - start) % 0x10_0000 == 0
      requires CapturedUpTo(m, kind, low, high, chunkBase, candidates)
      modifies this`candidates, this`truncated
      ensures !truncated ==> |candidates| < LIMIT
      ensures !truncated ==> CapturedUpTo(m, kind, low, high, NextChunkBase(chunkBase + CHUNK, end), candidates)
      ensures truncated ==> Captured(m, kind, low, high, candidates, true)
    {
      var remaining := end - chunkBase;
      var requested := if remaining < CHUNK then remaining else CHUNK;
      var bytes := Read(m, chunkBase, requested);
      ChunkIsRead(m, low, high, start, end, chunkBase, requested);
      if bytes.Some? {
        CaptureChunk(m, low, high, start, end, chunkBase, bytes.value);
      }
    }

    /** The words of a chunk. */
    method CaptureChunk(m: Memory, low: U32, high: U32, start: U32, end: U32, chunkBase: U32, bytes: seq<Byte>)
      requires ToScan(m, low, high, start, end) && InChunks(start, end, chunkBase, |bytes|) && end <= HIGHEST
      requires BytesAt(m, chunkBase, bytes)
      requires !truncated && |candidates| < LIMIT && CapturedUpTo(m, kind, low, high, chunkBase, candidates)
      modifies this`candidates, this`truncated
      ensures !truncated ==> |candidates| < LIMIT && CapturedUpTo(m, kind, low, high, chunkBase + |bytes|, candidates)
      ensures truncated ==> Captured(m, kind, low, high, candidates, true)
    {
      var offset := FirstOffset(chunkBase);
      BeforeFirstWord(m, kind, low, high, chunkBase, offset, candidates);
      ChunkDecides(m, kind, low, high, start, end, chunkBase, bytes);
      offset := CaptureWords(m, low, high, chunkBase, bytes, offset);
      if !truncated {
        AfterLastWord(m, kind, low, high, start, end, chunkBase, |bytes|, chunkBase + offset, candidates);
      }
    }

    /** The loop over them, from the first aligned one. */
    method CaptureWords(ghost m: Memory, ghost low: U32, ghost high: U32, chunkBase: U32, bytes: seq<Byte>, first: nat)
      returns (offset: nat)
      requires AllDecided(m, kind, low, high, chunkBase, bytes) && chunkBase + |bytes| <= HIGHEST
      requires (chunkBase + first) % 4 == 0 && first < 4
      requires !truncated && |candidates| < LIMIT && CapturedUpTo(m, kind, low, high, chunkBase + first, candidates)
      modifies this`candidates, this`truncated
      ensures !truncated ==> |candidates| < LIMIT && CapturedUpTo(m, kind, low, high, chunkBase + offset, candidates)
      ensures !truncated ==> (chunkBase + offset) % 4 == 0 && |bytes| < offset + 4 <= |bytes| + 7
      ensures truncated ==> Captured(m, kind, low, high, candidates, true)
    {
      offset := first;
      while offset + 4 <= |bytes|
        invariant (chunkBase + offset) % 4 == 0 && offset <= |bytes| + 3 && !truncated && |candidates| < LIMIT
        invariant CapturedUpTo(m, kind, low, high, chunkBase + offset, candidates)
        decreases |bytes| - offset
      {
        CaptureWord(m, low, high, chunkBase + offset, WordIn(bytes, offset), chunkBase + (offset + 4));
        if truncated {
          return;
        }
        offset := offset + 4;
      }
    }

    /** One turn of that loop. */
    method CaptureWord(ghost m: Memory, ghost low: U32, ghost high: U32, address: U32, raw: U32, ghost next: nat)
      requires Decides(m, kind, low, high, address, raw) && address % 4 == 0 && next == address + 4
      requires !truncated && |candidates| < LIMIT && CapturedUpTo(m, kind, low, high, address, candidates)
      modifies this`candidates, this`truncated
      ensures !truncated ==> |candidates| < LIMIT && CapturedUpTo(m, kind, low, high, next, candidates)
      ensures truncated ==> Captured(m, kind, low, high, candidates, true)
    {
      ghost var before := candidates;
      if !kind.Float32? || IsFinite(raw) {
        candidates := candidates + [Candidate(address, raw)];
      }
      CapturedNext(m, kind, low, high, address, next, raw, before, candidates);
      if |candidates| >= LIMIT {
        CapturedAll(m, kind, low, high, next, candidates);
        truncated := true;
      }
    }

    /** Keeps, in order, exactly the candidates that would be kept if each were looked up and
        read by itself. */
    method Filter(m: Memory, filter: FilterKind) returns (ok: bool)
      requires Aligned()
      modifies this`candidates
      ensures ok == (old(candidates) != []) && Aligned()
      ensures candidates == AllKept(m, kind, filter, old(candidates))
    {
      if candidates == [] {
        return false;
      }
      KeptAligned(m, kind, filter, candidates);
      candidates := FilterAll(m, filter, candidates);
      return true;
    }

    /** The outer loop; each turn consumes at least one candidate. */
    method FilterAll(m: Memory, filter: FilterKind, cs: seq<Candidate>) returns (filtered: seq<Candidate>)
      requires forall c | c in cs :: c.address % 4 == 0 && c.address < HIGHEST
      ensures filtered == AllKept(m, kind, filter, cs)
    {
      filtered := [];
      var index := 0;
      while index < |cs|
        invariant 0 <= index <= |cs| && filtered == AllKept(m, kind, filter, cs[..index])
      {
        index, filtered := FilterNext(m, filter, cs, index, filtered);
      }
      assert cs[..index] == cs;
    }

    /** One turn of that loop. */
    method FilterNext(m: Memory, filter: FilterKind, cs: seq<Candidate>, first: nat, before: seq<Candidate>)
      returns (index: nat, filtered: seq<Candidate>)
      requires forall c | c in cs :: c.address % 4 == 0 && c.address < HIGHEST
      requires first < |cs| && before == AllKept(m, kind, filter, cs[..first])
      ensures first < index <= |cs| && filtered == AllKept(m, kind, filter, cs[..index])
    {
      var region := Query(m, cs[first].address);
      if region.None? || !Writable(region.value.attributes) {
        AllKeptStep(m, kind, filter, cs, first, before, []);
        return first + 1, before;
      }
      index, filtered := FilterChunk(m, filter, cs, first, region.value, before);
    }

    method KeepRead(bytes: Option<seq<Byte>>, chunkBase: nat, c: Candidate,
                    filter: FilterKind) returns (keep: seq<Candidate>)
      requires chunkBase <= c.address
      ensures keep == KeptRead(kind, bytes, chunkBase, c, filter)
    {
      if bytes.Some? {
        var offset := c.address - chunkBase;
        if offset + 4 <= |bytes.value| {
          var current := WordIn(bytes.value, offset);
          if Matches(kind, c.previousRaw, current, filter) {
            return [Candidate(c.address, current)];
          }
        }
      }
      return [];
    }

    /** One read, and every next candidate that it covers: at least the first. */
    method FilterChunk(m: Memory, filter: FilterKind, cs: seq<Candidate>, first: nat, region: Region,
                       before: seq<Candidate>)
      returns (index: nat, filtered: seq<Candidate>)
      requires forall c | c in cs :: c.address % 4 == 0 && c.address < HIGHEST
      requires first < |cs| && Query(m, cs[first].address) == Some(region) && Writable(region.attributes)
      requires before == AllKept(m, kind, filter, cs[..first])
      ensures first < index <= |cs| && filtered == AllKept(m, kind, filter, cs[..index])
    {
      ghost var address := cs[first].address;
      var chunkBase := ChunkBase(region, cs[first].address);
      var chunkEnd := ChunkEnd(region, chunkBase);
      ChunkCovers(m, region, address);
      var bytes := Read(m, chunkBase, chunkEnd - chunkBase);
      forall c | c in cs && chunkBase <= c.address < chunkEnd
        ensures KeptRead(kind, bytes, chunkBase, c, filter) == Kept(m, kind, filter, c)
      {
        ChunkKeeps(m, kind, filter, region, address, chunkBase, chunkEnd, c);
      }
      index, filtered := FilterCovered(m, filter, cs, first, bytes, chunkBase, chunkEnd, before);
    }

    /** The inner loop: the candidates covered by one read. */
    method FilterCovered(ghost m: Memory, filter: FilterKind, cs: seq<Candidate>, first: nat, bytes: Option<seq<Byte>>,
                         chunkBase: nat, chunkEnd: nat, before: seq<Candidate>)
      returns (index: nat, filtered: seq<Candidate>)
      requires first < |cs| && chunkBase <= cs[first].address < chunkEnd
      requires forall c | c in cs && chunkBase <= c.address < chunkEnd ::
                 KeptRead(kind, bytes, chunkBase, c, filter) == Kept(m, kind, filter, c)
      requires before == AllKept(m, kind, filter, cs[..first])
      ensures first < index <= |cs| && filtered == AllKept(m, kind, filter, cs[..index])
    {
      index, filtered := first, before;
      while index < |cs|
        invariant first <= index <= |cs| && filtered == AllKept(m, kind, filter, cs[..index])
        invariant index == first ==> chunkBase <= cs[index].address < chunkEnd
      {
        if cs[index].address < chunkBase || cs[index].address >= chunkEnd {
          break;
        }
        filtered := FilterOne(m, filter, cs, index, bytes, chunkBase, filtered);
        index := index + 1;
      }
    }

    method FilterOne(ghost m: Memory, filter: FilterKind, cs: seq<Candidate>, index: nat, bytes: Option<seq<Byte>>,
                     chunkBase: nat, before: seq<Candidate>)
      returns (filtered: seq<Candidate>)
      requires index < |cs| && chunkBase <= cs[index].address && before == AllKept(m, kind, filter, cs[..index])
      requires KeptRead(kind, bytes, chunkBase, cs[index], filter) == Kept(m, kind, filter, cs[index])
      ensures filtered == AllKept(m, kind, filter, cs[..index + 1])
    {
      var keep := KeepRead(bytes, chunkBase, cs[index], filter);
      AllKeptStep(m, kind, filter, cs, index, before, keep);
      filtered := before + keep;
    }
  }

  /** What becomes of a candidate, given what was read at `chunkBase`. */
  function KeptRead(kind: ScanKind, bytes: Option<seq<Byte>>, chunkBase: nat, c: Candidate, filter: FilterKind):
    seq<Candidate>
    requires chunkBase <= c.address
  {
    var offset := c.address - chunkBase;
    if bytes.Some? && offset + 4 <= |bytes.value| && Matches(kind, c.previousRaw, WordIn(bytes.value, offset), filter)
    then [Candidate(c.address, WordIn(bytes.value, offset))]
    else []
  }

  function ChunkBase(region: Region, address: nat): nat {
    var inChunk := address - address % 0x10_0000;
    if region.base > inChunk then region.base else inChunk
  }

  function ChunkEnd(region: Region, chunkBase: nat): nat {
    if region.base + region.size < chunkBase + CHUNK then region.base + region.size else chunkBase + CHUNK
  }

  /** A read around `address`: in its region, no longer than the buffer, and past it; no sum
      leaves the 32 bits. */
  ghost predicate Chunk(region: Region, address: U32, chunkBase: nat, chunkEnd: nat) {
    && region.base <= chunkBase <= address < chunkEnd <= region.base + region.size
    && chunkEnd - chunkBase <= CHUNK && chunkEnd % 4 == 0
    && region.base + region.size < 0x1_0000_0000 && chunkBase + CHUNK < 0x1_0000_0000
  }

  lemma ChunkCovers(m: Memory, region: Region, address: U32)
    requires Query(m, address) == Some(region) && address < HIGHEST
    ensures Chunk(region, address, ChunkBase(region, address), ChunkEnd(region, ChunkBase(region, address)))
  {
    RegionCovers(m, region, address);
    Fits(region, address);
  }

  lemma RegionCovers(m: Memory, region: Region, address: U32)
    requires Query(m, address) == Some(region)
    ensures region.base <= address < region.base + region.size < 0x1_0000_0000
    ensures region.base % 4 == 0 && region.size % 4 == 0
  {
    var p, e := PageOf(address), RunEnd(m, PageOf(address));
    InPage(address);
    assert region.base == p * 0x1000 && region.base + region.size == e * 0x1000;
    assert (p + 1) * 0x1000 <= e * 0x1000 <= |m.pages| * 0x1000;
    PageMultiple(p);
    PageMultiple(e - p);
  }

  lemma InPage(a: nat)
    ensures PageOf(a) * 0x1000 <= a < (PageOf(a) + 1) * 0x1000
  {
  }

  lemma PageMultiple(p: nat)
    ensures (p * 0x1000) % 4 == 0
  {
  }

  lemma Fits(region: Region, address: U32)
    requires region.base <= address < region.base + region.size < 0x1_0000_0000 && address < HIGHEST
    requires region.base % 4 == 0 && region.size % 4 == 0
    ensures Chunk(region, address, ChunkBase(region, address), ChunkEnd(region, ChunkBase(region, address)))
  {
    FitsAround(region, address);
    var base := ChunkBase(region, address);
    ChunkFloor(address);
    EndAligned(region, base);
  }

  lemma FitsAround(region: Region, address: U32)
    requires region.base <= address < region.base + region.size < 0x1_0000_0000 && address < HIGHEST
    ensures var chunkBase := ChunkBase(region, address);
            var chunkEnd := ChunkEnd(region, chunkBase);
            && region.base <= chunkBase <= address < chunkEnd <= region.base + region.size
            && chunkEnd - chunkBase <= CHUNK && chunkBase + CHUNK < 0x1_0000_0000
  {
    ChunkFloor(address);
  }

  lemma EndAligned(region: Region, chunkBase: nat)
    requires region.base % 4 == 0 && region.size % 4 == 0 && chunkBase % 4 == 0
    ensures ChunkEnd(region, chunkBase) % 4 == 0
  {
  }

  lemma ChunkFloor(address: nat)
    ensures (address - address % 0x10_0000) % 4 == 0 && address - address % 0x10_0000 <= address
    ensures address < address - address % 0x10_0000 + CHUNK
  {
    assert address - address % 0x10_0000 == 0x10_0000 * (address / 0x10_0000);
  }

  /** What the chunk says about a candidate in it is what a read of its own would say. */
  lemma ChunkKeeps(m: Memory, kind: ScanKind, filter: FilterKind, region: Region, address: U32, chunkBase: nat,
                   chunkEnd: nat, c: Candidate)
    requires Query(m, address) == Some(region) && Writable(region.attributes)
    requires Chunk(region, address, chunkBase, chunkEnd)
    requires chunkBase <= c.address < chunkEnd && c.address % 4 == 0
    ensures KeptRead(kind, Read(m, chunkBase, chunkEnd - chunkBase), chunkBase, c, filter) == Kept(m, kind, filter, c)
  {
    ChunkReadsWord(m, region, address, chunkBase, chunkEnd, c.address);
  }

  lemma {:induction false} KeptAligned(m: Memory, kind: ScanKind, filter: FilterKind, cs: seq<Candidate>)
    requires forall c | c in cs :: c.address % 4 == 0 && c.address < HIGHEST
    ensures forall c | c in AllKept(m, kind, filter, cs) :: c.address % 4 == 0 && c.address < HIGHEST
    decreases |cs|
  {
    if cs != [] {
      KeptAligned(m, kind, filter, cs[..|cs| - 1]);
    }
  }

  /** A word inside a chunk of a writable region is read with the chunk as it is by itself. */
  lemma ChunkReadsWord(m: Memory, region: Region, address: U32, chunkBase: nat, chunkEnd: nat, a: U32)
    requires Query(m, address) == Some(region) && Writable(region.attributes)
    requires Chunk(region, address, chunkBase, chunkEnd) && chunkBase <= a < chunkEnd && a % 4 == 0
    ensures Writable(Page(m, PageOf(a))) && Read(m, a, 4).Some?
    ensures Read(m, chunkBase, chunkEnd - chunkBase).Some?
    ensures a - chunkBase + 4 <= chunkEnd - chunkBase
    ensures WordIn(Read(m, chunkBase, chunkEnd - chunkBase).value, a - chunkBase) == WordIn(Read(m, a, 4).value, 0)
  {
    InRegion(m, address, region, a);
    Below(a, chunkEnd);
    RegionReads(m, region, address, chunkBase, chunkEnd - chunkBase);
    RegionReads(m, region, address, a, 4);
    SameWord(m, chunkBase, chunkEnd - chunkBase, a);
  }

  lemma RegionReads(m: Memory, region: Region, address: U32, base: nat, n: nat)
    requires Query(m, address) == Some(region) && Writable(region.attributes) && n <= CHUNK
    requires region.base <= base && base + n <= region.base + region.size
    ensures Read(m, base, n).Some?
  {
    forall b | base <= b < base + n ensures Readable(m, b) {
      InRegion(m, address, region, b);
    }
  }

  lemma SameWord(m: Memory, base: nat, n: nat, a: nat)
    requires n <= CHUNK && Read(m, base, n).Some? && Read(m, a, 4).Some?
    requires base <= a && a + 4 <= base + n
    ensures WordIn(Read(m, base, n).value, a - base) == WordIn(Read(m, a, 4).value, 0)
  {
  }
}
