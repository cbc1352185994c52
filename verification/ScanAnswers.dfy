/** What the two kinds of pass answer, in terms of the pages and the words alone. */
module ScanAnswers {
  import opened Wrappers
  import opened Numerals
  import opened MemoryMap
  import opened ScanFilters
  import opened UnknownScanner

  /** The page of `a` can be queried, is committed, and may be read and written. */
  predicate InWritablePage(m: Memory, a: nat) {
    var p := a / 0x1000;
    p < |m.pages| && m.pages[p].known && m.pages[p].committed && m.pages[p].protection == ReadWrite
  }

  lemma WritableIff(m: Memory, a: nat)
    ensures Writable(Page(m, PageOf(a))) <==> InWritablePage(m, a)
  {
  }

  /** A first pass that was not cut short has found exactly the aligned words of private,
      writable pages between the bounds, finite ones for singles, but for those lost. */
  lemma FindsExactly(m: Memory, kind: ScanKind, low: nat, high: nat, cs: seq<Candidate>, a: nat)
    requires Captured(m, kind, low, high, cs, false)
    ensures HasAddress(cs, a)
            <==> && a % 4 == 0 && low <= a && a + 4 <= high
                 && InWritablePage(m, a) && m.pages[a / 0x1000].isPrivate
                 && (kind.Float32? ==> IsFinite(Word(m, a)))
                 && !Straddles(m, low, a) && !SteppedOver(m, low, high, a)
    ensures forall c <- cs :: c.previousRaw == Word(m, c.address)
  {
    WritableIff(m, a);
    if HasAddress(cs, a) {
      var i :| 0 <= i < |cs| && cs[i].address == a;
      assert Capturable(m, kind, low, high, cs[i].address);
    }
    if Capturable(m, kind, low, high, a) {
      assert HasAddress(cs, a);
    }
  }

  lemma {:induction false} KeptCameFrom(m: Memory, kind: ScanKind, filter: FilterKind, cs: seq<Candidate>, c: Candidate)
    ensures c in AllKept(m, kind, filter, cs) <==> exists i :: 0 <= i < |cs| && c in Kept(m, kind, filter, cs[i])
    decreases |cs|
  {
    if cs != [] {
      var init, last := cs[..|cs| - 1], cs[|cs| - 1];
      KeptCameFrom(m, kind, filter, init, c);
      if c in AllKept(m, kind, filter, init) {
        var i :| 0 <= i < |init| && c in Kept(m, kind, filter, init[i]);
        assert cs[i] == init[i];
      }
      if i :| 0 <= i < |cs| && c in Kept(m, kind, filter, cs[i]) {
        assert i < |init| ==> init[i] == cs[i];
      }
    }
  }

  lemma KeptIff(m: Memory, kind: ScanKind, filter: FilterKind, before: Candidate, c: Candidate)
    requires before.address % 4 == 0
    ensures c in Kept(m, kind, filter, before)
            <==> && InWritablePage(m, before.address) && c == Candidate(before.address, Word(m, before.address))
                 && Matches(kind, before.previousRaw, c.previousRaw, filter)
  {
    WritableIff(m, before.address);
    if InWritablePage(m, before.address) {
      AlignedReads(m, before.address);
    }
  }

  /** An aligned word lies in one page. */
  lemma AlignedReads(m: Memory, a: nat)
    requires a % 4 == 0 && InWritablePage(m, a)
    ensures Read(m, a, 4).Some? && WordIn(Read(m, a, 4).value, 0) == Word(m, a)
  {
    forall b | a <= b < a + 4 ensures Readable(m, b) {
      assert b / 0x1000 == a / 0x1000;
    }
  }

  /** A filter pass keeps exactly the words of writable pages that have moved as asked since
      they were last seen, with the values they have now. */
  lemma KeepsExactly(m: Memory, kind: ScanKind, filter: FilterKind, cs: seq<Candidate>, c: Candidate)
    requires forall b <- cs :: b.address % 4 == 0
    ensures c in AllKept(m, kind, filter, cs)
            <==> && InWritablePage(m, c.address) && c.previousRaw == Word(m, c.address)
                 && exists b <- cs :: b.address == c.address && Matches(kind, b.previousRaw, c.previousRaw, filter)
  {
    KeptCameFrom(m, kind, filter, cs, c);
    if c in AllKept(m, kind, filter, cs) {
      var i :| 0 <= i < |cs| && c in Kept(m, kind, filter, cs[i]);
      KeptIff(m, kind, filter, cs[i], c);
      assert cs[i] in cs;
    }
    if b :| b in cs && b.address == c.address && Matches(kind, b.previousRaw, c.previousRaw, filter)
            && InWritablePage(m, c.address) && c.previousRaw == Word(m, c.address) {
      KeptIff(m, kind, filter, b, c);
      var i :| 0 <= i < |cs| && cs[i] == b;
      assert c in Kept(m, kind, filter, cs[i]);
    }
  }

  ghost predicate AllBelow(cs: seq<Candidate>, end: nat) {
    forall i | 0 <= i < |cs| :: cs[i].address < end
  }

  /** A filter pass keeps the order, so it lists no address twice. */
  lemma {:induction false} KeepsOrder(m: Memory, kind: ScanKind, filter: FilterKind, cs: seq<Candidate>, end: nat)
    requires Ordered(cs) && AllBelow(cs, end)
    ensures Ordered(AllKept(m, kind, filter, cs)) && AllBelow(AllKept(m, kind, filter, cs), end)
    decreases |cs|
  {
    if cs != [] {
      var init, last := cs[..|cs| - 1], cs[|cs| - 1];
      InitIsBelow(cs);
      KeepsOrder(m, kind, filter, init, last.address);
      OneMoreInOrder(AllKept(m, kind, filter, init), Kept(m, kind, filter, last), last.address, end);
    }
  }

  lemma InitIsBelow(cs: seq<Candidate>)
    requires Ordered(cs) && cs != []
    ensures Ordered(cs[..|cs| - 1]) && AllBelow(cs[..|cs| - 1], cs[|cs| - 1].address)
  {
  }

  lemma OneMoreInOrder(before: seq<Candidate>, one: seq<Candidate>, address: nat, end: nat)
    requires Ordered(before) && AllBelow(before, address) && address < end
    requires |one| <= 1 && (one != [] ==> one[0].address == address)
    ensures Ordered(before + one) && AllBelow(before + one, end)
  {
  }
}
