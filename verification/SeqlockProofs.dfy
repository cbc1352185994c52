/** What every interleaving of the writer and the readers keeps. */
module SeqlockProofs {
  import opened Mailbox
  import opened Seqlock

  // ---- the invariants ----

  ghost predicate WriterOk(s: Shared) {
    && s.sequence == 2 * |s.published| + (if s.writer.Storing? then 1 else 0)
    && s.updates == |s.published| - (if s.writer.Sequenced? then 1 else 0)
    && (s.valid ==> s.writer.AtRest? && s.published != [])
    && (s.writer.Sequenced? || s.writer.Counted? ==> s.published != [])
    && (s.writer.Storing? ==> s.writer.stored <= 3 && s.tuple[..s.writer.stored] == s.writer.v[..s.writer.stored])
    && (!s.writer.Storing? && s.published != [] ==> s.tuple == s.published[|s.published| - 1])
  }

  /** `before` is the number of a complete publication. */
  ghost predicate Numbers(s: Shared, before: int) {
    before % 2 == 0 && 2 <= before <= 2 * |s.published|
  }

  /** The count seen beside a publication is its index, or one less if it was loaded early. */
  predicate Close(before: int, updates: int, early: bool) {
    updates == before / 2 - if early then 1 else 0
  }

  /** What a reader has copied is the publication it started under, if the sequence number
      has not moved; afterwards it stays what it was. */
  ghost predicate StageOk(s: Shared, at: Stage) {
    match at
    case Away => true
    case Trying(attempt) => attempt < ATTEMPTS && s.published != []
    case Copying(attempt, before, copied) =>
      && attempt < ATTEMPTS && Numbers(s, before) && |copied| <= 3
      && (s.sequence == before ==> copied == s.published[before / 2 - 1][..|copied|])
    case Copied(attempt, before, v, updates, early) =>
      && attempt < ATTEMPTS && Numbers(s, before)
      && (s.sequence == before ==> v == s.published[before / 2 - 1] && Close(before, updates, early))
    case Unmoved(attempt, before, v, updates, early) =>
      && attempt < ATTEMPTS && Numbers(s, before)
      && v == s.published[before / 2 - 1] && Close(before, updates, early)
  }

  ghost predicate ReadOk(s: Shared, read: Read) {
    && Numbers(s, read.before) && read.v == s.published[read.before / 2 - 1]
    && Close(read.before, read.updates, read.early)
  }

  /** Reads of one reader never go back, and the read in progress does not either. */
  ghost predicate InOrder(seen: seq<Read>, at: Stage) {
    && (forall i, j | 0 <= i < j < |seen| :: seen[i].before <= seen[j].before)
    && (at.Copying? || at.Copied? || at.Unmoved? ==> forall i | 0 <= i < |seen| :: seen[i].before <= at.before)
  }

  ghost predicate ReaderOk(s: Shared, r: Reader) {
    && StageOk(s, r.stage)
    && (forall k | 0 <= k < |r.seen| :: ReadOk(s, r.seen[k]))
    && InOrder(r.seen, r.stage)
  }

  ghost predicate ReadersOk(s: Shared) {
    forall r :: ReaderOk(s, Of(s, r))
  }

  ghost predicate SeqInv(s: Shared) {
    WriterOk(s) && ReadersOk(s)
  }

  // ---- every access keeps them ----

  /** The writer moves: publications stay, and while the sequence number stays so does all
      that a reader of it can see. */
  lemma WriterMoves(s: Shared, s': Shared)
    requires SeqInv(s) && s'.readers == s.readers
    requires s.published <= s'.published && s.sequence <= s'.sequence
    ensures ReadersOk(s')
  {
    forall r ensures ReaderOk(s', Of(s', r)) {
      assert Of(s', r) == Of(s, r) && ReaderOk(s, Of(s, r));
      var read := Of(s, r);
      assert StageOk(s', read.stage) by {
        if !read.stage.Away? && !read.stage.Trying? {
          assert Numbers(s, read.stage.before);
          assert s'.published[read.stage.before / 2 - 1] == s.published[read.stage.before / 2 - 1];
        }
      }
      forall k | 0 <= k < |read.seen| ensures ReadOk(s', read.seen[k]) {
        assert ReadOk(s, read.seen[k]);
      }
    }
  }

  /** One reader moves. */
  lemma ReaderMoves(s: Shared, s': Shared, r: Rid)
    requires ReadersOk(s)
    requires s' == s.(readers := s.readers[r := Of(s', r)])
    requires ReaderOk(s', Of(s', r))
    ensures ReadersOk(s')
  {
    forall q ensures ReaderOk(s', Of(s', q)) {
      if q != r {
        assert Of(s', q) == Of(s, q) && ReaderOk(s, Of(s, q));
      }
    }
  }

  lemma UnavailableKeeps(s: Shared)
    requires SeqInv(s)
    ensures SeqInv(DoUnavailable(s))
  {
    WriterMoves(s, DoUnavailable(s));
  }

  lemma InvalidateKeeps(s: Shared, v: Vector)
    requires SeqInv(s)
    ensures SeqInv(DoInvalidate(s, v))
  {
    WriterMoves(s, DoInvalidate(s, v));
  }

  lemma SequenceOddKeeps(s: Shared)
    requires SeqInv(s)
    ensures SeqInv(DoSequenceOdd(s))
  {
    WriterMoves(s, DoSequenceOdd(s));
  }

  lemma StoreCoordinateKeeps(s: Shared)
    requires SeqInv(s)
    ensures SeqInv(DoStoreCoordinate(s))
  {
    var s' := DoStoreCoordinate(s);
    WriterMoves(s, s');
    if s.writer.Storing? && s.writer.stored < 3 {
      var n := s.writer.stored;
      assert s'.tuple[..n] == s.tuple[..n];
      assert s'.tuple[..n + 1] == s'.tuple[..n] + [s.writer.v[n]] == s.writer.v[..n + 1];
    }
  }

  lemma SequenceEvenKeeps(s: Shared)
    requires SeqInv(s)
    ensures SeqInv(DoSequenceEven(s))
  {
    WriterMoves(s, DoSequenceEven(s));
    if s.writer.Storing? && s.writer.stored == 3 {
      assert s.tuple == s.tuple[..3] && s.writer.v == s.writer.v[..3];
    }
  }

  lemma CountKeeps(s: Shared)
    requires SeqInv(s)
    ensures SeqInv(DoCount(s))
  {
    WriterMoves(s, DoCount(s));
  }

  lemma ValidateKeeps(s: Shared)
    requires SeqInv(s)
    ensures SeqInv(DoValidate(s))
  {
    WriterMoves(s, DoValidate(s));
  }

  lemma LoadValidKeeps(s: Shared, r: Rid)
    requires SeqInv(s)
    ensures SeqInv(DoLoadValid(s, r))
  {
    assert ReaderOk(s, Of(s, r));
    if DoLoadValid(s, r) != s {
      ReaderMoves(s, DoLoadValid(s, r), r);
    }
  }

  lemma LoadBeforeKeeps(s: Shared, r: Rid)
    requires SeqInv(s)
    ensures SeqInv(DoLoadBefore(s, r))
  {
    var s' := DoLoadBefore(s, r);
    assert ReaderOk(s, Of(s, r));
    if Of(s, r).stage.Trying? {
      forall k | 0 <= k < |Of(s, r).seen|
        ensures ReadOk(s', Of(s, r).seen[k]) && Of(s, r).seen[k].before <= s.sequence
      {
        assert ReadOk(s, Of(s, r).seen[k]);
      }
      ReaderMoves(s, s', r);
    }
  }

  lemma LoadCoordinateKeeps(s: Shared, r: Rid)
    requires SeqInv(s)
    ensures SeqInv(DoLoadCoordinate(s, r))
  {
    var s' := DoLoadCoordinate(s, r);
    assert ReaderOk(s, Of(s, r));
    forall k | 0 <= k < |Of(s, r).seen| ensures ReadOk(s', Of(s, r).seen[k]) {
      assert ReadOk(s, Of(s, r).seen[k]);
    }
    if s' != s {
      ReaderMoves(s, s', r);
    }
  }

  lemma LoadUpdatesKeeps(s: Shared, r: Rid)
    requires SeqInv(s)
    ensures SeqInv(DoLoadUpdates(s, r))
  {
    var s' := DoLoadUpdates(s, r);
    assert ReaderOk(s, Of(s, r));
    forall k | 0 <= k < |Of(s, r).seen| ensures ReadOk(s', Of(s, r).seen[k]) {
      assert ReadOk(s, Of(s, r).seen[k]);
    }
    if s' != s {
      ReaderMoves(s, s', r);
    }
  }

  lemma LoadAfterKeeps(s: Shared, r: Rid)
    requires SeqInv(s)
    ensures SeqInv(DoLoadAfter(s, r))
  {
    var s' := DoLoadAfter(s, r);
    assert ReaderOk(s, Of(s, r));
    forall k | 0 <= k < |Of(s, r).seen| ensures ReadOk(s', Of(s, r).seen[k]) {
      assert ReadOk(s, Of(s, r).seen[k]);
    }
    if s' != s {
      ReaderMoves(s, s', r);
    }
  }

  lemma LoadStillValidKeeps(s: Shared, r: Rid)
    requires SeqInv(s)
    ensures SeqInv(DoLoadStillValid(s, r))
  {
    var s' := DoLoadStillValid(s, r);
    assert ReaderOk(s, Of(s, r));
    forall k | 0 <= k < |Of(s', r).seen| ensures ReadOk(s', Of(s', r).seen[k]) {
      if k < |Of(s, r).seen| {
        assert ReadOk(s, Of(s, r).seen[k]);
      }
    }
    if s' != s {
      ReaderMoves(s, s', r);
    }
  }

  lemma AccessKeepsInv(s: Shared, a: Access)
    requires SeqInv(s)
    ensures SeqInv(Next(s, a))
  {
    match a
    case Unavailable => UnavailableKeeps(s);
    case Invalidate(v) => InvalidateKeeps(s, v);
    case SequenceOdd => SequenceOddKeeps(s);
    case StoreCoordinate => StoreCoordinateKeeps(s);
    case SequenceEven => SequenceEvenKeeps(s);
    case Count => CountKeeps(s);
    case Validate => ValidateKeeps(s);
    case LoadValid(r) => LoadValidKeeps(s, r);
    case LoadBefore(r) => LoadBeforeKeeps(s, r);
    case LoadCoordinate(r) => LoadCoordinateKeeps(s, r);
    case LoadUpdates(r) => LoadUpdatesKeeps(s, r);
    case LoadAfter(r) => LoadAfterKeeps(s, r);
    case LoadStillValid(r) => LoadStillValidKeeps(s, r);
  }

  lemma {:induction false} AfterKeepsInv(s: Shared, accesses: seq<Access>)
    requires SeqInv(s)
    ensures SeqInv(After(s, accesses))
    decreases |accesses|
  {
    if accesses != [] {
      AccessKeepsInv(s, accesses[0]);
      AfterKeepsInv(Next(s, accesses[0]), accesses[1..]);
    }
  }

  lemma PossibleInv(s: Shared)
    requires Possible(s)
    ensures SeqInv(s)
  {
    var accesses :| s == After(Zeroed(), accesses);
    AfterKeepsInv(Zeroed(), accesses);
  }

  // ---- what the sequence number is for ----

  /** Every successful read returns the coordinates of one single publication; its count is
      that publication's index exactly if it was not loaded between the writer's second
      increment of the sequence and its count, and otherwise one less; and one reader's
      reads never go back to an older publication. */
  lemma ReadsAreWhole(s: Shared, r: Rid)
    requires Possible(s)
    ensures forall k | 0 <= k < |Of(s, r).seen| ::
              var read := Of(s, r).seen[k];
              && 1 <= read.before / 2 <= |s.published|
              && read.v == s.published[read.before / 2 - 1]
              && read.updates == read.before / 2 - (if read.early then 1 else 0)
    ensures forall i, j | 0 <= i < j < |Of(s, r).seen| :: Of(s, r).seen[i].before <= Of(s, r).seen[j].before
  {
    PossibleInv(s);
    assert ReaderOk(s, Of(s, r));
    forall k | 0 <= k < |Of(s, r).seen| ensures ReadOk(s, Of(s, r).seen[k]) {
    }
  }

  /** A reader makes at most 20 attempts, and none before something was published. */
  lemma AttemptsAreBounded(s: Shared, r: Rid)
    requires Possible(s) && !Of(s, r).stage.Away?
    ensures Of(s, r).stage.attempt < ATTEMPTS && s.published != []
  {
    PossibleInv(s);
    assert ReaderOk(s, Of(s, r));
  }

  /** The copying half of an attempt, undisturbed. */
  function Copies(s: Shared, r: Rid): Shared {
    DoLoadUpdates(DoLoadCoordinate(DoLoadCoordinate(DoLoadCoordinate(DoLoadBefore(s, r), r), r), r), r)
  }

  lemma CopiesNext(s: Shared, r: Rid, attempt: nat, n: nat)
    requires n < 3
    ensures DoLoadCoordinate(Goes(s, r, Stage.Copying(attempt, s.sequence, s.tuple[..n])), r)
            == Goes(s, r, Stage.Copying(attempt, s.sequence, s.tuple[..n + 1]))
  {
    assert s.tuple[..n] + [s.tuple[n]] == s.tuple[..n + 1];
    GoesTwice(s, r, Stage.Copying(attempt, s.sequence, s.tuple[..n]),
              Stage.Copying(attempt, s.sequence, s.tuple[..n + 1]));
  }

  lemma GoesTwice(s: Shared, r: Rid, a: Stage, b: Stage)
    ensures Goes(Goes(s, r, a), r, b) == Goes(s, r, b)
  {
  }

  lemma CopiesLast(s: Shared, r: Rid)
    requires SeqInv(s) && !s.writer.Storing? && Of(s, r).stage.Trying?
    ensures s.published != []
    ensures Copies(s, r)
            == Goes(s, r, Copied(Of(s, r).stage.attempt, s.sequence, s.published[|s.published| - 1], s.updates,
                                 s.writer.Sequenced?))
  {
    StableOutsideStores(s, r);
    var n := Of(s, r).stage.attempt;
    Begins(s, r, n);
    CopiesAll(s, r, n);
    LoadsUpdates(s, r, n);
  }

  lemma StableOutsideStores(s: Shared, r: Rid)
    requires SeqInv(s) && !s.writer.Storing? && Of(s, r).stage.Trying?
    ensures s.published != [] && s.sequence % 2 == 0 && s.tuple == s.published[|s.published| - 1]
  {
    assert ReaderOk(s, Of(s, r));
  }

  lemma Begins(s: Shared, r: Rid, n: nat)
    requires Of(s, r).stage == Trying(n) && s.sequence % 2 == 0
    ensures DoLoadBefore(s, r) == Goes(s, r, Stage.Copying(n, s.sequence, []))
  {
  }

  lemma CopiesAll(s: Shared, r: Rid, n: nat)
    ensures DoLoadCoordinate(DoLoadCoordinate(DoLoadCoordinate(Goes(s, r, Stage.Copying(n, s.sequence, [])), r), r), r)
            == Goes(s, r, Stage.Copying(n, s.sequence, s.tuple))
  {
    assert s.tuple[..0] == [] && s.tuple[..3] == s.tuple;
    CopiesNext(s, r, n, 0);
    CopiesNext(s, r, n, 1);
    CopiesNext(s, r, n, 2);
  }

  lemma LoadsUpdates(s: Shared, r: Rid, n: nat)
    ensures DoLoadUpdates(Goes(s, r, Stage.Copying(n, s.sequence, s.tuple)), r)
            == Goes(s, r, Copied(n, s.sequence, s.tuple, s.updates, s.writer.Sequenced?))
  {
    GoesTwice(s, r, Stage.Copying(n, s.sequence, s.tuple),
              Copied(n, s.sequence, s.tuple, s.updates, s.writer.Sequenced?));
  }

  /** An attempt that the writer does not disturb succeeds at once, with the last
      publication and its index. */
  lemma QuietReadIsCurrent(s: Shared, r: Rid)
    requires Possible(s) && s.valid && Of(s, r).stage.Trying?
    ensures s.published != []
    ensures
      var s' := DoLoadStillValid(DoLoadAfter(Copies(s, r), r), r);
      Of(s', r).seen
      == Of(s, r).seen + [Read(s.published[|s.published| - 1], |s.published|, 2 * |s.published|, false)]
  {
    PossibleInv(s);
    CopiesLast(s, r);
  }

  /** A reader whose copy is still good finds the count at the publication's index exactly
      unless the writer is between making the sequence even and counting. */
  lemma CountLagsIff(s: Shared, r: Rid)
    requires Possible(s) && Of(s, r).stage.Copying? && s.sequence == Of(s, r).stage.before
    ensures s.updates == s.sequence / 2 <==> !s.writer.Sequenced?
    ensures s.writer.Sequenced? ==> s.updates == s.sequence / 2 - 1
  {
    PossibleInv(s);
    assert ReaderOk(s, Of(s, r));
  }

  /** The count can lag: an attempt that copies between the second sequence increment and
      the count, and checks after both, returns the new position with the old count. */
  lemma CountCanLag(s: Shared, r: Rid)
    requires Possible(s) && s.writer.Sequenced? && Of(s, r).stage.Trying?
    ensures s.published != []
    ensures
      var s' := DoLoadStillValid(DoLoadAfter(DoValidate(DoCount(Copies(s, r))), r), r);
      Of(s', r).seen
      == Of(s, r).seen + [Read(s.published[|s.published| - 1], |s.published| - 1, 2 * |s.published|, true)]
  {
    PossibleInv(s);
    CopiesLast(s, r);
  }

  /** An attempt that finds the sequence odd, or moved since its copy, or the position withdrawn,
      is followed by another exactly if it was not the twentieth. */
  lemma RetriesIff(s: Shared, r: Rid)
    ensures
      var at := Of(s, r).stage;
      var again := if !at.Away? && at.attempt < 19 then Trying(at.attempt + 1) else Away;
      && (at.Trying? && s.sequence % 2 != 0 ==> Of(DoLoadBefore(s, r), r).stage == again)
      && (at.Copied? && at.before != s.sequence ==> Of(DoLoadAfter(s, r), r).stage == again)
      && (at.Unmoved? && !s.valid ==> Of(DoLoadStillValid(s, r), r).stage == again)
  {
  }

  // ---- a position that is withdrawn ----

  /** While the position is withdrawn no read begins and none completes: until the writer
      validates another, over every run. */
  lemma {:induction false} WithdrawnReadsNothing(s: Shared, accesses: seq<Access>, r: Rid)
    requires !s.valid && Validate !in accesses
    ensures !After(s, accesses).valid && Of(After(s, accesses), r).seen == Of(s, r).seen
    ensures Of(s, r).stage.Away? ==> Of(After(s, accesses), r).stage.Away?
    decreases |accesses|
  {
    if accesses != [] {
      assert accesses[0] in accesses;
      WithdrawnStep(s, accesses[0], r);
      WithdrawnReadsNothing(Next(s, accesses[0]), accesses[1..], r);
    }
  }

  lemma WithdrawnStep(s: Shared, a: Access, r: Rid)
    requires !s.valid && !a.Validate?
    ensures !Next(s, a).valid && Of(Next(s, a), r).seen == Of(s, r).seen
    ensures Of(s, r).stage.Away? ==> Of(Next(s, a), r).stage.Away?
  {
  }

  /** A position is withdrawn for as long as another is being stored, and when there is none. */
  lemma WithdrawnWhileStoring(s: Shared, v: Vector)
    requires Possible(s)
    ensures !s.writer.AtRest? ==> !s.valid
    ensures !DoUnavailable(s).valid && (s.writer.AtRest? && IsPublishable(v) ==> !DoInvalidate(s, v).valid)
  {
    var accesses: seq<Access> :| s == After(Zeroed(), accesses);
    StoringIsWithdrawn(Zeroed(), accesses);
  }

  lemma {:induction false} StoringIsWithdrawn(s: Shared, accesses: seq<Access>)
    requires !s.writer.AtRest? ==> !s.valid
    ensures !After(s, accesses).writer.AtRest? ==> !After(s, accesses).valid
    decreases |accesses|
  {
    if accesses != [] {
      StoringStep(s, accesses[0]);
      StoringIsWithdrawn(Next(s, accesses[0]), accesses[1..]);
    }
  }

  lemma StoringStep(s: Shared, a: Access)
    requires !s.writer.AtRest? ==> !s.valid
    ensures !Next(s, a).writer.AtRest? ==> !Next(s, a).valid
  {
  }

  // ---- a read that lags ----

  lemma {:induction false} AfterAppend(s: Shared, a: seq<Access>, b: seq<Access>)
    ensures After(s, a + b) == After(After(s, a), b)
    decreases |a|
  {
    if a == [] {
      assert a + b == b;
    } else {
      assert (a + b)[1..] == a[1..] + b;
      AfterAppend(Next(s, a[0]), a[1..], b);
    }
  }

  lemma AfterNext(s: Shared, a: Access, rest: seq<Access>)
    ensures After(s, [a] + rest) == After(Next(s, a), rest)
  {
    assert ([a] + rest)[1..] == rest;
  }

  lemma AfterTwo(s: Shared, a: Access, b: Access)
    ensures After(s, [a, b]) == Next(Next(s, a), b)
  {
    assert [a, b] == [a] + ([b] + []);
    AfterNext(s, a, [b] + []);
    AfterNext(Next(s, a), b, []);
  }

  lemma AfterThree(s: Shared, a: Access, b: Access, c: Access)
    ensures After(s, [a, b, c]) == Next(Next(Next(s, a), b), c)
  {
    assert [a, b, c] == [a] + [b, c];
    AfterNext(s, a, [b, c]);
    AfterTwo(Next(s, a), b, c);
  }

  const HERE: Vector := [Finite(1.0), Finite(1.0), Finite(1.0)]

  const STORES := [Invalidate(HERE), SequenceOdd, StoreCoordinate] + [StoreCoordinate, StoreCoordinate, SequenceEven]

  lemma AfterStores(s: Shared)
    requires s.writer.AtRest?
    ensures After(s, STORES) == s.(valid := false, sequence := s.sequence + 2, tuple := HERE,
                                   writer := Sequenced, published := s.published + [HERE])
  {
    assert HERE[0] in HERE && IsPublishable(HERE);
    AfterAppend(s, [Invalidate(HERE), SequenceOdd, StoreCoordinate], [StoreCoordinate, StoreCoordinate, SequenceEven]);
    AfterThree(s, Invalidate(HERE), SequenceOdd, StoreCoordinate);
    var t := s.(valid := false, sequence := s.sequence + 1, tuple := s.tuple[0 := HERE[0]], writer := Storing(HERE, 1));
    assert Next(Next(Next(s, Invalidate(HERE)), SequenceOdd), StoreCoordinate) == t;
    AfterThree(t, StoreCoordinate, StoreCoordinate, SequenceEven);
    assert s.tuple[0 := HERE[0]][1 := HERE[1]][2 := HERE[2]] == HERE;
  }

  function CopySteps(r: Rid): seq<Access> {
    [LoadBefore(r), LoadCoordinate(r)] + [LoadCoordinate(r), LoadCoordinate(r), LoadUpdates(r)]
  }

  lemma AfterCopies(s: Shared, r: Rid)
    ensures After(s, CopySteps(r)) == Copies(s, r)
  {
    AfterAppend(s, [LoadBefore(r), LoadCoordinate(r)], [LoadCoordinate(r), LoadCoordinate(r), LoadUpdates(r)]);
    AfterTwo(s, LoadBefore(r), LoadCoordinate(r));
    AfterThree(DoLoadCoordinate(DoLoadBefore(s, r), r), LoadCoordinate(r), LoadCoordinate(r), LoadUpdates(r));
  }

  /** From zeroed memory: two publications, and a read between the second one and its count
      returns the second position with the count of the first. */
  lemma LaggingRead() returns (accesses: seq<Access>)
    ensures Of(After(Zeroed(), accesses), 0).seen == [Read(HERE, 1, 4, true)]
  {
    var first := STORES + [Count, Validate, LoadValid(0)];
    AfterStores(Zeroed());
    AfterAppend(Zeroed(), STORES, [Count, Validate, LoadValid(0)]);
    AfterThree(After(Zeroed(), STORES), Count, Validate, LoadValid(0));
    var s := After(Zeroed(), first);
    assert s.writer.AtRest? && s.valid && Of(s, 0) == Reader(Trying(0), []) && s.published == [HERE];
    AfterStores(s);
    AfterAppend(Zeroed(), first, STORES);
    var t := After(s, STORES);
    assert Possible(t) && |t.published| == 2;
    LagCompletes(t);
    accesses := (first + STORES) + (CopySteps(0) + ([Count, Validate] + [LoadAfter(0), LoadStillValid(0)]));
    AfterAppend(Zeroed(), first + STORES, CopySteps(0) + ([Count, Validate] + [LoadAfter(0), LoadStillValid(0)]));
  }

  lemma LagCompletes(t: Shared)
    requires Possible(t) && t.writer.Sequenced? && Of(t, 0) == Reader(Trying(0), []) && |t.published| == 2
    requires t.published[1] == HERE
    ensures Of(After(t, CopySteps(0) + ([Count, Validate] + [LoadAfter(0), LoadStillValid(0)])), 0).seen
            == [Read(HERE, 1, 4, true)]
  {
    AfterAppend(t, CopySteps(0), [Count, Validate] + [LoadAfter(0), LoadStillValid(0)]);
    AfterCopies(t, 0);
    AfterLag(Copies(t, 0));
    CountCanLag(t, 0);
  }

  lemma AfterLag(u: Shared)
    ensures After(u, [Count, Validate] + [LoadAfter(0), LoadStillValid(0)])
            == DoLoadStillValid(DoLoadAfter(DoValidate(DoCount(u)), 0), 0)
  {
    AfterAppend(u, [Count, Validate], [LoadAfter(0), LoadStillValid(0)]);
    AfterTwo(u, Count, Validate);
    AfterTwo(DoValidate(DoCount(u)), LoadAfter(0), LoadStillValid(0));
  }
}
