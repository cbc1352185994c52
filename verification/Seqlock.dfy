/** The position that the tick thread publishes under a sequence number, and the readers that
    copy it without a lock. Every access to a shared field is one step; steps interleave
    freely, are sequentially consistent, and the counters do not wrap. */
module Seqlock {
  import opened Wrappers
  import opened Mailbox

  type Rid = int

  const ATTEMPTS := 20

  /** A position the tick thread publishes: finite, and not the origin. */
  predicate IsPublishable(v: Vector) {
    (forall c | c in v :: c.Finite?) && exists c | c in v :: c != Finite(0.0)
  }

  datatype Writer =
    | AtRest
    | Invalidated(v: Vector)
    | Storing(v: Vector, stored: nat)
    | Sequenced
    | Counted

  /** Where a reader is in `ReadPositionSnapshot`. `early` is history: when the count was
      loaded, the writer had made the sequence even and not counted yet. */
  datatype Stage =
    | Away
    | Trying(attempt: nat)
    | Copying(attempt: nat, before: int, copied: seq<Coordinate>)
    | Copied(attempt: nat, before: int, v: Vector, updates: int, early: bool)
    | Unmoved(attempt: nat, before: int, v: Vector, updates: int, early: bool)

  /** What a successful read returned, the sequence number it read under, and `early`. */
  datatype Read = Read(v: Vector, updates: int, before: int, early: bool)

  datatype Reader = Reader(stage: Stage, seen: seq<Read>)

  /** `published` is history: the positions stored, in order. */
  datatype Shared = Shared(
    valid: bool,
    sequence: int,
    tuple: Vector,
    updates: int,
    writer: Writer,
    readers: map<Rid, Reader>,
    published: seq<Vector>)

  function Zeroed(): Shared {
    Shared(false, 0, [Finite(0.0), Finite(0.0), Finite(0.0)], 0, AtRest, map[], [])
  }

  datatype Access =
    | Unavailable
    | Invalidate(v: Vector)
    | SequenceOdd
    | StoreCoordinate
    | SequenceEven
    | Count
    | Validate
    | LoadValid(r: Rid)
    | LoadBefore(r: Rid)
    | LoadCoordinate(r: Rid)
    | LoadUpdates(r: Rid)
    | LoadAfter(r: Rid)
    | LoadStillValid(r: Rid)

  function Next(s: Shared, a: Access): Shared {
    match a
    case Unavailable => DoUnavailable(s)
    case Invalidate(v) => DoInvalidate(s, v)
    case SequenceOdd => DoSequenceOdd(s)
    case StoreCoordinate => DoStoreCoordinate(s)
    case SequenceEven => DoSequenceEven(s)
    case Count => DoCount(s)
    case Validate => DoValidate(s)
    case LoadValid(r) => DoLoadValid(s, r)
    case LoadBefore(r) => DoLoadBefore(s, r)
    case LoadCoordinate(r) => DoLoadCoordinate(s, r)
    case LoadUpdates(r) => DoLoadUpdates(s, r)
    case LoadAfter(r) => DoLoadAfter(s, r)
    case LoadStillValid(r) => DoLoadStillValid(s, r)
  }

  function After(s: Shared, accesses: seq<Access>): Shared
    decreases |accesses|
  {
    if accesses == [] then s else After(Next(s, accesses[0]), accesses[1..])
  }

  ghost predicate Possible(s: Shared) {
    exists accesses: seq<Access> :: s == After(Zeroed(), accesses)
  }

  // ---- the writer ----

  /** The position is withdrawn: there is none to publish, or a second thread has seen no
      tick for two seconds, which can be at any time. */
  function DoUnavailable(s: Shared): Shared {
    s.(valid := false)
  }

  function DoInvalidate(s: Shared, v: Vector): Shared {
    if s.writer.AtRest? && IsPublishable(v) then s.(valid := false, writer := Invalidated(v)) else s
  }

  function DoSequenceOdd(s: Shared): Shared {
    if s.writer.Invalidated? then s.(sequence := s.sequence + 1, writer := Storing(s.writer.v, 0)) else s
  }

  function DoStoreCoordinate(s: Shared): Shared {
    if s.writer.Storing? && s.writer.stored < 3 then
      var n := s.writer.stored;
      s.(tuple := s.tuple[n := s.writer.v[n]], writer := Storing(s.writer.v, n + 1))
    else s
  }

  function DoSequenceEven(s: Shared): Shared {
    if s.writer.Storing? && s.writer.stored >= 3 then
      s.(sequence := s.sequence + 1, writer := Sequenced, published := s.published + [s.writer.v])
    else s
  }

  function DoCount(s: Shared): Shared {
    if s.writer.Sequenced? then s.(updates := s.updates + 1, writer := Counted) else s
  }

  function DoValidate(s: Shared): Shared {
    if s.writer.Counted? then s.(valid := true, writer := AtRest) else s
  }

  // ---- the readers ----

  function Of(s: Shared, r: Rid): Reader {
    if r in s.readers then s.readers[r] else Reader(Away, [])
  }

  function Goes(s: Shared, r: Rid, stage: Stage): Shared {
    s.(readers := s.readers[r := Of(s, r).(stage := stage)])
  }

  /** The next attempt, if one is left. */
  function Retry(attempt: nat): Stage {
    if attempt + 1 < ATTEMPTS then Trying(attempt + 1) else Away
  }

  function DoLoadValid(s: Shared, r: Rid): Shared {
    if Of(s, r).stage.Away? && s.valid then Goes(s, r, Trying(0)) else s
  }

  function DoLoadBefore(s: Shared, r: Rid): Shared {
    var at := Of(s, r).stage;
    if !at.Trying? then s
    else if s.sequence % 2 != 0 then Goes(s, r, Retry(at.attempt))
    else Goes(s, r, Stage.Copying(at.attempt, s.sequence, []))
  }

  function DoLoadCoordinate(s: Shared, r: Rid): Shared {
    var at := Of(s, r).stage;
    if !at.Copying? || |at.copied| >= 3 then s
    else Goes(s, r, Stage.Copying(at.attempt, at.before, at.copied + [s.tuple[|at.copied|]]))
  }

  function DoLoadUpdates(s: Shared, r: Rid): Shared {
    var at := Of(s, r).stage;
    if !at.Copying? || |at.copied| != 3 then s
    else Goes(s, r, Copied(at.attempt, at.before, at.copied, s.updates, s.writer.Sequenced?))
  }

  function DoLoadAfter(s: Shared, r: Rid): Shared {
    var at := Of(s, r).stage;
    if !at.Copied? then s
    else if at.before == s.sequence && s.sequence % 2 == 0 then
      Goes(s, r, Unmoved(at.attempt, at.before, at.v, at.updates, at.early))
    else Goes(s, r, Retry(at.attempt))
  }

  function DoLoadStillValid(s: Shared, r: Rid): Shared {
    var at := Of(s, r).stage;
    if !at.Unmoved? then s
    else if !s.valid then Goes(s, r, Retry(at.attempt))
    else
      s.(readers := s.readers[r := Reader(Away, Of(s, r).seen + [Read(at.v, at.updates, at.before, at.early)])])
  }
}
