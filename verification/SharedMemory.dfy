/** The code on either side of the shared memory, run without interference: what it leaves
    behind is what the steps of the two protocols leave behind, taken in order. */
module SharedMemory {
  import opened Wrappers
  import opened Mailbox
  import opened MailboxProofs
  import Seqlock

  function Triple(a: Coordinate, b: Coordinate, c: Coordinate): Vector {
    [a, b, c]
  }

  lemma TripleOf(v: Vector)
    ensures Triple(v[0], v[1], v[2]) == v
  {
  }

  /** What is accepted, coordinate by coordinate. */
  lemma RequestIff(v: Vector)
    ensures IsValidRequest(v) <==> forall i | 0 <= i < 3 :: v[i].Finite? && -200000.0 <= v[i].value <= 200000.0
  {
    if IsValidRequest(v) {
      forall i | 0 <= i < 3 ensures v[i].Finite? && -200000.0 <= v[i].value <= 200000.0 {
        assert v[i] in v;
      }
    }
  }

  lemma NearIff(v: Vector, requested: Vector)
    ensures Near(v, requested) <==> forall i | 0 <= i < 3 ::
              v[i].Finite? && requested[i].Finite? && requested[i].value - 2.0 <= v[i].value <= requested[i].value + 2.0
  {
  }

  /** What is published, coordinate by coordinate. */
  lemma PublishableIff(v: Vector)
    ensures Seqlock.IsPublishable(v) <==> (forall i | 0 <= i < 3 :: v[i].Finite?)
                                          && !(forall i | 0 <= i < 3 :: v[i] == Finite(0.0))
  {
    assert v[0] in v && v[1] in v && v[2] in v;
  }

  // ---- the position ----

  function WithPosition(s: Seqlock.Shared, v: Vector): Seqlock.Shared {
    s.(valid := true, sequence := s.sequence + 2, tuple := v, updates := s.updates + 1, published := s.published + [v])
  }

  /** The steps of the writer, in order, publish. */
  lemma WriterPublishes(s: Seqlock.Shared, v: Vector)
    requires s.writer.AtRest? && Seqlock.IsPublishable(v)
    ensures
      var odd := Seqlock.DoSequenceOdd(Seqlock.DoInvalidate(s, v));
      var stored := Seqlock.DoStoreCoordinate(Seqlock.DoStoreCoordinate(Seqlock.DoStoreCoordinate(odd)));
      Seqlock.DoValidate(Seqlock.DoCount(Seqlock.DoSequenceEven(stored))) == WithPosition(s, v)
  {
    var s1 := Seqlock.DoSequenceOdd(Seqlock.DoInvalidate(s, v));
    assert s1 == s.(valid := false, sequence := s.sequence + 1, writer := Seqlock.Storing(v, 0));
    var s2 := Seqlock.DoStoreCoordinate(s1);
    assert s2 == s1.(tuple := s.tuple[0 := v[0]], writer := Seqlock.Storing(v, 1));
    var s3 := Seqlock.DoStoreCoordinate(s2);
    assert s3 == s1.(tuple := s.tuple[0 := v[0]][1 := v[1]], writer := Seqlock.Storing(v, 2));
    assert s.tuple[0 := v[0]][1 := v[1]][2 := v[2]] == v;
  }

  class SharedPosition {
    var valid: bool
    var sequence: int
    var x: Coordinate
    var y: Coordinate
    var z: Coordinate
    var updates: int
    /** The readers, and what has been published. */
    ghost var readers: map<Seqlock.Rid, Seqlock.Reader>
    ghost var published: seq<Vector>

    constructor ()
      ensures View() == Seqlock.Zeroed()
    {
      valid, sequence, updates, readers, published := false, 0, 0, map[], [];
      x, y, z := Finite(0.0), Finite(0.0), Finite(0.0);
    }

    /** The shared fields between two publications. */
    ghost function View(): Seqlock.Shared
      reads this
    {
      Seqlock.Shared(valid, sequence, Triple(x, y, z), updates, Seqlock.AtRest, readers, published)
    }

    /** `current` is what the game says, if it says anything. */
    method PublishPosition(current: Option<Vector>) returns (ok: bool)
      modifies this
      ensures ok == (current.Some? && Seqlock.IsPublishable(current.value))
      ensures ok <==> current.Some? && (forall i | 0 <= i < 3 :: current.value[i].Finite?)
                      && !(forall i | 0 <= i < 3 :: current.value[i] == Finite(0.0))
      ensures View() == if ok then WithPosition(old(View()), current.value) else Seqlock.DoUnavailable(old(View()))
    {
      if current.Some? {
        PublishableIff(current.value);
      }
      if current.None? || !Seqlock.IsPublishable(current.value) {
        valid := false;
        return false;
      }
      var v := current.value;
      valid := false;
      sequence := sequence + 1;
      x := v[0];
      y := v[1];
      z := v[2];
      sequence := sequence + 1;
      updates := updates + 1;
      valid := true;
      published := published + [v];
      TripleOf(v);
      return true;
    }
  }

  // ---- the mailbox ----

  /** The position read back is one, and close enough to the one asked for. */
  predicate Landed(position: Option<Vector>, requested: Vector) {
    position.Some? && Seqlock.IsPublishable(position.value) && Near(position.value, requested)
  }

  function Queued(s: State, c: Cid, v: Vector): State {
    s.(controllers := s.controllers[c := Waiting(v, s.request + 2)], request := s.request + 2,
       owner := None, tuple := v, published := s.published + [v])
  }

  /** The steps of a controller, in order, queue. */
  lemma ControllerQueues(s: State, c: Cid, v: Vector)
    requires Inv(s) && At(s, c).Idle? && IsValidRequest(v) && s.request == s.completed <= LONG_MAX - 2
    ensures Queues(s, c, v) == Queued(s, c, v)
  {
    QueuesRequest(s, c, v);
  }

  function Served(s: State, ok: bool): State {
    s.(succeeded := ok, completed := s.request, applied := s.applied + [s.tuple], results := s.results + [ok])
  }

  /** The steps of a tick, in order, serve. */
  lemma TickServes(s: State, ok: bool)
    requires Inv(s) && s.tick.Resting? && s.request == s.completed + 2
    ensures DoTickAcknowledge(Serves(s, ok)) == Served(s, ok)
  {
    ServesTuple(s, ok);
  }

  class SharedMailbox {
    var x: Coordinate
    var y: Coordinate
    var z: Coordinate
    var requestId: int
    var completedId: int
    var succeeded: bool
    /** The controllers and what has happened. */
    ghost var rest: State

    constructor ()
      ensures View() == Init()
    {
      x, y, z := Finite(0.0), Finite(0.0), Finite(0.0);
      requestId, completedId, succeeded, rest := 0, 0, false, Init();
    }

    ghost function View(): State
      reads this
    {
      rest.(tuple := Triple(x, y, z), request := requestId, completed := completedId, succeeded := succeeded)
    }

    /** Up to the publication of the request; the waiting comes after. */
    method QueueTeleport(ghost c: Cid, v: Vector) returns (queued: bool)
      modifies this
      ensures queued == (IsValidRequest(v) && old(requestId) % 2 == 0
                         && old(requestId) == old(completedId) <= LONG_MAX - 2)
      ensures queued ==> forall i | 0 <= i < 3 :: v[i].Finite? && -200000.0 <= v[i].value <= 200000.0
      ensures View() == if queued then Queued(old(View()), c, v) else old(View())
    {
      RequestIff(v);
      if !IsValidRequest(v) {
        return false;
      }
      var previous := requestId;
      if previous % 2 != 0 || previous != completedId {
        return false;
      }
      if previous > LONG_MAX - 2 {
        return false;
      }
      requestId := previous + 1;
      x := v[0];
      y := v[1];
      z := v[2];
      requestId := previous + 2;
      TripleOf(v);
      rest := Queued(View(), c, v).(controllers := rest.controllers[c := Waiting(v, previous + 2)]);
      return true;
    }

    /** `after` is what the game says its position is once SetPosition has been called. */
    method ProcessTeleport(position: SharedPosition, after: Option<Vector>)
      requires Inv(View()) && rest.tick.Resting?
      modifies this, position
      ensures var before := old(View());
              View() == if before.request == before.completed + 2 then Served(before, Landed(after, before.tuple))
                        else before
      ensures var before := old(position.View());
              position.View() == if old(View().request != View().completed + 2) then before
                                 else if after.Some? && Seqlock.IsPublishable(after.value) then
                                   WithPosition(before, after.value)
                                 else Seqlock.DoUnavailable(before)
    {
      var id := requestId;
      if id == 0 || id % 2 != 0 || id == completedId {
        return;
      }
      var requested := Triple(x, y, z);
      if id != requestId {
        return;
      }
      PendingIsValid(View());
      var ok := false;
      if ValidTeleport(requested) {
        rest := rest.(applied := rest.applied + [requested]);
        var published := position.PublishPosition(after);
        ok := published && IsNear(position.x, requested[0]) && IsNear(position.y, requested[1])
              && IsNear(position.z, requested[2]);
        assert published ==> Triple(position.x, position.y, position.z) == after.value by {
          assert published ==> position.View().tuple == after.value;
        }
      }
      succeeded := ok;
      completedId := id;
      rest := rest.(results := rest.results + [ok]);
    }
  }

  lemma PendingIsValid(s: State)
    requires Inv(s) && s.request % 2 == 0 && s.request != s.completed
    ensures s.request == s.completed + 2 && ValidTeleport(s.tuple)
  {
    assert s.tuple == s.published[|s.published| - 1];
    RequestImpliesTeleport(s.tuple);
  }
}
