/** What holds of a room in every reachable state. */
module RoomTheorems {
  import opened Wrappers
  import opened RelayRoom
  import opened RoomSystem
  import opened RoomInvariants
  import opened RoomPreservation

  /** No publish is running. */
  ghost predicate Quiet(s: State) {
    forall p <- s.producers :: !s.producers[p].Publishing?
  }

  ghost predicate Registered(s: State, v: Vid) {
    v in s.watchers && !s.watchers[v].stage.Gone?
  }

  /** The frames a writer receives are frames of this room, each newer than the last. */
  lemma TakenFramesIncrease(s: State, v: Vid)
    requires Reachable(s) && v in s.watchers
    ensures forall i, j | 0 <= i < j < |s.watchers[v].taken| ::
              s.watchers[v].taken[i].generation < s.watchers[v].taken[j].generation
    ensures forall f <- s.watchers[v].taken ::
              1 <= f.generation <= |s.published| && s.published[f.generation - 1] == f
    ensures forall f <- s.watchers[v].taken :: f.generation >= s.watchers[v].joined
  {
    ReachableOk(s, v);
    forall f | f in s.watchers[v].taken ensures f in s.watchers[v].accepted {
      TakenWasAccepted(s.watchers[v], DiscardedFrom(s.discarded, v), f);
    }
  }

  /** Between offers, every frame a slot accepted was received, replaced or is pending. */
  lemma FramesAreConserved(s: State, v: Vid)
    requires Reachable(s) && v in s.watchers && s.watchers[v].mu.None?
    ensures
      var w := s.watchers[v];
      && multiset(w.accepted)
         == multiset(w.taken) + DiscardedFrom(s.discarded, v) + Optional(w.slot.updates)
      && |w.accepted|
         == |w.taken| + |DiscardedFrom(s.discarded, v)| + (if w.slot.updates.Some? then 1 else 0)
  {
    ReachableOk(s, v);
    var w := s.watchers[v];
    assert |multiset(w.accepted)| == |w.accepted| && |multiset(w.taken)| == |w.taken|;
  }

  /** The `default` of the second select is never taken: the channel is empty by then. */
  lemma SecondSelectSends(s: State, v: Vid)
    requires Reachable(s) && v in s.watchers
    requires s.watchers[v].mu.Some? && s.watchers[v].mu.value.drained.Some?
    ensures s.watchers[v].slot.updates == None
    ensures DoSend(s, v).watchers[v].slot.updates == Some(s.watchers[v].mu.value.frame)
  {
    ReachableOk(s, v);
  }

  /** A viewer's own initial offer never replaces a frame, so ignoring its result loses
      nothing: outside a publish the drop metric counts every replaced frame. */
  lemma DropMetricMissesNothing(s: State, v: Vid)
    requires Reachable(s)
    ensures v in s.watchers && SelfOffering(s.watchers[v]) ==> DoDrain(s, v).discarded == s.discarded
    ensures Quiet(s) ==> s.dropMetric == |s.discarded|
  {
    ReachableOk(s, v);
    if v in s.watchers {
      assert SlotOk(s.watchers[v], s.published);
    }
  }

  /** With no publish running, a registered viewer has accepted the room's newest frame,
      which is pending or received, unless nothing was published since it joined. */
  lemma NoViewerLeftBehind(s: State, v: Vid)
    requires Reachable(s) && Quiet(s) && Registered(s, v)
    requires s.watchers[v].joined != s.room.frameGeneration
    ensures
      var w := s.watchers[v];
      && w.slot.newest == s.room.frameGeneration == |s.published| && s.published != []
      && w.mu.None? && PendingOrTaken(w, s.published[|s.published| - 1])
  {
    ReachableOk(s, v);
    assert UpToDate(s, v);
    var w := s.watchers[v];
    NewestWasAccepted(w, DiscardedFrom(s.discarded, v), s.published);
  }

  ghost predicate PendingOrTaken(w: Watcher, f: Frame) {
    || w.slot.updates == Some(f)
    || (w.slot.updates == None && w.taken != [] && w.taken[|w.taken| - 1] == f)
  }

  /** Between offers the newest frame a viewer has accepted, if only the initial one, is
      pending or the last it received. */
  lemma NewestIsPendingOrTaken(s: State, v: Vid)
    requires Reachable(s) && v in s.watchers && s.watchers[v].mu.None? && s.watchers[v].accepted != []
    ensures
      var w := s.watchers[v];
      var newest := w.accepted[|w.accepted| - 1];
      newest.generation == w.slot.newest && PendingOrTaken(w, newest)
  {
    ReachableOk(s, v);
  }

  lemma NewestWasAccepted(w: Watcher, gone: multiset<Frame>, published: seq<Frame>)
    requires HistoryOk(w, gone, published) && w.slot.newest == |published| && w.joined < |published|
    ensures w.accepted != [] && w.accepted[|w.accepted| - 1] == published[|published| - 1]
  {
    assert w.accepted[|w.accepted| - 1] in w.accepted;
  }

  /** At most one handler holds the slot, with the room's current generation; generations
      1, 2, ... were each released once and in order; an older release frees nobody. */
  lemma OneProducer(s: State)
    requires Reachable(s)
    ensures forall p, q | p in s.producers && q in s.producers ::
              !s.producers[p].Released? && !s.producers[q].Released? ==> p == q
    ensures forall p <- s.producers :: !s.producers[p].Released? ==>
              s.room.producerActive && s.producers[p].generation == s.room.producerGeneration
    ensures s.releases == seq(|s.releases|, i => i + 1)
    ensures |s.releases| == s.room.producerGeneration - (if s.room.producerActive then 1 else 0)
    ensures forall g: nat | g < s.room.producerGeneration :: s.room.ReleaseProducer(g) == s.room
  {
    ReachableOk(s, 0);
  }

  /** A room never registers more viewers than its limit, and those registered are the
      handlers that have joined and not left. */
  lemma RoomHoldsItsLimit(s: State)
    requires Reachable(s)
    ensures |s.room.viewers| <= s.room.maxViewers
    ensures forall v :: v in s.room.viewers <==> Registered(s, v)
  {
    ReachableOk(s, 0);
  }

  ghost function ProducerConns(s: State): set<Conn> {
    set p | p in s.producers && s.producers[p].ConnOf().Some? :: s.producers[p].ConnOf().value
  }

  ghost function ViewerConns(s: State): set<Conn> {
    set v | v in s.watchers && s.watchers[v].stage.ConnOf().Some? :: s.watchers[v].stage.ConnOf().value
  }

  /** The connections of the handlers that attached one and have not released it. */
  ghost function AttachedConns(s: State): set<Conn> {
    ViewerConns(s) + ProducerConns(s)
  }

  lemma CollectedIsAttached(s: State)
    requires ProducersOk(s) && RegistryOk(s)
    ensures s.room.Collected() == AttachedConns(s)
  {
    CollectedProducer(s);
    CollectedViewers(s);
  }

  lemma CollectedProducer(s: State)
    requires ProducersOk(s)
    ensures ProducerConns(s) == if s.room.producerConn.Some? then {s.room.producerConn.value} else {}
  {
    forall p | p in s.producers && s.producers[p].ConnOf().Some?
      ensures s.room.producerConn == s.producers[p].ConnOf()
    {
      assert s.holder == Some(p);
    }
    if s.room.producerConn.Some? {
      assert s.producers[s.holder.value].ConnOf() == s.room.producerConn;
    }
  }

  lemma CollectedViewers(s: State)
    requires RegistryOk(s)
    ensures ViewerConns(s) == s.room.conns.Values
  {
    forall c | c in s.room.conns.Values ensures c in ViewerConns(s) {
      var v :| v in s.room.conns && s.room.conns[v] == c;
      assert s.watchers[v].stage.ConnOf() == Some(c);
    }
    forall c | c in ViewerConns(s) ensures c in s.room.conns.Values {
      var v :| v in s.watchers && s.watchers[v].stage.ConnOf() == Some(c);
      assert s.room.conns[v] == c;
    }
  }

  /** A shutdown collects exactly the connections that are attached at that step, and no
      run from there attaches another: every connection attached later is one it closes. */
  lemma ShutdownMissesNoConnection(s: State, steps: seq<Step>)
    requires Reachable(s)
    ensures s.room.Collected() == AttachedConns(s)
    ensures AttachedConns(Run(Do(s, CloseConnections), steps)) <= s.room.Collected()
  {
    ReachableOk(s, 0);
    CollectedIsAttached(s);
    CloseAttachesNothing(s);
    ClosingIsFinal(Do(s, CloseConnections), steps);
  }

  lemma CloseAttachesNothing(s: State)
    ensures Do(s, CloseConnections).room.closing
    ensures AttachedConns(Do(s, CloseConnections)) == AttachedConns(s)
  {
    var s' := Do(s, CloseConnections);
    assert s'.watchers == s.watchers && s'.producers == s.producers;
    assert ViewerConns(s') == ViewerConns(s) && ProducerConns(s') == ProducerConns(s);
  }

  /** From the step that sets `closing` on, no claim, registration or attachment succeeds,
      so a run attaches no connection the shutdown did not collect. */
  lemma {:induction false} ClosingIsFinal(s: State, steps: seq<Step>)
    requires s.room.closing
    ensures
      var s' := Run(s, steps);
      && s'.room.closing
      && s'.room.ClaimProducer().1 == Err(RoomClosing)
      && s'.producers.Keys == s.producers.Keys && s'.watchers.Keys == s.watchers.Keys
      && AttachedConns(s') <= AttachedConns(s)
    decreases |steps|
  {
    if steps != [] {
      ClosedStepAttachesNothing(s, steps[0]);
      ClosingIsFinal(Do(s, steps[0]), steps[1..]);
    }
  }

  lemma ClosedStepAttachesNothing(s: State, step: Step)
    requires s.room.closing
    ensures
      var s' := Do(s, step);
      && s'.room.closing
      && s'.producers.Keys == s.producers.Keys && s'.watchers.Keys == s.watchers.Keys
      && AttachedConns(s') <= AttachedConns(s)
  {
    var s' := Do(s, step);
    ClosedStepAddsNobody(s, step);
    forall c | c in AttachedConns(s') ensures c in AttachedConns(s) {
      if p :| p in s'.producers && s'.producers[p].ConnOf() == Some(c) {
        ClosedStepKeepsProducerConn(s, step, p);
        assert s.producers[p].ConnOf() == Some(c);
      } else {
        var v :| v in s'.watchers && s'.watchers[v].stage.ConnOf() == Some(c);
        ClosedStepKeepsViewerConn(s, step, v);
        assert s.watchers[v].stage.ConnOf() == Some(c);
      }
    }
  }

  lemma ClosedStepAddsNobody(s: State, step: Step)
    requires s.room.closing
    ensures
      var s' := Do(s, step);
      && s'.room.closing
      && s'.producers.Keys == s.producers.Keys && s'.watchers.Keys == s.watchers.Keys
  {
    if OfViewer(step) {
      ClosedViewerStepAddsNobody(s, step);
    } else {
      ClosedRoomStepAddsNobody(s, step);
    }
  }

  lemma ClosedViewerStepAddsNobody(s: State, step: Step)
    requires s.room.closing && OfViewer(step)
    ensures
      var s' := Do(s, step);
      && s'.room.closing
      && s'.producers.Keys == s.producers.Keys && s'.watchers.Keys == s.watchers.Keys
  {
  }

  lemma ClosedRoomStepAddsNobody(s: State, step: Step)
    requires s.room.closing && !OfViewer(step)
    ensures
      var s' := Do(s, step);
      && s'.room.closing
      && s'.producers.Keys == s.producers.Keys && s'.watchers.Keys == s.watchers.Keys
  {
  }

  lemma ClosedStepKeepsProducerConn(s: State, step: Step, p: Pid)
    requires s.room.closing && p in s.producers && p in Do(s, step).producers
    ensures Do(s, step).producers[p].ConnOf() in {None, s.producers[p].ConnOf()}
  {
  }

  lemma ClosedStepKeepsViewerConn(s: State, step: Step, v: Vid)
    requires s.room.closing && v in s.watchers && v in Do(s, step).watchers
    ensures Do(s, step).watchers[v].stage.ConnOf() in {None, s.watchers[v].stage.ConnOf()}
  {
  }

  /** An offer takes effect as a whole at its first select, whatever the writer receives
      meanwhile: the interleaved steps end where `Slot.Offer` does. */
  lemma OfferIsAtomic(w: Watcher, actor: Option<Pid>, f: Frame)
    requires w.mu.None? && Accepts(w, f)
    ensures
      var drained := Drained(Accepting(w, actor, f));
      (Sent(drained).slot, drained.mu.value.drained) == (w.slot.Offer(f).0, Some(w.slot.Offer(f).1))
    ensures w.slot.updates.Some? ==>
      var drained := Drained(Taking(Accepting(w, actor, f)));
      (Sent(drained).slot, drained.mu.value.drained)
      == (Taking(w).slot.Offer(f).0, Some(Taking(w).slot.Offer(f).1))
  {
  }
}
