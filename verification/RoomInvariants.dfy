/** The inductive invariants of a room, and the proof that every step keeps them. */
module RoomInvariants {
  import opened Wrappers
  import opened RelayRoom
  import opened RoomSystem

  // ---- one viewer's slot, channel and history ----

  ghost predicate Increasing(frames: seq<Frame>) {
    forall i, j | 0 <= i < j < |frames| :: frames[i].generation < frames[j].generation
  }

  ghost predicate AllBelow(frames: seq<Frame>, g: nat) {
    forall i | 0 <= i < |frames| :: frames[i].generation < g
  }

  ghost predicate IsPublished(f: Frame, published: seq<Frame>) {
    1 <= f.generation <= |published| && published[f.generation - 1] == f
  }

  ghost function Optional(f: Option<Frame>): multiset<Frame> {
    if f.Some? then multiset{f.value} else multiset{}
  }

  ghost function InFlight(w: Watcher): Option<Frame> {
    if w.mu.Some? then Some(w.mu.value.frame) else None
  }

  ghost predicate AcceptedOk(w: Watcher, published: seq<Frame>) {
    && w.joined <= |published|
    && Increasing(w.accepted)
    && w.slot.newest == (if w.accepted == [] then 0 else w.accepted[|w.accepted| - 1].generation)
    && (forall f <- w.accepted :: IsPublished(f, published) && f.generation >= w.joined)
  }

  /** Every accepted frame was taken, discarded, is pending or is being offered. */
  ghost predicate Conserved(w: Watcher, gone: multiset<Frame>) {
    multiset(w.accepted)
    == multiset(w.taken) + gone + Optional(w.slot.updates) + Optional(InFlight(w))
  }

  ghost predicate ChannelOk(w: Watcher) {
    && Increasing(w.taken)
    && (!w.writing ==> w.taken == [])
    && (w.accepted == [] ==> w.slot.updates.None? && w.taken == [])
    && (w.slot.updates.Some? ==> AllBelow(w.taken, w.slot.updates.value.generation))
    && match w.mu
       case None =>
         && (w.slot.updates.Some? ==> w.accepted != [] && w.slot.updates.value == w.accepted[|w.accepted| - 1])
         && (w.slot.updates.None? && w.accepted != [] ==>
               w.taken != [] && w.taken[|w.taken| - 1] == w.accepted[|w.accepted| - 1])
       case Some(o) =>
         && w.accepted != [] && o.frame == w.accepted[|w.accepted| - 1]
         && AllBelow(w.taken, o.frame.generation)
         && (w.slot.updates.Some? ==> w.slot.updates.value.generation < o.frame.generation)
         && (o.drained.Some? ==> w.slot.updates.None?)
  }

  /** Every frame a viewer's slot accepted, and where each one went. */
  ghost predicate HistoryOk(w: Watcher, gone: multiset<Frame>, published: seq<Frame>) {
    && AcceptedOk(w, published)
    && Conserved(w, gone)
    && ChannelOk(w)
  }

  lemma PublishKeepsHistory(w: Watcher, gone: multiset<Frame>, published: seq<Frame>, f: Frame)
    requires HistoryOk(w, gone, published)
    ensures HistoryOk(w, gone, published + [f])
  {
  }

  lemma AcceptKeepsHistory(w: Watcher, gone: multiset<Frame>, published: seq<Frame>, actor: Option<Pid>, f: Frame)
    requires HistoryOk(w, gone, published)
    requires w.mu.None? && Accepts(w, f) && IsPublished(f, published) && f.generation >= w.joined
    ensures HistoryOk(Accepting(w, actor, f), gone, published)
  {
    AcceptKeepsAccepted(w, published, actor, f);
    AcceptKeepsChannel(w, gone, published, actor, f);
  }

  lemma AcceptKeepsAccepted(w: Watcher, published: seq<Frame>, actor: Option<Pid>, f: Frame)
    requires AcceptedOk(w, published) && Accepts(w, f) && IsPublished(f, published)
    requires f.generation >= w.joined
    ensures AcceptedOk(Accepting(w, actor, f), published)
  {
    forall i | 0 <= i < |w.accepted| ensures w.accepted[i].generation < f.generation {
      AcceptedAtMostNewest(w, published, w.accepted[i]);
    }
  }

  lemma AcceptKeepsChannel(w: Watcher, gone: multiset<Frame>, published: seq<Frame>, actor: Option<Pid>, f: Frame)
    requires AcceptedOk(w, published) && Conserved(w, gone) && ChannelOk(w)
    requires w.mu.None? && Accepts(w, f)
    ensures ChannelOk(Accepting(w, actor, f))
  {
    forall i | 0 <= i < |w.taken| ensures w.taken[i].generation < f.generation {
      TakenWasAccepted(w, gone, w.taken[i]);
      AcceptedAtMostNewest(w, published, w.taken[i]);
    }
  }

  lemma TakenWasAccepted(w: Watcher, gone: multiset<Frame>, f: Frame)
    requires Conserved(w, gone) && f in w.taken
    ensures f in w.accepted
  {
    assert f in multiset(w.taken);
    assert f in multiset(w.accepted);
  }

  lemma AcceptedAtMostNewest(w: Watcher, published: seq<Frame>, f: Frame)
    requires AcceptedOk(w, published) && f in w.accepted
    ensures f.generation <= w.slot.newest
  {
    var i :| 0 <= i < |w.accepted| && w.accepted[i] == f;
    assert i < |w.accepted| - 1 ==> w.accepted[i].generation < w.accepted[|w.accepted| - 1].generation;
  }

  lemma DrainKeepsHistory(w: Watcher, gone: multiset<Frame>, published: seq<Frame>)
    requires HistoryOk(w, gone, published)
    requires w.mu.Some? && w.mu.value.drained.None?
    ensures HistoryOk(Drained(w), gone + Optional(w.slot.updates), published)
  {
    assert InFlight(Drained(w)) == InFlight(w);
  }

  lemma SendKeepsHistory(w: Watcher, gone: multiset<Frame>, published: seq<Frame>)
    requires HistoryOk(w, gone, published)
    requires w.mu.Some? && w.mu.value.drained.Some?
    ensures HistoryOk(Sent(w), gone, published)
  {
    assert w.slot.updates.None?;
    assert Sent(w).slot.updates == InFlight(w);
  }

  lemma TakeKeepsHistory(w: Watcher, gone: multiset<Frame>, published: seq<Frame>)
    requires HistoryOk(w, gone, published)
    requires w.slot.updates.Some? && w.writing
    ensures HistoryOk(Taking(w), gone, published)
  {
    assert multiset(Taking(w).taken) == multiset(w.taken) + Optional(w.slot.updates);
  }

  /** Neither the stage nor the start of the writer matters to the history. */
  lemma StageKeepsHistory(w: Watcher, w': Watcher, gone: multiset<Frame>, published: seq<Frame>)
    requires HistoryOk(w, gone, published)
    requires w' == w.(stage := w'.stage, writing := w'.writing) && (w.writing ==> w'.writing)
    ensures HistoryOk(w', gone, published)
  {
    assert InFlight(w') == InFlight(w);
  }

  // ---- the whole room ----

  ghost function DiscardedFrom(discarded: seq<(Vid, Frame)>, v: Vid): multiset<Frame> {
    if discarded == [] then multiset{}
    else
      var (at, f) := discarded[|discarded| - 1];
      DiscardedFrom(discarded[..|discarded| - 1], v) + if at == v then multiset{f} else multiset{}
  }

  /** The histories of one viewer, if it exists yet. */
  ghost predicate ViewerOk(s: State, v: Vid) {
    if v in s.watchers then HistoryOk(s.watchers[v], DiscardedFrom(s.discarded, v), s.published)
    else DiscardedFrom(s.discarded, v) == multiset{}
  }

  /** The handler that holds the producer slot. */
  ghost function Current(s: State): Option<Producer> {
    if s.holder.Some? && s.holder.value in s.producers then Some(s.producers[s.holder.value]) else None
  }

  ghost predicate ProducersOk(s: State) {
    && (forall p <- s.producers :: s.holder == Some(p) <==> !s.producers[p].Released?)
    && s.room.producerActive == s.holder.Some? == Current(s).Some?
    && (Current(s).Some? ==> Current(s).value.generation == s.room.producerGeneration)
    && s.room.producerConn == (if Current(s).Some? then Current(s).value.ConnOf() else None)
    && |s.releases| + (if s.room.producerActive then 1 else 0) == s.room.producerGeneration
    && (forall i | 0 <= i < |s.releases| :: s.releases[i] == i + 1)
  }

  ghost predicate RegistryOk(s: State) {
    && (forall v :: v in s.room.viewers <==> v in s.watchers && !s.watchers[v].stage.Gone?)
    && (forall v :: v in s.room.conns <==> v in s.watchers && s.watchers[v].stage.ConnOf().Some?)
    && (forall v <- s.room.conns :: Some(s.room.conns[v]) == s.watchers[v].stage.ConnOf())
    && |s.room.viewers| <= s.room.maxViewers
  }

  /** A shutdown has collected every connection that is still attached. */
  ghost predicate ClosedOk(s: State) {
    s.room.closing ==>
      && s.room.conns.Values <= s.closed
      && (s.room.producerConn.Some? ==> s.room.producerConn.value in s.closed)
  }

  ghost predicate PublishedOk(s: State) {
    && |s.published| == s.room.frameGeneration
    && (forall i | 0 <= i < |s.published| :: s.published[i].generation == i + 1)
    && (s.room.latest.Some? ==> s.published != [] && s.room.latest.value == s.published[|s.published| - 1])
  }

  ghost predicate OffersOk(s: State) {
    && (forall v <- s.watchers | s.watchers[v].mu.Some? && s.watchers[v].mu.value.actor.Some? ::
          && s.holder == s.watchers[v].mu.value.actor
          && Current(s).Some? && Current(s).value.Publishing?
          && Current(s).value.at == Some(v)
          && Current(s).value.frame == s.watchers[v].mu.value.frame)
    && (Current(s).Some? && Current(s).value.Publishing? ==>
          var h := Current(s).value;
          && s.published != [] && h.frame == s.published[|s.published| - 1]
          && (forall v <- h.todo :: v in s.watchers && s.watchers[v].joined < |s.published|)
          && (h.at.Some? ==>
                && h.at.value in h.todo
                && s.watchers[h.at.value].mu.Some?
                && s.watchers[h.at.value].mu.value.actor == s.holder))
  }

  /** Frames discarded by the publish in progress, not yet in the metric. */
  ghost function Uncounted(s: State): nat {
    if Current(s).Some? && Current(s).value.Publishing? then
      var h := Current(s).value;
      h.dropped + (if h.at.Some? && h.at.value in s.watchers
                      && s.watchers[h.at.value].mu.Some?
                      && s.watchers[h.at.value].mu.value.drained == Some(true) then 1 else 0)
    else 0
  }

  ghost predicate DropsOk(s: State) {
    |s.discarded| == s.dropMetric + Uncounted(s)
  }

  /** A viewer below the room's generation has seen no publish yet, or is about to be offered it. */
  ghost predicate UpToDate(s: State, v: Vid)
    requires v in s.watchers
  {
    || s.watchers[v].slot.newest == s.room.frameGeneration
    || s.watchers[v].joined == s.room.frameGeneration
    || (Current(s).Some? && Current(s).value.Publishing? && v in Current(s).value.todo)
  }

  ghost predicate NoneBehind(s: State) {
    forall v <- s.watchers :: !s.watchers[v].stage.Gone? ==> UpToDate(s, v)
  }

  /** A slot at rest or under an offer, without its history; a frame still to be offered
      initially is the one the room held when the viewer joined. */
  ghost predicate SlotOk(w: Watcher, published: seq<Frame>) {
    && w.slot.newest <= |published| && w.joined <= |published|
    && (w.slot.newest == 0 ==> w.slot.updates.None?)
    && (w.mu.Some? ==> w.slot.newest == w.mu.value.frame.generation)
    && (w.stage.InitialOf().Some? ==>
          && w.stage.InitialOf().value.generation == w.joined
          && IsPublished(w.stage.InitialOf().value, published)
          && (SelfOffering(w) || w.slot.newest == 0 || w.slot.newest > w.joined))
    && (SelfOffering(w) ==>
          && w.stage.Ready? && w.stage.initial == Some(w.mu.value.frame)
          && w.slot.updates.None? && w.mu.value.drained != Some(true))
  }

  ghost predicate SlotsOk(s: State) {
    forall v <- s.watchers :: SlotOk(s.watchers[v], s.published)
  }

  ghost predicate Inv(s: State) {
    && SlotsOk(s)
    && ProducersOk(s)
    && RegistryOk(s)
    && ClosedOk(s)
    && PublishedOk(s)
    && OffersOk(s)
    && DropsOk(s)
    && NoneBehind(s)
  }
}
