/** Every step of a room keeps its invariants. */
module RoomPreservation {
  import opened Wrappers
  import opened RelayRoom
  import opened RoomSystem
  import opened RoomInvariants

  // ---- what each invariant depends on ----

  lemma SlotStep(s: State, s': State, v: Vid)
    requires SlotsOk(s) && v in s'.watchers && s'.published == s.published
    requires s'.watchers == s.watchers[v := s'.watchers[v]]
    requires SlotOk(s'.watchers[v], s.published)
    ensures SlotsOk(s')
  {
    forall u | u in s'.watchers ensures SlotOk(s'.watchers[u], s'.published) {
      if u != v {
        assert s'.watchers[u] == s.watchers[u];
      }
    }
  }

  lemma PublishKeepsSlots(s: State, s': State, f: Frame)
    requires SlotsOk(s) && s'.watchers == s.watchers && s'.published == s.published + [f]
    ensures SlotsOk(s')
  {
    forall v | v in s'.watchers ensures SlotOk(s'.watchers[v], s'.published) {
      assert SlotOk(s.watchers[v], s.published);
    }
  }

  lemma FrameProducers(s: State, s': State)
    requires ProducersOk(s)
    requires s'.producers == s.producers && s'.holder == s.holder && s'.releases == s.releases
    requires s'.room.producerActive == s.room.producerActive
    requires s'.room.producerGeneration == s.room.producerGeneration
    requires s'.room.producerConn == s.room.producerConn
    ensures ProducersOk(s')
  {
  }

  ghost predicate SameRegistration(w: Watcher, w': Watcher) {
    w'.stage.Gone? == w.stage.Gone? && w'.stage.ConnOf() == w.stage.ConnOf()
  }

  lemma FrameRegistry(s: State, s': State)
    requires RegistryOk(s)
    requires s'.room.viewers == s.room.viewers && s'.room.conns == s.room.conns
    requires s'.room.maxViewers == s.room.maxViewers
    requires s'.watchers.Keys == s.watchers.Keys
    requires forall v <- s.watchers :: SameRegistration(s.watchers[v], s'.watchers[v])
    ensures RegistryOk(s')
  {
    forall v
      ensures v in s'.room.viewers <==> v in s'.watchers && !s'.watchers[v].stage.Gone?
      ensures v in s'.room.conns <==> v in s'.watchers && s'.watchers[v].stage.ConnOf().Some?
      ensures v in s'.room.conns ==> Some(s'.room.conns[v]) == s'.watchers[v].stage.ConnOf()
    {
      if v in s.watchers {
        assert SameRegistration(s.watchers[v], s'.watchers[v]);
      }
    }
  }

  lemma WatcherStepKeepsRegistry(s: State, s': State, v: Vid)
    requires RegistryOk(s) && s'.room == s.room && v in s.watchers && v in s'.watchers
    requires s'.watchers == s.watchers[v := s'.watchers[v]]
    requires SameRegistration(s.watchers[v], s'.watchers[v])
    ensures RegistryOk(s')
  {
    FrameRegistry(s, s');
  }

  /** What a step on one viewer's slot leaves alone. */
  lemma FrameRoom(s: State, s': State)
    requires PublishedOk(s) && ClosedOk(s)
    requires s'.room == s.room && s'.published == s.published && s'.closed == s.closed
    ensures PublishedOk(s') && ClosedOk(s')
  {
  }

  /** The part of a viewer's mutex that a publisher sees. */
  ghost function PublisherPart(w: Watcher): Option<Offering> {
    if SelfOffering(w) then None else w.mu
  }

  ghost predicate SameOffers(s: State, s': State) {
    && s'.holder == s.holder && Current(s') == Current(s)
    && s.watchers.Keys <= s'.watchers.Keys
    && (forall v <- s.watchers ::
          && PublisherPart(s'.watchers[v]) == PublisherPart(s.watchers[v])
          && s'.watchers[v].joined == s.watchers[v].joined)
    && (forall v | v in s'.watchers && v !in s.watchers :: s'.watchers[v].mu.None?)
  }

  lemma FrameOffers(s: State, s': State)
    requires OffersOk(s) && SameOffers(s, s') && s'.published == s.published
    ensures OffersOk(s')
  {
    forall v | v in s'.watchers && s'.watchers[v].mu.Some? && s'.watchers[v].mu.value.actor.Some?
      ensures v in s.watchers && s'.watchers[v].mu == s.watchers[v].mu
    {
      assert PublisherPart(s'.watchers[v]) == s'.watchers[v].mu;
    }
  }

  lemma FrameDrops(s: State, s': State)
    requires OffersOk(s) && DropsOk(s) && SameOffers(s, s')
    requires s'.discarded == s.discarded && s'.dropMetric == s.dropMetric
    ensures DropsOk(s')
  {
    if Current(s).Some? && Current(s).value.Publishing? && Current(s).value.at.Some? {
      var v := Current(s).value.at.value;
      assert PublisherPart(s.watchers[v]) == s.watchers[v].mu;
    }
  }

  lemma FrameBehind(s: State, s': State)
    requires NoneBehind(s)
    requires s'.room.frameGeneration == s.room.frameGeneration && Current(s') == Current(s)
    requires s'.watchers.Keys == s.watchers.Keys
    requires forall v <- s.watchers ::
               && s'.watchers[v].joined == s.watchers[v].joined
               && s.watchers[v].slot.newest <= s'.watchers[v].slot.newest <= s.room.frameGeneration
               && s'.watchers[v].stage.Gone? == s.watchers[v].stage.Gone?
    ensures NoneBehind(s')
  {
    forall v | v in s'.watchers && !s'.watchers[v].stage.Gone? ensures UpToDate(s', v) {
      assert UpToDate(s, v);
    }
  }

  /** A step that touches one viewer and neither its registration, its connection, nor
      a publisher's offer to it. */
  lemma WatcherStepKeepsInv(s: State, v: Vid, w': Watcher)
    requires Inv(s) && v in s.watchers
    requires
      var w := s.watchers[v];
      && PublisherPart(w') == PublisherPart(w)
      && w'.joined == w.joined
      && w.slot.newest <= w'.slot.newest
      && SameRegistration(w, w')
    requires SlotOk(w', s.published)
    ensures Inv(s.(watchers := s.watchers[v := w']))
  {
    var s' := s.(watchers := s.watchers[v := w']);
    SlotStep(s, s', v);
    FrameProducers(s, s');
    WatcherStepKeepsRegistry(s, s', v);
    FrameRoom(s, s');
    WatcherStepKeepsOffers(s, v, w');
    WatcherStepKeepsNoneBehind(s, s', v);
  }

  lemma WatcherStepKeepsOffers(s: State, v: Vid, w': Watcher)
    requires OffersOk(s) && DropsOk(s) && v in s.watchers
    requires PublisherPart(w') == PublisherPart(s.watchers[v]) && w'.joined == s.watchers[v].joined
    ensures OffersOk(s.(watchers := s.watchers[v := w'])) && DropsOk(s.(watchers := s.watchers[v := w']))
  {
    FrameOffers(s, s.(watchers := s.watchers[v := w']));
    FrameDrops(s, s.(watchers := s.watchers[v := w']));
  }

  lemma WatcherStepKeepsNoneBehind(s: State, s': State, v: Vid)
    requires NoneBehind(s) && PublishedOk(s) && v in s.watchers && v in s'.watchers
    requires s'.watchers == s.watchers[v := s'.watchers[v]]
    requires s'.room == s.room && s'.published == s.published && Current(s') == Current(s)
    requires s'.watchers[v].joined == s.watchers[v].joined
    requires SameRegistration(s.watchers[v], s'.watchers[v])
    requires s.watchers[v].slot.newest <= s'.watchers[v].slot.newest && SlotOk(s'.watchers[v], s.published)
    requires SlotsOk(s)
    ensures NoneBehind(s')
  {
    forall u | u in s.watchers ensures s.watchers[u].slot.newest <= s.room.frameGeneration {
      assert SlotOk(s.watchers[u], s.published);
    }
    FrameBehind(s, s');
  }

  lemma ClaimKeepsInv(s: State, p: Pid)
    requires Inv(s)
    ensures Inv(DoClaim(s, p))
  {
    var s' := DoClaim(s, p);
    if s' != s {
      FrameRegistry(s, s');
      assert ProducersOk(s');
      assert OffersOk(s');
      NoPublishBehind(s, s');
    }
  }

  /** While nothing is being published, `NoneBehind` speaks of generations alone. */
  lemma NoPublishBehind(s: State, s': State)
    requires NoneBehind(s) && s'.watchers == s.watchers
    requires s'.room.frameGeneration == s.room.frameGeneration
    requires Current(s).Some? ==> !Current(s).value.Publishing?
    ensures NoneBehind(s')
  {
    forall v | v in s'.watchers && !s'.watchers[v].stage.Gone? ensures UpToDate(s', v) {
      assert UpToDate(s, v);
    }
  }

  lemma AttachProducerKeepsInv(s: State, p: Pid, conn: Conn)
    requires Inv(s)
    ensures Inv(DoAttachProducer(s, p, conn))
  {
    var s' := DoAttachProducer(s, p, conn);
    if s' != s {
      assert s.holder == Some(p);
      assert ProducersOk(s') by { HolderMovesKeepsProducers(s, s', p); }
      FrameRegistry(s, s');
      assert OffersOk(s');
      assert NoneBehind(s') by { NoPublishBehind(s, s'); }
    }
  }

  /** The holder changes phase, and with it perhaps the room's producer connection. */
  lemma HolderMovesKeepsProducers(s: State, s': State, p: Pid)
    requires ProducersOk(s) && s.holder == Some(p)
    requires s'.holder == s.holder && s'.releases == s.releases
    requires p in s'.producers && !s'.producers[p].Released?
    requires s'.producers == s.producers[p := s'.producers[p]]
    requires s'.producers[p].generation == s.producers[p].generation
    requires s'.room.producerActive == s.room.producerActive
    requires s'.room.producerGeneration == s.room.producerGeneration
    requires s'.room.producerConn == s'.producers[p].ConnOf()
    ensures ProducersOk(s')
  {
  }

  lemma PublishBeginKeepsInv(s: State, p: Pid, payload: Payload, now: Time)
    requires Inv(s)
    ensures Inv(DoPublishBegin(s, p, payload, now))
  {
    var s' := DoPublishBegin(s, p, payload, now);
    if s' != s {
      assert s.holder == Some(p);
      PublishKeepsSlots(s, s', s.room.NextFrame(payload, now));
      HolderMovesKeepsProducers(s, s', p);
      FrameRegistry(s, s');
      assert PublishedOk(s');
      assert OffersOk(s');
      assert NoneBehind(s');
    }
  }

  lemma OfferEnterKeepsInv(s: State, p: Pid, v: Vid)
    requires Inv(s)
    ensures Inv(DoOfferEnter(s, p, v))
  {
    var s' := DoOfferEnter(s, p, v);
    if s' != s {
      OfferEnterKeepsProducers(s, p, v);
      OfferEnterKeepsRegistry(s, p, v);
      FrameRoom(s, s');
      OfferEnterKeepsSlots(s, p, v);
      OfferEnterKeepsOffers(s, p, v);
      OfferEnterKeepsNoneBehind(s, p, v);
    }
  }

  lemma OfferEnterKeepsProducers(s: State, p: Pid, v: Vid)
    requires ProducersOk(s)
    ensures ProducersOk(DoOfferEnter(s, p, v))
  {
    var s' := DoOfferEnter(s, p, v);
    if s' != s {
      assert s.holder == Some(p);
      HolderMovesKeepsProducers(s, s', p);
    }
  }

  lemma OfferEnterKeepsRegistry(s: State, p: Pid, v: Vid)
    requires RegistryOk(s)
    ensures RegistryOk(DoOfferEnter(s, p, v))
  {
    FrameRegistry(s, DoOfferEnter(s, p, v));
  }

  lemma OfferedFrameIsNew(s: State, p: Pid, v: Vid)
    requires ProducersOk(s) && PublishedOk(s) && OffersOk(s)
    requires p in s.producers && s.producers[p].Publishing? && v in s.producers[p].todo
    ensures v in s.watchers
    ensures IsPublished(s.producers[p].frame, s.published)
    ensures s.producers[p].frame.generation > s.watchers[v].joined
  {
    assert s.holder == Some(p);
  }

  lemma OfferEnterKeepsSlots(s: State, p: Pid, v: Vid)
    requires SlotsOk(s) && ProducersOk(s) && PublishedOk(s) && OffersOk(s)
    requires v in s.watchers && s.watchers[v].mu.None?
    requires p in s.producers && s.producers[p].Publishing? && v in s.producers[p].todo
    ensures SlotsOk(DoOfferEnter(s, p, v))
  {
    OfferedFrameIsNew(s, p, v);
    var w, f := s.watchers[v], s.producers[p].frame;
    assert SlotOk(w, s.published);
    assert SlotOk(Accepting(w, Some(p), f), s.published);
    SlotStep(s, DoOfferEnter(s, p, v), v);
  }

  lemma OfferEnterKeepsOffers(s: State, p: Pid, v: Vid)
    requires OffersOk(s) && DropsOk(s) && s.holder == Some(p)
    requires p in s.producers && s.producers[p].Publishing? && s.producers[p].at.None?
    ensures OffersOk(DoOfferEnter(s, p, v)) && DropsOk(DoOfferEnter(s, p, v))
  {
  }

  lemma OfferEnterKeepsNoneBehind(s: State, p: Pid, v: Vid)
    requires NoneBehind(s) && SlotsOk(s) && OffersOk(s) && PublishedOk(s) && s.holder == Some(p)
    ensures NoneBehind(DoOfferEnter(s, p, v))
  {
    var s' := DoOfferEnter(s, p, v);
    assert v in s.watchers ==> SlotOk(s.watchers[v], s.published);
    forall u | u in s'.watchers && !s'.watchers[u].stage.Gone? ensures UpToDate(s', u) {
      assert UpToDate(s, u);
    }
  }

  lemma PublishEndKeepsInv(s: State, p: Pid)
    requires Inv(s)
    ensures Inv(DoPublishEnd(s, p))
  {
    var s' := DoPublishEnd(s, p);
    if s' != s {
      assert s.holder == Some(p);
      HolderMovesKeepsProducers(s, s', p);
      FrameRegistry(s, s');
      assert OffersOk(s');
      assert DropsOk(s');
      assert NoneBehind(s') by {
        forall v | v in s'.watchers && !s'.watchers[v].stage.Gone? ensures UpToDate(s', v) {
          assert UpToDate(s, v);
        }
      }
    }
  }

  lemma ProducerLeavesKeepsInv(s: State, p: Pid)
    requires Inv(s)
    ensures Inv(DoProducerLeaves(s, p))
  {
    var s' := DoProducerLeaves(s, p);
    if s' != s {
      assert s.holder == Some(p);
      HolderMovesKeepsProducers(s, s', p);
      FrameRegistry(s, s');
      assert OffersOk(s');
      NoPublishBehind(s, s');
    }
  }

  lemma ReleaseProducerKeepsInv(s: State, p: Pid)
    requires Inv(s)
    ensures Inv(DoReleaseProducer(s, p))
  {
    var s' := DoReleaseProducer(s, p);
    if s' != s {
      assert s.holder == Some(p);
      ReleaseKeepsProducers(s, p);
      FrameRegistry(s, s');
      assert OffersOk(s');
      NoPublishBehind(s, s');
    }
  }

  lemma ReleaseKeepsProducers(s: State, p: Pid)
    requires ProducersOk(s)
    ensures ProducersOk(DoReleaseProducer(s, p))
  {
  }

  lemma AddViewerKeepsInv(s: State, v: Vid, now: Time, ttl: Time)
    requires Inv(s)
    ensures Inv(DoAddViewer(s, v, now, ttl))
  {
    var s' := DoAddViewer(s, v, now, ttl);
    if s' != s {
      FrameProducers(s, s');
      AddViewerKeepsSlots(s, v, now, ttl);
      AddViewerKeepsRegistry(s, v, now, ttl);
      AddViewerKeepsOffers(s, v, now, ttl);
      AddViewerKeepsNoneBehind(s, v, now, ttl);
    }
  }

  lemma AddViewerKeepsOffers(s: State, v: Vid, now: Time, ttl: Time)
    requires OffersOk(s) && DropsOk(s)
    ensures OffersOk(DoAddViewer(s, v, now, ttl)) && DropsOk(DoAddViewer(s, v, now, ttl))
  {
    var s' := DoAddViewer(s, v, now, ttl);
    if s' != s {
      FrameOffers(s, s');
      FrameDrops(s, s');
    }
  }

  lemma AddViewerKeepsSlots(s: State, v: Vid, now: Time, ttl: Time)
    requires SlotsOk(s) && PublishedOk(s)
    ensures SlotsOk(DoAddViewer(s, v, now, ttl))
  {
    var s' := DoAddViewer(s, v, now, ttl);
    if s' != s {
      assert SlotOk(s'.watchers[v], s.published);
      SlotStep(s, s', v);
    }
  }

  lemma AddViewerKeepsNoneBehind(s: State, v: Vid, now: Time, ttl: Time)
    requires NoneBehind(s)
    ensures NoneBehind(DoAddViewer(s, v, now, ttl))
  {
    var s' := DoAddViewer(s, v, now, ttl);
    forall u | u in s'.watchers && !s'.watchers[u].stage.Gone? ensures UpToDate(s', u) {
      if u in s.watchers {
        assert UpToDate(s, u);
      }
    }
  }

  lemma AddViewerKeepsRegistry(s: State, v: Vid, now: Time, ttl: Time)
    requires RegistryOk(s)
    ensures RegistryOk(DoAddViewer(s, v, now, ttl))
  {
  }

  lemma AttachViewerKeepsInv(s: State, v: Vid, conn: Conn)
    requires Inv(s)
    ensures Inv(DoAttachViewer(s, v, conn))
  {
    var s' := DoAttachViewer(s, v, conn);
    if s' != s {
      AttachViewerMovesStage(s, v, conn);
      FrameProducers(s, s');
      StageStepKeepsSlots(s, s', v);
      AttachViewerKeepsRegistry(s, v, conn);
      StageStepKeepsOffers(s, s', v);
      StageStepKeepsNoneBehind(s, s', v);
    }
  }

  ghost predicate StageStep(s: State, s': State, v: Vid) {
    && v in s.watchers && v in s'.watchers
    && s'.watchers == s.watchers[v := s.watchers[v].(stage := s'.watchers[v].stage)]
    && s'.published == s.published && s'.discarded == s.discarded && s'.dropMetric == s.dropMetric
    && s'.room.frameGeneration == s.room.frameGeneration
    && s'.holder == s.holder && Current(s') == Current(s)
    && !SelfOffering(s.watchers[v])
    && (s.watchers[v].stage.Gone? ==> s'.watchers[v].stage.Gone?)
    && s'.watchers[v].stage.InitialOf() in {None, s.watchers[v].stage.InitialOf()}
  }

  lemma AttachViewerMovesStage(s: State, v: Vid, conn: Conn)
    requires SlotsOk(s) && DoAttachViewer(s, v, conn) != s
    ensures StageStep(s, DoAttachViewer(s, v, conn), v)
  {
    assert SlotOk(s.watchers[v], s.published);
  }

  lemma RemoveViewerMovesStage(s: State, v: Vid)
    requires SlotsOk(s) && DoRemoveViewer(s, v) != s
    ensures StageStep(s, DoRemoveViewer(s, v), v)
  {
    assert SlotOk(s.watchers[v], s.published);
  }

  lemma StageStepKeepsSlots(s: State, s': State, v: Vid)
    requires SlotsOk(s) && StageStep(s, s', v)
    ensures SlotsOk(s')
  {
    assert SlotOk(s.watchers[v], s.published);
    SlotStep(s, s', v);
  }

  lemma StageStepKeepsOffers(s: State, s': State, v: Vid)
    requires OffersOk(s) && DropsOk(s) && StageStep(s, s', v)
    ensures OffersOk(s') && DropsOk(s')
  {
    FrameOffers(s, s');
    FrameDrops(s, s');
  }

  lemma StageStepKeepsNoneBehind(s: State, s': State, v: Vid)
    requires NoneBehind(s) && StageStep(s, s', v)
    ensures NoneBehind(s')
  {
    forall u | u in s'.watchers && !s'.watchers[u].stage.Gone? ensures UpToDate(s', u) {
      assert UpToDate(s, u);
    }
  }

  lemma AttachViewerKeepsRegistry(s: State, v: Vid, conn: Conn)
    requires RegistryOk(s)
    ensures RegistryOk(DoAttachViewer(s, v, conn))
  {
  }

  lemma RemoveViewerKeepsInv(s: State, v: Vid)
    requires Inv(s)
    ensures Inv(DoRemoveViewer(s, v))
  {
    var s' := DoRemoveViewer(s, v);
    if s' != s {
      RemoveViewerMovesStage(s, v);
      FrameProducers(s, s');
      StageStepKeepsSlots(s, s', v);
      RemoveViewerKeepsRegistry(s, v);
      assert s'.room.conns.Values <= s.room.conns.Values;
      StageStepKeepsOffers(s, s', v);
      StageStepKeepsNoneBehind(s, s', v);
    }
  }

  lemma RemoveViewerKeepsRegistry(s: State, v: Vid)
    requires RegistryOk(s)
    ensures RegistryOk(DoRemoveViewer(s, v))
  {
    var s' := DoRemoveViewer(s, v);
    if s' != s {
      assert s'.room.viewers <= s.room.viewers && v in s.room.viewers;
      assert |s'.room.viewers| == |s.room.viewers| - 1;
    }
  }

  lemma DrainKeepsInv(s: State, v: Vid)
    requires Inv(s)
    ensures Inv(DoDrain(s, v))
  {
    if DoDrain(s, v) != s {
      var w := s.watchers[v];
      DrainKeepsSlot(w, s.published);
      if SelfOffering(w) {
        WatcherStepKeepsInv(s, v, Drained(w));
      } else {
        PublisherDrainKeepsInv(s, DoDrain(s, v), v);
      }
    }
  }

  lemma DrainKeepsSlot(w: Watcher, published: seq<Frame>)
    requires SlotOk(w, published) && w.mu.Some?
    ensures SlotOk(Drained(w), published)
  {
  }

  lemma PublisherDrainKeepsInv(s: State, s': State, v: Vid)
    requires Inv(s) && v in s.watchers && s.watchers[v].mu.Some? && s.watchers[v].mu.value.actor.Some?
    requires s' == DoDrain(s, v) && s' != s && SlotOk(Drained(s.watchers[v]), s.published)
    ensures Inv(s')
  {
    assert s'.watchers == s.watchers[v := Drained(s.watchers[v])];
    SlotStep(s, s', v);
    FrameProducers(s, s');
    WatcherStepKeepsRegistry(s, s', v);
    FrameRoom(s, s');
    WatcherStepKeepsNoneBehind(s, s', v);
    DrainKeepsOffers(s, v);
  }

  lemma DrainKeepsOffers(s: State, v: Vid)
    requires OffersOk(s) && DropsOk(s)
    requires v in s.watchers && s.watchers[v].mu.Some? && s.watchers[v].mu.value.actor.Some?
    ensures OffersOk(DoDrain(s, v)) && DropsOk(DoDrain(s, v))
  {
  }

  lemma SendKeepsInv(s: State, v: Vid)
    requires Inv(s)
    ensures Inv(DoSend(s, v))
  {
    if DoSend(s, v) != s {
      var w := s.watchers[v];
      assert w.mu.value.actor.Some? ==> IsPublished(w.mu.value.frame, s.published) by {
        OfferIsPublished(s, v);
      }
      SendKeepsSlot(w, s.published);
      if SelfOffering(w) {
        WatcherStepKeepsInv(s, v, Sent(w));
      } else {
        PublisherSendKeepsInv(s, DoSend(s, v), v);
      }
    }
  }

  lemma OfferIsPublished(s: State, v: Vid)
    requires OffersOk(s) && PublishedOk(s) && v in s.watchers && s.watchers[v].mu.Some?
    ensures s.watchers[v].mu.value.actor.Some? ==> IsPublished(s.watchers[v].mu.value.frame, s.published)
  {
  }

  lemma SendKeepsSlot(w: Watcher, published: seq<Frame>)
    requires SlotOk(w, published) && w.mu.Some?
    requires w.mu.value.actor.Some? ==> IsPublished(w.mu.value.frame, published)
    ensures SlotOk(Sent(w), published)
  {
  }

  lemma PublisherSendKeepsInv(s: State, s': State, v: Vid)
    requires Inv(s) && v in s.watchers && s.watchers[v].mu.Some? && s.watchers[v].mu.value.actor.Some?
    requires s' == DoSend(s, v) && s' != s && SlotOk(Sent(s.watchers[v]), s.published)
    ensures Inv(s')
  {
    assert s'.watchers == s.watchers[v := Sent(s.watchers[v])];
    SlotStep(s, s', v);
    SendKeepsProducers(s, v);
    WatcherStepKeepsRegistry(s, s', v);
    FrameRoom(s, s');
    SendKeepsOffers(s, v);
    SendKeepsNoneBehind(s, v);
  }

  lemma SendKeepsProducers(s: State, v: Vid)
    requires ProducersOk(s) && OffersOk(s)
    requires v in s.watchers && s.watchers[v].mu.Some? && s.watchers[v].mu.value.actor.Some?
    ensures ProducersOk(DoSend(s, v))
  {
    if s.watchers[v].mu.value.drained.Some? {
      HolderMovesKeepsProducers(s, DoSend(s, v), s.holder.value);
    }
  }

  lemma SendKeepsOffers(s: State, v: Vid)
    requires OffersOk(s) && DropsOk(s)
    requires v in s.watchers && s.watchers[v].mu.Some? && s.watchers[v].mu.value.actor.Some?
    ensures OffersOk(DoSend(s, v)) && DropsOk(DoSend(s, v))
  {
  }

  lemma SendKeepsNoneBehind(s: State, v: Vid)
    requires NoneBehind(s) && OffersOk(s) && PublishedOk(s)
    requires v in s.watchers && s.watchers[v].mu.Some? && s.watchers[v].mu.value.actor.Some?
    requires s.watchers[v].slot.newest == s.watchers[v].mu.value.frame.generation
    ensures NoneBehind(DoSend(s, v))
  {
    var s' := DoSend(s, v);
    forall u | u in s'.watchers && !s'.watchers[u].stage.Gone? ensures UpToDate(s', u) {
      assert UpToDate(s, u);
    }
  }

  lemma ExpireKeepsInv(s: State, now: Time, ttl: Time)
    requires Inv(s)
    ensures Inv(s.(room := s.room.Expire(now, ttl)))
  {
    var s' := s.(room := s.room.Expire(now, ttl));
    FrameProducers(s, s');
    FrameRegistry(s, s');
    FrameOffers(s, s');
    FrameDrops(s, s');
    NoPublishOrSameBehind(s, s');
  }

  lemma NoPublishOrSameBehind(s: State, s': State)
    requires NoneBehind(s) && s'.watchers == s.watchers && Current(s') == Current(s)
    requires s'.room.frameGeneration == s.room.frameGeneration
    ensures NoneBehind(s')
  {
    forall v | v in s'.watchers && !s'.watchers[v].stage.Gone? ensures UpToDate(s', v) {
      assert UpToDate(s, v);
    }
  }

  lemma CloseKeepsInv(s: State)
    requires Inv(s)
    ensures Inv(Do(s, CloseConnections))
  {
    var s' := Do(s, CloseConnections);
    assert s'.watchers == s.watchers && s'.published == s.published && SlotsOk(s');
    FrameProducers(s, s');
    FrameRegistry(s, s');
    CloseCollects(s);
    FrameOffers(s, s');
    FrameDrops(s, s');
    NoPublishOrSameBehind(s, s');
  }

  lemma CloseCollects(s: State)
    requires PublishedOk(s)
    ensures ClosedOk(Do(s, CloseConnections)) && PublishedOk(Do(s, CloseConnections))
  {
  }

  lemma AttachSessionKeepsInv(s: State, v: Vid, ok: bool)
    requires Inv(s)
    ensures Inv(DoAttachSession(s, v, ok))
  {
    var s' := DoAttachSession(s, v, ok);
    if s' != s {
      assert SlotOk(s.watchers[v], s.published);
      WatcherStepKeepsInv(s, v, s'.watchers[v]);
    }
  }

  lemma InitialEnterKeepsInv(s: State, v: Vid)
    requires Inv(s)
    ensures Inv(DoInitialEnter(s, v))
  {
    var s' := DoInitialEnter(s, v);
    if s' != s {
      assert SlotOk(s.watchers[v], s.published);
      WatcherStepKeepsInv(s, v, s'.watchers[v]);
    }
  }

  lemma StartWriterKeepsInv(s: State, v: Vid)
    requires Inv(s)
    ensures Inv(DoStartWriter(s, v))
  {
    var s' := DoStartWriter(s, v);
    if s' != s {
      assert SlotOk(s.watchers[v], s.published);
      WatcherStepKeepsInv(s, v, s'.watchers[v]);
    }
  }

  lemma TakeKeepsInv(s: State, v: Vid)
    requires Inv(s)
    ensures Inv(DoTake(s, v))
  {
    var s' := DoTake(s, v);
    if s' != s {
      assert SlotOk(s.watchers[v], s.published);
      WatcherStepKeepsInv(s, v, s'.watchers[v]);
    }
  }

  lemma ViewerLeavesKeepsInv(s: State, v: Vid)
    requires Inv(s)
    ensures Inv(DoViewerLeaves(s, v))
  {
    var s' := DoViewerLeaves(s, v);
    if s' != s {
      assert SlotOk(s.watchers[v], s.published);
      WatcherStepKeepsInv(s, v, s'.watchers[v]);
    }
  }

  // ---- one viewer's history ----

  lemma DiscardedFromAppend(discarded: seq<(Vid, Frame)>, at: Vid, f: Frame, v: Vid)
    ensures DiscardedFrom(discarded + [(at, f)], v)
            == DiscardedFrom(discarded, v) + if at == v then multiset{f} else multiset{}
  {
    var log := discarded + [(at, f)];
    assert log[..|log| - 1] == discarded;
  }

  lemma PublishBeginKeepsViewer(s: State, p: Pid, payload: Payload, now: Time, v: Vid)
    requires ViewerOk(s, v)
    ensures ViewerOk(DoPublishBegin(s, p, payload, now), v)
  {
    if v in s.watchers {
      PublishKeepsHistory(s.watchers[v], DiscardedFrom(s.discarded, v), s.published,
                          s.room.NextFrame(payload, now));
    }
  }

  lemma OfferEnterKeepsViewer(s: State, p: Pid, u: Vid, v: Vid)
    requires ProducersOk(s) && PublishedOk(s) && OffersOk(s) && ViewerOk(s, v)
    ensures ViewerOk(DoOfferEnter(s, p, u), v)
  {
    var s' := DoOfferEnter(s, p, u);
    if v in s.watchers && s'.watchers[v] != s.watchers[v] {
      OfferedFrameIsNew(s, p, v);
      AcceptKeepsHistory(s.watchers[v], DiscardedFrom(s.discarded, v), s.published, Some(p), s.producers[p].frame);
      assert s'.watchers[v] == Accepting(s.watchers[v], Some(p), s.producers[p].frame);
    }
  }

  lemma InitialEnterKeepsViewer(s: State, u: Vid, v: Vid)
    requires SlotsOk(s) && ViewerOk(s, v)
    ensures ViewerOk(DoInitialEnter(s, u), v)
  {
    var s' := DoInitialEnter(s, u);
    if v in s.watchers {
      assert SlotOk(s.watchers[v], s.published);
      InitialEnterKeepsHistory(s.watchers[v], DiscardedFrom(s.discarded, v), s.published);
      assert s'.watchers[v] == if u == v then InitialEntering(s.watchers[v]) else s.watchers[v];
    }
  }

  lemma InitialEnterKeepsHistory(w: Watcher, gone: multiset<Frame>, published: seq<Frame>)
    requires HistoryOk(w, gone, published) && SlotOk(w, published)
    ensures HistoryOk(InitialEntering(w), gone, published)
  {
    if w.stage.Ready? && w.stage.initial.Some? && w.mu.None? {
      if Accepts(w, w.stage.initial.value) {
        AcceptKeepsHistory(w, gone, published, None, w.stage.initial.value);
      } else {
        StageKeepsHistory(w, InitialEntering(w), gone, published);
      }
    }
  }

  lemma DrainKeepsViewer(s: State, u: Vid, v: Vid)
    requires ViewerOk(s, v)
    ensures ViewerOk(DoDrain(s, u), v)
  {
    var s' := DoDrain(s, u);
    DrainIsLogged(s, u, v);
    if u == v && s' != s {
      DrainKeepsHistory(s.watchers[v], DiscardedFrom(s.discarded, v), s.published);
      assert s'.watchers[v] == Drained(s.watchers[v]);
    } else {
      assert v in s.watchers ==> s'.watchers[v] == s.watchers[v];
    }
  }

  lemma DrainIsLogged(s: State, u: Vid, v: Vid)
    ensures
      var s' := DoDrain(s, u);
      DiscardedFrom(s'.discarded, v) == DiscardedFrom(s.discarded, v)
        + if u == v && s' != s then Optional(s.watchers[v].slot.updates) else multiset{}
  {
    if u in s.watchers && s.watchers[u].slot.updates.Some? {
      DiscardedFromAppend(s.discarded, u, s.watchers[u].slot.updates.value, v);
    }
  }

  lemma SendKeepsViewer(s: State, u: Vid, v: Vid)
    requires ViewerOk(s, v)
    ensures ViewerOk(DoSend(s, u), v)
  {
    if u == v && v in s.watchers && s.watchers[v].mu.Some? && s.watchers[v].mu.value.drained.Some? {
      SendKeepsHistory(s.watchers[v], DiscardedFrom(s.discarded, v), s.published);
    }
  }

  lemma TakeKeepsViewer(s: State, u: Vid, v: Vid)
    requires ViewerOk(s, v)
    ensures ViewerOk(DoTake(s, u), v)
  {
    if u == v && v in s.watchers && s.watchers[v].writing && s.watchers[v].slot.updates.Some? {
      TakeKeepsHistory(s.watchers[v], DiscardedFrom(s.discarded, v), s.published);
    }
  }

  /** A step that changes at most the stages and starts writers. */
  lemma StageKeepsViewer(s: State, s': State, v: Vid)
    requires ViewerOk(s, v) && s'.watchers.Keys == s.watchers.Keys
    requires s'.discarded == s.discarded && s'.published == s.published
    requires v in s.watchers ==>
               var w, w' := s.watchers[v], s'.watchers[v];
               w' == w.(stage := w'.stage, writing := w'.writing) && (w.writing ==> w'.writing)
    ensures ViewerOk(s', v)
  {
    if v in s.watchers {
      StageKeepsHistory(s.watchers[v], s'.watchers[v], DiscardedFrom(s.discarded, v), s.published);
    }
  }

  lemma AddViewerKeepsViewer(s: State, u: Vid, now: Time, ttl: Time, v: Vid)
    requires SlotsOk(s) && PublishedOk(s) && ViewerOk(s, v)
    ensures ViewerOk(DoAddViewer(s, u, now, ttl), v)
  {
  }

  // ---- every step, every run ----

  predicate OfViewer(step: Step) {
    !(step.Claim? || step.AttachProducer? || step.PublishBegin? || step.OfferEnter? || step.PublishEnd?
      || step.ProducerLeaves? || step.ReleaseProducer? || step.Expire? || step.CloseConnections?)
  }

  lemma StepKeepsInv(s: State, step: Step)
    requires Inv(s)
    ensures Inv(Do(s, step))
  {
    if OfViewer(step) {
      ViewerStepKeepsInv(s, step);
    } else {
      RoomStepKeepsInv(s, step);
    }
  }

  lemma RoomStepKeepsInv(s: State, step: Step)
    requires Inv(s) && !OfViewer(step)
    ensures Inv(Do(s, step))
  {
    match step
    case Claim(p) => ClaimKeepsInv(s, p);
    case AttachProducer(p, conn) => AttachProducerKeepsInv(s, p, conn);
    case PublishBegin(p, payload, now) => PublishBeginKeepsInv(s, p, payload, now);
    case OfferEnter(p, v) => OfferEnterKeepsInv(s, p, v);
    case PublishEnd(p) => PublishEndKeepsInv(s, p);
    case ProducerLeaves(p) => ProducerLeavesKeepsInv(s, p);
    case ReleaseProducer(p) => ReleaseProducerKeepsInv(s, p);
    case Expire(now, ttl) => ExpireKeepsInv(s, now, ttl);
    case CloseConnections => CloseKeepsInv(s);
  }

  lemma ViewerStepKeepsInv(s: State, step: Step)
    requires Inv(s) && OfViewer(step)
    ensures Inv(Do(s, step))
  {
    match step
    case AddViewer(v, now, ttl) => AddViewerKeepsInv(s, v, now, ttl);
    case AttachViewer(v, conn) => AttachViewerKeepsInv(s, v, conn);
    case AttachSession(v, ok) => AttachSessionKeepsInv(s, v, ok);
    case InitialEnter(v) => InitialEnterKeepsInv(s, v);
    case StartWriter(v) => StartWriterKeepsInv(s, v);
    case Drain(v) => DrainKeepsInv(s, v);
    case Send(v) => SendKeepsInv(s, v);
    case Take(v) => TakeKeepsInv(s, v);
    case ViewerLeaves(v) => ViewerLeavesKeepsInv(s, v);
    case RemoveViewer(v) => RemoveViewerKeepsInv(s, v);
  }

  lemma StepKeepsViewer(s: State, step: Step, v: Vid)
    requires Inv(s) && ViewerOk(s, v)
    ensures ViewerOk(Do(s, step), v)
  {
    match step
    case PublishBegin(p, payload, now) => PublishBeginKeepsViewer(s, p, payload, now, v);
    case OfferEnter(p, u) => OfferEnterKeepsViewer(s, p, u, v);
    case AddViewer(u, now, ttl) => AddViewerKeepsViewer(s, u, now, ttl, v);
    case InitialEnter(u) => InitialEnterKeepsViewer(s, u, v);
    case Drain(u) => DrainKeepsViewer(s, u, v);
    case Send(u) => SendKeepsViewer(s, u, v);
    case Take(u) => TakeKeepsViewer(s, u, v);
    case _ => OtherStepKeepsViewer(s, step, v);
  }

  lemma OtherStepKeepsViewer(s: State, step: Step, v: Vid)
    requires ViewerOk(s, v)
    requires !step.PublishBegin? && !step.OfferEnter? && !step.AddViewer? && !step.InitialEnter?
    requires !step.Drain? && !step.Send? && !step.Take?
    ensures ViewerOk(Do(s, step), v)
  {
    var s' := Do(s, step);
    OtherStepOnlyMovesStages(s, step, v);
    StageKeepsViewer(s, s', v);
  }

  lemma OtherStepOnlyMovesStages(s: State, step: Step, v: Vid)
    requires !step.PublishBegin? && !step.OfferEnter? && !step.AddViewer? && !step.InitialEnter?
    requires !step.Drain? && !step.Send? && !step.Take?
    ensures
      var s' := Do(s, step);
      && s'.watchers.Keys == s.watchers.Keys
      && s'.discarded == s.discarded && s'.published == s.published
      && (v in s.watchers ==>
            var w, w' := s.watchers[v], s'.watchers[v];
            w' == w.(stage := w'.stage, writing := w'.writing) && (w.writing ==> w'.writing))
  {
  }

  lemma {:induction false} RunKeeps(s: State, steps: seq<Step>, v: Vid)
    requires Inv(s) && ViewerOk(s, v)
    ensures Inv(Run(s, steps)) && ViewerOk(Run(s, steps), v)
    decreases |steps|
  {
    if steps != [] {
      StepKeepsInv(s, steps[0]);
      StepKeepsViewer(s, steps[0], v);
      RunKeeps(Do(s, steps[0]), steps[1..], v);
    }
  }

  lemma ReachableOk(s: State, v: Vid)
    requires Reachable(s)
    ensures Inv(s) && ViewerOk(s, v)
  {
    var maxViewers: nat, steps: seq<Step> :| s == Run(Init(maxViewers), steps);
    RunKeeps(Init(maxViewers), steps, v);
  }
}
