/** What a room answers, in every reachable state: who gets the producer's slot, who joins, and
    which frame a newcomer is given. */
module RoomAnswers {
  import opened Wrappers
  import opened RelayRoom
  import opened RoomSystem
  import opened RoomInvariants
  import opened RoomPreservation
  import opened RoomTheorems

  // ---- the producer's slot ----

  /** A new handler gets the slot exactly if the room is open and every handler before it has
      released; it gets the next generation. */
  lemma ClaimsIff(s: State, p: Pid)
    requires Reachable(s) && p !in s.producers
    ensures
      var s' := Do(s, Claim(p));
      && (p in s'.producers <==> !s.room.closing && forall q <- s.producers :: s.producers[q].Released?)
      && (p in s'.producers ==> s'.producers[p] == Claimed(|s.releases| + 1))
  {
    ReachableOk(s, 0);
    SlotIsFree(s);
  }

  lemma SlotIsFree(s: State)
    requires ProducersOk(s)
    ensures s.room.producerActive <==> exists q <- s.producers :: !s.producers[q].Released?
    ensures |s.releases| + (if s.room.producerActive then 1 else 0) == s.room.producerGeneration
  {
    if s.room.producerActive {
      assert s.holder.value in s.producers && !s.producers[s.holder.value].Released?;
    }
  }

  /** A handler with the slot attaches exactly if the room is open. */
  lemma ProducerAttachesIff(s: State, p: Pid, conn: Conn)
    requires Reachable(s) && p in s.producers && s.producers[p].Claimed?
    ensures
      var s' := Do(s, AttachProducer(p, conn));
      && s'.producers[p].ConnOf() == (if s.room.closing then None else Some(conn))
      && s'.room.producerConn == s'.producers[p].ConnOf()
      && (s.room.closing ==> s'.producers[p].Leaving?)
  {
    ReachableOk(s, 0);
    HoldsSlot(s, p);
  }

  lemma HoldsSlot(s: State, p: Pid)
    requires ProducersOk(s) && p in s.producers && !s.producers[p].Released?
    ensures s.room.producerActive && s.producers[p].generation == s.room.producerGeneration
    ensures s.room.producerConn == s.producers[p].ConnOf()
  {
    assert s.holder == Some(p);
  }

  /** A publish adds a frame with the payload, the time and the next generation, which is the
      room's latest, and is to be offered to every registered viewer. */
  lemma PublishAdds(s: State, p: Pid, payload: Payload, now: Time)
    requires Reachable(s) && p in s.producers && s.producers[p].Attached?
    ensures
      var s', f := Do(s, PublishBegin(p, payload, now)), Frame(|s.published| + 1, payload, now);
      && s'.published == s.published + [f] && s'.room.latest == Some(f)
      && s'.producers[p].Publishing? && s'.producers[p].frame == f && s'.producers[p].at.None?
      && forall v :: v in s'.producers[p].todo <==> Registered(s, v)
  {
    ReachableOk(s, 0);
  }

  // ---- joining ----

  ghost function Joined(s: State): set<Vid> {
    set v | v in s.watchers && !s.watchers[v].stage.Gone?
  }

  lemma JoinedAreRegistered(s: State)
    requires RegistryOk(s)
    ensures Joined(s) == s.room.viewers
  {
  }

  /** The latest frame, unless it is older than the time to live. */
  ghost function Within(latest: Option<Frame>, now: Time, ttl: Time): Option<Frame> {
    if latest.Some? && now - latest.value.publishedAt <= ttl then latest else None
  }

  /** A new handler joins exactly if the room is open and fewer than its limit have joined and
      not left; it is given the latest frame unless that is older than the time to live. */
  lemma JoinsIff(s: State, v: Vid, now: Time, ttl: Time)
    requires Reachable(s) && v !in s.watchers
    ensures
      var s' := Do(s, AddViewer(v, now, ttl));
      && (v in s'.watchers <==> !s.room.closing && |Joined(s)| < s.room.maxViewers)
      && (v in s'.watchers ==> s'.watchers[v].stage == Added(Within(s.room.latest, now, ttl)))
  {
    ReachableOk(s, 0);
    JoinedAreRegistered(s);
    ReachableDated(s);
  }

  /** A viewer that has joined attaches exactly if the room is open. */
  lemma ViewerAttachesIff(s: State, v: Vid, conn: Conn)
    requires Reachable(s) && v in s.watchers && s.watchers[v].stage.Added?
    ensures
      var s', initial := Do(s, AttachViewer(v, conn)), s.watchers[v].stage.initial;
      && s'.watchers[v].stage == (if s.room.closing then Quitting(None) else InRoom(initial, conn))
      && s'.room.conns == (if s.room.closing then s.room.conns else s.room.conns[v := conn])
  {
    ReachableOk(s, 0);
    assert v in s.room.viewers;
  }

  /** The initial frame is offered before the writer starts: when a handler has made its offer,
      its viewer has seen that frame or a newer one, and has it pending if it was the newest. */
  lemma InitialIsOffered(s: State, v: Vid)
    requires v in s.watchers && s.watchers[v].mu.None?
    requires s.watchers[v].stage.Ready? && s.watchers[v].stage.initial.Some?
    ensures Do(s, StartWriter(v)) == s
    ensures
      var f, w := s.watchers[v].stage.initial.value, s.watchers[v];
      var s' := Run(s, [InitialEnter(v), Drain(v), Send(v)]);
      && v in s'.watchers && s'.watchers[v].mu.None?
      && s'.watchers[v].stage == Ready(None, w.stage.conn)
      && (if w.slot.newest < f.generation then s'.watchers[v].slot == Slot(f.generation, Some(f))
          else s'.watchers[v].slot == w.slot)
  {
    RunThree(s, InitialEnter(v), Drain(v), Send(v));
    OfferInitially(s, v);
  }

  lemma OfferInitially(s: State, v: Vid)
    requires v in s.watchers && s.watchers[v].mu.None?
    requires s.watchers[v].stage.Ready? && s.watchers[v].stage.initial.Some?
    ensures
      var f, w := s.watchers[v].stage.initial.value, s.watchers[v];
      var s' := DoSend(DoDrain(DoInitialEnter(s, v), v), v);
      && v in s'.watchers && s'.watchers[v].mu.None?
      && s'.watchers[v].stage == Ready(None, w.stage.conn)
      && (if w.slot.newest < f.generation then s'.watchers[v].slot == Slot(f.generation, Some(f))
          else s'.watchers[v].slot == w.slot)
  {
    var f, w := s.watchers[v].stage.initial.value, s.watchers[v];
    if w.slot.newest < f.generation {
      assert DoInitialEnter(s, v).watchers[v] == Accepting(w, None, f);
      assert DoDrain(DoInitialEnter(s, v), v).watchers[v] == Drained(Accepting(w, None, f));
    }
  }

  lemma RunThree(s: State, a: Step, b: Step, c: Step)
    ensures Run(s, [a, b, c]) == Do(Do(Do(s, a), b), c)
  {
    assert [a, b, c][1..] == [b, c] && [b, c][1..] == [c] && [c][1..] == [];
    assert Run(Do(Do(s, a), b), [c]) == Run(Do(Do(Do(s, a), b), c), []);
  }

  // ---- the age of the latest frame ----

  /** The time kept beside the latest frame is its own. */
  ghost predicate Dated(s: State) {
    s.room.latest.Some? ==> s.room.latestAt == s.room.latest.value.publishedAt
  }

  lemma StepKeepsDated(s: State, step: Step)
    requires Dated(s)
    ensures Dated(Do(s, step))
  {
    if step.PublishBegin? || step.Expire? {
    } else {
      StepKeepsLatest(s, step);
    }
  }

  lemma StepKeepsLatest(s: State, step: Step)
    requires !step.PublishBegin? && !step.Expire?
    ensures Do(s, step).room.latest == s.room.latest && Do(s, step).room.latestAt == s.room.latestAt
    ensures Do(s, step).published == s.published
  {
    if OfViewer(step) {
      ViewerStepKeepsLatest(s, step);
    } else {
      RoomStepKeepsLatest(s, step);
    }
  }

  lemma ViewerStepKeepsLatest(s: State, step: Step)
    requires OfViewer(step)
    ensures Do(s, step).room.latest == s.room.latest && Do(s, step).room.latestAt == s.room.latestAt
    ensures Do(s, step).published == s.published
  {
  }

  lemma RoomStepKeepsLatest(s: State, step: Step)
    requires !OfViewer(step) && !step.PublishBegin? && !step.Expire?
    ensures Do(s, step).room.latest == s.room.latest && Do(s, step).room.latestAt == s.room.latestAt
    ensures Do(s, step).published == s.published
  {
  }

  lemma {:induction false} RunKeepsDated(s: State, steps: seq<Step>)
    requires Dated(s)
    ensures Dated(Run(s, steps))
    decreases |steps|
  {
    if steps != [] {
      StepKeepsDated(s, steps[0]);
      RunKeepsDated(Do(s, steps[0]), steps[1..]);
    }
  }

  lemma ReachableDated(s: State)
    requires Reachable(s)
    ensures Dated(s)
  {
    var maxViewers: nat, steps: seq<Step> :| s == Run(Init(maxViewers), steps);
    RunKeepsDated(Init(maxViewers), steps);
  }

  // ---- the latest frame over runs ----

  /** Every expiry of the run finds the frame within its time to live. */
  ghost predicate Outlives(f: Frame, steps: seq<Step>) {
    forall step <- steps :: step.Expire? ==> step.now - f.publishedAt <= step.ttl
  }

  lemma StepKeepsPublished(s: State, step: Step)
    ensures s.published <= Do(s, step).published
  {
    if !step.PublishBegin? && !step.Expire? {
      StepKeepsLatest(s, step);
    }
  }

  lemma {:induction false} RunKeepsPublished(s: State, steps: seq<Step>)
    ensures s.published <= Run(s, steps).published
    decreases |steps|
  {
    if steps != [] {
      StepKeepsPublished(s, steps[0]);
      RunKeepsPublished(Do(s, steps[0]), steps[1..]);
    }
  }

  /** Over a run that publishes nothing the latest frame is dropped exactly by an expiry that
      finds it older than its time to live. */
  lemma {:induction false} LatestOverRun(s: State, steps: seq<Step>)
    requires Dated(s) && Run(s, steps).published == s.published
    ensures Run(s, steps).room.latest
            == if s.room.latest.Some? && Outlives(s.room.latest.value, steps) then s.room.latest else None
    decreases |steps|
  {
    if steps != [] {
      StepKeepsPublished(s, steps[0]);
      RunKeepsPublished(Do(s, steps[0]), steps[1..]);
      StepKeepsDated(s, steps[0]);
      LatestOverStep(s, steps[0]);
      LatestOverRun(Do(s, steps[0]), steps[1..]);
      OutlivesRest(s, steps);
    }
  }

  lemma LatestOverStep(s: State, step: Step)
    requires Dated(s) && Do(s, step).published == s.published
    ensures Do(s, step).room.latest
            == if s.room.latest.Some? && Outlives(s.room.latest.value, [step]) then s.room.latest else None
  {
    if !step.PublishBegin? && !step.Expire? {
      StepKeepsLatest(s, step);
    }
    assert step in [step];
  }

  lemma OutlivesRest(s: State, steps: seq<Step>)
    requires steps != []
    ensures forall f: Frame :: Outlives(f, steps) <==> Outlives(f, [steps[0]]) && Outlives(f, steps[1..])
  {
    forall f: Frame ensures Outlives(f, steps) <==> Outlives(f, [steps[0]]) && Outlives(f, steps[1..]) {
      assert steps == [steps[0]] + steps[1..];
      assert steps[0] in steps && steps[0] in [steps[0]];
    }
  }

  /** After a publish, over any run that publishes nothing more, a newcomer is given that frame
      exactly if its age is within the newcomer's time to live and no expiry has found it
      beyond its own. */
  lemma NewcomerGetsLatest(s: State, p: Pid, payload: Payload, at: Time, steps: seq<Step>, v: Vid, now: Time, ttl: Time)
    requires Reachable(s) && p in s.producers && s.producers[p].Attached?
    requires var t := Run(Do(s, PublishBegin(p, payload, at)), steps);
             && t.published == Do(s, PublishBegin(p, payload, at)).published
             && v !in t.watchers && v in Do(t, AddViewer(v, now, ttl)).watchers
    ensures
      var f, t := Frame(|s.published| + 1, payload, at), Run(Do(s, PublishBegin(p, payload, at)), steps);
      Do(t, AddViewer(v, now, ttl)).watchers[v].stage
      == Added(if now - at <= ttl && Outlives(f, steps) then Some(f) else None)
  {
    var t0 := Do(s, PublishBegin(p, payload, at));
    var t := Run(t0, steps);
    PublishAdds(s, p, payload, at);
    ReachableDated(s);
    StepKeepsDated(s, PublishBegin(p, payload, at));
    LatestOverRun(t0, steps);
    ReachesOn(s, PublishBegin(p, payload, at), steps);
    JoinsIff(t, v, now, ttl);
  }

  /** The latest frame after the room is asked to expire it. */
  lemma ExpireDropsIff(s: State, now: Time, ttl: Time)
    requires Reachable(s)
    ensures Do(s, Expire(now, ttl)).room.latest == Within(s.room.latest, now, ttl)
  {
    ReachableDated(s);
  }

  lemma ReachesOn(s: State, step: Step, steps: seq<Step>)
    requires Reachable(s)
    ensures Reachable(Run(Do(s, step), steps))
  {
    var maxViewers: nat, before: seq<Step> :| s == Run(Init(maxViewers), before);
    RunAppend(Init(maxViewers), before, [step] + steps);
    assert ([step] + steps)[1..] == steps;
    assert Run(Init(maxViewers), before + ([step] + steps)) == Run(Do(s, step), steps);
  }

  lemma {:induction false} RunAppend(s: State, a: seq<Step>, b: seq<Step>)
    ensures Run(s, a + b) == Run(Run(s, a), b)
    decreases |a|
  {
    if a == [] {
      assert a + b == b;
    } else {
      assert (a + b)[1..] == a[1..] + b;
      RunAppend(Do(s, a[0]), a[1..], b);
    }
  }
}
