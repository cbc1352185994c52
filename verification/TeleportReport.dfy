/** The mailbox and the position together, as the one tick thread runs them: it calls
    SetPosition, publishes the position, and only then stores a result and acknowledges. So a
    controller that is told of success never reads the position of an earlier tick. */
module TeleportReport {
  import opened Wrappers
  import opened Mailbox
  import opened MailboxProofs
  import Seqlock
  import SeqlockProofs

  /** `placing` is set from SetPosition to the result, to how many positions had been
      published before. The rest is history, an entry for each SetPosition: how many had been
      published when it was called, and when its result was known. */
  datatype World = World(
    m: State,
    s: Seqlock.Shared,
    placing: Option<nat>,
    before: seq<nat>,
    after: seq<nat>)

  function Start(): World {
    World(Init(), Seqlock.Zeroed(), None, [], [])
  }

  datatype Act =
    | Controller(step: Step)
    | Tick(step: Step)
    | Place
    | Publish(a: Seqlock.Access)
    | Settle
    | Read(a: Seqlock.Access)

  predicate OfTick(step: Step) {
    step.TickLoadRequest? || step.TickLoadCompleted? || step.TickCopy? || step.TickRecheck?
    || step.TickSetPosition? || step.TickStore? || step.TickAcknowledge?
  }

  predicate OfReader(a: Seqlock.Access) {
    a.LoadValid? || a.LoadBefore? || a.LoadCoordinate? || a.LoadUpdates? || a.LoadAfter? || a.LoadStillValid?
  }

  /** The thread publishes outside a request, for telemetry, or while it places one; a
      second thread may withdraw the position at any time. */
  function Next(w: World, act: Act): World {
    match act
    case Controller(step) => if OfTick(step) then w else w.(m := Do(w.m, step))
    case Tick(step) =>
      if !OfTick(step) || step.TickSetPosition? || w.placing.Some? || !w.s.writer.AtRest? then w
      else w.(m := Do(w.m, step))
    case Place =>
      if !w.m.tick.Coherent? || w.placing.Some? || !w.s.writer.AtRest? then w
      else w.(placing := Some(|w.s.published|))
    case Publish(a) =>
      if OfReader(a) || !(a.Unavailable? || w.m.tick.Resting? || w.placing.Some?) then w
      else w.(s := Seqlock.Next(w.s, a))
    case Settle =>
      if w.placing.None? || !w.m.tick.Coherent? || !w.s.writer.AtRest? then w
      else
        var ok := |w.s.published| > w.placing.value && Near(w.s.tuple, w.m.tick.v);
        w.(m := DoTickSetPosition(w.m, ok), placing := None,
           before := w.before + [w.placing.value], after := w.after + [|w.s.published|])
    case Read(a) => if OfReader(a) then w.(s := Seqlock.Next(w.s, a)) else w
  }

  function Run(w: World, acts: seq<Act>): World
    decreases |acts|
  {
    if acts == [] then w else Run(Next(w, acts[0]), acts[1..])
  }

  ghost predicate Reached(w: World) {
    exists acts: seq<Act> :: w == Run(Start(), acts)
  }

  // ---- the invariant ----

  /** Request `k` was placed and a position near it published before its result was known. */
  ghost predicate Shown(w: World, k: nat) {
    && k < |w.before| && k < |w.after| && k < |w.m.published|
    && w.before[k] < w.after[k] <= |w.s.published|
    && Near(w.s.published[w.after[k] - 1], w.m.published[k])
  }

  ghost predicate WorldInv(w: World) {
    && Inv(w.m) && SeqlockProofs.SeqInv(w.s)
    && |w.before| == |w.after| == |w.m.applied|
    && (w.placing.Some? ==> w.m.tick.Coherent? && w.placing.value <= |w.s.published|)
    && (forall k: nat | k < |w.m.results| && w.m.results[k] :: Shown(w, k))
    && (w.m.tick.Applied? && w.m.tick.ok ==> Shown(w, |w.m.results|))
  }

  /** What was shown stays shown. */
  lemma ShownStays(w: World, w': World, k: nat)
    requires Shown(w, k) && w.before <= w'.before && w.after <= w'.after
    requires w.s.published <= w'.s.published && w.m.published <= w'.m.published
    ensures Shown(w', k)
  {
  }

  lemma ControllerKeeps(w: World, step: Step)
    requires WorldInv(w) && !OfTick(step)
    ensures WorldInv(w.(m := Do(w.m, step)))
  {
    var w' := w.(m := Do(w.m, step));
    StepKeepsInv(w.m, step);
    ControllerLeavesTick(w.m, step);
    ResultsStayShown(w, w');
  }

  /** A controller touches nothing of the tick thread's. */
  lemma ControllerLeavesTick(m: State, step: Step)
    requires !OfTick(step)
    ensures var m' := Do(m, step);
            && m'.tick == m.tick && m'.results == m.results && m'.applied == m.applied && m.published <= m'.published
  {
  }

  lemma ResultsStayShown(w: World, w': World)
    requires forall k: nat | k < |w.m.results| && w.m.results[k] :: Shown(w, k)
    requires w.m.tick.Applied? && w.m.tick.ok ==> Shown(w, |w.m.results|)
    requires w'.m.results == w.m.results && w'.m.tick == w.m.tick
    requires w.before <= w'.before && w.after <= w'.after
    requires w.s.published <= w'.s.published && w.m.published <= w'.m.published
    ensures forall k: nat | k < |w'.m.results| && w'.m.results[k] :: Shown(w', k)
    ensures w'.m.tick.Applied? && w'.m.tick.ok ==> Shown(w', |w'.m.results|)
  {
    forall k: nat | k < |w'.m.results| && w'.m.results[k] ensures Shown(w', k) {
      ShownStays(w, w', k);
    }
  }

  lemma TickKeeps(w: World, step: Step)
    requires WorldInv(w) && OfTick(step) && !step.TickSetPosition? && w.placing.None?
    ensures WorldInv(w.(m := Do(w.m, step)))
  {
    var w' := w.(m := Do(w.m, step));
    StepKeepsInv(w.m, step);
    TickLeavesHistory(w.m, step);
    forall k: nat | k < |w'.m.results| && w'.m.results[k] ensures Shown(w', k) {
      assert Shown(w, k);
      ShownStays(w, w', k);
    }
  }

  /** Before its result is stored a request is applied; storing adds that result. */
  lemma TickLeavesHistory(m: State, step: Step)
    requires OfTick(step) && !step.TickSetPosition?
    ensures var m' := Do(m, step);
            && m'.applied == m.applied && m'.published == m.published
            && m'.results == (if step.TickStore? && m.tick.Applied? then m.results + [m.tick.ok] else m.results)
            && (m'.tick.Applied? ==> m' == m)
  {
  }

  lemma AccessKeeps(w: World, a: Seqlock.Access)
    requires WorldInv(w)
    ensures WorldInv(w.(s := Seqlock.Next(w.s, a)))
  {
    SeqlockProofs.AccessKeepsInv(w.s, a);
    PublishedGrows(w.s, a);
    ResultsStayShown(w, w.(s := Seqlock.Next(w.s, a)));
  }

  lemma PublishedGrows(s: Seqlock.Shared, a: Seqlock.Access)
    ensures s.published <= Seqlock.Next(s, a).published && s.sequence <= Seqlock.Next(s, a).sequence
  {
  }

  lemma SettleKeeps(w: World)
    requires WorldInv(w)
    ensures WorldInv(Next(w, Settle))
  {
    if w.placing.Some? && w.s.writer.AtRest? {
      var ok := |w.s.published| > w.placing.value && Near(w.s.tuple, w.m.tick.v);
      var w' := Next(w, Settle);
      TickSetPositionKeeps(w.m, ok);
      SettleLeavesHistory(w.m, ok);
      forall k: nat | k < |w'.m.results| && w'.m.results[k] ensures Shown(w', k) {
        ShownStays(w, w', k);
      }
      if ok {
        SettledIsShown(w, w');
      }
    }
  }

  lemma SettleLeavesHistory(m: State, ok: bool)
    requires m.tick.Coherent? && Inv(m)
    ensures var m' := DoTickSetPosition(m, ok);
            && m'.tick.Applied? && m'.tick.ok == ok && m'.results == m.results
            && m'.published == m.published && |m'.applied| == |m.applied| + 1
            && |m.applied| == |m.results| < |m.published| && m.tick.v == m.published[|m.results|]
  {
    RequestImpliesTeleport(m.tick.v);
  }

  lemma SettledIsShown(w: World, w': World)
    requires w.placing.Some? && SeqlockProofs.SeqInv(w.s) && w.s.writer.AtRest?
    requires |w.s.published| > w.placing.value && w.m.tick.Coherent? && Near(w.s.tuple, w.m.tick.v)
    requires |w.before| == |w.after| == |w.m.results| < |w.m.published|
    requires w.m.tick.v == w.m.published[|w.m.results|]
    requires w'.m.published == w.m.published && w'.m.results == w.m.results && w'.s == w.s
    requires w'.before == w.before + [w.placing.value] && w'.after == w.after + [|w.s.published|]
    ensures Shown(w', |w'.m.results|)
  {
  }

  lemma ActKeepsInv(w: World, act: Act)
    requires WorldInv(w)
    ensures WorldInv(Next(w, act))
  {
    match act
    case Controller(step) => if !OfTick(step) { ControllerKeeps(w, step); }
    case Tick(step) =>
      if OfTick(step) && !step.TickSetPosition? && w.placing.None? {
        TickKeeps(w, step);
      }
    case Place =>
    case Publish(a) => AccessKeeps(w, a);
    case Settle => SettleKeeps(w);
    case Read(a) => AccessKeeps(w, a);
  }

  lemma {:induction false} RunKeepsWorld(w: World, acts: seq<Act>)
    requires WorldInv(w)
    ensures WorldInv(Run(w, acts))
    decreases |acts|
  {
    if acts != [] {
      ActKeepsInv(w, acts[0]);
      RunKeepsWorld(Next(w, acts[0]), acts[1..]);
    }
  }

  lemma ReachedInv(w: World)
    requires Reached(w)
    ensures WorldInv(w)
  {
    var acts :| w == Run(Start(), acts);
    RunKeepsWorld(Start(), acts);
  }

  // ---- reads that begin afterwards ----

  /** The reads that `r` completes from the `n`-th on, and the one it is at, are of sequence
      numbers not below `floor`. */
  ghost predicate NotBefore(s: Seqlock.Shared, r: Seqlock.Rid, n: nat, floor: int) {
    var reader := Seqlock.Of(s, r);
    && floor <= s.sequence && n <= |reader.seen|
    && (!reader.stage.Away? && !reader.stage.Trying? ==> floor <= reader.stage.before)
    && forall i | n <= i < |reader.seen| :: floor <= reader.seen[i].before
  }

  lemma AccessKeepsFloor(s: Seqlock.Shared, a: Seqlock.Access, r: Seqlock.Rid, n: nat, floor: int)
    requires NotBefore(s, r, n, floor)
    ensures NotBefore(Seqlock.Next(s, a), r, n, floor)
  {
  }

  lemma {:induction false} RunKeepsFloor(w: World, acts: seq<Act>, r: Seqlock.Rid, n: nat, floor: int)
    requires NotBefore(w.s, r, n, floor)
    ensures NotBefore(Run(w, acts).s, r, n, floor)
    ensures w.s.published <= Run(w, acts).s.published
    decreases |acts|
  {
    if acts != [] {
      var act := acts[0];
      if act.Publish? || act.Read? {
        AccessKeepsFloor(w.s, act.a, r, n, floor);
        PublishedGrows(w.s, act.a);
      }
      RunKeepsFloor(Next(w, act), acts[1..], r, n, floor);
    }
  }

  /** Once request `k` is acknowledged with success, a position near it has been published
      since SetPosition, and over every run every read that begins from here on returns that
      publication or a later one. */
  lemma ReadsAfterSuccess(w: World, k: nat, acts: seq<Act>, r: Seqlock.Rid)
    requires Reached(w) && k < w.m.completed / 2 && k < |w.m.results| && w.m.results[k]
    requires Seqlock.Of(w.s, r).stage.Away? || Seqlock.Of(w.s, r).stage.Trying?
    ensures Shown(w, k)
    ensures var seen, seen' := Seqlock.Of(w.s, r).seen, Seqlock.Of(Run(w, acts).s, r).seen;
            forall i | |seen| <= i < |seen'| ::
              && w.after[k] <= seen'[i].before / 2 <= |Run(w, acts).s.published|
              && seen'[i].v == Run(w, acts).s.published[seen'[i].before / 2 - 1]
  {
    ReachedInv(w);
    var n := |Seqlock.Of(w.s, r).seen|;
    var floor := 2 * |w.s.published|;
    RunKeepsFloor(w, acts, r, n, floor);
    RunKeepsWorld(w, acts);
    var s' := Run(w, acts).s;
    assert SeqlockProofs.ReaderOk(s', Seqlock.Of(s', r));
    forall i | n <= i < |Seqlock.Of(s', r).seen| ensures SeqlockProofs.ReadOk(s', Seqlock.Of(s', r).seen[i]) {
    }
  }
}
