/** The relay's token buckets over real time: the frame limiter of one producer, and the
    per-address limiter over a bounded map that forgets idle entries. */
module Limiter {

  type Time = real

  datatype Bucket = Bucket(tokens: real, last: Time)
  {
    function Refilled(rate: real, burst: real, now: Time): Bucket {
      if now > last then Bucket(Min(burst, tokens + Earned(now - last, rate)), now) else this
    }

    /** One call: refill, then spend a token if there is a whole one. */
    function Allow(rate: real, burst: real, now: Time): (Bucket, bool) {
      var b := Refilled(rate, burst, now);
      if b.tokens < 1.0 then (b, false) else (Bucket(b.tokens - 1.0, b.last), true)
    }
  }

  /** The tokens a bucket gains over a duration in seconds. */
  function Earned(duration: real, rate: real): real {
    duration * rate
  }

  function Min(a: real, b: real): real {
    if a < b then a else b
  }

  function Max(a: real, b: real): real {
    if a < b then b else a
  }

  ghost predicate Filled(b: Bucket, burst: real) {
    0.0 <= b.tokens <= burst
  }

  class FrameLimiter {
    const rate: real
    const burst: real
    var tokens: real
    var last: Time

    constructor (hz: real, burst: nat, now: Time)
      ensures rate == hz && this.burst == burst as real && State() == Bucket(burst as real, now)
    {
      rate, this.burst, tokens, last := hz, burst as real, burst as real, now;
    }

    ghost function State(): Bucket
      reads this
    {
      Bucket(tokens, last)
    }

    method Allow(now: Time) returns (ok: bool)
      modifies this
      ensures (State(), ok) == old(State()).Allow(rate, burst, now)
    {
      if now > last {
        tokens := tokens + (now - last) * rate;
        if tokens > burst {
          tokens := burst;
        }
        last := now;
      }
      if tokens < 1.0 {
        return false;
      }
      tokens := tokens - 1.0;
      return true;
    }
  }

  // ---- a bucket over a sequence of calls ----

  ghost function After(b: Bucket, rate: real, burst: real, times: seq<Time>): Bucket
    decreases |times|
  {
    if times == [] then b else After(b.Allow(rate, burst, times[0]).0, rate, burst, times[1..])
  }

  ghost function Admitted(b: Bucket, rate: real, burst: real, times: seq<Time>): nat
    decreases |times|
  {
    if times == [] then 0
    else
      var (b', ok) := b.Allow(rate, burst, times[0]);
      (if ok then 1 else 0) + Admitted(b', rate, burst, times[1..])
  }

  ghost function Latest(times: seq<Time>): Time
    requires times != []
  {
    if |times| == 1 then times[0] else Max(times[0], Latest(times[1..]))
  }

  /** The potential of a bucket: refilling cannot raise it, and spending a token lowers it by one. */
  ghost function Credit(b: Bucket, rate: real): real {
    b.tokens - Earned(b.last, rate)
  }

  lemma AllowSpends(b: Bucket, rate: real, burst: real, now: Time)
    requires rate >= 0.0 && Filled(b, burst)
    ensures
      var (b', ok) := b.Allow(rate, burst, now);
      && Filled(b', burst) && b'.last == Max(b.last, now)
      && (if ok then 1.0 else 0.0) + Credit(b', rate) <= Credit(b, rate)
  {
    RefillIsBounded(b, rate, burst, now);
  }

  lemma {:induction false} SpentFromCredit(b: Bucket, rate: real, burst: real, times: seq<Time>)
    requires rate >= 0.0 && Filled(b, burst)
    ensures Filled(After(b, rate, burst, times), burst)
    ensures Admitted(b, rate, burst, times) as real + Credit(After(b, rate, burst, times), rate) <= Credit(b, rate)
    decreases |times|
  {
    if times != [] {
      AllowSpends(b, rate, burst, times[0]);
      SpentFromCredit(b.Allow(rate, burst, times[0]).0, rate, burst, times[1..]);
    }
  }

  lemma EarnedAdds(x: real, y: real, rate: real)
    ensures Earned(x + y, rate) == Earned(x, rate) + Earned(y, rate)
  {
  }

  lemma EarnedIsPositive(duration: real, rate: real)
    requires duration >= 0.0 && rate >= 0.0
    ensures Earned(duration, rate) >= 0.0
  {
  }

  lemma RefillIsBounded(b: Bucket, rate: real, burst: real, now: Time)
    requires rate >= 0.0 && Filled(b, burst)
    ensures
      var b' := b.Refilled(rate, burst, now);
      && Filled(b', burst)
      && b'.last == Max(b.last, now)
      && Credit(b', rate) <= Credit(b, rate)
  {
    if now > b.last {
      EarnedIsPositive(now - b.last, rate);
      EarnedAdds(now - b.last, b.last, rate);
      assert now - b.last + b.last == now;
    }
  }

  lemma {:induction false} LastIsLatest(b: Bucket, rate: real, burst: real, times: seq<Time>)
    requires times != []
    ensures After(b, rate, burst, times).last == Max(b.last, Latest(times))
    decreases |times|
  {
    var b1 := b.Allow(rate, burst, times[0]).0;
    if |times| > 1 {
      LastIsLatest(b1, rate, burst, times[1..]);
    } else {
      assert times[1..] == [];
    }
  }

  lemma {:induction false} FirstIsAtMostLatest(times: seq<Time>)
    requires times != []
    ensures times[0] <= Latest(times)
  {
  }

  /** What a bucket may admit between two times. */
  ghost function Envelope(rate: real, burst: real, first: Time, latest: Time): real {
    burst + Earned(latest - first, rate)
  }

  /** Over any calls, at whatever times and in whatever order, a bucket admits at most
      `burst` plus `rate` times the time from the first call to the latest. */
  lemma AdmissionBound(b: Bucket, rate: real, burst: real, times: seq<Time>)
    requires rate >= 0.0 && Filled(b, burst) && times != []
    ensures Admitted(b, rate, burst, times) as real <= Envelope(rate, burst, times[0], Latest(times))
  {
    var r := b.Refilled(rate, burst, times[0]);
    RefillIsBounded(b, rate, burst, times[0]);
    RefilledAtFirst(b, rate, burst, times);
    AdmittedSince(r, rate, burst, times);
  }

  lemma RefilledAtFirst(b: Bucket, rate: real, burst: real, times: seq<Time>)
    requires times != []
    ensures Admitted(b.Refilled(rate, burst, times[0]), rate, burst, times) == Admitted(b, rate, burst, times)
  {
    var r := b.Refilled(rate, burst, times[0]);
    assert r.Refilled(rate, burst, times[0]) == r;
    assert r.Allow(rate, burst, times[0]) == b.Allow(rate, burst, times[0]);
  }

  lemma AdmittedSince(r: Bucket, rate: real, burst: real, times: seq<Time>)
    requires rate >= 0.0 && Filled(r, burst) && times != [] && r.last >= times[0]
    ensures Admitted(r, rate, burst, times) as real <= Envelope(rate, burst, times[0], Latest(times))
  {
    SpentFromCredit(r, rate, burst, times);
    LastIsLatest(r, rate, burst, times);
    FirstIsAtMostLatest(times);
    SpentIsBounded(r, After(r, rate, burst, times), rate, burst, times[0], Latest(times));
  }

  lemma SpentIsBounded(r: Bucket, a: Bucket, rate: real, burst: real, first: Time, latest: Time)
    requires rate >= 0.0 && Filled(r, burst) && Filled(a, burst)
    requires a.last == Max(r.last, latest) && first <= r.last && first <= latest
    ensures Credit(r, rate) - Credit(a, rate) <= Envelope(rate, burst, first, latest)
  {
    ElapsedIsBounded(r.last, a.last, first, latest, rate);
  }

  lemma ElapsedIsBounded(from: Time, until: Time, first: Time, latest: Time, rate: real)
    requires rate >= 0.0 && until - from <= latest - first
    ensures Earned(until, rate) - Earned(from, rate) <= Earned(latest - first, rate)
  {
    var spare := latest - first - (until - from);
    EarnedIsPositive(spare, rate);
    EarnedAdds(spare, until - from, rate);
    assert spare + (until - from) == latest - first;
    EarnedAdds(until - from, from, rate);
    assert until - from + from == until;
  }

  // ---- exactly which calls are all admitted ----

  ghost predicate NonDecreasing(times: seq<Time>) {
    forall i, j | 0 <= i <= j < |times| :: times[i] <= times[j]
  }

  /** No stretch of calls is denser than the envelope. */
  ghost predicate Conforms(rate: real, burst: real, times: seq<Time>) {
    forall i, j | 0 <= i <= j < |times| :: (j - i + 1) as real <= Envelope(rate, burst, times[i], times[j])
  }

  /** The calls fit what the bucket holds now plus its refill. */
  ghost predicate Fits(b: Bucket, rate: real, times: seq<Time>) {
    forall j | 0 <= j < |times| :: (j + 1) as real <= b.tokens + Earned(times[j] - b.last, rate)
  }

  /** A full bucket admits every call of a non-decreasing sequence exactly when no stretch
      of the calls exceeds `burst` plus `rate` times its duration. */
  lemma AdmitsAllIffConforms(b: Bucket, rate: real, burst: real, times: seq<Time>)
    requires rate >= 0.0 && burst >= 0.0 && b.tokens == burst
    requires NonDecreasing(times) && (times != [] ==> b.last <= times[0])
    ensures Admitted(b, rate, burst, times) == |times| <==> Conforms(rate, burst, times)
  {
    if Conforms(rate, burst, times) {
      forall j | 0 <= j < |times| ensures (j + 1) as real <= b.tokens + Earned(times[j] - b.last, rate) {
        assert (j - 0 + 1) as real <= Envelope(rate, burst, times[0], times[j]);
        EarnedAdds(times[j] - times[0], times[0] - b.last, rate);
        assert times[j] - times[0] + (times[0] - b.last) == times[j] - b.last;
        EarnedIsPositive(times[0] - b.last, rate);
      }
      ConformingIsAdmitted(b, rate, burst, times);
    } else if Admitted(b, rate, burst, times) == |times| {
      AdmittedConforms(b, rate, burst, times);
    }
  }

  lemma {:induction false} ConformingIsAdmitted(b: Bucket, rate: real, burst: real, times: seq<Time>)
    requires rate >= 0.0 && Filled(b, burst) && NonDecreasing(times) && (times != [] ==> b.last <= times[0])
    requires Conforms(rate, burst, times) && Fits(b, rate, times)
    ensures Admitted(b, rate, burst, times) == |times|
    decreases |times|
  {
    if times != [] {
      var r := b.Refilled(rate, burst, times[0]);
      RefillIsBounded(b, rate, burst, times[0]);
      assert (0 + 1) as real <= b.tokens + Earned(times[0] - b.last, rate);
      assert (0 - 0 + 1) as real <= Envelope(rate, burst, times[0], times[0]);
      assert r.tokens >= 1.0;
      var b1 := b.Allow(rate, burst, times[0]).0;
      var rest := times[1..];
      forall j | 0 <= j < |rest| ensures (j + 1) as real <= b1.tokens + Earned(rest[j] - b1.last, rate) {
        assert rest[j] == times[j + 1];
        assert (j + 1 + 1) as real <= b.tokens + Earned(times[j + 1] - b.last, rate);
        assert (j + 1 - 0 + 1) as real <= Envelope(rate, burst, times[0], times[j + 1]);
        EarnedAdds(times[j + 1] - times[0], times[0] - b.last, rate);
        assert times[j + 1] - times[0] + (times[0] - b.last) == times[j + 1] - b.last;
      }
      ConformsTail(rate, burst, times);
      ConformingIsAdmitted(b1, rate, burst, rest);
    }
  }

  lemma ConformsTail(rate: real, burst: real, times: seq<Time>)
    requires times != [] && Conforms(rate, burst, times)
    ensures Conforms(rate, burst, times[1..])
  {
    var rest := times[1..];
    forall i, j | 0 <= i <= j < |rest|
      ensures (j - i + 1) as real <= Envelope(rate, burst, rest[i], rest[j])
    {
      assert (j + 1 - (i + 1) + 1) as real <= Envelope(rate, burst, times[i + 1], times[j + 1]);
    }
  }

  lemma {:induction false} AdmittedAtMostAll(b: Bucket, rate: real, burst: real, times: seq<Time>)
    ensures Admitted(b, rate, burst, times) <= |times|
    decreases |times|
  {
    if times != [] {
      AdmittedAtMostAll(b.Allow(rate, burst, times[0]).0, rate, burst, times[1..]);
    }
  }

  lemma {:induction false} AdmittedSplits(b: Bucket, rate: real, burst: real, xs: seq<Time>, ys: seq<Time>)
    ensures Admitted(b, rate, burst, xs + ys)
            == Admitted(b, rate, burst, xs) + Admitted(After(b, rate, burst, xs), rate, burst, ys)
    decreases |xs|
  {
    if xs == [] {
      assert xs + ys == ys;
    } else {
      assert (xs + ys)[1..] == xs[1..] + ys;
      AdmittedSplits(b.Allow(rate, burst, xs[0]).0, rate, burst, xs[1..], ys);
    }
  }

  lemma AdmittedConforms(b: Bucket, rate: real, burst: real, times: seq<Time>)
    requires rate >= 0.0 && Filled(b, burst) && NonDecreasing(times)
    requires Admitted(b, rate, burst, times) == |times|
    ensures Conforms(rate, burst, times)
  {
    forall i, j | 0 <= i <= j < |times|
      ensures (j - i + 1) as real <= Envelope(rate, burst, times[i], times[j])
    {
      StretchFits(b, rate, burst, times, i, j);
    }
  }

  lemma StretchFits(b: Bucket, rate: real, burst: real, times: seq<Time>, i: nat, j: nat)
    requires rate >= 0.0 && Filled(b, burst) && NonDecreasing(times)
    requires Admitted(b, rate, burst, times) == |times| && i <= j < |times|
    ensures (j - i + 1) as real <= Envelope(rate, burst, times[i], times[j])
  {
    var stretch := times[i..j + 1];
    assert times == times[..i] + stretch + times[j + 1..];
    StretchConforms(b, rate, burst, times[..i], stretch, times[j + 1..]);
    LatestIsLast(stretch);
    assert |stretch| == j - i + 1 && stretch[0] == times[i] && stretch[|stretch| - 1] == times[j];
  }

  lemma StretchConforms(b: Bucket, rate: real, burst: real, before: seq<Time>, stretch: seq<Time>, after: seq<Time>)
    requires rate >= 0.0 && Filled(b, burst) && stretch != []
    ensures
      var times := before + stretch + after;
      Admitted(b, rate, burst, times) == |times| ==>
        |stretch| as real <= Envelope(rate, burst, stretch[0], Latest(stretch))
  {
    var c := After(b, rate, burst, before);
    assert before + stretch + after == before + (stretch + after);
    AdmittedSplits(b, rate, burst, before, stretch + after);
    AdmittedSplits(c, rate, burst, stretch, after);
    AdmittedAtMostAll(b, rate, burst, before);
    AdmittedAtMostAll(c, rate, burst, stretch);
    AdmittedAtMostAll(After(c, rate, burst, stretch), rate, burst, after);
    SpentFromCredit(b, rate, burst, before);
    AdmissionBound(c, rate, burst, stretch);
  }

  lemma {:induction false} LatestIsLast(times: seq<Time>)
    requires times != [] && NonDecreasing(times)
    ensures Latest(times) == times[|times| - 1]
  {
    if |times| > 1 {
      LatestIsLast(times[1..]);
      assert times[0] <= times[|times| - 1];
    }
  }
}
