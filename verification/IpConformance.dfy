/** When the per-address limiter must admit: with room, exactly what a bucket of the address's
    own would admit, whatever the other addresses do; without, exactly after forgetting. */
module IpConformance {
  import Limiter
  import opened IpLimiter

  type Time = Limiter.Time

  // ---- one call ----

  /** A call of a known address, or with a place for a new one, is admitted exactly if a whole
      token is there after the refill. */
  lemma AdmitsIff(c: Config, t: Table, key: Key, now: Time, clock: Time)
    requires RefillsInAMinute(c) && TableOk(c, t, clock) && clock <= now
    requires key in t.entries || |t.entries| < c.maxEntries
    ensures Called(c, t, key, now).1 <==> Spendable(c, t.entries, key, now) >= 1.0
  {
    var aged := Aged(t, now);
    PrunedSize(t.entries, now - 600.0);
    PruningIsHarmless(c, t.entries, key, now - 600.0, now);
    if key in t.entries && key !in aged.entries {
      PrunedFewer(t.entries, now - 600.0, key);
    }
    assert WithRoom(c, aged.entries, key, now) == aged.entries;
  }

  lemma PrunedFewer(entries: Entries, before: Time, key: Key)
    requires key in entries && entries[key].last < before
    ensures |Pruned(entries, before)| < |entries|
  {
    var kept := Pruned(entries, before).Keys;
    assert entries.Keys == kept + (entries.Keys - kept) && key in entries.Keys - kept;
  }

  lemma PrunedNothing(entries: Entries, before: Time)
    requires forall k <- entries :: entries[k].last >= before
    ensures Pruned(entries, before) == entries
  {
  }

  /** A new address that finds the table full is admitted exactly if some entry has idled for
      more than a minute. */
  lemma FullTableAdmitsIff(c: Config, t: Table, key: Key, now: Time)
    requires c.burst >= 1.0 && key !in t.entries && |t.entries| == c.maxEntries
    ensures Called(c, t, key, now).1 <==> exists k <- t.entries :: t.entries[k].last < now - 60.0
  {
    var aged := Aged(t, now).entries;
    if idle :| idle in t.entries && t.entries[idle].last < now - 60.0 {
      if idle in aged {
        PrunedSize(t.entries, now - 600.0);
        PrunedFewer(aged, now - 60.0, idle);
      } else {
        PrunedFewer(t.entries, now - 600.0, idle);
      }
      RoomAdmits(c, t, key, now);
    } else {
      PrunedNothing(t.entries, now - 600.0);
      PrunedNothing(t.entries, now - 60.0);
      assert WithRoom(c, aged, key, now) == t.entries;
    }
  }

  lemma RoomAdmits(c: Config, t: Table, key: Key, now: Time)
    requires c.burst >= 1.0 && key !in t.entries
    requires |WithRoom(c, Aged(t, now).entries, key, now)| < c.maxEntries
    ensures Called(c, t, key, now).1
  {
  }

  // ---- an address by itself ----

  /** When `key` calls. */
  ghost function OwnTimes(calls: seq<Call>, key: Key): seq<Time>
    decreases |calls|
  {
    if calls == [] then [] else (if calls[0].0 == key then [calls[0].1] else []) + OwnTimes(calls[1..], key)
  }

  /** Whenever `key` calls, it is known or there is a place for it. */
  ghost predicate HasPlace(c: Config, t: Table, calls: seq<Call>, key: Key)
    decreases |calls|
  {
    calls == [] ||
    (&& (calls[0].0 == key ==> key in t.entries || |t.entries| < c.maxEntries)
     && HasPlace(c, Called(c, t, calls[0].0, calls[0].1).0, calls[1..], key))
  }

  /** The bucket holds what the table lets `key` spend. */
  ghost predicate Mirrors(c: Config, t: Table, key: Key, clock: Time, b: Limiter.Bucket) {
    && Limiter.Filled(b, c.burst) && b.last <= clock
    && Spendable(c, t.entries, key, clock) == b.Refilled(c.rate, c.burst, clock).tokens
  }

  lemma RefillLater(b: Limiter.Bucket, rate: real, burst: real, clock: Time, now: Time)
    requires rate >= 0.0 && Limiter.Filled(b, burst) && b.last <= clock <= now
    ensures b.Refilled(rate, burst, now).tokens
            == Limiter.Min(burst, b.Refilled(rate, burst, clock).tokens + Limiter.Earned(now - clock, rate))
  {
    Limiter.EarnedAdds(now - clock, clock - b.last, rate);
    assert now - clock + (clock - b.last) == now - b.last;
    Limiter.EarnedIsPositive(now - clock, rate);
    Limiter.EarnedIsPositive(clock - b.last, rate);
    assert clock == now ==> Limiter.Earned(now - clock, rate) == 0.0;
  }

  lemma MirrorsLater(c: Config, t: Table, key: Key, clock: Time, now: Time, b: Limiter.Bucket)
    requires RefillsInAMinute(c) && TableOk(c, t, clock) && Mirrors(c, t, key, clock, b) && clock <= now
    ensures Mirrors(c, t, key, now, b)
  {
    RefillLater(b, c.rate, c.burst, clock, now);
    Limiter.EarnedIsPositive(now - clock, c.rate);
    if key in t.entries {
      RefillLater(t.entries[key], c.rate, c.burst, clock, now);
    }
  }

  /** A call of another address leaves the bucket; one of its own spends from it alike. */
  lemma CallMirrors(c: Config, t: Table, k: Key, now: Time, clock: Time, key: Key, b: Limiter.Bucket)
    requires RefillsInAMinute(c) && TableOk(c, t, clock) && clock <= now && Mirrors(c, t, key, clock, b)
    requires k == key ==> key in t.entries || |t.entries| < c.maxEntries
    ensures
      var (t', ok) := Called(c, t, k, now);
      var (b', own) := b.Allow(c.rate, c.burst, now);
      if k == key then ok == own && Mirrors(c, t', key, now, b') else Mirrors(c, t', key, now, b)
  {
    MirrorsLater(c, t, key, clock, now, b);
    CallSpends(c, t, k, now, clock, key);
    if k == key {
      AdmitsIff(c, t, key, now, clock);
      SpendsAlike(b, c.rate, c.burst, now);
    }
  }

  lemma SpendsAlike(b: Limiter.Bucket, rate: real, burst: real, now: Time)
    requires rate >= 0.0 && Limiter.Filled(b, burst) && b.last <= now
    ensures
      var (b', ok) := b.Allow(rate, burst, now);
      && Limiter.Filled(b', burst) && b'.last <= now
      && (ok <==> b.Refilled(rate, burst, now).tokens >= 1.0)
      && b'.Refilled(rate, burst, now).tokens == b.Refilled(rate, burst, now).tokens - (if ok then 1.0 else 0.0)
  {
    Limiter.AllowSpends(b, rate, burst, now);
  }

  /** An address that always has a place is admitted exactly as by a bucket of its own. */
  lemma {:induction false} AdmittedAsAlone(c: Config, t: Table, calls: seq<Call>, key: Key, clock: Time,
                                           b: Limiter.Bucket)
    requires RefillsInAMinute(c) && TableOk(c, t, clock) && InOrder(calls) && HasPlace(c, t, calls, key)
    requires (calls != [] ==> clock <= calls[0].1) && Mirrors(c, t, key, clock, b)
    ensures Admitted(c, t, calls, key) == Limiter.Admitted(b, c.rate, c.burst, OwnTimes(calls, key))
    decreases |calls|
  {
    if calls != [] {
      var (k, now) := calls[0];
      CalledKeepsTable(c, t, k, now, clock);
      CallMirrors(c, t, k, now, clock, key, b);
      RestInOrder(calls, clock);
      FirstCall(c, t, calls, key);
      var t', rest := Called(c, t, k, now).0, OwnTimes(calls[1..], key);
      if k == key {
        AdmittedAsAlone(c, t', calls[1..], key, now, b.Allow(c.rate, c.burst, now).0);
        assert ([now] + rest)[1..] == rest;
      } else {
        AdmittedAsAlone(c, t', calls[1..], key, now, b);
        assert OwnTimes(calls, key) == rest;
      }
    }
  }

  ghost predicate NoneBefore(times: seq<Time>, clock: Time) {
    forall i | 0 <= i < |times| :: clock <= times[i]
  }

  lemma {:induction false} OwnTimesInOrder(calls: seq<Call>, key: Key, clock: Time)
    requires InOrder(calls) && (calls != [] ==> clock <= calls[0].1)
    ensures Limiter.NonDecreasing(OwnTimes(calls, key)) && NoneBefore(OwnTimes(calls, key), clock)
    decreases |calls|
  {
    if calls != [] {
      var (k, now) := calls[0];
      RestInOrder(calls, clock);
      OwnTimesInOrder(calls[1..], key, now);
      EarlierFirst(clock, now, OwnTimes(calls[1..], key), if k == key then [now] else [], OwnTimes(calls, key));
    }
  }

  lemma EarlierFirst(clock: Time, now: Time, rest: seq<Time>, first: seq<Time>, times: seq<Time>)
    requires Limiter.NonDecreasing(rest) && NoneBefore(rest, now) && clock <= now
    requires first in {[], [now]} && times == first + rest
    ensures Limiter.NonDecreasing(times) && NoneBefore(times, clock)
  {
  }

  /** From an empty table: an address that always has a place is admitted every time exactly if
      its own calls respect `burst` plus `rate` times their duration over every stretch. */
  lemma AdmitsAllIffConforms(c: Config, calls: seq<Call>, key: Key)
    requires RefillsInAMinute(c) && InOrder(calls) && HasPlace(c, Table(map[], 0), calls, key)
    ensures Admitted(c, Table(map[], 0), calls, key) == |OwnTimes(calls, key)|
            <==> Limiter.Conforms(c.rate, c.burst, OwnTimes(calls, key))
  {
    if calls != [] {
      var clock := calls[0].1;
      var b := Limiter.Bucket(c.burst, clock);
      AdmittedAsAlone(c, Table(map[], 0), calls, key, clock, b);
      OwnTimesInOrder(calls, key, clock);
      Limiter.AdmitsAllIffConforms(b, c.rate, c.burst, OwnTimes(calls, key));
    }
  }

  // ---- when there is a place ----

  /** No more addresses than the table holds: each always has a place. */
  lemma {:induction false} FewHavePlaces(c: Config, t: Table, calls: seq<Call>, keys: set<Key>, key: Key)
    requires |keys| <= c.maxEntries && t.entries.Keys <= keys && forall call <- calls :: call.0 in keys
    ensures HasPlace(c, t, calls, key)
    decreases |calls|
  {
    if calls != [] {
      assert calls[0] in calls;
      PlaceAmong(t.entries, keys, calls[0].0);
      CalledAdds(c, t, calls[0].0, calls[0].1);
      FewHavePlaces(c, Called(c, t, calls[0].0, calls[0].1).0, calls[1..], keys, key);
    }
  }

  lemma PlaceAmong(entries: Entries, keys: set<Key>, key: Key)
    requires entries.Keys <= keys && key in keys
    ensures key in entries || |entries| < |keys|
  {
    if key !in entries {
      assert keys == entries.Keys + (keys - entries.Keys) && key in keys - entries.Keys;
    }
  }

  lemma CalledAdds(c: Config, t: Table, key: Key, now: Time)
    ensures Called(c, t, key, now).0.entries.Keys <= t.entries.Keys + {key}
  {
  }

  // ---- forgetting ----

  /** Of any 256 calls one sweeps the table: after it nothing older than ten minutes is left. */
  lemma {:induction false} SweptByAge(c: Config, t: Table, calls: seq<Call>)
    requires calls != [] && (t.calls + |calls|) % 256 == 0
    ensures forall k <- After(c, t, calls).entries ::
              k == calls[|calls| - 1].0 || After(c, t, calls).entries[k].last >= calls[|calls| - 1].1 - 600.0
    decreases |calls|
  {
    var t' := Called(c, t, calls[0].0, calls[0].1).0;
    assert t'.calls == t.calls + 1;
    if |calls| == 1 {
      assert After(c, t, calls) == t';
    } else {
      assert calls[1..][|calls| - 2] == calls[|calls| - 1];
      SweptByAge(c, t', calls[1..]);
    }
  }
}
