/** The per-address login limiter: token buckets in a bounded map that forgets idle
    entries, and exactly when forgetting them is harmless. */
module IpLimiter {
  import opened Limiter

  type Key = string
  type Entries = map<Key, Bucket>

  datatype Config = Config(rate: real, burst: real, maxEntries: nat)

  datatype Table = Table(entries: Entries, calls: nat)

  function Pruned(entries: Entries, before: Time): Entries {
    map k | k in entries && entries[k].last >= before :: entries[k]
  }

  /** Every 256th call forgets what has been idle for ten minutes. */
  function Aged(t: Table, now: Time): Table {
    var calls := t.calls + 1;
    Table(if calls % 256 == 0 then Pruned(t.entries, now - 600.0) else t.entries, calls)
  }

  /** A new key in a full table forgets what has been idle for a minute. */
  function WithRoom(c: Config, entries: Entries, key: Key, now: Time): Entries {
    if key !in entries && |entries| >= c.maxEntries then Pruned(entries, now - 60.0) else entries
  }

  function Called(c: Config, t: Table, key: Key, now: Time): (Table, bool) {
    var aged := Aged(t, now);
    var entries := WithRoom(c, aged.entries, key, now);
    if key !in entries && |entries| >= c.maxEntries then (Table(entries, aged.calls), false)
    else
      var b := if key in entries then entries[key] else Bucket(c.burst, now);
      var (b', ok) := b.Allow(c.rate, c.burst, now);
      (Table(entries[key := b'], aged.calls), ok)
  }

  class IPLimiter {
    const rate: real
    const burst: real
    const maxEntries: nat
    var entries: Entries
    var calls: nat

    constructor (perMinute: real, burst: nat, maxEntries: nat)
      ensures rate == perMinute / 60.0 && this.burst == burst as real && this.maxEntries == maxEntries
      ensures State() == Table(map[], 0)
    {
      rate, this.burst, this.maxEntries := perMinute / 60.0, burst as real, maxEntries;
      entries, calls := map[], 0;
    }

    ghost function State(): Table
      reads this
    {
      Table(entries, calls)
    }

    method Allow(key: Key, now: Time) returns (ok: bool)
      modifies this
      ensures (State(), ok) == Called(Config(rate, burst, maxEntries), old(State()), key, now)
    {
      calls := calls + 1;
      if calls % 256 == 0 {
        Prune(now - 600.0);
      }
      var known := key in entries;
      if !known {
        if |entries| >= maxEntries {
          Prune(now - 60.0);
          if |entries| >= maxEntries {
            return false;
          }
        }
      }
      var entry := if known then entries[key] else Bucket(burst, now);
      if now > entry.last {
        var tokens := entry.tokens + Earned(now - entry.last, rate);
        if tokens > burst {
          tokens := burst;
        }
        entry := Bucket(tokens, now);
      }
      if entry.tokens < 1.0 {
        entries := entries[key := entry];
        return false;
      }
      entry := entry.(tokens := entry.tokens - 1.0);
      entries := entries[key := entry];
      return true;
    }

    method Prune(before: Time)
      modifies this`entries
      ensures entries == Pruned(old(entries), before)
    {
      var todo := entries.Keys;
      while todo != {}
        invariant todo <= entries.Keys
        invariant entries == map k | k in old(entries) && (k in todo || old(entries)[k].last >= before)
                               :: old(entries)[k]
        decreases todo
      {
        var key :| key in todo;
        if entries[key].last < before {
          entries := entries - {key};
        }
        todo := todo - {key};
      }
    }
  }

  // ---- sequences of calls ----

  type Call = (Key, Time)

  ghost function After(c: Config, t: Table, calls: seq<Call>): Table
    decreases |calls|
  {
    if calls == [] then t else After(c, Called(c, t, calls[0].0, calls[0].1).0, calls[1..])
  }

  /** How many calls under `key` are admitted. */
  ghost function Admitted(c: Config, t: Table, calls: seq<Call>, key: Key): nat
    decreases |calls|
  {
    if calls == [] then 0
    else
      var (t', ok) := Called(c, t, calls[0].0, calls[0].1);
      (if ok && calls[0].0 == key then 1 else 0) + Admitted(c, t', calls[1..], key)
  }

  ghost predicate InOrder(calls: seq<Call>) {
    forall i, j | 0 <= i <= j < |calls| :: calls[i].1 <= calls[j].1
  }

  ghost predicate TableOk(c: Config, t: Table, clock: Time) {
    |t.entries| <= c.maxEntries && EntriesOk(c, t.entries, clock)
  }

  ghost predicate EntriesOk(c: Config, entries: Entries, clock: Time) {
    forall k <- entries :: Filled(entries[k], c.burst) && entries[k].last <= clock
  }

  /** Idling for a minute refills any bucket. */
  ghost predicate RefillsInAMinute(c: Config) {
    c.rate >= 0.0 && c.burst >= 0.0 && Earned(60.0, c.rate) >= c.burst
  }

  /** What `key` could spend at `clock`; an unknown key starts with a full bucket. */
  ghost function Spendable(c: Config, entries: Entries, key: Key, clock: Time): real {
    if key in entries then entries[key].Refilled(c.rate, c.burst, clock).tokens else c.burst
  }

  lemma PrunedSize(entries: Entries, before: Time)
    ensures |Pruned(entries, before)| <= |entries|
  {
    var kept := Pruned(entries, before).Keys;
    assert entries.Keys == kept + (entries.Keys - kept);
  }

  lemma CalledKeepsTable(c: Config, t: Table, key: Key, now: Time, clock: Time)
    requires c.rate >= 0.0 && c.burst >= 0.0 && TableOk(c, t, clock) && clock <= now
    ensures TableOk(c, Called(c, t, key, now).0, now)
  {
    var aged := Aged(t, now);
    var entries := WithRoom(c, aged.entries, key, now);
    PrunedSize(t.entries, now - 600.0);
    PrunedSize(aged.entries, now - 60.0);
    assert EntriesOk(c, entries, clock);
    if key in entries || |entries| < c.maxEntries {
      var b := if key in entries then entries[key] else Bucket(c.burst, now);
      AllowSpends(b, c.rate, c.burst, now);
      UpdatedSize(entries, key, b.Allow(c.rate, c.burst, now).0);
      UpdatedOk(c, entries, key, b.Allow(c.rate, c.burst, now).0, clock, now);
    }
  }

  lemma UpdatedSize(entries: Entries, key: Key, b: Bucket)
    ensures |entries[key := b]| == |entries| + if key in entries then 0 else 1
  {
    if key in entries {
      assert entries[key := b].Keys == entries.Keys;
    } else {
      assert entries[key := b].Keys == entries.Keys + {key};
    }
  }

  lemma UpdatedOk(c: Config, entries: Entries, key: Key, b: Bucket, clock: Time, now: Time)
    requires EntriesOk(c, entries, clock) && clock <= now && Filled(b, c.burst) && b.last <= now
    ensures EntriesOk(c, entries[key := b], now)
  {
  }

  /** Forgetting what idled for a minute takes nothing from any key and gives it nothing. */
  lemma PruningIsHarmless(c: Config, entries: Entries, key: Key, before: Time, now: Time)
    requires RefillsInAMinute(c) && before <= now - 60.0
    requires key in entries ==> Filled(entries[key], c.burst)
    ensures Spendable(c, Pruned(entries, before), key, now) == Spendable(c, entries, key, now)
  {
    if key in entries && entries[key].last < before {
      var idle := now - entries[key].last;
      EarnedAdds(60.0, idle - 60.0, c.rate);
      assert 60.0 + (idle - 60.0) == idle;
      EarnedIsPositive(idle - 60.0, c.rate);
    }
  }

  /** Waiting gains at most the refill. */
  lemma WaitingGains(c: Config, entries: Entries, key: Key, clock: Time, now: Time)
    requires c.rate >= 0.0 && c.burst >= 0.0 && clock <= now
    requires key in entries ==> Filled(entries[key], c.burst) && entries[key].last <= clock
    ensures Spendable(c, entries, key, now) <= Spendable(c, entries, key, clock) + Earned(now - clock, c.rate)
  {
    EarnedIsPositive(now - clock, c.rate);
    if key in entries {
      var b := entries[key];
      EarnedAdds(now - clock, clock - b.last, c.rate);
      assert now - clock + (clock - b.last) == now - b.last;
    }
  }

  /** One call spends what it admits, from its own key only. */
  lemma CallSpends(c: Config, t: Table, key: Key, now: Time, clock: Time, k: Key)
    requires RefillsInAMinute(c) && TableOk(c, t, clock) && clock <= now
    ensures
      var (t', ok) := Called(c, t, key, now);
      Spendable(c, t'.entries, k, now)
      == Spendable(c, t.entries, k, now) - (if ok && key == k then 1.0 else 0.0)
  {
    var aged := Aged(t, now);
    var entries := WithRoom(c, aged.entries, key, now);
    PruningIsHarmless(c, t.entries, k, now - 600.0, now);
    PruningIsHarmless(c, aged.entries, k, now - 60.0, now);
    assert Spendable(c, entries, k, now) == Spendable(c, t.entries, k, now);
    if key == k && (key in entries || |entries| < c.maxEntries) {
      var b := if key in entries then entries[key] else Bucket(c.burst, now);
      RefillIsBounded(b, c.rate, c.burst, now);
      assert Spendable(c, entries, k, now) == b.Refilled(c.rate, c.burst, now).tokens;
    }
  }

  /** When the last call was made. */
  function Until(calls: seq<Call>, clock: Time): Time {
    if calls == [] then clock else calls[|calls| - 1].1
  }

  lemma {:induction false} CallsKeepTable(c: Config, t: Table, calls: seq<Call>, clock: Time)
    requires RefillsInAMinute(c) && TableOk(c, t, clock) && InOrder(calls)
    requires calls != [] ==> clock <= calls[0].1
    ensures TableOk(c, After(c, t, calls), Until(calls, clock))
    decreases |calls|
  {
    if calls != [] {
      var (k, now) := calls[0];
      CalledKeepsTable(c, t, k, now, clock);
      RestInOrder(calls, clock);
      CallsKeepTable(c, Called(c, t, k, now).0, calls[1..], now);
    }
  }

  /** What `calls` admit from `key`, and what it can still spend after them at `until`. */
  ghost function SpentAndLeft(c: Config, t: Table, calls: seq<Call>, key: Key, until: Time): real {
    Admitted(c, t, calls, key) as real + Spendable(c, After(c, t, calls).entries, key, until)
  }

  lemma {:induction false} SpentByKey(c: Config, t: Table, calls: seq<Call>, key: Key, clock: Time)
    requires RefillsInAMinute(c) && TableOk(c, t, clock) && InOrder(calls)
    requires calls != [] ==> clock <= calls[0].1
    ensures SpentAndLeft(c, t, calls, key, Until(calls, clock))
            <= Spendable(c, t.entries, key, clock) + Earned(Until(calls, clock) - clock, c.rate)
    decreases |calls|
  {
    if calls == [] {
      assert Earned(0.0, c.rate) == 0.0;
    } else {
      var now, until := calls[0].1, Until(calls, clock);
      var t', one := OneCall(c, t, calls, key, clock, until);
      RestInOrder(calls, clock);
      SpentByKey(c, t', calls[1..], key, now);
      EarnedOverall(clock, now, until, c.rate);
    }
  }

  lemma OneCall(c: Config, t: Table, calls: seq<Call>, key: Key, clock: Time, until: Time)
    returns (t': Table, one: real)
    requires RefillsInAMinute(c) && TableOk(c, t, clock) && calls != [] && clock <= calls[0].1
    ensures TableOk(c, t', calls[0].1)
    ensures SpentAndLeft(c, t, calls, key, until) == one + SpentAndLeft(c, t', calls[1..], key, until)
    ensures one + Spendable(c, t'.entries, key, calls[0].1)
            <= Spendable(c, t.entries, key, clock) + Earned(calls[0].1 - clock, c.rate)
  {
    var (k, now) := calls[0];
    t', one := Called(c, t, k, now).0, if Called(c, t, k, now).1 && k == key then 1.0 else 0.0;
    CallStep(c, t, k, now, clock, key);
    FirstCall(c, t, calls, key);
  }

  /** The first of some calls, and the rest. */
  lemma FirstCall(c: Config, t: Table, calls: seq<Call>, key: Key)
    requires calls != []
    ensures var (t', ok) := Called(c, t, calls[0].0, calls[0].1);
            && After(c, t, calls) == After(c, t', calls[1..])
            && Admitted(c, t, calls, key) as real
               == (if ok && calls[0].0 == key then 1.0 else 0.0) + Admitted(c, t', calls[1..], key) as real
  {
  }

  lemma EarnedOverall(clock: Time, now: Time, until: Time, rate: real)
    ensures Earned(until - clock, rate) == Earned(until - now, rate) + Earned(now - clock, rate)
  {
    EarnedAdds(until - now, now - clock, rate);
    assert until - now + (now - clock) == until - clock;
  }

  lemma RestInOrder(calls: seq<Call>, clock: Time)
    requires calls != [] && InOrder(calls)
    ensures InOrder(calls[1..]) && (calls[1..] != [] ==> calls[0].1 <= calls[1..][0].1)
    ensures Until(calls[1..], calls[0].1) == Until(calls, clock)
  {
    assert calls[1..] != [] ==> calls[1..][0] == calls[1];
  }

  lemma CallStep(c: Config, t: Table, k: Key, now: Time, clock: Time, key: Key)
    requires RefillsInAMinute(c) && TableOk(c, t, clock) && clock <= now
    ensures
      var (t', ok) := Called(c, t, k, now);
      && TableOk(c, t', now)
      && (if ok && k == key then 1.0 else 0.0) + Spendable(c, t'.entries, key, now)
         <= Spendable(c, t.entries, key, clock) + Earned(now - clock, c.rate)
  {
    CalledKeepsTable(c, t, k, now, clock);
    WaitingGains(c, t.entries, key, clock, now);
    CallSpends(c, t, k, now, clock, key);
  }

  lemma SpendableIsBounded(c: Config, t: Table, key: Key, clock: Time)
    requires c.rate >= 0.0 && c.burst >= 0.0 && TableOk(c, t, clock)
    ensures 0.0 <= Spendable(c, t.entries, key, clock) <= c.burst
  {
    if key in t.entries {
      RefillIsBounded(t.entries[key], c.rate, c.burst, clock);
    }
  }

  /** From any table and for any key, calls in time order are admitted at most `burst` plus
      `rate` times their duration, although the table forgets; and it never overflows. */
  lemma AdmissionBound(c: Config, t: Table, calls: seq<Call>, key: Key)
    requires RefillsInAMinute(c) && InOrder(calls) && calls != [] && TableOk(c, t, calls[0].1)
    ensures Admitted(c, t, calls, key) as real
            <= Envelope(c.rate, c.burst, calls[0].1, calls[|calls| - 1].1)
    ensures |After(c, t, calls).entries| <= c.maxEntries
  {
    var until := Until(calls, calls[0].1);
    CallsKeepTable(c, t, calls, calls[0].1);
    SpentByKey(c, t, calls, key, calls[0].1);
    SpendableIsBounded(c, t, key, calls[0].1);
    AdmittedIsSpent(c, t, calls, key, until);
  }

  lemma AdmittedIsSpent(c: Config, t: Table, calls: seq<Call>, key: Key, until: Time)
    requires c.rate >= 0.0 && c.burst >= 0.0 && TableOk(c, After(c, t, calls), until)
    ensures Admitted(c, t, calls, key) as real <= SpentAndLeft(c, t, calls, key, until)
  {
    SpendableIsBounded(c, After(c, t, calls), key, until);
  }

  // ---- when forgetting is harmless ----

  ghost predicate BoundHolds(c: Config, calls: seq<Call>, key: Key)
    requires calls != []
  {
    Admitted(c, Table(map[], 0), calls, key) as real
    <= Envelope(c.rate, c.burst, calls[0].1, calls[|calls| - 1].1)
  }

  /** The bound holds of every sequence of calls in time order exactly when a minute's
      refill is at least the burst: with a smaller rate, forgetting grants a second burst.
      The configuration asks for a positive rate, a burst of 1 and 100 entries at least. */
  lemma ForgettingIsHarmlessIff(perMinute: real, burst: nat, maxEntries: nat)
    requires perMinute > 0.0 && burst >= 1 && maxEntries >= 2
    ensures
      var c := Config(perMinute / 60.0, burst as real, maxEntries);
      (forall calls: seq<Call>, key | calls != [] && InOrder(calls) :: BoundHolds(c, calls, key))
      <==> perMinute >= burst as real
  {
    var c := Config(perMinute / 60.0, burst as real, maxEntries);
    assert Earned(60.0, c.rate) == perMinute;
    if perMinute >= burst as real {
      forall calls: seq<Call>, key | calls != [] && InOrder(calls) ensures BoundHolds(c, calls, key) {
        AdmissionBound(c, Table(map[], 0), calls, key);
      }
    } else {
      var late := SlowRefill(perMinute, burst as real);
      SecondBurst(c, burst, late);
      assert !BoundHolds(c, Flood(burst, maxEntries, late), Name(0));
    }
  }

  /** A time over a minute by which a rate below the burst has still not earned the burst. */
  lemma SlowRefill(perMinute: real, burst: real) returns (late: Time)
    requires 0.0 < perMinute < burst
    ensures late > 60.0 && Earned(late, perMinute / 60.0) < burst
  {
    late := 30.0 + 30.0 * (burst / perMinute);
    assert burst / perMinute > 1.0;
    EarnedAdds(30.0, 30.0 * (burst / perMinute), perMinute / 60.0);
    calc {
      Earned(30.0 * (burst / perMinute), perMinute / 60.0);
      (30.0 / 60.0) * ((burst / perMinute) * perMinute);
      burst / 2.0;
    }
  }

  ghost function Name(n: nat): Key {
    seq(n, i => 'k')
  }

  ghost function Repeat(key: Key, now: Time, n: nat): seq<Call> {
    seq(n, i => (key, now))
  }

  ghost function Newcomers(from: nat, end: nat): seq<Call>
    requires from <= end
  {
    seq(end - from, i requires 0 <= i => (Name(from + i), 0.0))
  }

  ghost function Early(burst: nat, maxEntries: nat): seq<Call>
    requires maxEntries >= 1
  {
    Repeat(Name(0), 0.0, burst) + Newcomers(1, maxEntries)
  }

  ghost function Late(burst: nat, maxEntries: nat, late: Time): seq<Call> {
    [(Name(maxEntries), late)] + Repeat(Name(0), late, burst)
  }

  /** One address spends its burst and others fill the table; later a newcomer makes the
      full table forget them all, and the first address comes back. */
  ghost function Flood(burst: nat, maxEntries: nat, late: Time): seq<Call>
    requires maxEntries >= 1
  {
    Early(burst, maxEntries) + Late(burst, maxEntries, late)
  }

  lemma {:induction false} AdmittedSplits(c: Config, t: Table, xs: seq<Call>, ys: seq<Call>, key: Key)
    ensures Admitted(c, t, xs + ys, key) == Admitted(c, t, xs, key) + Admitted(c, After(c, t, xs), ys, key)
    ensures After(c, t, xs + ys) == After(c, After(c, t, xs), ys)
    decreases |xs|
  {
    if xs == [] {
      assert xs + ys == ys;
    } else {
      assert (xs + ys)[1..] == xs[1..] + ys;
      AdmittedSplits(c, Called(c, t, xs[0].0, xs[0].1).0, xs[1..], ys, key);
    }
  }

  ghost predicate CanSpend(c: Config, t: Table, key: Key, now: Time, n: nat) {
    if key in t.entries then t.entries[key].last == now && t.entries[key].tokens >= n as real
    else |t.entries| < c.maxEntries && c.burst >= n as real
  }

  lemma SpendOne(c: Config, t: Table, key: Key, now: Time, n: nat)
    requires n >= 1 && CanSpend(c, t, key, now, n)
    ensures
      var (t', ok) := Called(c, t, key, now);
      && ok && key in t'.entries && t'.entries[key].last == now
      && CanSpend(c, t', key, now, n - 1)
      && forall k <- t'.entries :: k == key || (k in t.entries && t'.entries[k] == t.entries[k])
  {
    PrunedSize(t.entries, now - 600.0);
  }

  lemma {:induction false} RepeatAdmits(c: Config, t: Table, key: Key, now: Time, n: nat)
    requires CanSpend(c, t, key, now, n)
    ensures Admitted(c, t, Repeat(key, now, n), key) == n
    ensures
      var e := After(c, t, Repeat(key, now, n)).entries;
      && (n > 0 ==> key in e && e[key].last == now)
      && forall k <- e :: k == key || (k in t.entries && e[k] == t.entries[k])
    decreases n
  {
    var calls := Repeat(key, now, n);
    if n > 0 {
      assert calls[0] == (key, now) && calls[1..] == Repeat(key, now, n - 1);
      SpendOne(c, t, key, now, n);
      RepeatAdmits(c, Called(c, t, key, now).0, key, now, n - 1);
    }
  }

  /** A table that filled up at time zero with `n` keys shorter than `n`. */
  ghost predicate Filling(t: Table, n: nat) {
    && |t.entries| == n
    && forall k <- t.entries :: |k| < n && t.entries[k].last == 0.0
  }

  lemma {:induction false} OthersAdmitNothing(c: Config, t: Table, calls: seq<Call>, key: Key)
    requires forall call <- calls :: call.0 != key
    ensures Admitted(c, t, calls, key) == 0
    decreases |calls|
  {
    if calls != [] {
      FirstCall(c, t, calls, key);
      OthersAdmitNothing(c, Called(c, t, calls[0].0, calls[0].1).0, calls[1..], key);
    }
  }

  lemma NewcomersAreOthers(from: nat, end: nat)
    requires 1 <= from <= end
    ensures forall call <- Newcomers(from, end) :: call.0 != Name(0)
  {
    forall i | 0 <= i < end - from ensures Newcomers(from, end)[i].0 != Name(0) {
      assert |Name(from + i)| == from + i && |Name(0)| == 0;
    }
  }

  lemma {:induction false} NewcomersFill(c: Config, t: Table, from: nat, end: nat) returns (full: Table)
    requires 1 <= from <= end <= c.maxEntries && c.burst >= 1.0 && Filling(t, from)
    ensures full == After(c, t, Newcomers(from, end)) && Filling(full, end)
    decreases end - from
  {
    if from == end {
      assert Newcomers(from, end) == [];
      full := t;
    } else {
      var t' := OneNewcomer(c, t, from, end);
      full := NewcomersFill(c, t', from + 1, end);
    }
  }

  lemma OneNewcomer(c: Config, t: Table, from: nat, end: nat) returns (t': Table)
    requires 1 <= from < end <= c.maxEntries && c.burst >= 1.0 && Filling(t, from)
    ensures Filling(t', from + 1)
    ensures After(c, t, Newcomers(from, end)) == After(c, t', Newcomers(from + 1, end))
  {
    t' := Called(c, t, Name(from), 0.0).0;
    FirstNewcomer(from, end);
    NewcomerFills(c, t, from);
    FirstCall(c, t, Newcomers(from, end), Name(0));
  }

  lemma FirstNewcomer(from: nat, end: nat)
    requires from < end
    ensures Newcomers(from, end) != [] && Newcomers(from, end)[0] == (Name(from), 0.0)
    ensures Newcomers(from, end)[1..] == Newcomers(from + 1, end)
  {
  }

  lemma NewcomerFills(c: Config, t: Table, from: nat)
    requires from >= 1 && c.burst >= 1.0 && Filling(t, from) && from < c.maxEntries
    ensures Filling(Called(c, t, Name(from), 0.0).0, from + 1) && Name(from) != Name(0)
  {
    assert |Name(from)| == from && |Name(0)| == 0;
    assert Pruned(t.entries, 0.0 - 600.0) == t.entries;
    var e := Called(c, t, Name(from), 0.0).0.entries;
    assert Name(from) !in t.entries;
    assert e.Keys == t.entries.Keys + {Name(from)};
  }

  lemma NewcomerForgets(c: Config, t: Table, late: Time)
    requires c.maxEntries >= 2 && c.burst >= 1.0 && late > 60.0 && Filling(t, c.maxEntries)
    ensures
      var t' := Called(c, t, Name(c.maxEntries), late).0;
      && t'.entries.Keys == {Name(c.maxEntries)} && Name(c.maxEntries) != Name(0)
  {
    assert |Name(c.maxEntries)| == c.maxEntries && |Name(0)| == 0;
    assert Pruned(t.entries, late - 60.0) == map[];
    assert late - 600.0 > 0.0 ==> Pruned(t.entries, late - 600.0) == map[];
    assert late - 600.0 <= 0.0 ==> Pruned(t.entries, late - 600.0) == t.entries;
    var t' := Called(c, t, Name(c.maxEntries), late).0;
    assert t'.entries.Keys == {Name(c.maxEntries)};
  }

  lemma OneKeyFills(t: Table)
    requires Name(0) in t.entries && t.entries[Name(0)].last == 0.0
    requires forall k <- t.entries :: k == Name(0)
    ensures Filling(t, 1)
  {
    assert t.entries.Keys == {Name(0)};
    assert |t.entries| == |t.entries.Keys| == 1 && |Name(0)| == 0;
  }

  lemma EarlyPhase(c: Config, burst: nat)
    requires c.burst == burst as real && burst >= 1 && c.maxEntries >= 2
    ensures
      var t, calls := Table(map[], 0), Early(burst, c.maxEntries);
      && Admitted(c, t, calls, Name(0)) == burst
      && Filling(After(c, t, calls), c.maxEntries)
  {
    var t := Table(map[], 0);
    RepeatAdmits(c, t, Name(0), 0.0, burst);
    var t1 := After(c, t, Repeat(Name(0), 0.0, burst));
    OneKeyFills(t1);
    var full := NewcomersFill(c, t1, 1, c.maxEntries);
    NewcomersAreOthers(1, c.maxEntries);
    OthersAdmitNothing(c, t1, Newcomers(1, c.maxEntries), Name(0));
    AdmittedSplits(c, t, Repeat(Name(0), 0.0, burst), Newcomers(1, c.maxEntries), Name(0));
  }

  lemma LatePhase(c: Config, t: Table, burst: nat, late: Time)
    requires c.burst == burst as real && burst >= 1 && c.maxEntries >= 2 && late > 60.0
    requires Filling(t, c.maxEntries)
    ensures Admitted(c, t, Late(burst, c.maxEntries, late), Name(0)) == burst
  {
    NewcomerForgets(c, t, late);
    var t' := Called(c, t, Name(c.maxEntries), late).0;
    assert |t'.entries| == |t'.entries.Keys| == 1;
    RepeatAdmits(c, t', Name(0), late, burst);
    var calls := Late(burst, c.maxEntries, late);
    assert calls[1..] == Repeat(Name(0), late, burst);
  }

  lemma SecondBurst(c: Config, burst: nat, late: Time)
    requires c.burst == burst as real && burst >= 1 && c.maxEntries >= 2
    requires late > 60.0 && Earned(late, c.rate) < c.burst
    ensures
      var calls := Flood(burst, c.maxEntries, late);
      && calls != [] && InOrder(calls)
      && !BoundHolds(c, calls, Name(0))
  {
    var early, rest := Early(burst, c.maxEntries), Late(burst, c.maxEntries, late);
    var calls := Flood(burst, c.maxEntries, late);
    EarlyPhase(c, burst);
    LatePhase(c, After(c, Table(map[], 0), early), burst, late);
    AdmittedSplits(c, Table(map[], 0), early, rest, Name(0));
    FloodInOrder(burst, c.maxEntries, late);
    assert late - 0.0 == late;
  }

  lemma FloodInOrder(burst: nat, maxEntries: nat, late: Time)
    requires maxEntries >= 1 && burst >= 1 && late > 0.0
    ensures var calls := Flood(burst, maxEntries, late);
            calls != [] && InOrder(calls) && calls[0].1 == 0.0 && calls[|calls| - 1].1 == late
  {
    var calls, early := Flood(burst, maxEntries, late), |Early(burst, maxEntries)|;
    assert forall i | 0 <= i < |calls| :: calls[i].1 == if i < early then 0.0 else late;
  }
}
