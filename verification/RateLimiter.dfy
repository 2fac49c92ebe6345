/** The server's fixed-window rate limiter. */
module RateLimiter {
  import opened Prelude

  datatype Entry = Entry(start: int, count: int)

  type Entries = map<string, Entry>

  datatype Call = Call(key: string, now: int, limit: int)

  const PRUNE_THRESHOLD: nat := 4096

  // --- Specification of one call --------------------------------------------

  predicate StartsWindow(m: Entries, c: Call, window: int) {
    c.key !in m || c.now - m[c.key].start >= window || c.now < m[c.key].start
  }

  predicate Allowed(m: Entries, c: Call, window: int) {
    StartsWindow(m, c, window) || m[c.key].count < c.limit
  }

  predicate Outdated(e: Entry, now: int, window: int) {
    now - e.start >= 2 * window || now < e.start
  }

  function Pruned(m: Entries, now: int, window: int): Entries {
    if |m| < PRUNE_THRESHOLD then m
    else map k | k in m && !Outdated(m[k], now, window) :: m[k]
  }

  /** The entries after a call, for a limiter that prunes or never prunes. */
  function After(m: Entries, c: Call, window: int, pruning: bool): Entries {
    if StartsWindow(m, c, window) then
      var started := m[c.key := Entry(c.now, 1)];
      if pruning then Pruned(started, c.now, window) else started
    else if m[c.key].count >= c.limit then m
    else m[c.key := m[c.key].(count := m[c.key].count + 1)]
  }

  class FixedWindowLimiter {
    const window: int
    var entries: Entries

    constructor (window: int)
      ensures this.window == window && entries == map[]
    {
      this.window := window;
      entries := map[];
    }

    method Allow(key: string, now: int, limit: int) returns (allowed: bool, retryAfter: int)
      modifies this
      ensures var c := Call(key, now, limit);
              allowed == Allowed(old(entries), c, window) && entries == After(old(entries), c, window, true)
      ensures !allowed ==>
                0 < retryAfter <= window && StartsWindow(entries, Call(key, now + retryAfter, limit), window) &&
                forall t :: now <= t < now + retryAfter ==> !Allowed(entries, Call(key, t, limit), window)
    {
      if key !in entries || now - entries[key].start >= window || now < entries[key].start {
        entries := entries[key := Entry(now, 1)];
        Prune(now);
        return true, 0;
      }
      var entry := entries[key];
      if entry.count >= limit {
        return false, entry.start + window - now;
      }
      entries := entries[key := entry.(count := entry.count + 1)];
      return true, 0;
    }

    method Prune(now: int)
      modifies this
      ensures entries == Pruned(old(entries), now, window)
    {
      if |entries| < PRUNE_THRESHOLD { return; }
      var pending := entries.Keys;
      while pending != {}
        invariant pending <= old(entries).Keys
        invariant entries ==
                  map k | k in old(entries) && (k in pending || !Outdated(old(entries)[k], now, window)) ::
                    old(entries)[k]
      {
        var key :| key in pending;
        pending := pending - {key};
        if now - entries[key].start >= 2 * window || now < entries[key].start {
          entries := entries - {key};
        }
      }
    }
  }

  // --- Runs ---------------------------------------------------------------------

  function Decisions(m: Entries, calls: seq<Call>, window: int, pruning: bool): (ds: seq<bool>)
    ensures |ds| == |calls|
    decreases |calls|
  {
    if calls == [] then []
    else [Allowed(m, calls[0], window)] + Decisions(After(m, calls[0], window, pruning), calls[1..], window, pruning)
  }

  predicate NonDecreasing(calls: seq<Call>, from: int) {
    calls == [] || (from <= calls[0].now && NonDecreasing(calls[1..], calls[0].now))
  }

  /** The pruned limiter lacks only entries whose window is over. */
  ghost predicate Simulates(lean: Entries, full: Entries, now: int, window: int) {
    (forall k :: k in lean ==> k in full && lean[k] == full[k]) &&
    (forall k :: k in full && k !in lean ==> now - full[k].start >= window) &&
    (forall k :: k in full ==> full[k].start <= now)
  }

  lemma SimulationStep(lean: Entries, full: Entries, from: int, c: Call, window: int)
    requires 0 < window && from <= c.now && Simulates(lean, full, from, window)
    ensures Allowed(lean, c, window) == Allowed(full, c, window)
    ensures Simulates(After(lean, c, window, true), After(full, c, window, false), c.now, window)
  {
    assert StartsWindow(lean, c, window) == StartsWindow(full, c, window);
  }

  /** Under a clock that never goes back, pruning is unobservable. */
  lemma {:induction false} PruningIsUnobservable(lean: Entries, full: Entries, calls: seq<Call>, from: int, window: int)
    requires 0 < window && NonDecreasing(calls, from) && Simulates(lean, full, from, window)
    ensures Decisions(lean, calls, window, true) == Decisions(full, calls, window, false)
    decreases |calls|
  {
    hide Simulates, After, Allowed;
    if calls != [] {
      SimulationStep(lean, full, from, calls[0], window);
      PruningIsUnobservable(After(lean, calls[0], window, true), After(full, calls[0], window, false),
                            calls[1..], calls[0].now, window);
    }
  }

  /** Exactly when forgetting entries at one instant shows in a later call: the
      clock went back into the window of a forgotten entry that was used up. */
  lemma PruningShows(m: Entries, at: int, c: Call, window: int)
    requires 0 < window && |m| >= PRUNE_THRESHOLD
    ensures Allowed(Pruned(m, at, window), c, window) != Allowed(m, c, window) <==>
            c.key in m && Outdated(m[c.key], at, window) &&
            m[c.key].start <= c.now < m[c.key].start + window && c.limit <= m[c.key].count
  {
  }

  // --- A run in which pruning shows --------------------------------------------------

  /** Clients with different keys. */
  function Client(i: nat): (key: string)
    ensures |key| == i
  {
    seq(i, _ => 'x')
  }

  /** One call of each of the first n clients at instant 0, with limit 1. */
  function Crowd(n: nat): (calls: seq<Call>)
    ensures |calls| == n
  {
    if n == 0 then [] else Crowd(n - 1) + [Call(Client(n - 1), 0, 1)]
  }

  /** The entries after a run of calls. */
  function AfterAll(m: Entries, calls: seq<Call>, window: int, pruning: bool): Entries {
    if calls == [] then m
    else After(AfterAll(m, calls[..|calls| - 1], window, pruning), calls[|calls| - 1], window, pruning)
  }

  lemma {:induction false} LastDecision(m: Entries, calls: seq<Call>, c: Call, window: int, pruning: bool)
    ensures Decisions(m, calls + [c], window, pruning) ==
            Decisions(m, calls, window, pruning) + [Allowed(AfterAll(m, calls, window, pruning), c, window)]
    decreases |calls|
  {
    hide After, Allowed;
    if calls == [] {
      assert [c][1..] == [];
      assert calls + [c] == [c];
    } else {
      var m' := After(m, calls[0], window, pruning);
      assert (calls + [c])[1..] == calls[1..] + [c];
      LastDecision(m', calls[1..], c, window, pruning);
      FirstCallFirst(m, calls, window, pruning);
    }
  }

  lemma {:induction false} FirstCallFirst(m: Entries, calls: seq<Call>, window: int, pruning: bool)
    requires calls != []
    ensures AfterAll(m, calls, window, pruning) ==
            AfterAll(After(m, calls[0], window, pruning), calls[1..], window, pruning)
    decreases |calls|
  {
    hide After;
    if |calls| > 1 {
      var front := calls[..|calls| - 1];
      FirstCallFirst(m, front, window, pruning);
      assert calls[1..][..|calls| - 2] == front[1..];
    } else {
      assert calls[..0] == [];
    }
  }

  /** The crowd's entries; below the threshold nothing is pruned. */
  lemma {:induction false} CrowdEntries(n: nat, window: int, pruning: bool)
    requires 0 < window && n < PRUNE_THRESHOLD
    ensures var m := AfterAll(map[], Crowd(n), window, pruning);
            |m| == n && (forall k :: k in m <==> |k| < n && k == Client(|k|)) &&
            forall k :: k in m ==> m[k] == Entry(0, 1)
  {
    hide Client, After;
    if n > 0 {
      CrowdEntries(n - 1, window, pruning);
      var m := AfterAll(map[], Crowd(n - 1), window, pruning);
      assert Crowd(n)[..n - 1] == Crowd(n - 1);
      var c := Call(Client(n - 1), 0, 1);
      assert c.key !in m;
      NewClient(m, c, window, pruning);
    }
  }

  lemma NewClient(m: Entries, c: Call, window: int, pruning: bool)
    requires c.key !in m && |m| + 1 < PRUNE_THRESHOLD
    ensures After(m, c, window, pruning) == m[c.key := Entry(c.now, 1)]
    ensures |m[c.key := Entry(c.now, 1)]| == |m| + 1
  {
  }

  /** 4095 clients call at instant 0, one more two windows later, and then the
      first client again on a clock that went back to 0. A limiter that prunes
      admits that call; one that never prunes refuses it. */
  lemma PruningShowsInARun(window: int)
    requires 0 < window
    ensures var first, last := Call(Client(0), 0, 1), Call(Client(PRUNE_THRESHOLD - 1), 2 * window, 1);
            var calls := Crowd(PRUNE_THRESHOLD - 1) + [last] + [first];
            Decisions(map[], calls, window, true)[PRUNE_THRESHOLD] &&
            !Decisions(map[], calls, window, false)[PRUNE_THRESHOLD]
  {
    hide Decisions, Crowd;
    var crowd := Crowd(PRUNE_THRESHOLD - 1);
    var first, last := Call(Client(0), 0, 1), Call(Client(PRUNE_THRESHOLD - 1), 2 * window, 1);
    var calls := crowd + [last];
    forall pruning: bool
      ensures Decisions(map[], calls + [first], window, pruning)[PRUNE_THRESHOLD] == pruning
    {
      CrowdEntries(PRUNE_THRESHOLD - 1, window, pruning);
      var m := AfterAll(map[], crowd, window, pruning);
      assert calls[..|calls| - 1] == crowd;
      assert AfterAll(map[], calls, window, pruning) == After(m, last, window, pruning);
      var started := m[last.key := Entry(last.now, 1)];
      assert last.key !in m && |started| == PRUNE_THRESHOLD;
      assert Client(0) in m;
      LastDecision(map[], calls, first, window, pruning);
    }
  }

  // --- At most 2L calls in any window-long interval ---------------------------------

  predicate CountedIn(c: Call, key: string, t: int, window: int) {
    c.key == key && t <= c.now < t + window
  }

  /** Admitted calls for the key within [t, t + window). */
  function Admitted(decisions: seq<bool>, calls: seq<Call>, key: string, t: int, window: int): nat
    requires |decisions| == |calls|
  {
    if calls == [] then 0
    else
      (if decisions[0] && CountedIn(calls[0], key, t, window) then 1 else 0) +
      Admitted(decisions[1..], calls[1..], key, t, window)
  }

  function Slack(m: Entries, key: string, limit: nat): nat {
    if key in m then Max(0, limit - m[key].count) else 0
  }

  /** How many calls can still be admitted within [t, t + window). */
  function Allowance(m: Entries, key: string, limit: nat, from: int, t: int, window: int): nat
    requires 1 <= limit
  {
    if t + window <= from then 0
    else if key in m && t <= m[key].start then Slack(m, key, limit)
    else if t <= from then Slack(m, key, limit) + limit
    else 2 * limit - 1
  }

  lemma AllowanceShrinks(m: Entries, c: Call, key: string, limit: nat, from: int, t: int, window: int)
    requires 0 < window && 1 <= limit && from <= c.now
    requires c.key == key ==> c.limit == limit
    requires key in m ==> m[key].start <= from && 1 <= m[key].count
    ensures var m' := After(m, c, window, false);
            (key in m' ==> m'[key].start <= c.now && 1 <= m'[key].count) &&
            Allowance(m', key, limit, c.now, t, window) +
              (if Allowed(m, c, window) && CountedIn(c, key, t, window) then 1 else 0) <=
            Allowance(m, key, limit, from, t, window)
  {
  }

  lemma {:induction false} AdmittedWithinAllowance(
      m: Entries, calls: seq<Call>, key: string, limit: nat, from: int, t: int, window: int)
    requires 0 < window && 1 <= limit && NonDecreasing(calls, from)
    requires forall i :: 0 <= i < |calls| && calls[i].key == key ==> calls[i].limit == limit
    requires key in m ==> m[key].start <= from && 1 <= m[key].count
    ensures Admitted(Decisions(m, calls, window, false), calls, key, t, window) <=
            Allowance(m, key, limit, from, t, window)
    decreases |calls|
  {
    hide After, Allowed, Allowance;
    if calls != [] {
      var m' := After(m, calls[0], window, false);
      AllowanceShrinks(m, calls[0], key, limit, from, t, window);
      AdmittedWithinAllowance(m', calls[1..], key, limit, calls[0].now, t, window);
      assert Decisions(m, calls, window, false)[1..] == Decisions(m', calls[1..], window, false);
    }
  }

  /** Under a clock that never goes back, a key with limit L is admitted at most
      2L - 1 times in any half-open interval one window long. */
  lemma FewerThanTwiceTheLimit(calls: seq<Call>, key: string, limit: nat, from: int, t: int, window: int)
    requires 0 < window && 1 <= limit && NonDecreasing(calls, from)
    requires forall i :: 0 <= i < |calls| && calls[i].key == key ==> calls[i].limit == limit
    ensures Admitted(Decisions(map[], calls, window, true), calls, key, t, window) < 2 * limit
  {
    PruningIsUnobservable(map[], map[], calls, from, window);
    AdmittedWithinAllowance(map[], calls, key, limit, from, t, window);
  }

  /** The bound is reached: with limit 2 and a window of 10, three calls are
      admitted between instants 9 and 19. */
  lemma BoundIsReached(key: string)
    ensures var calls := [Call(key, 0, 2), Call(key, 9, 2), Call(key, 10, 2), Call(key, 10, 2)];
            Decisions(map[], calls, 10, true) == [true, true, true, true] &&
            Admitted([true, true, true, true], calls, key, 9, 10) == 3
  {
    var calls := [Call(key, 0, 2), Call(key, 9, 2), Call(key, 10, 2), Call(key, 10, 2)];
    var m0: Entries := map[];
    var m1 := After(m0, calls[0], 10, true);
    var m2 := After(m1, calls[1], 10, true);
    var m3 := After(m2, calls[2], 10, true);
    assert m1 == map[key := Entry(0, 1)] && |m1| == 1;
    assert m2 == map[key := Entry(0, 2)];
    assert m3 == map[key := Entry(10, 1)] && |m3| == 1;
    assert calls[1..][1..][1..] == [calls[3]];
    assert calls[1..][1..] == [calls[2], calls[3]];
    assert Decisions(m3, [calls[3]], 10, true) == [true];
    assert Decisions(m2, calls[1..][1..], 10, true) == [true, true];
    var yes := [true, true, true, true];
    assert yes[1..][1..][1..] == [true];
    assert yes[1..][1..] == [true, true];
    assert Admitted([true], [calls[3]], key, 9, 10) == 1;
    assert Admitted([true, true], calls[1..][1..], key, 9, 10) == 2;
  }

  // --- At least L calls before a refusal -------------------------------------------

  lemma {:induction false} OneMoreAdmitted(
      decisions: seq<bool>, calls: seq<Call>, d: bool, c: Call, key: string, t: int, window: int)
    requires |decisions| == |calls|
    ensures Admitted(decisions + [d], calls + [c], key, t, window) ==
            Admitted(decisions, calls, key, t, window) + (if d && CountedIn(c, key, t, window) then 1 else 0)
  {
    hide CountedIn;
    if calls == [] {
      assert decisions + [d] == [d] && calls + [c] == [c];
      assert [d][1..] == [] && [c][1..] == [];
    } else {
      assert (decisions + [d])[1..] == decisions[1..] + [d] && (calls + [c])[1..] == calls[1..] + [c];
      OneMoreAdmitted(decisions[1..], calls[1..], d, c, key, t, window);
    }
  }

  /** The counters never exceed what was admitted since the window they belong to began. */
  ghost predicate Earned(m: Entries, decisions: seq<bool>, calls: seq<Call>, window: int)
    requires |decisions| == |calls|
  {
    forall k :: k in m ==> m[k].count <= Admitted(decisions, calls, k, m[k].start, window)
  }

  lemma EarnedStep(m: Entries, decisions: seq<bool>, calls: seq<Call>, c: Call, window: int)
    requires 0 < window && |decisions| == |calls| && Earned(m, decisions, calls, window)
    ensures Earned(After(m, c, window, true), decisions + [Allowed(m, c, window)], calls + [c], window)
  {
    hide Admitted;
    var m' := After(m, c, window, true);
    forall k | k in m'
      ensures m'[k].count <= Admitted(decisions + [Allowed(m, c, window)], calls + [c], k, m'[k].start, window)
    {
      OneMoreAdmitted(decisions, calls, Allowed(m, c, window), c, k, m'[k].start, window);
    }
  }

  lemma NothingIsEarned(decisions: seq<bool>, calls: seq<Call>, window: int)
    requires |decisions| == |calls|
    ensures Earned(map[], decisions, calls, window)
  {
  }

  lemma {:induction false} CountersAreEarned(calls: seq<Call>, window: int)
    requires 0 < window
    ensures Earned(AfterAll(map[], calls, window, true), Decisions(map[], calls, window, true), calls, window)
  {
    hide Earned, After, Allowed, Decisions;
    if calls == [] {
      NothingIsEarned(Decisions(map[], [], window, true), [], window);
    } else {
      var front, c := calls[..|calls| - 1], calls[|calls| - 1];
      CountersAreEarned(front, window);
      EarnedStep(AfterAll(map[], front, window, true), Decisions(map[], front, window, true), front, c, window);
      LastDecision(map[], front, c, window, true);
      assert calls == front + [c];
    }
  }

  /** Whatever the clock does, nobody is refused before as many calls as the limit
      says were admitted for the same key in a window that is not over yet. */
  lemma RefusalIsEarned(calls: seq<Call>, c: Call, window: int)
    requires 0 < window
    ensures !Decisions(map[], calls + [c], window, true)[|calls|] ==>
              exists t :: c.now - window < t <= c.now &&
                c.limit <= Admitted(Decisions(map[], calls, window, true), calls, c.key, t, window)
  {
    hide Decisions, After, Admitted;
    var m := AfterAll(map[], calls, window, true);
    LastDecision(map[], calls, c, window, true);
    CountersAreEarned(calls, window);
    if !Allowed(m, c, window) {
      var t := m[c.key].start;
      assert c.limit <= Admitted(Decisions(map[], calls, window, true), calls, c.key, t, window);
    }
  }
}
