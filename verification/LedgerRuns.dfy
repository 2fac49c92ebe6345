/** What the task ledger guarantees over any list of delivered events. */
module LedgerRuns {
  import opened Prelude
  import opened AgentReports
  import opened StringOrder
  import opened Ledger

  function Run(m: Tasks, ds: seq<Delivery>, ttl: int): Tasks
    decreases |ds|
  {
    if ds == [] then m else Run(Apply(m, ds[0], ttl), ds[1..], ttl)
  }

  /** The effective instants never decrease, starting from `last`. */
  predicate InOrder(ds: seq<Delivery>, ttl: int, last: int) {
    if ds == [] then true
    else
      var t := Effective(ds[0], ttl);
      (t.Some? ==> last <= t.value) && InOrder(ds[1..], ttl, if t.Some? then t.value else last)
  }

  function LastInstant(ds: seq<Delivery>, ttl: int, last: int): int {
    if ds == [] then last
    else
      var t := Effective(ds[0], ttl);
      LastInstant(ds[1..], ttl, if t.Some? then t.value else last)
  }

  function Later(high: int, t: Option<int>): int {
    if t.Some? then Max(high, t.value) else high
  }

  /** Every effective instant of the session is at least every earlier effective
      instant, whoever's; other sessions may be out of order among themselves. */
  predicate OwnInOrder(ds: seq<Delivery>, ttl: int, high: int, provider: string, session: string) {
    if ds == [] then true
    else
      var t := Effective(ds[0], ttl);
      (t.Some? && InSession(ds[0].event, provider, session) ==> high <= t.value) &&
      OwnInOrder(ds[1..], ttl, Later(high, t), provider, session)
  }

  /** The latest effective instant, and no earlier than `high`. */
  function Highest(ds: seq<Delivery>, ttl: int, high: int): int {
    if ds == [] then high else Highest(ds[1..], ttl, Later(high, Effective(ds[0], ttl)))
  }

  // --- Whose task is it -------------------------------------------------------

  predicate ColonFree(s: string) {
    forall i :: 0 <= i < |s| ==> s[i] != ':'
  }

  predicate InSession(e: Event, provider: string, session: string) {
    e.provider == provider && e.sessionID == session
  }

  function OnlySession(ds: seq<Delivery>, provider: string, session: string): seq<Delivery> {
    if ds == [] then []
    else (if InSession(ds[0].event, provider, session) then [ds[0]] else []) +
         OnlySession(ds[1..], provider, session)
  }

  predicate Owned(r: TaskRecord, provider: string, session: string) {
    r.task.provider == provider && r.parent == session
  }

  function Restrict(m: Tasks, provider: string, session: string): Tasks {
    map k | k in m && Owned(m[k], provider, session) :: m[k]
  }

  /** A task id shows which session it belongs to. */
  predicate BelongsTo(t: ActiveTask, provider: string, session: string) {
    t.provider == provider &&
    (if t.kind == MAIN then t.sessionID == session else session + ":" <= t.sessionID)
  }

  ghost predicate WellFormedRecord(k: string, r: TaskRecord) {
    k == TaskKey(r.task) && KnownProvider(r.task.provider) && KnownKind(r.task.kind) &&
    ColonFree(r.parent) && r.parent != "" &&
    if r.task.kind == MAIN then r.task.sessionID == r.parent else r.parent + ":" <= r.task.sessionID
  }

  ghost predicate WellFormed(m: Tasks) {
    forall k :: k in m ==> WellFormedRecord(k, m[k])
  }

  ghost predicate ColonFreeSessions(ds: seq<Delivery>) {
    forall i :: 0 <= i < |ds| ==> ColonFree(ds[i].event.sessionID)
  }

  // --- Keys tell tasks apart ------------------------------------------------------

  lemma KeyIsInjective(p1: string, k1: string, id1: string, p2: string, k2: string, id2: string)
    requires KnownProvider(p1) && KnownProvider(p2) && KnownKind(k1) && KnownKind(k2)
    requires LedgerKey(p1, k1, id1) == LedgerKey(p2, k2, id2)
    ensures p1 == p2 && k1 == k2 && id1 == id2
  {
    var a, b := LedgerKey(p1, k1, id1), LedgerKey(p2, k2, id2);
    assert a[1] == b[1] && p1[1] == a[1] && p2[1] == b[1];
    assert CODEX[1] != CLAUDE[1];
    var n := |p1| + 1;
    assert a[n] == k1[0] && b[n] == k2[0] && MAIN[0] != SUB[0];
    var h := |p1| + 1 + |k1| + 1;
    assert a[h..] == id1 && b[h..] == id2;
  }

  /** The part before the first colon identifies the session. */
  lemma {:induction false} ColonSplits(s1: string, s2: string, whole: string)
    requires ColonFree(s1) && ColonFree(s2)
    requires s1 + ":" <= whole && s2 + ":" <= whole
    ensures s1 == s2
  {
    var w1, w2 := s1 + ":", s2 + ":";
    assert forall i :: 0 <= i < |w1| ==> w1[i] == whole[i];
    assert forall i :: 0 <= i < |w2| ==> w2[i] == whole[i];
    assert w1[|s1|] == ':' && w2[|s2|] == ':';
    assert forall i :: 0 <= i < |s1| ==> s1[i] == w1[i];
    assert forall i :: 0 <= i < |s2| ==> s2[i] == w2[i];
  }

  /** A well-formed record under a key of session s is owned by s. */
  lemma KeyOwner(m: Tasks, e: Event, kind: string, id: string)
    requires WellFormed(m) && KnownProvider(e.provider) && ColonFree(e.sessionID)
    requires (kind == MAIN && id == e.sessionID) || (kind == SUB && e.sessionID + ":" <= id)
    ensures var key := LedgerKey(e.provider, kind, id);
            key in m ==> Owned(m[key], e.provider, e.sessionID)
  {
    var key := LedgerKey(e.provider, kind, id);
    if key in m {
      assert WellFormedRecord(key, m[key]);
      var t := m[key].task;
      KeyIsInjective(e.provider, kind, id, t.provider, t.kind, t.sessionID);
      if kind == SUB {
        ColonSplits(e.sessionID, m[key].parent, id);
      }
    }
  }

  lemma OwnedBelongs(k: string, r: TaskRecord, provider: string, session: string)
    requires WellFormedRecord(k, r) && ColonFree(session)
    ensures Owned(r, provider, session) <==> BelongsTo(r.task, provider, session)
  {
    if BelongsTo(r.task, provider, session) && r.task.kind == SUB {
      ColonSplits(r.parent, session, r.task.sessionID);
    }
  }

  // --- One event touches one session ----------------------------------------------

  lemma EffectStaysWellFormed(m: Tasks, e: Event, now: int)
    requires WellFormed(m) && KnownProvider(e.provider) && ColonFree(e.sessionID)
    ensures WellFormed(Effect(m, e, now))
  {
    hide WellFormed, Start, Heartbeat, EndAll, LedgerKey, SubTaskID, TrimSpace, KindOf, ColonFree;
    var mainKey, subKey := LedgerKey(e.provider, MAIN, e.sessionID), LedgerKey(e.provider, SUB, SubTaskID(e));
    HeartbeatStaysWellFormed(m, mainKey, now);
    HeartbeatStaysWellFormed(Heartbeat(m, mainKey, now), subKey, now);
    SmallerStaysWellFormed(m, m - {mainKey});
    SmallerStaysWellFormed(m, m - {subKey});
    EndAllShrinks(m, e, false);
    EndAllShrinks(m, e, true);
    SmallerStaysWellFormed(m, EndAll(m, e, false));
    SmallerStaysWellFormed(m, EndAll(m, e, true));
    if e.sessionID != "" {
      StartStaysWellFormed(m, e, MAIN, e.sessionID, now);
      StartStaysWellFormed(m, e, SUB, SubTaskID(e), now);
    }
  }

  lemma SmallerStaysWellFormed(m: Tasks, smaller: Tasks)
    requires WellFormed(m)
    requires forall k :: k in smaller ==> k in m && m[k] == smaller[k]
    ensures WellFormed(smaller)
  {
    hide WellFormedRecord;
  }

  lemma EndAllShrinks(m: Tasks, e: Event, subsOnly: bool)
    ensures forall k :: k in EndAll(m, e, subsOnly) ==> k in m && m[k] == EndAll(m, e, subsOnly)[k]
  {
  }

  lemma HeartbeatStaysWellFormed(m: Tasks, key: string, now: int)
    requires WellFormed(m)
    ensures WellFormed(Heartbeat(m, key, now))
  {
    hide LedgerKey, ColonFree;
    if key in m {
      assert WellFormedRecord(key, m[key]);
    }
  }

  lemma StartStaysWellFormed(m: Tasks, e: Event, kind: string, id: string, now: int)
    requires WellFormed(m) && KnownProvider(e.provider) && ColonFree(e.sessionID) && e.sessionID != ""
    requires (kind == MAIN && id == e.sessionID) || (kind == SUB && e.sessionID + ":" <= id)
    ensures WellFormed(Start(m, e, kind, id, now))
  {
    hide LedgerKey, ColonFree;
    var key := LedgerKey(e.provider, kind, id);
    if key in m {
      assert WellFormedRecord(key, m[key]);
    }
  }

  lemma StartOwn(m: Tasks, e: Event, kind: string, id: string, now: int)
    requires var key := LedgerKey(e.provider, kind, id); key in m ==> Owned(m[key], e.provider, e.sessionID)
    ensures Restrict(Start(m, e, kind, id, now), e.provider, e.sessionID) ==
            Start(Restrict(m, e.provider, e.sessionID), e, kind, id, now)
  {
    hide LedgerKey;
  }

  lemma HeartbeatOwn(m: Tasks, key: string, now: int, provider: string, session: string)
    requires key in m ==> Owned(m[key], provider, session)
    ensures Restrict(Heartbeat(m, key, now), provider, session) == Heartbeat(Restrict(m, provider, session), key, now)
    ensures Heartbeat(m, key, now).Keys == m.Keys
    ensures forall k :: k in m ==> Heartbeat(m, key, now)[k].parent == m[k].parent &&
                                   Heartbeat(m, key, now)[k].task.provider == m[k].task.provider
  {
  }

  lemma RemoveOwn(m: Tasks, key: string, provider: string, session: string)
    ensures Restrict(m - {key}, provider, session) == Restrict(m, provider, session) - {key}
  {
  }

  lemma EndAllOwn(m: Tasks, e: Event, subsOnly: bool, provider: string, session: string)
    ensures Restrict(EndAll(m, e, subsOnly), provider, session) == EndAll(Restrict(m, provider, session), e, subsOnly)
    ensures !InSession(e, provider, session) ==>
              EndAll(Restrict(m, provider, session), e, subsOnly) == Restrict(m, provider, session)
  {
  }

  lemma EffectOnOwnSession(m: Tasks, e: Event, now: int)
    requires WellFormed(m) && KnownProvider(e.provider) && ColonFree(e.sessionID)
    ensures Restrict(Effect(m, e, now), e.provider, e.sessionID) ==
            Effect(Restrict(m, e.provider, e.sessionID), e, now)
  {
    hide Restrict, Start, Heartbeat, EndAll, LedgerKey, SubTaskID, TrimSpace, WellFormed, KindOf;
    KeyOwner(m, e, MAIN, e.sessionID);
    KeyOwner(m, e, SUB, SubTaskID(e));
    var p, s := e.provider, e.sessionID;
    var mainKey, subKey := LedgerKey(p, MAIN, s), LedgerKey(p, SUB, SubTaskID(e));
    StartOwn(m, e, MAIN, s, now);
    StartOwn(m, e, SUB, SubTaskID(e), now);
    HeartbeatOwn(m, mainKey, now, p, s);
    HeartbeatOwn(Heartbeat(m, mainKey, now), subKey, now, p, s);
    RemoveOwn(m, mainKey, p, s);
    RemoveOwn(m, subKey, p, s);
    EndAllOwn(m, e, false, p, s);
    EndAllOwn(m, e, true, p, s);
  }

  lemma OtherKeyUntouched(m: Tasks, grown: Tasks, key: string, provider: string, session: string)
    requires grown - {key} == m - {key}
    requires key in m ==> !Owned(m[key], provider, session)
    requires key in grown ==> !Owned(grown[key], provider, session)
    ensures Restrict(grown, provider, session) == Restrict(m, provider, session)
  {
    assert forall k :: k in m && k != key ==> k in grown - {key} && grown[k] == (grown - {key})[k] == (m - {key})[k];
    assert forall k :: k in grown && k != key ==> k in m - {key};
  }

  lemma HeartbeatOther(m: Tasks, key: string, now: int, provider: string, session: string)
    requires key in m ==> !Owned(m[key], provider, session)
    ensures Restrict(Heartbeat(m, key, now), provider, session) == Restrict(m, provider, session)
  {
  }

  lemma StartOther(m: Tasks, e: Event, kind: string, id: string, now: int, provider: string, session: string)
    requires !InSession(e, provider, session)
    requires var key := LedgerKey(e.provider, kind, id); key in m ==> Owned(m[key], e.provider, e.sessionID)
    ensures Restrict(Start(m, e, kind, id, now), provider, session) == Restrict(m, provider, session)
  {
    OtherKeyUntouched(m, Start(m, e, kind, id, now), LedgerKey(e.provider, kind, id), provider, session);
  }

  lemma EffectOnOtherSession(m: Tasks, e: Event, now: int, provider: string, session: string)
    requires WellFormed(m) && KnownProvider(e.provider) && ColonFree(e.sessionID)
    requires !InSession(e, provider, session)
    ensures Restrict(Effect(m, e, now), provider, session) == Restrict(m, provider, session)
  {
    hide Restrict, Start, Heartbeat, EndAll, LedgerKey, SubTaskID, TrimSpace, WellFormed, KindOf;
    KeyOwner(m, e, MAIN, e.sessionID);
    KeyOwner(m, e, SUB, SubTaskID(e));
    var mainKey, subKey := LedgerKey(e.provider, MAIN, e.sessionID), LedgerKey(e.provider, SUB, SubTaskID(e));
    StartOther(m, e, MAIN, e.sessionID, now, provider, session);
    StartOther(m, e, SUB, SubTaskID(e), now, provider, session);
    HeartbeatOwn(m, mainKey, now, e.provider, e.sessionID);
    HeartbeatOther(m, mainKey, now, provider, session);
    HeartbeatOther(Heartbeat(m, mainKey, now), subKey, now, provider, session);
    OtherKeyUntouched(m, m - {mainKey}, mainKey, provider, session);
    OtherKeyUntouched(m, m - {subKey}, subKey, provider, session);
    EndAllOwn(m, e, false, provider, session);
    EndAllOwn(m, e, true, provider, session);
  }

  lemma PruneRestrictCommute(m: Tasks, cutoff: int, provider: string, session: string)
    ensures Restrict(Prune(m, cutoff), provider, session) == Prune(Restrict(m, provider, session), cutoff)
  {
  }

  /** Exactly when an earlier pruning shows in a later one: some task survives
      the later cutoff but not the earlier one. With cutoffs in order it never does. */
  lemma PruningIsInvisible(m: Tasks, first: int, second: int)
    ensures Prune(Prune(m, first), second) == Prune(m, second) <==>
            forall k :: k in m && m[k].task.lastSeenAt >= second ==> m[k].task.lastSeenAt >= first
  {
    if Prune(Prune(m, first), second) == Prune(m, second) {
      forall k | k in m && m[k].task.lastSeenAt >= second
        ensures m[k].task.lastSeenAt >= first
      {
        assert k in Prune(m, second);
      }
    }
  }

  // --- Sessions do not interfere ------------------------------------------------------

  /** The two ledgers agree on everything that is not stale by the cutoff. */
  ghost predicate Agree(m1: Tasks, m2: Tasks, cutoff: int) {
    Prune(m1, cutoff) == Prune(m2, cutoff)
  }

  lemma AgreeLater(m1: Tasks, m2: Tasks, cutoff: int, later: int)
    requires Agree(m1, m2, cutoff) && cutoff <= later
    ensures Agree(m1, m2, later)
  {
    PruningIsInvisible(m1, cutoff, later);
    PruningIsInvisible(m2, cutoff, later);
  }

  lemma AgreeStep(
      full: Tasks, alone: Tasks, d: Delivery, ttl: int, high: int, now: int, provider: string, session: string)
    requires WellFormed(full) && ColonFree(d.event.sessionID)
    requires Effective(d, ttl) == Some(now) && (InSession(d.event, provider, session) ==> high <= now)
    requires Agree(Restrict(full, provider, session), alone, high - ttl)
    ensures WellFormed(Apply(full, d, ttl))
    ensures var alone' := if InSession(d.event, provider, session) then Apply(alone, d, ttl) else alone;
            Agree(Restrict(Apply(full, d, ttl), provider, session), alone', Max(high, now) - ttl)
  {
    hide Effect, WellFormedRecord;
    var pruned := Prune(full, now - ttl);
    assert WellFormed(pruned);
    EffectStaysWellFormed(pruned, d.event, now);
    AgreeLater(Restrict(full, provider, session), alone, high - ttl, Max(high, now) - ttl);
    PruneRestrictCommute(full, now - ttl, provider, session);
    if InSession(d.event, provider, session) {
      EffectOnOwnSession(pruned, d.event, now);
    } else {
      EffectOnOtherSession(pruned, d.event, now, provider, session);
      PruningIsInvisible(Restrict(full, provider, session), now - ttl, Max(high, now) - ttl);
    }
  }

  lemma IgnoredDelivery(m: Tasks, d: Delivery, ttl: int)
    requires Effective(d, ttl).None?
    ensures Apply(m, d, ttl) == m
  {
  }

  lemma {:induction false} RunsAgree(
      full: Tasks, alone: Tasks, ds: seq<Delivery>, ttl: int, high: int, provider: string, session: string)
    requires WellFormed(full) && ColonFreeSessions(ds) && OwnInOrder(ds, ttl, high, provider, session)
    requires Agree(Restrict(full, provider, session), alone, high - ttl)
    ensures WellFormed(Run(full, ds, ttl))
    ensures Agree(Restrict(Run(full, ds, ttl), provider, session),
                  Run(alone, OnlySession(ds, provider, session), ttl),
                  Highest(ds, ttl, high) - ttl)
    decreases |ds|
  {
    hide Apply, Agree, Restrict, WellFormed, Effective;
    if ds != [] {
      var d, rest := ds[0], ds[1..];
      var own := InSession(d.event, provider, session);
      var alone' := if own then Apply(alone, d, ttl) else alone;
      var full' := Apply(full, d, ttl);
      var t := Effective(d, ttl);
      if t.Some? {
        AgreeStep(full, alone, d, ttl, high, t.value, provider, session);
      } else {
        IgnoredDelivery(full, d, ttl);
        IgnoredDelivery(alone, d, ttl);
      }
      RunsAgree(full', alone', rest, ttl, Later(high, t), provider, session);
      assert OnlySession(ds, provider, session) == (if own then [d] else []) + OnlySession(rest, provider, session);
      if own {
        assert OnlySession(ds, provider, session)[1..] == OnlySession(rest, provider, session);
      } else {
        assert OnlySession(ds, provider, session) == OnlySession(rest, provider, session);
      }
    }
  }

  /** The tasks of one session within a listing. */
  function SessionTasks(tasks: seq<ActiveTask>, provider: string, session: string): seq<ActiveTask> {
    if tasks == [] then []
    else
      (if BelongsTo(tasks[0], provider, session) then [tasks[0]] else []) + SessionTasks(tasks[1..], provider, session)
  }

  lemma {:induction false} SessionTasksMembers(tasks: seq<ActiveTask>, provider: string, session: string)
    requires StrictlySorted(tasks)
    ensures var own := SessionTasks(tasks, provider, session);
            StrictlySorted(own) &&
            forall t :: t in own <==> t in tasks && BelongsTo(t, provider, session)
  {
    hide StrictlySorted, Precedes, TaskKey, BelongsTo;
    if tasks != [] {
      var own := SessionTasks(tasks[1..], provider, session);
      TailIsSorted(tasks);
      SessionTasksMembers(tasks[1..], provider, session);
      assert forall t :: t in own ==> t in tasks[1..];
      PrependSorted(tasks, own);
      assert tasks == [tasks[0]] + tasks[1..];
      assert [] + own == own;
    } else {
      NothingIsSorted();
    }
  }

  lemma NothingIsSorted()
    ensures StrictlySorted([])
  {
  }

  lemma TailIsSorted(tasks: seq<ActiveTask>)
    requires StrictlySorted(tasks) && tasks != []
    ensures StrictlySorted(tasks[1..])
  {
    hide Precedes, TaskKey;
  }

  lemma PrependSorted(tasks: seq<ActiveTask>, own: seq<ActiveTask>)
    requires StrictlySorted(tasks) && tasks != [] && StrictlySorted(own)
    requires forall t :: t in own ==> t in tasks[1..]
    ensures StrictlySorted([tasks[0]] + own)
  {
    hide Precedes, TaskKey;
    forall i | 0 <= i < |own|
      ensures Precedes(TaskKey(tasks[0]), TaskKey(own[i]))
    {
      assert own[i] in tasks[1..];
    }
  }

  /** A strictly sorted listing is determined by its members. */
  lemma {:induction false} SortedListingsAreEqual(a: seq<ActiveTask>, b: seq<ActiveTask>)
    requires StrictlySorted(a) && StrictlySorted(b)
    requires forall t :: t in a <==> t in b
    ensures a == b
  {
    hide Precedes, TaskKey;
    assert a != [] ==> a[0] in a;
    assert b != [] ==> b[0] in b;
    if a != [] && b != [] {
      assert a[0] in b && b[0] in a;
      var i :| 0 <= i < |b| && b[i] == a[0];
      var j :| 0 <= j < |a| && a[j] == b[0];
      if i > 0 && j > 0 {
        PrecedesIsStrict(TaskKey(a[0]), TaskKey(b[0]));
      }
      assert a[0] == b[0];
      var a', b' := a[1..], b[1..];
      assert a == [a[0]] + a' && b == [b[0]] + b';
      forall t
        ensures t in a' <==> t in b'
      {
        if t in a' {
          var k :| 0 <= k < |a'| && a'[k] == t;
          assert a[k + 1] == t && t in b;
          PrecedesIsStrict(TaskKey(a[0]), TaskKey(t));
        }
        if t in b' {
          var k :| 0 <= k < |b'| && b'[k] == t;
          assert b[k + 1] == t && t in a;
          PrecedesIsStrict(TaskKey(b[0]), TaskKey(t));
        }
      }
      SortedListingsAreEqual(a', b');
    }
  }

  /** Session non-interference. With colon-free session ids, if every call of a
      session and the snapshot take effect no earlier than whatever was applied
      before them, the part of the snapshot that belongs to the session is the
      snapshot of a ledger that only ever received that session's events. */
  lemma SessionsDoNotInterfere(
      ds: seq<Delivery>, ttl: int, first: int, clock: int, provider: string, session: string,
      listed: seq<ActiveTask>, alone: seq<ActiveTask>)
    requires ColonFreeSessions(ds) && ColonFree(session) && OwnInOrder(ds, ttl, first, provider, session)
    requires Highest(ds, ttl, first) <= clock
    requires Lists(listed, Prune(Run(map[], ds, ttl), clock - ttl))
    requires Lists(alone, Prune(Run(map[], OnlySession(ds, provider, session), ttl), clock - ttl))
    ensures SessionTasks(listed, provider, session) == alone
  {
    hide Run, OwnInOrder, Highest, OnlySession, Prune, Restrict, Lists, ColonFree, ColonFreeSessions, WellFormed,
      SessionTasks;
    var full, solo := Run(map[], ds, ttl), Run(map[], OnlySession(ds, provider, session), ttl);
    RunsAgreeFromEmpty(ds, ttl, first, provider, session);
    AgreeLater(Restrict(full, provider, session), solo, Highest(ds, ttl, first) - ttl, clock - ttl);
    PruneRestrictCommute(full, clock - ttl, provider, session);
    PrunedStaysWellFormed(full, clock - ttl);
    RestrictedListing(listed, alone, Prune(full, clock - ttl), provider, session);
  }

  lemma PrunedStaysWellFormed(m: Tasks, cutoff: int)
    requires WellFormed(m)
    ensures WellFormed(Prune(m, cutoff))
  {
    hide WellFormedRecord;
  }

  lemma RunsAgreeFromEmpty(ds: seq<Delivery>, ttl: int, first: int, provider: string, session: string)
    requires ColonFreeSessions(ds) && OwnInOrder(ds, ttl, first, provider, session)
    ensures WellFormed(Run(map[], ds, ttl))
    ensures Agree(Restrict(Run(map[], ds, ttl), provider, session),
                  Run(map[], OnlySession(ds, provider, session), ttl),
                  Highest(ds, ttl, first) - ttl)
  {
    hide Run, OwnInOrder, Highest, OnlySession, ColonFreeSessions;
    assert Restrict(map[], provider, session) == map[];
    RunsAgree(map[], map[], ds, ttl, first, provider, session);
  }

  /** Picking a session's tasks from a listing lists the restricted ledger. */
  lemma SessionListing(listed: seq<ActiveTask>, m: Tasks, provider: string, session: string)
    requires WellFormed(m) && ColonFree(session) && Lists(listed, m)
    ensures Lists(SessionTasks(listed, provider, session), Restrict(m, provider, session))
  {
    hide TaskKey, BelongsTo, WellFormedRecord, Owned, Precedes;
    SessionTasksMembers(listed, provider, session);
    var own, restricted := SessionTasks(listed, provider, session), Restrict(m, provider, session);
    forall i | 0 <= i < |own|
      ensures TaskKey(own[i]) in restricted && restricted[TaskKey(own[i])].task == own[i]
    {
      assert own[i] in listed && BelongsTo(own[i], provider, session);
      OwnedBelongs(TaskKey(own[i]), m[TaskKey(own[i])], provider, session);
    }
    forall k | k in restricted
      ensures restricted[k].task in own
    {
      OwnedBelongs(k, m[k], provider, session);
    }
  }

  /** A ledger has one listing. */
  lemma ListingIsUnique(a: seq<ActiveTask>, b: seq<ActiveTask>, m: Tasks)
    requires Lists(a, m) && Lists(b, m)
    ensures a == b
  {
    hide TaskKey, Precedes;
    forall t
      ensures t in a <==> t in b
    {
    }
    SortedListingsAreEqual(a, b);
  }

  lemma RestrictedListing(listed: seq<ActiveTask>, alone: seq<ActiveTask>, m: Tasks, provider: string, session: string)
    requires WellFormed(m) && ColonFree(session)
    requires Lists(listed, m) && Lists(alone, Restrict(m, provider, session))
    ensures SessionTasks(listed, provider, session) == alone
  {
    SessionListing(listed, m, provider, session);
    ListingIsUnique(SessionTasks(listed, provider, session), alone, Restrict(m, provider, session));
  }

  // --- When pruning caused by another session shows ------------------------------------

  /** A well-keyed part of a ledger with the same listing is the whole ledger. */
  lemma SameListingSameLedger(a: seq<ActiveTask>, part: Tasks, m: Tasks)
    requires WellFormed(m) && Lists(a, part) && Lists(a, m)
    requires forall k :: k in part ==> k in m && part[k] == m[k]
    ensures part == m
  {
    hide TaskKey, Precedes, LedgerKey, ColonFree;
    forall k | k in m
      ensures k in part
    {
      assert WellFormedRecord(k, m[k]);
      var i :| 0 <= i < |a| && a[i] == m[k].task;
      assert TaskKey(a[i]) in part;
    }
  }

  /** Exactly when one event of another session shows in a session's part of a
      later snapshot: it lets a task of the session expire that the snapshot
      itself would still have listed. The clock of the snapshot is behind the
      event's instant then, which an event stamped up to a minute ahead allows. */
  lemma ForeignEventShows(
      m: Tasks, d: Delivery, now: int, ttl: int, clock: int, provider: string, session: string,
      after: seq<ActiveTask>, without: seq<ActiveTask>)
    requires WellFormed(m) && ColonFree(d.event.sessionID) && ColonFree(session)
    requires Effective(d, ttl) == Some(now) && !InSession(d.event, provider, session)
    requires Lists(after, Prune(Apply(m, d, ttl), clock - ttl)) && Lists(without, Prune(m, clock - ttl))
    ensures SessionTasks(after, provider, session) == SessionTasks(without, provider, session) <==>
            forall k :: k in m && Owned(m[k], provider, session) && m[k].task.lastSeenAt >= clock - ttl ==>
              m[k].task.lastSeenAt >= now - ttl
  {
    hide Effect, WellFormed, Lists, ColonFree, SessionTasks, Prune, Restrict, Owned;
    var pruned, applied := Prune(m, now - ttl), Apply(m, d, ttl);
    var own := Restrict(m, provider, session);
    var part, whole := Prune(Prune(own, now - ttl), clock - ttl), Prune(own, clock - ttl);
    PrunedStaysWellFormed(m, now - ttl);
    PrunedStaysWellFormed(m, clock - ttl);
    EffectStaysWellFormed(pruned, d.event, now);
    PrunedStaysWellFormed(applied, clock - ttl);
    SessionListing(after, Prune(applied, clock - ttl), provider, session);
    SessionListing(without, Prune(m, clock - ttl), provider, session);
    EffectOnOtherSession(pruned, d.event, now, provider, session);
    PruneRestrictCommute(applied, clock - ttl, provider, session);
    PruneRestrictCommute(m, now - ttl, provider, session);
    PruneRestrictCommute(m, clock - ttl, provider, session);
    OwnTasksExpire(m, now - ttl, clock - ttl, provider, session);
    var a, b := SessionTasks(after, provider, session), SessionTasks(without, provider, session);
    if a == b {
      SameListingSameLedger(a, part, whole);
    } else if part == whole {
      ListingIsUnique(a, b, whole);
    }
  }

  lemma OwnTasksExpire(m: Tasks, first: int, second: int, provider: string, session: string)
    requires WellFormed(m)
    ensures var own := Restrict(m, provider, session);
            var part, whole := Prune(Prune(own, first), second), Prune(own, second);
            WellFormed(whole) && (forall k :: k in part ==> k in whole && part[k] == whole[k]) &&
            (part == whole <==>
             forall k :: k in m && Owned(m[k], provider, session) && m[k].task.lastSeenAt >= second ==>
               m[k].task.lastSeenAt >= first)
  {
    hide WellFormedRecord, Owned;
    var own := Restrict(m, provider, session);
    PruningIsInvisible(own, first, second);
    assert forall k :: k in m && Owned(m[k], provider, session) ==> k in own;
  }

  function PromptAt(session: string, at: int, clock: int): Delivery {
    Delivery(Event(CODEX, "UserPromptSubmit", session, "", at, false), clock)
  }

  function Started(session: string, at: int): Tasks {
    map[LedgerKey(CODEX, MAIN, session) := TaskRecord(ActiveTask(CODEX, MAIN, session, at, at), session)]
  }

  lemma PromptAlone(m: Tasks, session: string, at: int, clock: int, ttl: int)
    requires session != "" && at != ZERO_TIME && clock - ttl <= at < clock + MINUTE
    requires forall k :: k in m ==> m[k].task.lastSeenAt < at - ttl
    ensures Apply(m, PromptAt(session, at, clock), ttl) == Started(session, at)
    ensures Effective(PromptAt(session, at, clock), ttl) == Some(at)
  {
    hide LedgerKey;
    assert Prune(m, at - ttl) == map[];
  }

  /** A run in which it shows. Session "a" prompts at the edge of its life time,
      session "b" prompts with a stamp less than a minute ahead of the clock, and
      a snapshot at that clock no longer lists the task of "a", although the
      effective instants never decrease and "a" alone would still be listed. */
  lemma EarlyEventInterferes(clock: int, ahead: int, ttl: int, listed: seq<ActiveTask>, alone: seq<ActiveTask>)
    requires 0 < ahead < MINUTE && 0 < ttl && clock - ttl != ZERO_TIME && clock + ahead != ZERO_TIME
    requires var ds := [PromptAt("a", clock - ttl, clock), PromptAt("b", clock + ahead, clock)];
             Lists(listed, Prune(Run(map[], ds, ttl), clock - ttl)) &&
             Lists(alone, Prune(Run(map[], OnlySession(ds, CODEX, "a"), ttl), clock - ttl))
    ensures InOrder([PromptAt("a", clock - ttl, clock), PromptAt("b", clock + ahead, clock)], ttl, clock - ttl)
    ensures ColonFree("a") && ColonFree("b")
    ensures SessionTasks(listed, CODEX, "a") == [] && |alone| == 1
  {
    hide LedgerKey, Apply, Effective, Lists;
    var a, b := PromptAt("a", clock - ttl, clock), PromptAt("b", clock + ahead, clock);
    var m1, m2 := Started("a", clock - ttl), Started("b", clock + ahead);
    PromptAlone(map[], "a", clock - ttl, clock, ttl);
    PromptAlone(m1, "b", clock + ahead, clock, ttl);
    assert [a, b][1..] == [b];
    assert InOrder([b], ttl, clock - ttl);
    assert Run(m2, [], ttl) == m2 && Run(m1, [b], ttl) == m2;
    assert OnlySession([b], CODEX, "a") == [];
    assert OnlySession([a, b], CODEX, "a") == [a];
    assert Run(m1, [], ttl) == m1 && Run(map[], [a], ttl) == m1;
    assert Prune(m1, clock - ttl) == m1 && Prune(m2, clock - ttl) == m2;
    OnlyTaskListed(listed, "b", clock + ahead);
    OnlyTaskListed(alone, "a", clock - ttl);
  }

  lemma OnlyTaskListed(listed: seq<ActiveTask>, session: string, at: int)
    requires Lists(listed, Started(session, at))
    ensures listed == [ActiveTask(CODEX, MAIN, session, at, at)]
  {
    hide LedgerKey, Precedes;
    var t := ActiveTask(CODEX, MAIN, session, at, at);
    assert Lists([t], Started(session, at));
    ListingIsUnique(listed, [t], Started(session, at));
  }
}
