/** Every ledger snapshot passes the server's task checks. */
module LedgerReports {
  import opened Prelude
  import opened AgentReports
  import opened StringOrder
  import opened Ledger
  import opened LedgerRuns

  // --- Identifiers produced by the hook parser --------------------------------

  predicate HexDigit(c: char) {
    '0' <= c <= '9' || 'a' <= c <= 'f'
  }

  /** Sixteen digest bytes in lower-case hexadecimal. */
  predicate OpaqueID(s: string) {
    |s| == 32 && forall i :: 0 <= i < |s| ==> HexDigit(s[i])
  }

  predicate OpaqueEvent(d: Delivery) {
    OpaqueID(d.event.sessionID) && (d.event.taskID == "" || OpaqueID(d.event.taskID)) &&
    d.clock != ZERO_TIME
  }

  ghost predicate OpaqueEvents(ds: seq<Delivery>) {
    forall i :: 0 <= i < |ds| ==> OpaqueEvent(ds[i])
  }

  predicate PrintableAscii(s: string) {
    forall i :: 0 <= i < |s| ==> 0x20 <= s[i] as int <= 0x7e
  }

  lemma {:induction false} AsciiByteLength(s: string)
    requires PrintableAscii(s)
    ensures ByteLength(s) == |s|
  {
    if s != "" {
      AsciiByteLength(s[1..]);
    }
  }

  lemma AsciiSessionID(s: string)
    requires PrintableAscii(s) && 0 < |s| <= 256
    ensures ValidSessionID(s)
  {
    AsciiByteLength(s);
  }

  lemma OpaqueIDs(e: Event)
    requires OpaqueID(e.sessionID) && (e.taskID == "" || OpaqueID(e.taskID))
    ensures ColonFree(e.sessionID) && e.sessionID != ""
    ensures ValidSessionID(e.sessionID)
    ensures ValidSessionID(SubTaskID(e))
  {
    hide ValidSessionID;
    AsciiSessionID(e.sessionID);
    assert TrimSpace(e.taskID) == e.taskID;
    assert PrintableAscii("unknown");
    AsciiSessionID(SubTaskID(e));
  }

  // --- Times and identifiers of stored tasks ------------------------------------

  ghost predicate SoundTask(r: TaskRecord, last: int) {
    ValidSessionID(r.task.sessionID) && r.task.startedAt != ZERO_TIME && r.task.lastSeenAt != ZERO_TIME &&
    r.task.startedAt <= r.task.lastSeenAt <= last
  }

  ghost predicate Sound(m: Tasks, last: int) {
    forall k :: k in m ==> SoundTask(m[k], last)
  }

  lemma SoundLater(m: Tasks, last: int, later: int)
    requires Sound(m, last) && last <= later
    ensures Sound(m, later)
  {
    forall k | k in m
      ensures SoundTask(m[k], later)
    {
      assert SoundTask(m[k], last);
    }
  }

  lemma SmallerStaysSound(m: Tasks, smaller: Tasks, last: int)
    requires Sound(m, last)
    requires forall k :: k in smaller ==> k in m && m[k] == smaller[k]
    ensures Sound(smaller, last)
  {
    hide SoundTask;
  }

  lemma HeartbeatStaysSound(m: Tasks, key: string, now: int)
    requires Sound(m, now) && now != ZERO_TIME
    ensures Sound(Heartbeat(m, key, now), now)
  {
    hide ValidSessionID;
    if key in m {
      assert SoundTask(m[key], now);
    }
  }

  lemma StartStaysSound(m: Tasks, e: Event, kind: string, id: string, now: int)
    requires Sound(m, now) && now != ZERO_TIME && ValidSessionID(id)
    ensures Sound(Start(m, e, kind, id, now), now)
  {
    hide ValidSessionID, LedgerKey;
    var key := LedgerKey(e.provider, kind, id);
    if key in m {
      assert SoundTask(m[key], now);
    }
  }

  lemma EffectStaysSound(m: Tasks, e: Event, now: int)
    requires Sound(m, now) && now != ZERO_TIME
    requires ValidSessionID(e.sessionID) && ValidSessionID(SubTaskID(e))
    ensures Sound(Effect(m, e, now), now)
  {
    hide Sound, Start, Heartbeat, EndAll, LedgerKey, SubTaskID, TrimSpace, KindOf, ValidSessionID;
    var mainKey, subKey := LedgerKey(e.provider, MAIN, e.sessionID), LedgerKey(e.provider, SUB, SubTaskID(e));
    HeartbeatStaysSound(m, mainKey, now);
    HeartbeatStaysSound(Heartbeat(m, mainKey, now), subKey, now);
    SmallerStaysSound(m, m - {mainKey}, now);
    SmallerStaysSound(m, m - {subKey}, now);
    EndAllShrinks(m, e, false);
    EndAllShrinks(m, e, true);
    SmallerStaysSound(m, EndAll(m, e, false), now);
    SmallerStaysSound(m, EndAll(m, e, true), now);
    StartStaysSound(m, e, MAIN, e.sessionID, now);
    StartStaysSound(m, e, SUB, SubTaskID(e), now);
  }

  lemma ApplyStaysSound(m: Tasks, d: Delivery, ttl: int, last: int, now: int)
    requires WellFormed(m) && Sound(m, last) && OpaqueEvent(d)
    requires Effective(d, ttl) == Some(now) && last <= now
    ensures WellFormed(Apply(m, d, ttl)) && Sound(Apply(m, d, ttl), now)
  {
    hide Effect, Sound, WellFormed, OpaqueID, ValidSessionID, ColonFree, SubTaskID;
    OpaqueIDs(d.event);
    var pruned := Prune(m, now - ttl);
    PrunedStaysWellFormed(m, now - ttl);
    SoundLater(m, last, now);
    SmallerStaysSound(m, pruned, now);
    EffectStaysWellFormed(pruned, d.event, now);
    EffectStaysSound(pruned, d.event, now);
  }

  lemma {:induction false} RunsStaySound(m: Tasks, ds: seq<Delivery>, ttl: int, last: int)
    requires WellFormed(m) && Sound(m, last) && OpaqueEvents(ds) && InOrder(ds, ttl, last)
    ensures WellFormed(Run(m, ds, ttl))
    ensures Sound(Run(m, ds, ttl), LastInstant(ds, ttl, last))
    decreases |ds|
  {
    hide Apply, Sound, WellFormed, Effective, OpaqueEvent;
    if ds != [] {
      var d, rest := ds[0], ds[1..];
      var t := Effective(d, ttl);
      if t.Some? {
        ApplyStaysSound(m, d, ttl, last, t.value);
      } else {
        IgnoredDelivery(m, d, ttl);
      }
      RunsStaySound(Apply(m, d, ttl), rest, ttl, if t.Some? then t.value else last);
    }
  }

  // --- The snapshot and the validator ---------------------------------------------

  /** The ledger tells tasks apart by kind, the validator does not; the colon in
      a sub-task's id makes up for it. */
  lemma SessionsAreDistinct(m: Tasks, listed: seq<ActiveTask>)
    requires WellFormed(m) && Lists(listed, m)
    ensures DistinctSessions(listed)
  {
    forall i, j | 0 <= i < j < |listed|
      ensures !(listed[i].provider == listed[j].provider && listed[i].sessionID == listed[j].sessionID)
    {
      var a, b := listed[i], listed[j];
      assert WellFormedRecord(TaskKey(a), m[TaskKey(a)]) && WellFormedRecord(TaskKey(b), m[TaskKey(b)]);
      PrecedesIsStrict(TaskKey(a), TaskKey(b));
      if a.provider == b.provider && a.sessionID == b.sessionID {
        assert a.kind != b.kind;
        MixedKindsDiffer(m[TaskKey(a)].parent, m[TaskKey(b)].parent, a.sessionID);
        MixedKindsDiffer(m[TaskKey(b)].parent, m[TaskKey(a)].parent, a.sessionID);
        hide TaskKey, Precedes, ColonFree;
      }
    }
  }

  lemma MixedKindsDiffer(mainParent: string, subParent: string, id: string)
    requires ColonFree(mainParent)
    ensures !(id == mainParent && subParent + ":" <= id)
  {
    if subParent + ":" <= id {
      assert id[|subParent|] == (subParent + ":")[|subParent|] == ':';
    }
  }

  /** Every snapshot, at any clock, reachable from parsed events with effective
      instants that never decrease is strictly sorted and passes all task checks,
      as long as no event takes effect more than 5 minutes after the report is
      stamped or the server reads its clock. */
  lemma SnapshotPassesValidator(
      ds: seq<Delivery>, ttl: int, first: int, clock: int, sentAt: int, serverNow: int, listed: seq<ActiveTask>)
    requires OpaqueEvents(ds) && InOrder(ds, ttl, first)
    requires LastInstant(ds, ttl, first) <= sentAt + MAX_FUTURE_SKEW
    requires LastInstant(ds, ttl, first) <= serverNow + MAX_FUTURE_SKEW
    requires Lists(listed, Prune(Run(map[], ds, ttl), clock - ttl))
    ensures StrictlySorted(listed)
    ensures TasksAcceptable(listed, sentAt, serverNow)
  {
    hide Run, InOrder, LastInstant, OpaqueEvents, ValidSessionID, Precedes, ColonFree;
    var last := LastInstant(ds, ttl, first);
    RunsStaySound(map[], ds, ttl, first);
    var m := Prune(Run(map[], ds, ttl), clock - ttl);
    PrunedStaysWellFormed(Run(map[], ds, ttl), clock - ttl);
    SmallerStaysSound(Run(map[], ds, ttl), m, last);
    SessionsAreDistinct(m, listed);
    forall i | 0 <= i < |listed|
      ensures TaskAcceptable(listed[i], sentAt, serverNow)
    {
      var k := TaskKey(listed[i]);
      assert SoundTask(m[k], last) && WellFormedRecord(k, m[k]);
    }
  }

  /** Out of order it fails: a heartbeat that takes effect before the task's
      start leaves a task that the validator rejects at any time. */
  lemma LateHeartbeatIsRejected(e: Event, start: int, late: int, ttl: int, sentAt: int, serverNow: int)
    requires KnownProvider(e.provider) && e.sessionID != "" && !e.probe && e.taskID == ""
    requires late != ZERO_TIME && start != ZERO_TIME && start - ttl <= late < start && 0 < ttl
    ensures var prompt := Delivery(e.(name := "UserPromptSubmit", at := start), start);
            var heartbeat := Delivery(e.(name := "PostToolUse", at := late), start);
            var key := LedgerKey(e.provider, MAIN, e.sessionID);
            var m := Run(map[], [prompt, heartbeat], ttl);
            key in m && m[key].task.lastSeenAt < m[key].task.startedAt &&
            !TaskAcceptable(m[key].task, sentAt, serverNow)
  {
    hide LedgerKey, ValidSessionID;
    var prompt := Delivery(e.(name := "UserPromptSubmit", at := start), start);
    var heartbeat := Delivery(e.(name := "PostToolUse", at := late), start);
    var key := LedgerKey(e.provider, MAIN, e.sessionID);
    var m1 := Apply(map[], prompt, ttl);
    assert m1 == map[key := TaskRecord(ActiveTask(e.provider, MAIN, e.sessionID, start, start), e.sessionID)];
    var m2 := Apply(m1, heartbeat, ttl);
    assert m2[key].task.lastSeenAt == late;
    assert [prompt, heartbeat][1..] == [heartbeat];
    assert Run(m2, [], ttl) == m2;
    assert Run(m1, [heartbeat], ttl) == m2;
  }
}
