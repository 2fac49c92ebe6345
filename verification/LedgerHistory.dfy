/** What a task's two instants say about the events delivered, in any order, and
    with that exactly which snapshots the server accepts. */
module LedgerHistory {
  import opened Prelude
  import opened AgentReports
  import opened StringOrder
  import opened Ledger
  import opened LedgerRuns
  import opened LedgerReports

  // --- Which events touch a task -------------------------------------------------

  /** The event starts the task, or touches it if it is there already. */
  predicate Starts(e: Event, key: string) {
    e.sessionID != "" &&
    ((e.name == "UserPromptSubmit" && key == LedgerKey(e.provider, MAIN, e.sessionID)) ||
     (e.name == "SubagentStart" && key == LedgerKey(e.provider, SUB, SubTaskID(e))))
  }

  /** The event touches the task if it is there. */
  predicate Beats(e: Event, key: string) {
    e.name == "PostToolUse" &&
    (key == LedgerKey(e.provider, MAIN, e.sessionID) ||
     (TrimSpace(e.taskID) != "" && key == LedgerKey(e.provider, SUB, SubTaskID(e))))
  }

  /** The key of some sub-task of the session. */
  predicate SubKeyOf(key: string, provider: string, session: string) {
    LedgerKey(provider, SUB, session + ":") <= key
  }

  /** The event ends the task: a stop ends the main task, the end of a session all
      its tasks, the stop of a sub-agent that sub-task or, if it is not named, all
      sub-tasks of the session. */
  predicate Ends(e: Event, key: string) {
    var main := LedgerKey(e.provider, MAIN, e.sessionID);
    ((e.name == "Stop" || e.name == "StopFailure") && key == main) ||
    (e.name == "SessionEnd" && (key == main || SubKeyOf(key, e.provider, e.sessionID))) ||
    (e.name == "SubagentStop" &&
     if TrimSpace(e.taskID) != "" then key == LedgerKey(e.provider, SUB, SubTaskID(e))
     else SubKeyOf(key, e.provider, e.sessionID))
  }

  lemma NamesDiffer()
    ensures "UserPromptSubmit" != "PostToolUse" && "UserPromptSubmit" != "SubagentStart"
    ensures "PostToolUse" != "SubagentStart"
  {
    assert |"UserPromptSubmit"| == 16 && |"PostToolUse"| == 11 && |"SubagentStart"| == 13;
  }

  /** A touch moves a task's last instant, forwards or backwards, and leaves it in
      order if and only if it does not take effect before the task's start. */
  lemma TouchKeepsOrder(m: Tasks, e: Event, now: int, key: string)
    requires key in m && (Starts(e, key) || Beats(e, key))
    ensures key in Effect(m, e, now)
    ensures var t := Effect(m, e, now)[key].task;
            t.startedAt <= t.lastSeenAt <==> m[key].task.startedAt <= now
  {
    hide LedgerKey, SubTaskID, TrimSpace;
  }

  /** The record under a key after an event: just started, just touched, or as before. */
  lemma RecordAfter(m: Tasks, e: Event, now: int, key: string)
    requires key in Effect(m, e, now)
    ensures var t := Effect(m, e, now)[key].task;
            if key in m then
              t.startedAt == m[key].task.startedAt &&
              t.lastSeenAt == if Starts(e, key) || Beats(e, key) then now else m[key].task.lastSeenAt
            else Starts(e, key) && t.startedAt == now && t.lastSeenAt == now
  {
    hide LedgerKey, SubTaskID, TrimSpace;
  }

  // --- Reading a task's instants off the events --------------------------------------

  /** When an event touched the task last. */
  function LastTouch(ds: seq<Delivery>, ttl: int, key: string): Option<int> {
    if ds == [] then None
    else
      var d := ds[|ds| - 1];
      if Effective(d, ttl).Some? && (Starts(d.event, key) || Beats(d.event, key)) then Effective(d, ttl)
      else LastTouch(ds[..|ds| - 1], ttl, key)
  }

  /** When an event started the task last, that is, found none that was alive. */
  function LastStart(ds: seq<Delivery>, ttl: int, key: string): Option<int> {
    if ds == [] then None
    else
      var d, front := ds[|ds| - 1], ds[..|ds| - 1];
      var t := Effective(d, ttl);
      if t.Some? && Starts(d.event, key) && key !in Prune(Run(map[], front, ttl), t.value - ttl) then t
      else LastStart(front, ttl, key)
  }

  lemma {:induction false} RunOneMore(m: Tasks, ds: seq<Delivery>, d: Delivery, ttl: int)
    ensures Run(m, ds + [d], ttl) == Apply(Run(m, ds, ttl), d, ttl)
    decreases |ds|
  {
    hide Apply;
    if ds == [] {
      assert [d][1..] == [];
      assert ds + [d] == [d];
    } else {
      assert (ds + [d])[1..] == ds[1..] + [d];
      RunOneMore(Apply(m, ds[0], ttl), ds[1..], d, ttl);
    }
  }

  /** In every run, in any order, a task says when it was last started and when it
      was last touched. */
  lemma {:induction false} TaskTellsHistory(ds: seq<Delivery>, ttl: int, key: string)
    requires key in Run(map[], ds, ttl)
    ensures var t := Run(map[], ds, ttl)[key].task;
            LastStart(ds, ttl, key) == Some(t.startedAt) && LastTouch(ds, ttl, key) == Some(t.lastSeenAt)
  {
    hide Effect, Effective, Starts, Beats;
    if ds != [] {
      var front, d := ds[..|ds| - 1], ds[|ds| - 1];
      assert ds == front + [d];
      RunOneMore(map[], front, d, ttl);
      var m := Run(map[], front, ttl);
      if Effective(d, ttl).Some? {
        var now := Effective(d, ttl).value;
        RecordAfter(Prune(m, now - ttl), d.event, now, key);
      }
      if key in m {
        TaskTellsHistory(front, ttl, key);
      }
    }
  }

  // --- Every order of events: what always holds -------------------------------------

  lemma OpaqueIsColonFree(ds: seq<Delivery>)
    requires OpaqueEvents(ds)
    ensures ColonFreeSessions(ds)
  {
    hide OpaqueEvent, ColonFree;
    forall i | 0 <= i < |ds|
      ensures ColonFree(ds[i].event.sessionID)
    {
      OpaqueSession(ds[i]);
    }
  }

  lemma OpaqueSession(d: Delivery)
    requires OpaqueEvent(d)
    ensures ColonFree(d.event.sessionID)
  {
    OpaqueIDs(d.event);
  }

  lemma {:induction false} RunsStayWellFormed(ds: seq<Delivery>, ttl: int)
    requires ColonFreeSessions(ds)
    ensures WellFormed(Run(map[], ds, ttl))
  {
    hide Effect, WellFormed, ColonFree;
    if ds == [] {
      NothingIsWellFormed();
    } else {
      var front, d := ds[..|ds| - 1], ds[|ds| - 1];
      assert ds == front + [d];
      RunOneMore(map[], front, d, ttl);
      RunsStayWellFormed(front, ttl);
      var t := Effective(d, ttl);
      if t.Some? {
        PrunedStaysWellFormed(Run(map[], front, ttl), t.value - ttl);
        EffectStaysWellFormed(Prune(Run(map[], front, ttl), t.value - ttl), d.event, t.value);
      }
    }
  }

  lemma NothingIsWellFormed()
    ensures WellFormed(map[])
  {
  }

  /** Some delivered event started the task. */
  lemma {:induction false} StarterOf(ds: seq<Delivery>, ttl: int, key: string) returns (i: nat)
    requires LastStart(ds, ttl, key).Some?
    ensures i < |ds| && Starts(ds[i].event, key)
    ensures Effective(ds[i], ttl) == LastStart(ds, ttl, key)
  {
    hide Effective, Starts, Run, Prune;
    i := |ds| - 1;
    var t := Effective(ds[i], ttl);
    if !(t.Some? && Starts(ds[i].event, key) && key !in Prune(Run(map[], ds[..i], ttl), t.value - ttl)) {
      i := StarterOf(ds[..|ds| - 1], ttl, key);
    }
  }

  lemma {:induction false} ToucherOf(ds: seq<Delivery>, ttl: int, key: string) returns (i: nat)
    requires LastTouch(ds, ttl, key).Some?
    ensures i < |ds| && Effective(ds[i], ttl) == LastTouch(ds, ttl, key)
  {
    hide Effective, Starts, Beats;
    i := |ds| - 1;
    if !(Effective(ds[i], ttl).Some? && (Starts(ds[i].event, key) || Beats(ds[i].event, key))) {
      i := ToucherOf(ds[..|ds| - 1], ttl, key);
    }
  }

  lemma EffectiveIsRealInstant(d: Delivery, ttl: int)
    requires d.clock != ZERO_TIME && Effective(d, ttl).Some?
    ensures Effective(d, ttl).value != ZERO_TIME && KnownProvider(d.event.provider)
  {
  }

  /** In every run, in any order, a task passes every check of the validator that
      is not about order or the future. */
  lemma TaskIsIdentified(ds: seq<Delivery>, ttl: int, key: string)
    requires OpaqueEvents(ds) && key in Run(map[], ds, ttl)
    ensures var t := Run(map[], ds, ttl)[key].task;
            KnownProvider(t.provider) && KnownKind(t.kind) && ValidSessionID(t.sessionID) &&
            t.startedAt != ZERO_TIME && t.lastSeenAt != ZERO_TIME
  {
    hide Run, ValidSessionID, LedgerKey, SubTaskID, Effective;
    var r := Run(map[], ds, ttl)[key];
    OpaqueIsColonFree(ds);
    RunsStayWellFormed(ds, ttl);
    assert WellFormedRecord(key, r);
    TaskTellsHistory(ds, ttl, key);
    var i := StarterOf(ds, ttl, key);
    var j := ToucherOf(ds, ttl, key);
    assert OpaqueEvent(ds[i]) && OpaqueEvent(ds[j]);
    EffectiveIsRealInstant(ds[i], ttl);
    EffectiveIsRealInstant(ds[j], ttl);
    var e := ds[i].event;
    OpaqueIDs(e);
    if e.name == "UserPromptSubmit" {
      KeyIsInjective(e.provider, MAIN, e.sessionID, r.task.provider, r.task.kind, r.task.sessionID);
    } else {
      KeyIsInjective(e.provider, SUB, SubTaskID(e), r.task.provider, r.task.kind, r.task.sessionID);
    }
  }

  // --- Exactly which snapshots the server accepts ---------------------------------------

  /** The events left the task in order and not too far ahead of the server. */
  predicate TouchedInOrder(ds: seq<Delivery>, ttl: int, key: string, sentAt: int, serverNow: int) {
    var start, touch := LastStart(ds, ttl, key), LastTouch(ds, ttl, key);
    start.Some? && touch.Some? && start.value <= touch.value &&
    touch.value <= sentAt + MAX_FUTURE_SKEW && touch.value <= serverNow + MAX_FUTURE_SKEW
  }

  /** A snapshot after any events, in any order and at any clock, passes all task
      checks, if and only if no listed task was last touched with an instant
      before that of its last start, or more than 5 minutes ahead of the report
      or the server. */
  lemma AcceptedExactly(
      ds: seq<Delivery>, ttl: int, clock: int, sentAt: int, serverNow: int, listed: seq<ActiveTask>)
    requires OpaqueEvents(ds)
    requires Lists(listed, Prune(Run(map[], ds, ttl), clock - ttl))
    ensures TasksAcceptable(listed, sentAt, serverNow) <==>
            forall i :: 0 <= i < |listed| ==> TouchedInOrder(ds, ttl, TaskKey(listed[i]), sentAt, serverNow)
  {
    hide Run, OpaqueEvents, ValidSessionID, Precedes, LedgerKey, LastStart, LastTouch, WellFormed;
    var m := Run(map[], ds, ttl);
    OpaqueIsColonFree(ds);
    RunsStayWellFormed(ds, ttl);
    PrunedStaysWellFormed(m, clock - ttl);
    SessionsAreDistinct(Prune(m, clock - ttl), listed);
    forall i | 0 <= i < |listed|
      ensures TaskAcceptable(listed[i], sentAt, serverNow) <==>
              TouchedInOrder(ds, ttl, TaskKey(listed[i]), sentAt, serverNow)
    {
      TaskTellsHistory(ds, ttl, TaskKey(listed[i]));
      TaskIsIdentified(ds, ttl, TaskKey(listed[i]));
    }
  }

  // --- Exactly which tasks are listed ---------------------------------------------------

  lemma KeyPastPrefix(key: string, provider: string, session: string) returns (id: string)
    requires SubKeyOf(key, provider, session)
    ensures key == LedgerKey(provider, SUB, id) && session + ":" <= id
  {
    var prefix := LedgerKey(provider, SUB, session + ":");
    id := session + ":" + key[|prefix|..];
    assert key == prefix + key[|prefix|..];
  }

  lemma PrefixOfKey(provider: string, session: string, id: string)
    requires session + ":" <= id
    ensures SubKeyOf(LedgerKey(provider, SUB, id), provider, session)
  {
    assert id == session + ":" + id[|session| + 1..];
    assert LedgerKey(provider, SUB, id) == LedgerKey(provider, SUB, session + ":") + id[|session| + 1..];
  }

  /** A sub-task's key shows its session. */
  lemma SubKeyShowsSession(key: string, r: TaskRecord, provider: string, session: string)
    requires WellFormedRecord(key, r) && KnownProvider(provider) && ColonFree(session)
    ensures SubKeyOf(key, provider, session) <==>
            r.task.provider == provider && r.task.kind == SUB && r.parent == session
  {
    hide LedgerKey, SubKeyOf, ColonFree;
    var t := r.task;
    if t.provider == provider && t.kind == SUB && r.parent == session {
      PrefixOfKey(provider, session, t.sessionID);
    }
    if SubKeyOf(key, provider, session) {
      var id := KeyPastPrefix(key, provider, session);
      KeyIsInjective(provider, SUB, id, t.provider, t.kind, t.sessionID);
      ColonSplits(session, r.parent, id);
    }
  }

  lemma MainKeyShowsSession(key: string, r: TaskRecord, provider: string, session: string)
    requires WellFormedRecord(key, r) && KnownProvider(provider)
    ensures key == LedgerKey(provider, MAIN, session) <==>
            r.task.provider == provider && r.task.kind == MAIN && r.parent == session
  {
    if key == LedgerKey(provider, MAIN, session) {
      KeyIsInjective(provider, MAIN, session, r.task.provider, r.task.kind, r.task.sessionID);
    }
  }

  /** After an event there are the tasks it starts, and those there were that it
      does not end. */
  lemma TasksAfter(m: Tasks, e: Event, now: int, key: string)
    requires WellFormed(m) && KnownProvider(e.provider) && ColonFree(e.sessionID)
    ensures key in Effect(m, e, now) <==> Starts(e, key) || (key in m && !Ends(e, key))
  {
    hide LedgerKey, SubTaskID, TrimSpace, ColonFree, SubKeyOf, WellFormedRecord;
    NamesDiffer();
    if key in m {
      assert WellFormedRecord(key, m[key]);
      KindIsKnown(key, m[key]);
      SubKeyShowsSession(key, m[key], e.provider, e.sessionID);
      MainKeyShowsSession(key, m[key], e.provider, e.sessionID);
    }
  }

  lemma KindIsKnown(key: string, r: TaskRecord)
    requires WellFormedRecord(key, r)
    ensures KnownKind(r.task.kind)
  {
  }

  /** Delivery i starts the task, none after it ends it, and no effective instant
      after it comes more than the life time after the touch before. */
  ghost predicate LivesSince(ds: seq<Delivery>, ttl: int, key: string, i: int) {
    0 <= i < |ds| && Effective(ds[i], ttl).Some? && Starts(ds[i].event, key) &&
    forall j :: i < j < |ds| && Effective(ds[j], ttl).Some? ==>
      !Ends(ds[j].event, key) && InTime(ds[..j], ttl, key, Effective(ds[j], ttl).value)
  }

  /** The last touch is at most the life time before the instant. */
  predicate InTime(ds: seq<Delivery>, ttl: int, key: string, at: int) {
    LastTouch(ds, ttl, key).Some? && at - LastTouch(ds, ttl, key).value <= ttl
  }

  lemma LivesOn(ds: seq<Delivery>, d: Delivery, ttl: int, key: string, i: int)
    requires LivesSince(ds, ttl, key, i)
    ensures LivesSince(ds + [d], ttl, key, i) <==>
            (Effective(d, ttl).Some? ==> !Ends(d.event, key) && InTime(ds, ttl, key, Effective(d, ttl).value))
  {
    hide Effective, Starts, Ends, InTime;
    var more := ds + [d];
    assert forall j :: 0 <= j < |ds| ==> more[j] == ds[j] && more[..j] == ds[..j];
    assert more[|ds|] == d && more[..|ds|] == ds;
  }

  lemma LivedBefore(ds: seq<Delivery>, d: Delivery, ttl: int, key: string, i: int)
    requires LivesSince(ds + [d], ttl, key, i) && i < |ds|
    ensures LivesSince(ds, ttl, key, i)
    ensures Effective(d, ttl).Some? ==> !Ends(d.event, key) && InTime(ds, ttl, key, Effective(d, ttl).value)
  {
    hide Effective, Starts, Ends, InTime;
    var more := ds + [d];
    assert forall j :: 0 <= j < |ds| ==> more[j] == ds[j] && more[..j] == ds[..j];
    assert more[|ds|] == d && more[..|ds|] == ds;
  }

  /** A task is in the ledger after any events, in any order, if and only if some
      event started it, none since ended it, and no gap was too long. */
  lemma {:induction false} PresentExactly(ds: seq<Delivery>, ttl: int, key: string)
    requires ColonFreeSessions(ds)
    ensures key in Run(map[], ds, ttl) <==> exists i :: LivesSince(ds, ttl, key, i)
  {
    hide Effect, Starts, Ends, LivesSince, WellFormed, ColonFree, LastTouch, InTime;
    if ds != [] {
      var front, d := ds[..|ds| - 1], ds[|ds| - 1];
      assert ds == front + [d];
      RunOneMore(map[], front, d, ttl);
      PresentExactly(front, ttl, key);
      RunsStayWellFormed(front, ttl);
      PresentStep(front, d, ttl, key);
      if key in Run(map[], ds, ttl) {
        var t := Effective(d, ttl);
        if key in Run(map[], front, ttl) && (t.Some? ==> !Ends(d.event, key) && InTime(front, ttl, key, t.value)) {
          var i :| LivesSince(front, ttl, key, i);
          LivesOn(front, d, ttl, key, i);
        } else {
          StartsHere(front, d, ttl, key);
        }
      } else if i :| LivesSince(ds, ttl, key, i) {
        IndexInRange(ds, ttl, key, i);
        if i < |front| {
          LivedBefore(front, d, ttl, key, i);
        } else {
          StartedHere(front, d, ttl, key);
        }
      }
    } else if i :| LivesSince(ds, ttl, key, i) {
      IndexInRange(ds, ttl, key, i);
    }
  }

  lemma IndexInRange(ds: seq<Delivery>, ttl: int, key: string, i: int)
    requires LivesSince(ds, ttl, key, i)
    ensures 0 <= i < |ds|
  {
  }

  lemma StartsHere(front: seq<Delivery>, d: Delivery, ttl: int, key: string)
    requires Effective(d, ttl).Some? && Starts(d.event, key)
    ensures LivesSince(front + [d], ttl, key, |front|)
  {
    hide Starts, Ends;
  }

  lemma StartedHere(front: seq<Delivery>, d: Delivery, ttl: int, key: string)
    requires LivesSince(front + [d], ttl, key, |front|)
    ensures Effective(d, ttl).Some? && Starts(d.event, key)
  {
  }

  /** One delivery more. */
  lemma PresentStep(front: seq<Delivery>, d: Delivery, ttl: int, key: string)
    requires WellFormed(Run(map[], front, ttl)) && ColonFree(d.event.sessionID)
    ensures var m, t := Run(map[], front, ttl), Effective(d, ttl);
            key in Apply(m, d, ttl) <==>
            if t.None? then key in m
            else Starts(d.event, key) || (key in m && InTime(front, ttl, key, t.value) && !Ends(d.event, key))
  {
    hide Effect, Starts, Ends, Run, ColonFree, LastTouch;
    var m := Run(map[], front, ttl);
    if Effective(d, ttl).Some? {
      var now := Effective(d, ttl).value;
      PrunedStaysWellFormed(m, now - ttl);
      TasksAfter(Prune(m, now - ttl), d.event, now, key);
      if key in m {
        TaskTellsHistory(front, ttl, key);
      }
    }
  }

  /** Exactly the tasks are listed that some event started, none since ended, and
      that were touched in time for every later event and for the snapshot. */
  lemma ListedExactly(ds: seq<Delivery>, ttl: int, clock: int, listed: seq<ActiveTask>, key: string)
    requires ColonFreeSessions(ds) && Lists(listed, Prune(Run(map[], ds, ttl), clock - ttl))
    ensures (exists k :: 0 <= k < |listed| && TaskKey(listed[k]) == key) <==>
            InTime(ds, ttl, key, clock) && exists i :: LivesSince(ds, ttl, key, i)
  {
    hide Run, LivesSince, LastTouch, StrictlySorted, LedgerKey, WellFormedRecord, ColonFree;
    var m := Run(map[], ds, ttl);
    PresentExactly(ds, ttl, key);
    RunsStayWellFormed(ds, ttl);
    if key in m {
      TaskTellsHistory(ds, ttl, key);
      assert WellFormedRecord(key, m[key]);
      RecordKey(key, m[key]);
    }
    if key in Prune(m, clock - ttl) {
      var k :| 0 <= k < |listed| && listed[k] == m[key].task;
      assert TaskKey(listed[k]) == key;
    }
  }

  lemma RecordKey(key: string, r: TaskRecord)
    requires WellFormedRecord(key, r)
    ensures key == TaskKey(r.task)
  {
  }

  /** The instant an event takes effect is its stamp if that is neither older than
      the life time nor a minute or more ahead of the clock; a stamp too far ahead,
      or none, counts as the clock, and one too old is ignored. */
  lemma EffectiveInstant(d: Delivery, ttl: int)
    requires !d.event.probe && (d.event.provider == "codex" || d.event.provider == "claude") && 0 <= ttl
    ensures Effective(d, ttl).Some? ==> d.clock - ttl <= Effective(d, ttl).value < d.clock + 60 * 1_000_000_000
    ensures d.event.at != ZERO_TIME && d.clock - ttl <= d.event.at < d.clock + 60 * 1_000_000_000 ==>
              Effective(d, ttl) == Some(d.event.at)
    ensures Effective(d, ttl).None? <==> d.event.at != ZERO_TIME && d.event.at < d.clock - ttl
    ensures d.event.at == ZERO_TIME || d.event.at >= d.clock + 60 * 1_000_000_000 ==> Effective(d, ttl) == Some(d.clock)
  {
  }
}
