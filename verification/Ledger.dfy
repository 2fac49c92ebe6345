/** The agent's in-memory ledger of active tasks: hook events are replayed into
    a map that every call prunes by age. */
module Ledger {
  import opened Prelude
  import opened AgentReports
  import opened StringOrder

  datatype Event = Event(
    provider: string, name: string, sessionID: string, taskID: string, at: int, probe: bool)

  datatype TaskRecord = TaskRecord(task: ActiveTask, parent: string)

  type Tasks = map<string, TaskRecord>

  /** An event together with the agent's clock when it is applied. */
  datatype Delivery = Delivery(event: Event, clock: int)

  const DEFAULT_TTL: int := 15 * MINUTE

  // --- Keys -------------------------------------------------------------------

  function LedgerKey(provider: string, kind: string, id: string): string {
    provider + "\0" + kind + "\0" + id
  }

  predicate IsSpace(c: char) {
    '\t' <= c <= '\r' || c == ' ' || c == '\U{0085}' || c == '\U{00A0}' || c == '\U{1680}' ||
    '\U{2000}' <= c <= '\U{200A}' || c == '\U{2028}' || c == '\U{2029}' || c == '\U{202F}' ||
    c == '\U{205F}' || c == '\U{3000}'
  }

  function TrimSpace(s: string): string
    decreases |s|
  {
    if s == "" then s
    else if IsSpace(s[0]) then TrimSpace(s[1..])
    else if IsSpace(s[|s| - 1]) then TrimSpace(s[..|s| - 1])
    else s
  }

  ghost predicate AllSpace(s: string) {
    forall i :: 0 <= i < |s| ==> IsSpace(s[i])
  }

  lemma {:induction false} TrimLeavesNoSpace(s: string)
    ensures var t := TrimSpace(s); t != "" ==> !IsSpace(t[0]) && !IsSpace(t[|t| - 1])
    decreases |s|
  {
    hide IsSpace;
    if s != "" && IsSpace(s[0]) {
      TrimLeavesNoSpace(s[1..]);
    } else if s != "" && IsSpace(s[|s| - 1]) {
      TrimLeavesNoSpace(s[..|s| - 1]);
    }
  }

  /** Only space is cut off, at both ends, and none is left there. */
  lemma {:induction false} TrimMeans(s: string) returns (before: string, after: string)
    ensures s == before + TrimSpace(s) + after && AllSpace(before) && AllSpace(after)
    ensures var t := TrimSpace(s); t != "" ==> !IsSpace(t[0]) && !IsSpace(t[|t| - 1])
    decreases |s|
  {
    hide IsSpace, AllSpace;
    TrimLeavesNoSpace(s);
    var last := |s| - 1;
    if s != "" && IsSpace(s[0]) {
      before, after := TrimMeans(s[1..]);
      OneMoreSpace(s[0], before);
      before := [s[0]] + before;
      assert s == [s[0]] + s[1..];
    } else if s != "" && IsSpace(s[last]) {
      before, after := TrimMeans(s[..last]);
      OneMoreSpace(s[last], after);
      after := after + [s[last]];
      assert s == s[..last] + [s[last]];
    } else {
      before, after := "", "";
      NothingIsSpace();
      assert s == "" + s + "";
    }
  }

  lemma NothingIsSpace()
    ensures AllSpace("")
  {
  }

  lemma OneMoreSpace(c: char, s: string)
    requires IsSpace(c) && AllSpace(s)
    ensures AllSpace([c] + s) && AllSpace(s + [c])
  {
    hide IsSpace;
  }

  function SubTaskID(e: Event): (id: string)
    ensures e.sessionID + ":" <= id
  {
    e.sessionID + ":" + (if TrimSpace(e.taskID) == "" then "unknown" else TrimSpace(e.taskID))
  }

  // --- Specification of one event -----------------------------------------------

  /** The instant an event takes effect, if it is not ignored outright. */
  function Effective(d: Delivery, ttl: int): Option<int> {
    var e := d.event;
    if e.probe || !KnownProvider(e.provider) then None
    else if e.at == ZERO_TIME then Some(d.clock)
    else if e.at < d.clock - ttl then None
    else if e.at < d.clock + MINUTE then Some(e.at)
    else Some(d.clock)
  }

  function Prune(m: Tasks, cutoff: int): Tasks {
    map k | k in m && m[k].task.lastSeenAt >= cutoff :: m[k]
  }

  function Touch(m: Tasks, key: string, now: int): Tasks
    requires key in m
  {
    m[key := m[key].(task := m[key].task.(lastSeenAt := now))]
  }

  function Start(m: Tasks, e: Event, kind: string, id: string, now: int): Tasks {
    var key := LedgerKey(e.provider, kind, id);
    if key in m then Touch(m, key, now)
    else m[key := TaskRecord(ActiveTask(e.provider, kind, id, now, now), e.sessionID)]
  }

  function Heartbeat(m: Tasks, key: string, now: int): Tasks {
    if key in m then Touch(m, key, now) else m
  }

  predicate ChildOf(r: TaskRecord, e: Event, subsOnly: bool) {
    r.task.provider == e.provider && r.parent == e.sessionID && (subsOnly ==> r.task.kind == SUB)
  }

  function EndAll(m: Tasks, e: Event, subsOnly: bool): Tasks {
    map k | k in m && !ChildOf(m[k], e, subsOnly) :: m[k]
  }

  datatype EventKind = Prompt | ToolUse | Stopped | SessionEnded | SubStarted | SubStopped | Unrelated

  function KindOf(name: string): EventKind {
    if name == "UserPromptSubmit" then Prompt
    else if name == "PostToolUse" then ToolUse
    else if name == "Stop" || name == "StopFailure" then Stopped
    else if name == "SessionEnd" then SessionEnded
    else if name == "SubagentStart" then SubStarted
    else if name == "SubagentStop" then SubStopped
    else Unrelated
  }

  /** The effect of an event on a pruned ledger. */
  function Effect(m: Tasks, e: Event, now: int): Tasks {
    var mainKey := LedgerKey(e.provider, MAIN, e.sessionID);
    var subKey := LedgerKey(e.provider, SUB, SubTaskID(e));
    match KindOf(e.name)
    case Prompt => if e.sessionID == "" then m else Start(m, e, MAIN, e.sessionID, now)
    case ToolUse =>
      var m1 := Heartbeat(m, mainKey, now);
      if TrimSpace(e.taskID) != "" then Heartbeat(m1, subKey, now) else m1
    case Stopped => m - {mainKey}
    case SessionEnded => EndAll(m, e, false)
    case SubStarted => if e.sessionID == "" then m else Start(m, e, SUB, SubTaskID(e), now)
    case SubStopped => if TrimSpace(e.taskID) != "" then m - {subKey} else EndAll(m, e, true)
    case Unrelated => m
  }

  function Apply(m: Tasks, d: Delivery, ttl: int): Tasks {
    match Effective(d, ttl)
    case None => m
    case Some(now) => Effect(Prune(m, now - ttl), d.event, now)
  }

  // --- Order of snapshots -----------------------------------------------------------

  function TaskKey(t: ActiveTask): string {
    LedgerKey(t.provider, t.kind, t.sessionID)
  }

  predicate StrictlySorted(tasks: seq<ActiveTask>) {
    forall i, j :: 0 <= i < j < |tasks| ==> Precedes(TaskKey(tasks[i]), TaskKey(tasks[j]))
  }

  /** tasks lists exactly the tasks of m, strictly ordered by key. */
  ghost predicate Lists(tasks: seq<ActiveTask>, m: Tasks) {
    StrictlySorted(tasks) &&
    (forall i :: 0 <= i < |tasks| ==> TaskKey(tasks[i]) in m && m[TaskKey(tasks[i])].task == tasks[i]) &&
    (forall k :: k in m ==> m[k].task in tasks)
  }

  /** Every task is stored under its own key. */
  ghost predicate WellKeyed(m: Tasks) {
    forall k :: k in m ==> k == TaskKey(m[k].task)
  }

  function Without(m: Tasks, pending: set<string>): Tasks {
    map k | k in m && k !in pending :: m[k]
  }

  lemma WithoutGrows(m: Tasks, pending: set<string>, key: string)
    requires WellKeyed(m) && key in m && key in pending
    ensures Without(m, pending - {key}) == Without(m, pending)[key := m[key]]
    ensures WellKeyed(Without(m, pending)) && key !in Without(m, pending)
    ensures key == TaskKey(m[key].task)
  {
    hide TaskKey;
  }

  lemma WithoutNone(m: Tasks)
    ensures Without(m, {}) == m
  {
  }

  lemma NoneListed(m: Tasks)
    ensures Lists([], Without(m, m.Keys))
  {
  }

  // --- The ledger ---------------------------------------------------------------------

  class TaskLedger {
    const ttl: int
    var tasks: Tasks

    constructor (ttl: int)
      ensures tasks == map[] && this.ttl == if ttl <= 0 then DEFAULT_TTL else ttl
    {
      this.ttl := if ttl <= 0 then DEFAULT_TTL else ttl;
      tasks := map[];
    }

    method PruneTasks(now: int)
      modifies this
      ensures tasks == Prune(old(tasks), now - ttl)
    {
      var cutoff := now - ttl;
      var pending := tasks.Keys;
      while pending != {}
        invariant pending <= old(tasks).Keys
        invariant tasks ==
                  map k | k in old(tasks) && (k in pending || old(tasks)[k].task.lastSeenAt >= cutoff) :: old(tasks)[k]
      {
        var key :| key in pending;
        pending := pending - {key};
        if tasks[key].task.lastSeenAt < cutoff {
          tasks := tasks - {key};
        }
      }
    }

    method EndTasks(e: Event, subsOnly: bool)
      modifies this
      ensures tasks == EndAll(old(tasks), e, subsOnly)
    {
      var pending := tasks.Keys;
      while pending != {}
        invariant pending <= old(tasks).Keys
        invariant tasks ==
                  map k | k in old(tasks) && (k in pending || !ChildOf(old(tasks)[k], e, subsOnly)) :: old(tasks)[k]
      {
        var key :| key in pending;
        pending := pending - {key};
        var r := tasks[key];
        if r.task.provider == e.provider && (!subsOnly || r.task.kind == SUB) && r.parent == e.sessionID {
          tasks := tasks - {key};
        }
      }
    }

    method HeartbeatTask(key: string, now: int)
      modifies this
      ensures tasks == Heartbeat(old(tasks), key, now)
    {
      if key in tasks {
        var r := tasks[key];
        tasks := tasks[key := r.(task := r.task.(lastSeenAt := now))];
      }
    }

    method StartTask(e: Event, kind: string, id: string, now: int)
      modifies this
      ensures tasks == Start(old(tasks), e, kind, id, now)
    {
      var key := LedgerKey(e.provider, kind, id);
      if key in tasks {
        var r := tasks[key];
        tasks := tasks[key := r.(task := r.task.(lastSeenAt := now))];
      } else {
        tasks := tasks[key := TaskRecord(ActiveTask(e.provider, kind, id, now, now), e.sessionID)];
      }
    }

    method ApplyEvent(e: Event, clock: int)
      modifies this
      ensures tasks == Apply(old(tasks), Delivery(e, clock), ttl)
    {
      hide TrimSpace, LedgerKey, Heartbeat, Start, EndAll, Prune;
      if e.probe || (e.provider != CODEX && e.provider != CLAUDE) { return; }
      var now := clock;
      if e.at != ZERO_TIME {
        if e.at < now - ttl { return; }
        if e.at < now + MINUTE { now := e.at; }
      }
      PruneTasks(now);
      var mainKey := LedgerKey(e.provider, MAIN, e.sessionID);
      match e.name {
        case "UserPromptSubmit" =>
          if e.sessionID == "" { return; }
          StartTask(e, MAIN, e.sessionID, now);
        case "PostToolUse" =>
          HeartbeatTask(mainKey, now);
          if TrimSpace(e.taskID) != "" {
            HeartbeatTask(LedgerKey(e.provider, SUB, SubTaskID(e)), now);
          }
        case "Stop" => tasks := tasks - {mainKey};
        case "StopFailure" => tasks := tasks - {mainKey};
        case "SessionEnd" => EndTasks(e, false);
        case "SubagentStart" =>
          if e.sessionID == "" { return; }
          StartTask(e, SUB, SubTaskID(e), now);
        case "SubagentStop" =>
          if TrimSpace(e.taskID) != "" {
            tasks := tasks - {LedgerKey(e.provider, SUB, SubTaskID(e))};
          } else {
            EndTasks(e, true);
          }
        case _ =>
      }
    }

    /** The live tasks in key order. Only the pruning changes the ledger. */
    method Snapshot(clock: int) returns (listed: seq<ActiveTask>)
      requires WellKeyed(tasks)
      modifies this
      ensures tasks == Prune(old(tasks), clock - ttl)
      ensures Lists(listed, tasks)
    {
      hide Lists, Without, TaskKey;
      PruneTasks(clock);
      listed := [];
      NoneListed(tasks);
      var pending := tasks.Keys;
      while pending != {}
        invariant pending <= tasks.Keys
        invariant tasks == Prune(old(tasks), clock - ttl)
        invariant Lists(listed, Without(tasks, pending))
      {
        var key :| key in pending;
        WithoutGrows(tasks, pending, key);
        listed := InsertSorted(listed, tasks[key].task, Without(tasks, pending), tasks[key]);
        pending := pending - {key};
      }
      WithoutNone(tasks);
    }
  }

  /** Puts one more task into a sorted list. */
  method InsertSorted(tasks: seq<ActiveTask>, t: ActiveTask, ghost m: Tasks, ghost r: TaskRecord)
    returns (longer: seq<ActiveTask>)
    requires Lists(tasks, m) && WellKeyed(m)
    requires TaskKey(t) !in m && r.task == t
    ensures Lists(longer, m[TaskKey(t) := r])
  {
    var i := 0;
    while i < |tasks| && Precedes(TaskKey(tasks[i]), TaskKey(t))
      invariant 0 <= i <= |tasks|
      invariant forall k :: 0 <= k < i ==> Precedes(TaskKey(tasks[k]), TaskKey(t))
    {
      i := i + 1;
    }
    if i < |tasks| {
      assert TaskKey(t) != TaskKey(tasks[i]);
      PrecedesIsStrict(TaskKey(tasks[i]), TaskKey(t));
    }
    longer := tasks[..i] + [t] + tasks[i..];
    InsertionLists(tasks, i, t, m, r);
  }

  lemma InsertionSorts(tasks: seq<ActiveTask>, i: nat, t: ActiveTask)
    requires StrictlySorted(tasks) && i <= |tasks|
    requires forall k :: 0 <= k < i ==> Precedes(TaskKey(tasks[k]), TaskKey(t))
    requires i < |tasks| ==> Precedes(TaskKey(t), TaskKey(tasks[i]))
    ensures StrictlySorted(tasks[..i] + [t] + tasks[i..])
  {
    hide LedgerKey, Precedes, TaskKey;
    var longer := tasks[..i] + [t] + tasks[i..];
    forall k | i <= k < |tasks|
      ensures Precedes(TaskKey(t), TaskKey(tasks[k]))
    {
      if i < k {
        PrecedesIsTransitive(TaskKey(t), TaskKey(tasks[i]), TaskKey(tasks[k]));
      }
    }
    assert forall k :: 0 <= k < |longer| ==>
      longer[k] == if k < i then tasks[k] else if k == i then t else tasks[k - 1];
  }

  lemma InsertionLists(tasks: seq<ActiveTask>, i: nat, t: ActiveTask, m: Tasks, r: TaskRecord)
    requires Lists(tasks, m) && TaskKey(t) !in m && r.task == t && i <= |tasks|
    requires forall k :: 0 <= k < i ==> Precedes(TaskKey(tasks[k]), TaskKey(t))
    requires i < |tasks| ==> Precedes(TaskKey(t), TaskKey(tasks[i]))
    ensures Lists(tasks[..i] + [t] + tasks[i..], m[TaskKey(t) := r])
  {
    hide LedgerKey, Precedes, TaskKey;
    var longer, grown := tasks[..i] + [t] + tasks[i..], m[TaskKey(t) := r];
    InsertionSorts(tasks, i, t);
    forall key | key in grown
      ensures grown[key].task in longer
    {
      if key == TaskKey(t) {
        assert longer[i] == t;
      } else {
        var j :| 0 <= j < |tasks| && tasks[j] == m[key].task;
        assert longer[if j < i then j else j + 1] == m[key].task;
      }
    }
  }
}
