/** The agent's report and the server's validator for it. Instants are integer
    nanoseconds since 1970; strings are sequences of Unicode characters. */
module AgentReports {
  import opened Prelude

  /** Go's zero time, January 1 of year 1. */
  const ZERO_TIME: int := -62135596800 * SECOND

  const CODEX := "codex"
  const CLAUDE := "claude"
  const MAIN := "main"
  const SUB := "sub"

  /** An instant together with the zone offset, in minutes, it is written in. */
  datatype Stamp = Stamp(at: int, offset: int)

  datatype LimitWindow = LimitWindow(used: real, remaining: real, resetsAt: Option<Stamp>)

  datatype Windows = Windows(fiveHour: Option<LimitWindow>, sevenDay: Option<LimitWindow>)

  const NO_WINDOWS := Windows(None, None)

  datatype ProviderReport = ProviderReport(
    observedAt: int, authState: string, plan: string, source: string,
    windows: Windows, errorCode: string)

  datatype ActiveTask = ActiveTask(
    provider: string, kind: string, sessionID: string, startedAt: int, lastSeenAt: int)

  datatype AgentReport = AgentReport(
    schemaVersion: int, agentID: string, sentAt: int,
    providers: Option<map<string, ProviderReport>>, activeTasks: Option<seq<ActiveTask>>)

  const MAX_FUTURE_SKEW: int := 5 * MINUTE
  const MAX_REPORT_AGE: int := 15 * MINUTE

  predicate KnownProvider(provider: string) {
    provider == CODEX || provider == CLAUDE
  }

  predicate KnownKind(kind: string) {
    kind == MAIN || kind == SUB
  }

  // --- Strings as the server sees them --------------------------------------

  /** Bytes a character takes in UTF-8. */
  function Utf8Width(c: char): nat {
    if c as int < 0x80 then 1 else if c as int < 0x800 then 2 else if c as int < 0x1_0000 then 3 else 4
  }

  function ByteLength(s: string): (n: nat)
    ensures |s| <= n <= 4 * |s|
  {
    if s == "" then 0 else Utf8Width(s[0]) + ByteLength(s[1..])
  }

  lemma {:induction false} AsciiLength(s: string)
    requires forall i :: 0 <= i < |s| ==> s[i] as int < 0x80
    ensures ByteLength(s) == |s|
  {
    if s != "" {
      AsciiLength(s[1..]);
    }
  }

  predicate IsControl(c: char) {
    c as int < 0x20 || 0x7f <= c as int < 0xa0
  }

  predicate ValidSessionID(id: string) {
    0 < ByteLength(id) <= 256 && forall c :: c in id ==> !IsControl(c)
  }

  predicate AgentIDChar(c: char) {
    'a' <= c <= 'z' || 'A' <= c <= 'Z' || '0' <= c <= '9' || c == '.' || c == '_' || c == '-'
  }

  predicate ValidAgentID(id: string) {
    0 < ByteLength(id) <= 64 && forall c :: c in id ==> AgentIDChar(c)
  }

  // --- What an acceptable report is -----------------------------------------

  predicate WindowAcceptable(w: Option<LimitWindow>) {
    w.Some? ==>
      var v := w.value;
      0.0 <= v.used <= 100.0 && 0.0 <= v.remaining <= 100.0 &&
      Abs(v.used + v.remaining - 100.0) <= 0.01 &&
      (v.resetsAt.None? ==> v.used == 0.0 && v.remaining == 100.0) &&
      (v.resetsAt.Some? ==> v.resetsAt.value.at != ZERO_TIME)
  }

  predicate ProviderAcceptable(provider: string, p: ProviderReport, sentAt: int, now: int) {
    KnownProvider(provider) &&
    ByteLength(p.authState) <= 64 && ByteLength(p.plan) <= 128 &&
    ByteLength(p.source) <= 128 && ByteLength(p.errorCode) <= 128 &&
    (if p.observedAt == ZERO_TIME
     then p.windows == NO_WINDOWS
     else p.observedAt <= sentAt + MAX_FUTURE_SKEW && p.observedAt <= now + MAX_FUTURE_SKEW) &&
    WindowAcceptable(p.windows.fiveHour) && WindowAcceptable(p.windows.sevenDay)
  }

  predicate TaskAcceptable(t: ActiveTask, sentAt: int, now: int) {
    KnownProvider(t.provider) && KnownKind(t.kind) && ValidSessionID(t.sessionID) &&
    t.startedAt != ZERO_TIME && t.lastSeenAt != ZERO_TIME && t.startedAt <= t.lastSeenAt &&
    t.lastSeenAt <= now + MAX_FUTURE_SKEW && t.lastSeenAt <= sentAt + MAX_FUTURE_SKEW
  }

  /** No two tasks share provider and session id, whatever their kinds. */
  predicate DistinctSessions(tasks: seq<ActiveTask>) {
    forall i, j :: 0 <= i < j < |tasks| ==>
      !(tasks[i].provider == tasks[j].provider && tasks[i].sessionID == tasks[j].sessionID)
  }

  predicate TasksAcceptable(tasks: seq<ActiveTask>, sentAt: int, now: int) {
    (forall i :: 0 <= i < |tasks| ==> TaskAcceptable(tasks[i], sentAt, now)) &&
    DistinctSessions(tasks)
  }

  predicate ReportAcceptable(r: AgentReport, now: int) {
    r.schemaVersion == 1 && ValidAgentID(r.agentID) && r.sentAt != ZERO_TIME &&
    now - MAX_REPORT_AGE <= r.sentAt <= now + MAX_FUTURE_SKEW &&
    r.providers.Some? && r.activeTasks.Some? && |r.activeTasks.value| <= 256 &&
    (forall p :: p in r.providers.value ==> ProviderAcceptable(p, r.providers.value[p], r.sentAt, now)) &&
    TasksAcceptable(r.activeTasks.value, r.sentAt, now)
  }

  /** 1 to 64 letters, digits, dots, underscores and hyphens. */
  predicate PlainName(id: string) {
    1 <= |id| <= 64 &&
    forall i :: 0 <= i < |id| ==>
      'a' <= id[i] <= 'z' || 'A' <= id[i] <= 'Z' || '0' <= id[i] <= '9' || id[i] in "._-"
  }

  lemma AgentIDsArePlain(id: string)
    ensures ValidAgentID(id) <==> PlainName(id)
  {
    assert PlainName(id) ==> forall c :: c in id ==> AgentIDChar(c);
    if forall c :: c in id ==> AgentIDChar(c) {
      assert forall i :: 0 <= i < |id| ==> id[i] in id;
      AsciiLength(id);
    }
  }

  /** An agent with nothing to tell is heard, if and only if its name is plain and its
      report took at most 15 minutes, or 5 minutes of clock difference the other way. */
  lemma HeartbeatIsAcceptable(id: string, sentAt: int, now: int)
    ensures ReportAcceptable(AgentReport(1, id, sentAt, Some(map[]), Some([])), now) <==>
            PlainName(id) && sentAt != ZERO_TIME && now - 900_000_000_000 <= sentAt <= now + 300_000_000_000
  {
    hide PlainName, ValidAgentID;
    AgentIDsArePlain(id);
  }

  /** Up to 256 tasks are heard, each of them on its own terms. */
  lemma TasksAreAcceptable(id: string, sentAt: int, tasks: seq<ActiveTask>, now: int)
    requires ReportAcceptable(AgentReport(1, id, sentAt, Some(map[]), Some([])), now)
    ensures ReportAcceptable(AgentReport(1, id, sentAt, Some(map[]), Some(tasks)), now) <==>
            |tasks| <= 256 && TasksAcceptable(tasks, sentAt, now)
  {
    hide ValidAgentID, TasksAcceptable;
  }

  // --- The validator ----------------------------------------------------------

  method ValidateWindow(w: Option<LimitWindow>) returns (ok: bool)
    ensures ok <==> WindowAcceptable(w)
  {
    if w.None? { return true; }
    var v := w.value;
    if v.used < 0.0 || v.used > 100.0 { return false; }
    if v.remaining < 0.0 || v.remaining > 100.0 { return false; }
    if Abs((v.used + v.remaining) - 100.0) > 0.01 { return false; }
    if v.resetsAt.None? {
      return !(v.used != 0.0 || v.remaining != 100.0);
    }
    return v.resetsAt.value.at != ZERO_TIME;
  }

  method ValidateProvider(provider: string, p: ProviderReport, sentAt: int, now: int) returns (ok: bool)
    ensures ok <==> ProviderAcceptable(provider, p, sentAt, now)
  {
    hide ByteLength, WindowAcceptable;
    if provider != CODEX && provider != CLAUDE { return false; }
    if ByteLength(p.authState) > 64 || ByteLength(p.plan) > 128 ||
       ByteLength(p.source) > 128 || ByteLength(p.errorCode) > 128 {
      return false;
    }
    if p.observedAt == ZERO_TIME {
      if p.windows.fiveHour.Some? || p.windows.sevenDay.Some? { return false; }
    } else if p.observedAt > sentAt + MAX_FUTURE_SKEW || p.observedAt > now + MAX_FUTURE_SKEW {
      return false;
    }
    var five := ValidateWindow(p.windows.fiveHour);
    if !five { return false; }
    ok := ValidateWindow(p.windows.sevenDay);
  }

  /** The `seen` set holds the provider/session pairs of the tasks checked so far. */
  method ValidateTasks(tasks: seq<ActiveTask>, sentAt: int, now: int) returns (ok: bool)
    ensures ok <==> TasksAcceptable(tasks, sentAt, now)
  {
    hide ValidSessionID;
    var seen: set<(string, string)> := {};
    for i := 0 to |tasks|
      invariant forall k :: 0 <= k < i ==> TaskAcceptable(tasks[k], sentAt, now)
      invariant DistinctSessions(tasks[..i])
      invariant forall k :: 0 <= k < i ==> (tasks[k].provider, tasks[k].sessionID) in seen
      invariant forall p :: p in seen ==> exists k :: 0 <= k < i && p == (tasks[k].provider, tasks[k].sessionID)
    {
      var t := tasks[i];
      var bad := (t.provider != CODEX && t.provider != CLAUDE) || (t.kind != MAIN && t.kind != SUB) ||
        !ValidSessionID(t.sessionID) || t.startedAt == ZERO_TIME || t.lastSeenAt == ZERO_TIME ||
        t.lastSeenAt < t.startedAt ||
        t.startedAt > now + MAX_FUTURE_SKEW || t.lastSeenAt > now + MAX_FUTURE_SKEW ||
        t.startedAt > sentAt + MAX_FUTURE_SKEW || t.lastSeenAt > sentAt + MAX_FUTURE_SKEW;
      assert bad <==> !TaskAcceptable(t, sentAt, now);
      if bad { return false; }
      var key := (t.provider, t.sessionID);
      if key in seen {
        var k :| 0 <= k < i && key == (tasks[k].provider, tasks[k].sessionID);
        assert !DistinctSessions(tasks);
        return false;
      }
      seen := seen + {key};
      assert tasks[..i + 1] == tasks[..i] + [t];
    }
    assert tasks[..|tasks|] == tasks;
    return true;
  }

  method ValidateAgentReport(r: AgentReport, now: int) returns (ok: bool)
    ensures ok <==> ReportAcceptable(r, now)
  {
    hide ValidAgentID, ProviderAcceptable, TasksAcceptable;
    if r.schemaVersion != 1 || !ValidAgentID(r.agentID) || r.sentAt == ZERO_TIME { return false; }
    if r.sentAt > now + MAX_FUTURE_SKEW || r.sentAt < now - MAX_REPORT_AGE { return false; }
    if r.providers.None? || r.activeTasks.None? { return false; }
    if |r.activeTasks.value| > 256 { return false; }
    var providers := r.providers.value;
    var pending := providers.Keys;
    while pending != {}
      invariant pending <= providers.Keys
      invariant forall p :: p in providers && p !in pending ==> ProviderAcceptable(p, providers[p], r.sentAt, now)
    {
      var p :| p in pending;
      pending := pending - {p};
      var good := ValidateProvider(p, providers[p], r.sentAt, now);
      if !good { return false; }
    }
    ok := ValidateTasks(r.activeTasks.value, r.sentAt, now);
  }
}
