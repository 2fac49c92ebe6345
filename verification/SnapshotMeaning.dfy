/** What a display snapshot says, read off the reports the store keeps: the rows
    in between do not show. */
module SnapshotMeaning {
  import opened Prelude
  import opened StringOrder
  import opened AgentReports
  import opened Store
  import opened SnapshotParser
  import opened DisplaySnapshot
  import opened DisplayContract

  // --- One provider -----------------------------------------------------------

  /** Agent a's kept report tells of the provider, and when it was observed. */
  predicate Observed(kept: map<string, Offer>, provider: string, a: string) {
    a in kept && provider in ProvidersOf(kept[a].report) && ProvidersOf(kept[a].report)[provider].observedAt > 0
  }

  function ReportOn(kept: map<string, Offer>, provider: string, a: string): (p: ProviderReport)
    requires Observed(kept, provider, a)
    ensures p.observedAt > 0
  {
    ProvidersOf(kept[a].report)[provider]
  }

  /** No observation is newer; among equally new ones the first agent by name counts. */
  ghost predicate Newest(kept: map<string, Offer>, provider: string, a: string) {
    Observed(kept, provider, a) &&
    forall b :: Observed(kept, provider, b) && b != a ==>
      var at, other := ReportOn(kept, provider, a).observedAt, ReportOn(kept, provider, b).observedAt;
      other < at || (other == at && Precedes(a, b))
  }

  /** s is what p says about a provider at the instant now. */
  ghost predicate Tells(s: Shown, p: ProviderReport, now: int) {
    s.observedAt == Some(p.observedAt) && s.plan == p.plan && s.source == p.source &&
    s.windows.fiveHour == p.windows.fiveHour && s.windows.sevenDay == p.windows.sevenDay &&
    (s.loginRequired <==> p.authState == "unauthenticated" || p.errorCode == "not_authenticated") &&
    (s.freshness == "unavailable" <==> p.windows.fiveHour.None? && p.windows.sevenDay.None?) &&
    (s.freshness == "fresh" <==>
     (p.windows.fiveHour.Some? || p.windows.sevenDay.Some?) && p.observedAt >= now - 300_000_000_000) &&
    (s.freshness == "stale" <==>
     (p.windows.fiveHour.Some? || p.windows.sevenDay.Some?) && p.observedAt < now - 300_000_000_000)
  }

  ghost predicate TellsNothing(s: Shown) {
    s.observedAt.None? && s.freshness == "unavailable" && !s.loginRequired && s.plan == "" && s.source == "" &&
    s.windows.fiveHour.None? && s.windows.sevenDay.None?
  }

  /** The newest observation among the kept reports is shown, or there is none. */
  ghost predicate ShowsNewest(kept: map<string, Offer>, provider: string, now: int, s: Shown) {
    if exists a :: Observed(kept, provider, a)
    then exists a :: Newest(kept, provider, a) && Tells(s, ReportOn(kept, provider, a), now)
    else TellsNothing(s)
  }

  lemma FreshnessNames()
    ensures "fresh" != "stale" && "fresh" != "unavailable" && "stale" != "unavailable"
  {
    assert |"fresh"| == 5 && |"stale"| == 5 && |"unavailable"| == 11;
    assert "fresh"[0] != "stale"[0];
  }

  lemma RowTells(p: ProviderReport, now: int)
    requires p.observedAt > 0
    ensures Tells(ShownFrom(RowOf(p), now), p, now)
  {
    FreshnessNames();
  }

  lemma RowsAreObservations(t: Tables, kept: map<string, Offer>, provider: string, k: (string, string))
    requires Represents(t, kept)
    ensures Candidate(t, provider, k) <==> k.1 == provider && Observed(kept, provider, k.0)
    ensures Candidate(t, provider, k) ==>
              t.providers[k] == RowOf(ReportOn(kept, provider, k.0)) &&
              t.providers[k].observedAt == ReportOn(kept, provider, k.0).observedAt
  {
    hide Lists, RowsAgree, ProvidersOf, TasksOf;
  }

  lemma LatestIsNewest(t: Tables, kept: map<string, Offer>, provider: string, k: (string, string))
    requires Represents(t, kept) && IsLatest(t, provider, k)
    ensures k.1 == provider && Newest(kept, provider, k.0)
    ensures t.providers[k] == RowOf(ReportOn(kept, provider, k.0))
  {
    hide Represents, Precedes, Observed, ReportOn, RowOf;
    RowsAreObservations(t, kept, provider, k);
    forall b | Observed(kept, provider, b) && b != k.0
      ensures ReportOn(kept, provider, b).observedAt < ReportOn(kept, provider, k.0).observedAt ||
              (ReportOn(kept, provider, b).observedAt == ReportOn(kept, provider, k.0).observedAt && Precedes(k.0, b))
    {
      RowsAreObservations(t, kept, provider, (b, provider));
      assert Ranks(t, k, (b, provider));
    }
  }

  lemma NewestIsObserved(kept: map<string, Offer>, provider: string, a: string)
    requires Newest(kept, provider, a)
    ensures Observed(kept, provider, a)
  {
  }

  lemma ProviderShownMeans(t: Tables, kept: map<string, Offer>, provider: string, now: int, s: Shown)
    requires Represents(t, kept) && ProviderShown(t, provider, now, s)
    ensures ShowsNewest(kept, provider, now, s)
  {
    hide Represents, Observed, Newest, Tells, ReportOn, ShownFrom, RowOf;
    if k :| Candidate(t, provider, k) {
      var best :| IsLatest(t, provider, best) && s == ShownFrom(t.providers[best], now);
      LatestIsNewest(t, kept, provider, best);
      NewestIsObserved(kept, provider, best.0);
      RowTells(ReportOn(kept, provider, best.0), now);
    } else {
      forall a
        ensures !Observed(kept, provider, a)
      {
        RowsAreObservations(t, kept, provider, (a, provider));
      }
    }
  }

  // --- Counts -------------------------------------------------------------------

  /** Agent k.0 reported within the last 45 s, and a task of provider k.1 and session
      k.2, of this kind and seen within the last 15 min, is on its kept report. */
  ghost predicate LiveTask(kept: map<string, Offer>, k: (string, string, string), now: int, kind: string) {
    k.0 in kept && kept[k.0].receivedAt >= now - 45_000_000_000 &&
    exists i :: 0 <= i < |TasksOf(kept[k.0].report)| && IsLive(TasksOf(kept[k.0].report)[i], k, now, kind)
  }

  predicate IsLive(a: ActiveTask, k: (string, string, string), now: int, kind: string) {
    a.provider == k.1 && a.sessionID == k.2 && a.kind == kind && a.lastSeenAt >= now - 900_000_000_000
  }

  /** n is the number of live tasks of this provider and kind. */
  ghost predicate CountsTasks(n: int, kept: map<string, Offer>, now: int, provider: string, kind: string) {
    exists live: set<(string, string, string)> {:trigger |live|} ::
      n == |live| && forall k :: k in live <==> k.1 == provider && LiveTask(kept, k, now, kind)
  }

  /** n is the number of agents whose kept report arrived within the last 45 s. */
  ghost predicate CountsAgents(n: int, kept: map<string, Offer>, now: int) {
    exists online: set<string> {:trigger |online|} ::
      n == |online| && forall a :: a in online <==> a in kept && kept[a].receivedAt >= now - 45_000_000_000
  }

  lemma CountedIsLive(
      t: Tables, kept: map<string, Offer>, k: (string, string, string), now: int, provider: string, kind: string)
    requires Represents(t, kept)
    ensures Counted(t, k, now, provider, kind) <==> k.1 == provider && LiveTask(kept, k, now, kind)
  {
    if k in t.tasks {
      var tasks := TasksOf(kept[k.0].report);
      var i :| 0 <= i < |tasks| && IsTask(tasks[i], k);
      assert t.tasks[k] == TaskRowOf(tasks[i]);
      assert RowsAgree(tasks, k, t.tasks[k]);
      assert t.tasks[k].kind == kind && t.tasks[k].lastSeenAt >= now - TASK_TTL ==> IsLive(tasks[i], k, now, kind);
    }
    if LiveTask(kept, k, now, kind) {
      var tasks := TasksOf(kept[k.0].report);
      var i :| 0 <= i < |tasks| && IsLive(tasks[i], k, now, kind);
      assert IsTask(tasks[i], k);
    }
  }

  lemma CountedIsThere(t: Tables, k: (string, string, string), now: int, provider: string, kind: string)
    ensures Counted(t, k, now, provider, kind) ==> k in t.tasks
  {
  }

  lemma TasksAreCounted(t: Tables, kept: map<string, Offer>, now: int, provider: string, kind: string)
    requires Represents(t, kept)
    ensures CountsTasks(|CountedTasks(t, {}, now, provider, kind)|, kept, now, provider, kind)
  {
    hide Represents, Counted, LiveTask;
    var live := CountedTasks(t, {}, now, provider, kind);
    forall k
      ensures k in live <==> k.1 == provider && LiveTask(kept, k, now, kind)
    {
      CountedIsLive(t, kept, k, now, provider, kind);
      CountedIsThere(t, k, now, provider, kind);
    }
  }

  lemma AgentsAreCounted(t: Tables, kept: map<string, Offer>, now: int)
    requires Represents(t, kept)
    ensures CountsAgents(|OnlineAgents(t, t.agents.Keys, now)|, kept, now) && |t.agents| == |kept|
  {
    hide Lists, RowsAgree;
    var online := OnlineAgents(t, t.agents.Keys, now);
    assert forall a :: a in online <==> a in kept && kept[a].receivedAt >= now - 45_000_000_000;
    assert |t.agents| == |t.agents.Keys| && |kept| == |kept.Keys|;
  }

  // --- The whole snapshot ---------------------------------------------------------------

  ghost predicate WarnsOf(warnings: seq<string>, s: Shown, login: string, stale: string, unavailable: string) {
    warnings == if s.loginRequired then [login]
                else if s.freshness == "stale" then [stale]
                else if s.freshness == "unavailable" then [unavailable]
                else []
  }

  /** What a snapshot taken at now says of the kept reports. */
  ghost predicate ShowsKept(kept: map<string, Offer>, now: int, d: Display) {
    d.generatedAt == now &&
    ShowsNewest(kept, "codex", now, d.codex) && ShowsNewest(kept, "claude", now, d.claude) &&
    CountsTasks(d.codexTasks.main, kept, now, "codex", "main") &&
    CountsTasks(d.codexTasks.sub, kept, now, "codex", "sub") &&
    CountsTasks(d.claudeTasks.main, kept, now, "claude", "main") &&
    CountsTasks(d.claudeTasks.sub, kept, now, "claude", "sub") &&
    d.totalTasks.main == d.codexTasks.main + d.claudeTasks.main &&
    d.totalTasks.sub == d.codexTasks.sub + d.claudeTasks.sub &&
    d.total == |kept| && CountsAgents(d.online, kept, now) && WarnsOfBoth(d)
  }

  /** The warnings about Codex come first; a fresh provider that is logged in has none. */
  ghost predicate WarnsOfBoth(d: Display) {
    exists codex, claude ::
      d.warnings == codex + claude &&
      WarnsOf(codex, d.codex, "codex_login_required", "codex_stale", "codex_unavailable") &&
      WarnsOf(claude, d.claude, "claude_login_required", "claude_stale", "claude_unavailable")
  }

  predicate Known(freshness: string) {
    freshness == "fresh" || freshness == "stale" || freshness == "unavailable"
  }

  lemma FreshnessIsKnown(kept: map<string, Offer>, provider: string, now: int, s: Shown)
    requires ShowsNewest(kept, provider, now, s)
    ensures Known(s.freshness)
  {
    hide Newest, Observed, ReportOn;
  }

  lemma WarningIs(provider: string, s: Shown)
    requires Known(s.freshness)
    ensures WarnsOf(WarningsFor(provider, s), s, provider + "_login_required", provider + "_" + "stale",
                    provider + "_" + "unavailable")
  {
    FreshnessNames();
  }

  lemma WarningTexts()
    ensures "codex" + "_login_required" == "codex_login_required"
    ensures "codex" + "_" + "stale" == "codex_stale"
    ensures "codex" + "_" + "unavailable" == "codex_unavailable"
    ensures "claude" + "_login_required" == "claude_login_required"
    ensures "claude" + "_" + "stale" == "claude_stale"
    ensures "claude" + "_" + "unavailable" == "claude_unavailable"
  {
  }

  lemma WarningsAre(d: Display)
    requires Known(d.codex.freshness) && Known(d.claude.freshness)
    requires d.warnings == WarningsFor("codex", d.codex) + WarningsFor("claude", d.claude)
    ensures WarnsOfBoth(d)
  {
    hide Known, WarnsOf, WarningsFor;
    WarningTexts();
    WarningIs("codex", d.codex);
    WarningIs("claude", d.claude);
  }

  lemma CountsMean(t: Tables, kept: map<string, Offer>, now: int, provider: string)
    requires Represents(t, kept)
    ensures CountsTasks(TaskCounts(t, {}, now, provider).main, kept, now, provider, "main")
    ensures CountsTasks(TaskCounts(t, {}, now, provider).sub, kept, now, provider, "sub")
  {
    hide Represents, CountsTasks, CountedTasks;
    TasksAreCounted(t, kept, now, provider, MAIN);
    TasksAreCounted(t, kept, now, provider, SUB);
  }

  lemma ProvidersMean(t: Tables, kept: map<string, Offer>, now: int, d: Display)
    requires Represents(t, kept) && Says(t, now, d)
    ensures ShowsNewest(kept, "codex", now, d.codex) && ShowsNewest(kept, "claude", now, d.claude) && WarnsOfBoth(d)
  {
    hide Represents, ProviderShown, ShowsNewest, OnlineAgents, TaskCounts, WarningsFor, WarnsOfBoth, Known;
    ProviderShownMeans(t, kept, "codex", now, d.codex);
    ProviderShownMeans(t, kept, "claude", now, d.claude);
    FreshnessIsKnown(kept, "codex", now, d.codex);
    FreshnessIsKnown(kept, "claude", now, d.claude);
    WarningsAre(d);
  }

  lemma SnapshotMeans(t: Tables, kept: map<string, Offer>, now: int, d: Display)
    requires Represents(t, kept) && Says(t, now, d)
    ensures ShowsKept(kept, now, d)
  {
    hide Represents, ProviderShown, ShowsNewest, OnlineAgents, CountsAgents, CountsTasks, TaskCounts, WarningsFor,
      WarnsOfBoth;
    ProvidersMean(t, kept, now, d);
    CountsMean(t, kept, now, "codex");
    CountsMean(t, kept, now, "claude");
    AgentsAreCounted(t, kept, now);
  }

  /** A new store, any offers in any order, any of which may fail, and then a
      snapshot: it shows the reports kept, which KeepsTheNewest tells from the offers. */
  method ShowAfter(store: ReportStore, offers: seq<Offer>, now: int) returns (outcomes: seq<Outcome>, d: Display)
    requires store.tables == EMPTY && store.kept == map[]
    modifies store
    ensures |outcomes| == |offers|
    ensures ShowsKept(KeepAll(Applied(offers, outcomes)), now, d)
    ensures store.reliable && AllInsertable(offers) ==> ShowsKept(KeepAll(offers), now, d)
  {
    outcomes := OfferAll(store, offers);
    d := BuildDisplaySnapshot(store.tables, now);
    SnapshotMeans(store.tables, store.kept, now, d);
  }

  // --- What clocks that are wrong can do ------------------------------------------------

  /** Whatever an agent's clock says, a provider that is shown as fresh rests on a
      report that arrived within the last 10 minutes. */
  lemma FreshIsRecent(kept: map<string, Offer>, provider: string, now: int, s: Shown)
    requires AllValidated(kept) && ShowsNewest(kept, provider, now, s) && s.freshness == "fresh"
    ensures exists a :: a in kept && kept[a].receivedAt >= now - 600_000_000_000
  {
    FreshnessNames();
    var a :| Newest(kept, provider, a) && Tells(s, ReportOn(kept, provider, a), now);
    var r := kept[a].report;
    assert ReportAcceptable(r, kept[a].receivedAt);
    assert ProviderAcceptable(provider, r.providers.value[provider], r.sentAt, kept[a].receivedAt);
    assert a in kept && kept[a].receivedAt >= now - 600_000_000_000;
  }

  /** An agent whose clock was ahead is heard again 5 minutes later at the latest: no
      report that is sent by then, with a clock set right, counts as stale. */
  lemma WrongClockIsForgiven(kept: map<string, Offer>, r: AgentReport)
    requires AllValidated(kept)
    requires r.agentID in kept ==> r.sentAt > kept[r.agentID].receivedAt + 300_000_000_000
    ensures !IsStale(kept, r)
  {
    if r.agentID in kept {
      var o := kept[r.agentID];
      assert ReportAcceptable(o.report, o.receivedAt);
    }
  }

  /** A report that took more than 15 minutes to arrive is never kept. */
  lemma LateReportIsNotKept(kept: map<string, Offer>, a: string)
    requires AllValidated(kept) && a in kept
    ensures kept[a].report.sentAt >= kept[a].receivedAt - 900_000_000_000
    ensures kept[a].report.sentAt <= kept[a].receivedAt + 300_000_000_000
  {
    assert ReportAcceptable(kept[a].report, kept[a].receivedAt);
  }
}
