/** Server and display agree on what a valid snapshot is. */
module DisplayContract {
  import opened Prelude
  import opened AgentReports
  import opened Store
  import opened JsonTree
  import opened Rfc3339
  import opened GoTime
  import opened SnapshotParser
  import opened DisplaySnapshot

  // --- What the server sends ------------------------------------------------------

  /** Every instant shown can be written with a year from 1970 to 9999. */
  predicate WritableWindow(w: Option<LimitWindow>) {
    w.Some? && w.value.resetsAt.Some? ==> Writable(w.value.resetsAt.value.at, w.value.resetsAt.value.offset)
  }

  predicate WritableShown(s: Shown) {
    (s.observedAt.Some? ==> Writable(s.observedAt.value, 0)) &&
    WritableWindow(s.windows.fiveHour) && WritableWindow(s.windows.sevenDay)
  }

  predicate WritableDisplay(d: Display) {
    Writable(d.generatedAt, 0) && WritableShown(d.codex) && WritableShown(d.claude)
  }

  function EncodeWindow(w: Option<LimitWindow>): Json
    requires WritableWindow(w)
  {
    if w.None? then Null
    else Object(map["usedPercent" := Decimal(w.value.used), "remainingPercent" := Decimal(w.value.remaining),
                    "resetsAt" := if w.value.resetsAt.None? then Null
                                  else Text(Rfc3339Nano(w.value.resetsAt.value.at, w.value.resetsAt.value.offset))])
  }

  /** Empty optional members are omitted. */
  function EncodeShown(s: Shown): Json
    requires WritableShown(s)
  {
    Object((if s.observedAt.Some? then map["observedAt" := Text(Rfc3339Nano(s.observedAt.value, 0))] else map[]) +
           map["freshness" := Text(s.freshness)] +
           (if s.loginRequired then map["loginRequired" := Boolean(true)] else map[]) +
           (if s.plan != "" then map["plan" := Text(s.plan)] else map[]) +
           (if s.source != "" then map["source" := Text(s.source)] else map[]) +
           map["windows" := Object(map["fiveHour" := EncodeWindow(s.windows.fiveHour),
                                       "sevenDay" := EncodeWindow(s.windows.sevenDay)])])
  }

  function EncodeTexts(texts: seq<string>): seq<Json> {
    seq(|texts|, i requires 0 <= i < |texts| => Text(texts[i]))
  }

  function Encode(d: Display): Json
    requires WritableDisplay(d)
  {
    Object(map[
      "schemaVersion" := Integer(1),
      "generatedAt" := Text(Rfc3339Nano(d.generatedAt, 0)),
      "providers" := Object(map["codex" := EncodeShown(d.codex), "claude" := EncodeShown(d.claude)]),
      "tasks" := Object(map["codex" := WriteTasks(d.codexTasks), "claude" := WriteTasks(d.claudeTasks),
                            "total" := WriteTasks(d.totalTasks)]),
      "agents" := Object(map["online" := Integer(d.online), "total" := Integer(d.total)]),
      "warnings" := Array(EncodeTexts(d.warnings))])
  }

  // --- What the display should see -------------------------------------------------

  function SeenWindow(w: Option<LimitWindow>): RateWindow
    requires WritableWindow(w)
  {
    if w.None? then NO_WINDOW
    else if w.value.resetsAt.None? then RateWindow(true, false, w.value.used, w.value.remaining, "", 0)
    else
      var r := w.value.resetsAt.value;
      RateWindow(true, true, w.value.used, w.value.remaining, Rfc3339Nano(r.at, r.offset), r.at / SECOND)
  }

  function SeenProvider(s: Shown): Provider
    requires WritableShown(s)
  {
    Provider(true,
             if s.observedAt.Some? then Rfc3339Nano(s.observedAt.value, 0) else "",
             if s.observedAt.Some? then s.observedAt.value / SECOND else 0,
             s.freshness, s.loginRequired, s.plan, SeenWindow(s.windows.fiveHour), SeenWindow(s.windows.sevenDay))
  }

  function Seen(d: Display): Snapshot
    requires WritableDisplay(d)
  {
    Snapshot(1, Rfc3339Nano(d.generatedAt, 0), d.generatedAt / SECOND, SeenProvider(d.codex), SeenProvider(d.claude),
             d.codexTasks, d.claudeTasks, d.totalTasks, d.online, d.total, d.warnings)
  }

  // --- Validated reports ------------------------------------------------------------

  /** Every kept report passed the validator when it was received. */
  ghost predicate AllValidated(kept: map<string, Offer>) {
    forall a :: a in kept ==> ReportAcceptable(kept[a].report, kept[a].receivedAt)
  }

  /** What validation guarantees about a provider's part of the snapshot. */
  predicate ShownAcceptable(s: Shown) {
    WindowAcceptable(s.windows.fiveHour) && WindowAcceptable(s.windows.sevenDay) && KnownFreshness(s.freshness) &&
    (s.observedAt.None? ==> s.freshness == "unavailable")
  }

  lemma ValidatedIsInsertable(r: AgentReport, now: int)
    requires ReportAcceptable(r, now)
    ensures Insertable(r)
  {
    hide ProviderAcceptable, TaskAcceptable, DistinctSessions;
    forall p | p in r.providers.value
      ensures KnownProvider(p)
    {
      assert ProviderAcceptable(p, r.providers.value[p], r.sentAt, now);
      AcceptableIsKnown(p, r.providers.value[p], r.sentAt, now);
    }
    forall i | 0 <= i < |r.activeTasks.value|
      ensures KnownProvider(r.activeTasks.value[i].provider) && KnownKind(r.activeTasks.value[i].kind)
    {
      assert TaskAcceptable(r.activeTasks.value[i], r.sentAt, now);
      AcceptableTaskIsKnown(r.activeTasks.value[i], r.sentAt, now);
    }
  }

  lemma AcceptableIsKnown(provider: string, p: ProviderReport, sentAt: int, now: int)
    requires ProviderAcceptable(provider, p, sentAt, now)
    ensures KnownProvider(provider) && WindowAcceptable(p.windows.fiveHour) && WindowAcceptable(p.windows.sevenDay)
  {
    hide ByteLength;
  }

  lemma AcceptableTaskIsKnown(t: ActiveTask, sentAt: int, now: int)
    requires TaskAcceptable(t, sentAt, now)
    ensures KnownProvider(t.provider) && KnownKind(t.kind)
  {
    hide ValidSessionID;
  }

  lemma ShownIsAcceptable(t: Tables, kept: map<string, Offer>, provider: string, now: int, s: Shown)
    requires Represents(t, kept) && AllValidated(kept) && ProviderShown(t, provider, now, s)
    ensures ShownAcceptable(s)
  {
    hide ProviderAcceptable, TasksAcceptable, ValidAgentID, WindowAcceptable, Ranks, Lists, RowsAgree;
    NoWindowsAreAcceptable();
    if exists k :: Candidate(t, provider, k) {
      var k :| IsLatest(t, provider, k) && s == ShownFrom(t.providers[k], now);
      assert k in t.providers && k.0 in kept;
      var r := kept[k.0].report;
      assert ReportAcceptable(r, kept[k.0].receivedAt);
      assert ProviderAcceptable(k.1, r.providers.value[k.1], r.sentAt, kept[k.0].receivedAt);
      AcceptableIsKnown(k.1, r.providers.value[k.1], r.sentAt, kept[k.0].receivedAt);
    }
  }

  lemma NoWindowsAreAcceptable()
    ensures WindowAcceptable(None)
  {
  }

  // --- Agreement -----------------------------------------------------------------------

  lemma EncodedWindowReads(w: Option<LimitWindow>)
    requires WritableWindow(w) && WindowAcceptable(w)
    ensures ReadWindow(EncodeWindow(w)) == Some(SeenWindow(w))
  {
    hide Writable, EpochOf, Rfc3339Nano;
    if w.Some? && w.value.resetsAt.Some? {
      WrittenInstantReads(w.value.resetsAt.value.at, w.value.resetsAt.value.offset);
    }
  }

  lemma EncodedMembers(s: Shown)
    requires WritableShown(s)
    ensures var o := EncodeShown(s).fields;
            ReadLogin(o) == Some(s.loginRequired) &&
            ReadPlan(o) == (if Displayable(s.plan) then Some(s.plan) else None) &&
            HasText(o, "freshness") && o["freshness"].text == s.freshness
  {
    hide Writable, EpochOf, Rfc3339Nano, WritableWindow, EncodeWindow;
    var o := EncodeShown(s).fields;
    assert "loginRequired" in o <==> s.loginRequired;
    assert "plan" in o <==> s.plan != "";
    assert s.plan == "" ==> Displayable(s.plan);
  }

  lemma EncodedObservation(s: Shown)
    requires WritableShown(s) && ShownAcceptable(s)
    ensures ReadObserved(EncodeShown(s).fields, s.freshness) ==
            Some((SeenProvider(s).observedAt, SeenProvider(s).observedAtEpoch))
  {
    hide Writable, EpochOf, Rfc3339Nano, WindowAcceptable, WritableWindow, EncodeWindow, SeenWindow, KnownFreshness;
    if s.observedAt.Some? {
      WrittenInstantReads(s.observedAt.value, 0);
    }
    assert "observedAt" in EncodeShown(s).fields <==> s.observedAt.Some?;
  }

  /** A provider is read back unless its plan is not displayable. */
  lemma EncodedShownReads(s: Shown)
    requires WritableShown(s) && ShownAcceptable(s)
    ensures ReadProvider(EncodeShown(s)) == if Displayable(s.plan) then Some(SeenProvider(s)) else None
  {
    hide Writable, EpochOf, Rfc3339Nano, WindowAcceptable, WritableWindow, EncodeWindow, SeenWindow, ReadWindow,
      KnownFreshness, ReadObserved, ReadLogin, ReadPlan, Displayable;
    EncodedWindowReads(s.windows.fiveHour);
    EncodedWindowReads(s.windows.sevenDay);
    EncodedMembers(s);
    EncodedObservation(s);
    var o := EncodeShown(s).fields;
    assert o["windows"] ==
           Object(map["fiveHour" := EncodeWindow(s.windows.fiveHour), "sevenDay" := EncodeWindow(s.windows.sevenDay)]);
  }

  lemma EncodedTasksRead(t: TaskCount, tasks: Fields, key: string)
    requires 0 <= t.main < 0x8000_0000 && 0 <= t.sub < 0x8000_0000 && key in tasks && tasks[key] == WriteTasks(t)
    ensures ReadTasks(tasks, key) == Some(t)
  {
  }

  lemma WarningsSurvive(texts: seq<string>)
    requires |texts| <= MAX_WARNINGS
    ensures AllTexts(EncodeTexts(texts)) && KeptWarnings(EncodeTexts(texts)) == texts
  {
  }

  /** Counts that fit the display's integers. */
  predicate SmallCounts(d: Display) {
    0 <= d.codexTasks.main && 0 <= d.codexTasks.sub && 0 <= d.claudeTasks.main && 0 <= d.claudeTasks.sub &&
    d.totalTasks == Plus(d.codexTasks, d.claudeTasks) &&
    d.totalTasks.main < 0x8000_0000 && d.totalTasks.sub < 0x8000_0000 &&
    d.online <= d.total < 0x8000_0000 && |d.warnings| <= MAX_WARNINGS
  }

  lemma EncodedDisplayReads(d: Display)
    requires WritableDisplay(d) && SmallCounts(d) && ShownAcceptable(d.codex) && ShownAcceptable(d.claude)
    ensures ParseTree(Encode(d)) ==
            if Displayable(d.codex.plan) && Displayable(d.claude.plan) then Some(Seen(d)) else None
  {
    hide Writable, WritableShown, EpochOf, Rfc3339Nano, ShownAcceptable, EncodeShown, SeenProvider, ReadProvider,
      Displayable, ReadTasks, WriteTasks, KeptWarnings, EncodeTexts;
    EncodedShownReads(d.codex);
    EncodedShownReads(d.claude);
    WrittenInstantReads(d.generatedAt, 0);
    WarningsSurvive(d.warnings);
    var root := Encode(d).fields;
    assert root["warnings"] == Array(EncodeTexts(d.warnings));
    assert root["generatedAt"] == Text(Rfc3339Nano(d.generatedAt, 0));
    assert root["schemaVersion"] == Integer(1);
    var providers, tasks, agents := ObjectOr(root, "providers"), ObjectOr(root, "tasks"), ObjectOr(root, "agents");
    assert providers["codex"] == EncodeShown(d.codex) && providers["claude"] == EncodeShown(d.claude);
    assert agents["online"] == Integer(d.online) && agents["total"] == Integer(d.total);
    EncodedTasksRead(d.codexTasks, tasks, "codex");
    EncodedTasksRead(d.claudeTasks, tasks, "claude");
    EncodedTasksRead(d.totalTasks, tasks, "total");
  }

  /** Every snapshot built from validated reports, with dates from 1970 to 9999
      and fewer than 2^31 tasks and agents, is read by the display as meant, if
      and only if both plans are at most 32 printable ASCII characters: the
      validator admits plans that make the display reject the whole snapshot. */
  lemma DisplayReadsWhatServerMeans(t: Tables, kept: map<string, Offer>, now: int, d: Display)
    requires Represents(t, kept) && AllValidated(kept) && Says(t, now, d)
    requires WritableDisplay(d) && |t.agents| < 0x8000_0000 && |t.tasks| < 0x8000_0000
    ensures ParseTree(Encode(d)) ==
            if ShortAndPrintable(d.codex.plan) && ShortAndPrintable(d.claude.plan) then Some(Seen(d)) else None
  {
    hide Represents, AllValidated, Says, SmallCounts, ShownAcceptable, WritableDisplay, ParseTree, Encode,
      Displayable, ShortAndPrintable, Seen;
    DisplayableMeans(d.codex.plan);
    DisplayableMeans(d.claude.plan);
    assert ProviderShown(t, CODEX, now, d.codex) && ProviderShown(t, CLAUDE, now, d.claude) by { SaysShows(t, now, d); }
    ShownIsAcceptable(t, kept, CODEX, now, d.codex);
    ShownIsAcceptable(t, kept, CLAUDE, now, d.claude);
    SaysSmallCounts(t, now, d);
    EncodedDisplayReads(d);
  }

  /** At most 32 characters from the space to the tilde. */
  predicate ShortAndPrintable(plan: string) {
    |plan| <= 32 && forall i :: 0 <= i < |plan| ==> ' ' <= plan[i] <= '~'
  }

  lemma DisplayableMeans(plan: string)
    ensures Displayable(plan) <==> ShortAndPrintable(plan)
  {
  }

  lemma SaysShows(t: Tables, now: int, d: Display)
    requires Says(t, now, d)
    ensures ProviderShown(t, CODEX, now, d.codex) && ProviderShown(t, CLAUDE, now, d.claude)
  {
  }

  lemma SaysSmallCounts(t: Tables, now: int, d: Display)
    requires Says(t, now, d) && |t.agents| < 0x8000_0000 && |t.tasks| < 0x8000_0000
    ensures SmallCounts(d)
  {
    hide ProviderShown, OnlineAgents, CountedTasks, WarningsFor;
    CountsAreSmall(t, now);
  }

  lemma CountsAreSmall(t: Tables, now: int)
    ensures var total := Plus(TaskCounts(t, {}, now, CODEX), TaskCounts(t, {}, now, CLAUDE));
            0 <= total.main <= |t.tasks| && 0 <= total.sub <= |t.tasks|
    ensures |OnlineAgents(t, t.agents.Keys, now)| <= |t.agents|
  {
    DisjointCounts(t, now, MAIN);
    DisjointCounts(t, now, SUB);
    SubsetSize(OnlineAgents(t, t.agents.Keys, now), t.agents.Keys);
  }

  lemma DisjointCounts(t: Tables, now: int, kind: string)
    ensures |CountedTasks(t, {}, now, CODEX, kind)| + |CountedTasks(t, {}, now, CLAUDE, kind)| <= |t.tasks|
  {
    var a, b := CountedTasks(t, {}, now, CODEX, kind), CountedTasks(t, {}, now, CLAUDE, kind);
    assert CODEX != CLAUDE by { assert |CODEX| != |CLAUDE|; }
    assert a !! b;
    assert |a + b| == |a| + |b|;
    SubsetSize(a + b, t.tasks.Keys);
  }

  // --- A snapshot the display rejects -------------------------------------------------------

  function LongPlan(): string {
    seq(33, _ => 'x')
  }

  function LongPlanReport(now: int): AgentReport {
    AgentReport(1, "a", now, Some(map[CODEX := ProviderReport(now, "", LongPlan(), "", NO_WINDOWS, "")]), Some([]))
  }

  function LongPlanTables(now: int): Tables {
    Tables(map["a" := AgentRow(now, now)],
           map[("a", CODEX) := RowOf(ProviderReport(now, "", LongPlan(), "", NO_WINDOWS, ""))], map[])
  }

  function LongPlanDisplay(now: int): Display {
    var codex := ShownFrom(LongPlanTables(now).providers[("a", CODEX)], now);
    Display(now, codex, UNAVAILABLE, TaskCount(0, 0), TaskCount(0, 0), TaskCount(0, 0), 1, 1,
            WarningsFor(CODEX, codex) + WarningsFor(CLAUDE, UNAVAILABLE))
  }

  lemma PlanTooLong()
    ensures ByteLength(LongPlan()) <= 128 && !ShortAndPrintable(LongPlan())
  {
    AsciiLength(LongPlan());
  }

  lemma LongPlanReportIsValid(now: int)
    requires now > 0
    ensures ReportAcceptable(LongPlanReport(now), now)
  {
    hide LongPlan, ShortAndPrintable;
    PlanTooLong();
    assert ByteLength("a") == 1;
    assert ByteLength("") == 0;
  }

  lemma LongPlanIsStored(now: int)
    ensures Represents(LongPlanTables(now), map["a" := Offer(LongPlanReport(now), now)])
  {
    hide LongPlan;
  }

  lemma LongPlanProvidersShown(now: int)
    requires now > 0
    ensures ProviderShown(LongPlanTables(now), CODEX, now, LongPlanDisplay(now).codex)
    ensures ProviderShown(LongPlanTables(now), CLAUDE, now, UNAVAILABLE)
  {
    hide LongPlan, WarningsFor, Ranks;
    var t := LongPlanTables(now);
    assert CODEX != CLAUDE by { assert |CODEX| != |CLAUDE|; }
    assert Candidate(t, CODEX, ("a", CODEX)) by { hide ShownFrom; }
    assert IsLatest(t, CODEX, ("a", CODEX));
    assert forall k :: !Candidate(t, CLAUDE, k);
  }

  lemma NoTasksCounted(t: Tables, now: int, provider: string)
    requires t.tasks == map[]
    ensures TaskCounts(t, {}, now, provider) == TaskCount(0, 0)
  {
    hide Counted;
    assert CountedTasks(t, {}, now, provider, MAIN) == {} && CountedTasks(t, {}, now, provider, SUB) == {};
  }

  lemma OneAgentOnline(now: int)
    ensures |OnlineAgents(LongPlanTables(now), {"a"}, now)| == 1
  {
    hide LongPlan, RowOf;
    assert OnlineAgents(LongPlanTables(now), {"a"}, now) == {"a"};
  }

  lemma LongPlanIsShown(now: int)
    requires now > 0
    ensures Says(LongPlanTables(now), now, LongPlanDisplay(now))
  {
    hide LongPlan, WarningsFor, ProviderShown, ShownFrom, RowOf, TaskCounts, OnlineAgents;
    LongPlanProvidersShown(now);
    var t := LongPlanTables(now);
    NoTasksCounted(t, now, CODEX);
    NoTasksCounted(t, now, CLAUDE);
    OneAgentOnline(now);
    assert t.agents.Keys == {"a"} && |t.agents| == 1;
  }

  /** One validated report, with a plan of 33 characters, is enough for the display
      to reject the whole snapshot. */
  lemma LongPlanIsRejected(now: int)
    requires Writable(now, 0) && now > 0
    ensures var t, kept, d := LongPlanTables(now), map["a" := Offer(LongPlanReport(now), now)], LongPlanDisplay(now);
            Represents(t, kept) && AllValidated(kept) && Says(t, now, d) && WritableDisplay(d) &&
            ParseTree(Encode(d)) == None
  {
    hide Writable, Represents, ReportAcceptable, Says, ParseTree, Encode, LongPlan, ShortAndPrintable, Seen,
      WarningsFor;
    var kept := map["a" := Offer(LongPlanReport(now), now)];
    LongPlanReportIsValid(now);
    LongPlanIsStored(now);
    LongPlanIsShown(now);
    PlanTooLong();
    DisplayReadsWhatServerMeans(LongPlanTables(now), kept, now, LongPlanDisplay(now));
  }
}
