/** The server's report store: three tables, replaced as a whole per agent. */
module Store {
  import opened Prelude
  import opened AgentReports

  const AGENT_ONLINE_WINDOW: int := 45 * SECOND
  const TASK_TTL: int := 15 * MINUTE
  const PROVIDER_FRESH_WINDOW: int := 5 * MINUTE

  // --- Tables ---------------------------------------------------------------

  datatype AgentRow = AgentRow(sentAt: int, receivedAt: int)

  /** A report of one provider; an unknown observation time is stored as 0. */
  datatype ProviderRow = ProviderRow(
    observedAt: int, authState: string, plan: string, source: string, windows: Windows, errorCode: string)

  datatype TaskRow = TaskRow(kind: string, startedAt: int, lastSeenAt: int)

  datatype Tables = Tables(
    agents: map<string, AgentRow>,
    providers: map<(string, string), ProviderRow>,
    tasks: map<(string, string, string), TaskRow>)

  const EMPTY := Tables(map[], map[], map[])

  function RowOf(p: ProviderReport): ProviderRow {
    ProviderRow(if p.observedAt == ZERO_TIME then 0 else p.observedAt, p.authState, p.plan, p.source, p.windows,
                p.errorCode)
  }

  function TaskRowOf(t: ActiveTask): TaskRow {
    TaskRow(t.kind, t.startedAt, t.lastSeenAt)
  }

  /** A missing list of providers or tasks counts as empty. */
  function ProvidersOf(r: AgentReport): map<string, ProviderReport> {
    if r.providers.Some? then r.providers.value else map[]
  }

  function TasksOf(r: AgentReport): seq<ActiveTask> {
    if r.activeTasks.Some? then r.activeTasks.value else []
  }

  /** A report as it was offered to the store. */
  datatype Offer = Offer(report: AgentReport, receivedAt: int)

  /** The table rows say exactly what the kept report of each agent says. */
  ghost predicate Represents(t: Tables, kept: map<string, Offer>) {
    t.agents.Keys == kept.Keys &&
    (forall a :: a in kept ==>
       kept[a].report.agentID == a && t.agents[a] == AgentRow(kept[a].report.sentAt, kept[a].receivedAt)) &&
    (forall k: (string, string) :: k in t.providers <==> k.0 in kept && k.1 in ProvidersOf(kept[k.0].report)) &&
    (forall k: (string, string) :: k in t.providers ==>
       t.providers[k] == RowOf(ProvidersOf(kept[k.0].report)[k.1])) &&
    (forall k: (string, string, string) :: k in t.tasks <==>
       k.0 in kept && Lists(TasksOf(kept[k.0].report), k)) &&
    (forall k: (string, string, string) :: k in t.tasks ==>
       RowsAgree(TasksOf(kept[k.0].report), k, t.tasks[k]))
  }

  predicate Lists(tasks: seq<ActiveTask>, k: (string, string, string)) {
    exists i :: 0 <= i < |tasks| && IsTask(tasks[i], k)
  }

  predicate RowsAgree(tasks: seq<ActiveTask>, k: (string, string, string), row: TaskRow) {
    forall i :: 0 <= i < |tasks| && IsTask(tasks[i], k) ==> row == TaskRowOf(tasks[i])
  }

  predicate IsTask(t: ActiveTask, k: (string, string, string)) {
    t.provider == k.1 && t.sessionID == k.2
  }

  /** Newer reports replace older ones; others are stale. */
  function Keep(kept: map<string, Offer>, offer: Offer): map<string, Offer> {
    if IsStale(kept, offer.report) then kept else kept[offer.report.agentID := offer]
  }

  predicate IsStale(kept: map<string, Offer>, r: AgentReport) {
    r.agentID in kept && r.sentAt <= kept[r.agentID].report.sentAt
  }

  /** The report satisfies the tables' constraints. */
  predicate Insertable(r: AgentReport) {
    (forall p :: p in ProvidersOf(r) ==> KnownProvider(p)) && TasksInsertable(TasksOf(r))
  }

  predicate TasksInsertable(tasks: seq<ActiveTask>) {
    (forall i :: 0 <= i < |tasks| ==> KnownProvider(tasks[i].provider) && KnownKind(tasks[i].kind)) &&
    DistinctSessions(tasks)
  }

  datatype Outcome = Stored | StaleReport | Failed

  class ReportStore {
    var tables: Tables
    // The database works: no statement fails but for a broken constraint.
    const reliable: bool
    // The report kept for each agent.
    ghost var kept: map<string, Offer>

    constructor (reliable: bool)
      ensures this.reliable == reliable && tables == EMPTY && kept == map[] && Represents(tables, kept)
    {
      this.reliable := reliable;
      tables, kept := EMPTY, map[];
    }

    /** The provider rows after deleting the agent's and inserting the reported ones. */
    method ReplaceProviders(agent: string, reported: map<string, ProviderReport>)
      returns (ok: bool, rows: map<(string, string), ProviderRow>)
      ensures ok ==> (forall p :: p in reported ==> KnownProvider(p))
      ensures reliable && !ok ==> exists p :: p in reported && !KnownProvider(p)
      ensures ok ==> ProvidersReplaced(tables.providers, rows, agent, reported)
    {
      rows := map k: (string, string) | k in tables.providers && k.0 != agent :: tables.providers[k];
      var pending := reported.Keys;
      while pending != {}
        invariant pending <= reported.Keys
        invariant forall p :: p in reported && p !in pending ==> KnownProvider(p)
        invariant forall k: (string, string) :: k in rows <==>
                    (if k.0 == agent then k.1 in reported && k.1 !in pending else k in tables.providers)
        invariant forall k: (string, string) :: k in rows ==>
                    rows[k] == if k.0 == agent then RowOf(reported[k.1]) else tables.providers[k]
      {
        var p :| p in pending;
        pending := pending - {p};
        var broken: bool :| reliable ==> !broken;
        if broken || !KnownProvider(p) { return false, rows; }
        rows := rows[(agent, p) := RowOf(reported[p])];
      }
      ok := true;
    }

    /** The task rows after deleting the agent's and inserting the reported ones.
        An insertion fails on an unknown name or on a session that is there already. */
    method ReplaceTasks(agent: string, reported: seq<ActiveTask>)
      returns (ok: bool, rows: map<(string, string, string), TaskRow>)
      ensures ok ==> TasksInsertable(reported)
      ensures reliable && !ok ==> !TasksInsertable(reported)
      ensures ok ==> TasksReplaced(tables.tasks, rows, agent, reported)
    {
      hide RowsAgree;
      rows := map k: (string, string, string) | k in tables.tasks && k.0 != agent :: tables.tasks[k];
      NoTasksReplaced(tables.tasks, rows, agent);
      for i := 0 to |reported|
        invariant TasksInsertable(reported[..i])
        invariant TasksReplaced(tables.tasks, rows, agent, reported[..i])
      {
        var t, k := reported[i], (agent, reported[i].provider, reported[i].sessionID);
        assert reported[..i + 1] == reported[..i] + [t];
        var broken: bool :| reliable ==> !broken;
        if broken || !KnownProvider(t.provider) || !KnownKind(t.kind) || k in rows { return false, rows; }
        OneMoreRow(tables.tasks, rows, agent, reported[..i], t);
        rows := rows[k := TaskRowOf(t)];
      }
      assert reported[..|reported|] == reported;
      ok := true;
    }

    /** Either the agent's rows are replaced as a whole, or nothing changes. A
        report that breaks a constraint is never stored. */
    method ReplaceAgentReport(report: AgentReport, receivedAt: int) returns (outcome: Outcome)
      requires Represents(tables, kept)
      modifies this
      ensures Represents(tables, kept)
      ensures outcome != Failed ==> kept == Keep(old(kept), Offer(report, receivedAt))
      ensures outcome == Stored ==> !IsStale(old(kept), report) && Insertable(report)
      ensures outcome == StaleReport ==> IsStale(old(kept), report)
      ensures reliable ==>
                outcome == if IsStale(old(kept), report) then StaleReport
                           else if Insertable(report) then Stored else Failed
      ensures outcome != Stored ==> tables == old(tables) && kept == old(kept)
    {
      hide TasksInsertable, ProvidersReplaced, TasksReplaced;
      var agent := report.agentID;
      var broken: bool :| reliable ==> !broken;
      if broken { return Failed; }
      if agent in tables.agents && report.sentAt <= tables.agents[agent].sentAt { return StaleReport; }
      var ok, providers := ReplaceProviders(agent, ProvidersOf(report));
      if !ok { return Failed; }
      var tasks: map<(string, string, string), TaskRow>;
      ok, tasks := ReplaceTasks(agent, TasksOf(report));
      if !ok { return Failed; }
      broken :| reliable ==> !broken;
      if broken { return Failed; }
      ReplacementRepresents(tables, kept, Offer(report, receivedAt), providers, tasks);
      tables := Tables(tables.agents[agent := AgentRow(report.sentAt, receivedAt)], providers, tasks);
      kept := kept[agent := Offer(report, receivedAt)];
      return Stored;
    }
  }

  ghost predicate AllInsertable(offers: seq<Offer>) {
    forall i :: 0 <= i < |offers| ==> Insertable(offers[i].report)
  }

  /** Any calls on a new store, any of which may fail: what is kept, and what the
      tables represent, is determined by the offers whose calls did not fail; on a
      working database those are all that satisfy the constraints. */
  method OfferAll(store: ReportStore, offers: seq<Offer>) returns (outcomes: seq<Outcome>)
    requires store.tables == EMPTY && store.kept == map[]
    modifies store
    ensures |outcomes| == |offers|
    ensures store.kept == KeepAll(Applied(offers, outcomes)) && Represents(store.tables, store.kept)
    ensures store.reliable && AllInsertable(offers) ==> Applied(offers, outcomes) == offers
  {
    outcomes := [];
    for i := 0 to |offers|
      invariant |outcomes| == i
      invariant store.kept == KeepAll(Applied(offers[..i], outcomes)) && Represents(store.tables, store.kept)
      invariant store.reliable && AllInsertable(offers) ==> Applied(offers[..i], outcomes) == offers[..i]
    {
      var outcome := store.ReplaceAgentReport(offers[i].report, offers[i].receivedAt);
      assert offers[..i + 1] == offers[..i] + [offers[i]];
      OneMoreApplied(offers[..i], outcomes, offers[i], outcome);
      outcomes := outcomes + [outcome];
    }
    assert offers[..|offers|] == offers;
  }

  ghost predicate ProvidersReplaced(
      before: map<(string, string), ProviderRow>, after: map<(string, string), ProviderRow>,
      agent: string, reported: map<string, ProviderReport>) {
    (forall k: (string, string) :: k in after <==> if k.0 == agent then k.1 in reported else k in before) &&
    (forall k: (string, string) :: k in after ==>
       after[k] == if k.0 == agent then RowOf(reported[k.1]) else before[k])
  }

  ghost predicate TasksReplaced(
      before: map<(string, string, string), TaskRow>, after: map<(string, string, string), TaskRow>,
      agent: string, reported: seq<ActiveTask>) {
    (forall k: (string, string, string) :: k in after <==> if k.0 == agent then Lists(reported, k) else k in before) &&
    (forall k: (string, string, string) :: k in after ==>
       if k.0 == agent then RowsAgree(reported, k, after[k]) else after[k] == before[k])
  }

  lemma ReplacementRepresents(
      t: Tables, kept: map<string, Offer>, offer: Offer,
      providers: map<(string, string), ProviderRow>, tasks: map<(string, string, string), TaskRow>)
    requires Represents(t, kept)
    requires ProvidersReplaced(t.providers, providers, offer.report.agentID, ProvidersOf(offer.report))
    requires TasksReplaced(t.tasks, tasks, offer.report.agentID, TasksOf(offer.report))
    ensures var a := offer.report.agentID;
            Represents(Tables(t.agents[a := AgentRow(offer.report.sentAt, offer.receivedAt)], providers, tasks),
                       kept[a := offer])
  {
    hide Lists, RowsAgree, RowOf, ProvidersOf, TasksOf;
  }

  lemma NoTasksReplaced(
      before: map<(string, string, string), TaskRow>, after: map<(string, string, string), TaskRow>, agent: string)
    requires after == map k: (string, string, string) | k in before && k.0 != agent :: before[k]
    ensures TasksReplaced(before, after, agent, [])
  {
  }

  lemma OneMoreRow(
      before: map<(string, string, string), TaskRow>, rows: map<(string, string, string), TaskRow>,
      agent: string, tasks: seq<ActiveTask>, t: ActiveTask)
    requires TasksReplaced(before, rows, agent, tasks) && TasksInsertable(tasks)
    requires KnownProvider(t.provider) && KnownKind(t.kind) && (agent, t.provider, t.sessionID) !in rows
    ensures TasksInsertable(tasks + [t])
    ensures TasksReplaced(before, rows[(agent, t.provider, t.sessionID) := TaskRowOf(t)], agent, tasks + [t])
  {
    hide RowsAgree, TasksInsertable;
    var k := (agent, t.provider, t.sessionID);
    assert !Lists(tasks, k);
    assert Lists(tasks, ("", t.provider, t.sessionID)) <==> Lists(tasks, k);
    OneMoreTask(tasks, t);
    NoRowsToAgree(tasks, k, TaskRowOf(t));
  }

  lemma NoRowsToAgree(tasks: seq<ActiveTask>, k: (string, string, string), row: TaskRow)
    requires !Lists(tasks, k)
    ensures RowsAgree(tasks, k, row)
  {
  }

  lemma OneMoreTask(tasks: seq<ActiveTask>, t: ActiveTask)
    requires TasksInsertable(tasks) && KnownProvider(t.provider) && KnownKind(t.kind)
    requires !Lists(tasks, ("", t.provider, t.sessionID))
    ensures TasksInsertable(tasks + [t])
    ensures forall k :: Lists(tasks + [t], k) <==> Lists(tasks, k) || IsTask(t, k)
    ensures forall k, row :: RowsAgree(tasks + [t], k, row) <==>
              RowsAgree(tasks, k, row) && (IsTask(t, k) ==> row == TaskRowOf(t))
    ensures forall k :: IsTask(t, k) ==> !Lists(tasks, k)
  {
    var more := tasks + [t];
    assert forall i :: 0 <= i < |tasks| ==> more[i] == tasks[i];
    forall i | 0 <= i < |tasks|
      ensures !(tasks[i].provider == t.provider && tasks[i].sessionID == t.sessionID)
    {
      assert !IsTask(tasks[i], ("", t.provider, t.sessionID));
    }
    forall k
      ensures Lists(more, k) <==> Lists(tasks, k) || IsTask(t, k)
      ensures forall row :: RowsAgree(more, k, row) <==>
                RowsAgree(tasks, k, row) && (IsTask(t, k) ==> row == TaskRowOf(t))
      ensures IsTask(t, k) ==> !Lists(tasks, k)
    {
      assert more[|tasks|] == t;
    }
  }

  // --- Which report survives ----------------------------------------------------------

  function KeepAll(offers: seq<Offer>): map<string, Offer> {
    if offers == [] then map[] else Keep(KeepAll(offers[..|offers| - 1]), offers[|offers| - 1])
  }

  /** o was offered, and nothing its agent offered was sent later. */
  ghost predicate IsNewest(o: Offer, offers: seq<Offer>) {
    o in offers &&
    forall i :: 0 <= i < |offers| && offers[i].report.agentID == o.report.agentID ==>
      offers[i].report.sentAt <= o.report.sentAt
  }

  /** The store keeps, for exactly the agents that reported, an offered report
      with the greatest send time. */
  lemma {:induction false} KeepsTheNewest(offers: seq<Offer>)
    ensures forall a :: a in KeepAll(offers) <==> exists i :: 0 <= i < |offers| && offers[i].report.agentID == a
    ensures forall a :: a in KeepAll(offers) ==>
              KeepAll(offers)[a].report.agentID == a && IsNewest(KeepAll(offers)[a], offers)
  {
    if offers != [] {
      var front, last := offers[..|offers| - 1], offers[|offers| - 1];
      KeepsTheNewest(front);
      assert offers == front + [last];
      var a := last.report.agentID;
      assert offers[|offers| - 1].report.agentID == a;
      forall b | b in KeepAll(offers)
        ensures KeepAll(offers)[b].report.agentID == b && IsNewest(KeepAll(offers)[b], offers)
      {
        if b == a && !IsStale(KeepAll(front), last.report) {
          assert KeepAll(offers)[b] == last;
        } else {
          assert KeepAll(offers)[b] == KeepAll(front)[b];
        }
      }
    }
  }

  /** What was offered before by the same agent was sent earlier, and what was offered
      afterwards not later. */
  ghost predicate FirstOfNewest(offers: seq<Offer>, i: nat)
    requires i < |offers|
  {
    (forall j :: 0 <= j < i && offers[j].report.agentID == offers[i].report.agentID ==>
       offers[j].report.sentAt < offers[i].report.sentAt) &&
    (forall j :: i < j < |offers| && offers[j].report.agentID == offers[i].report.agentID ==>
       offers[j].report.sentAt <= offers[i].report.sentAt)
  }

  lemma NothingKept()
    ensures KeepAll([]) == map[]
  {
  }

  /** Among reports sent at the same instant the first to arrive is kept. */
  lemma {:induction false} KeepsTheFirst(offers: seq<Offer>, agent: string) returns (i: nat)
    requires agent in KeepAll(offers)
    ensures i < |offers| && offers[i] == KeepAll(offers)[agent] && offers[i].report.agentID == agent
    ensures FirstOfNewest(offers, i)
  {
    hide KeepAll;
    NothingKept();
    var front, last := offers[..|offers| - 1], offers[|offers| - 1];
    assert offers == front + [last];
    KeepAllGrows(front, last);
    KeepsTheNewest(front);
    if agent == last.report.agentID && !IsStale(KeepAll(front), last.report) {
      i := |offers| - 1;
      forall j | 0 <= j < i && offers[j].report.agentID == agent
        ensures offers[j].report.sentAt < last.report.sentAt
      {
        assert front[j] == offers[j];
      }
    } else {
      i := KeepsTheFirst(front, agent);
      assert front[i] == offers[i];
      assert forall j :: 0 <= j < |front| ==> front[j] == offers[j];
    }
  }

  /** The offers whose call did not fail. */
  function Applied(offers: seq<Offer>, outcomes: seq<Outcome>): seq<Offer>
    requires |offers| == |outcomes|
  {
    if offers == [] then []
    else
      Applied(offers[..|offers| - 1], outcomes[..|offers| - 1]) +
      (if outcomes[|offers| - 1] == Failed then [] else [offers[|offers| - 1]])
  }

  lemma KeepAllGrows(offers: seq<Offer>, offer: Offer)
    ensures KeepAll(offers + [offer]) == Keep(KeepAll(offers), offer)
  {
    hide Keep;
    assert (offers + [offer])[..|offers|] == offers;
  }

  lemma OneMoreApplied(offers: seq<Offer>, outcomes: seq<Outcome>, offer: Offer, outcome: Outcome)
    requires |offers| == |outcomes|
    ensures Applied(offers + [offer], outcomes + [outcome]) ==
            Applied(offers, outcomes) + (if outcome == Failed then [] else [offer])
    ensures KeepAll(Applied(offers + [offer], outcomes + [outcome])) ==
            if outcome == Failed then KeepAll(Applied(offers, outcomes))
            else Keep(KeepAll(Applied(offers, outcomes)), offer)
  {
    hide Keep, KeepAll;
    var more, answers := offers + [offer], outcomes + [outcome];
    assert more[..|offers|] == offers && answers[..|offers|] == outcomes;
    KeepAllGrows(Applied(offers, outcomes), offer);
    assert Applied(offers, outcomes) + [] == Applied(offers, outcomes);
  }

  /** No agent sends two different reports at one instant. */
  ghost predicate DistinctSendTimes(offers: seq<Offer>) {
    forall o, p :: o in offers && p in offers ==>
      o.report.agentID != p.report.agentID || o.report.sentAt != p.report.sentAt || o == p
  }

  /** Whoever is newest among the same offers in another order is newest. */
  lemma NewestIsOrderFree(o: Offer, a: seq<Offer>, b: seq<Offer>)
    requires multiset(a) == multiset(b) && IsNewest(o, a)
    ensures IsNewest(o, b)
  {
    assert o in multiset(a);
    forall i | 0 <= i < |b| && b[i].report.agentID == o.report.agentID
      ensures b[i].report.sentAt <= o.report.sentAt
    {
      assert b[i] in multiset(b);
      var j :| 0 <= j < |a| && a[j] == b[i];
    }
  }

  /** An agent's kept report is the newest of the offers in any other order. */
  lemma SameKept(a: seq<Offer>, b: seq<Offer>, agent: string)
    requires multiset(a) == multiset(b) && DistinctSendTimes(a) && agent in KeepAll(a)
    ensures agent in KeepAll(b) && KeepAll(b)[agent] == KeepAll(a)[agent]
  {
    hide KeepAll;
    KeepsTheNewest(a);
    KeepsTheNewest(b);
    var o := KeepAll(a)[agent];
    NewestIsOrderFree(o, a, b);
    var i :| 0 <= i < |b| && b[i] == o;
    assert b[i].report.agentID == agent;
    var p := KeepAll(b)[agent];
    NewestIsOrderFree(p, b, a);
    var j :| 0 <= j < |a| && a[j] == p;
    var k :| 0 <= k < |a| && a[k] == o;
    assert a[k].report.sentAt <= p.report.sentAt && a[j].report.sentAt <= o.report.sentAt;
  }

  /** The order of arrival does not matter. */
  lemma ArrivalOrderIsIrrelevant(a: seq<Offer>, b: seq<Offer>)
    requires multiset(a) == multiset(b) && DistinctSendTimes(a)
    ensures KeepAll(a) == KeepAll(b)
  {
    hide KeepAll;
    assert DistinctSendTimes(b) by {
      forall o, p | o in b && p in b
        ensures o in a && p in a
      {
        assert o in multiset(a) && p in multiset(a);
      }
    }
    forall agent
      ensures agent in KeepAll(a) ==> agent in KeepAll(b) && KeepAll(b)[agent] == KeepAll(a)[agent]
      ensures agent in KeepAll(b) ==> agent in KeepAll(a)
    {
      if agent in KeepAll(a) { SameKept(a, b, agent); }
      if agent in KeepAll(b) { SameKept(b, a, agent); }
    }
  }
}
