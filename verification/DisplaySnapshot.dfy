/** The snapshot the server builds from its tables, and what the display makes of it. */
module DisplaySnapshot {
  import opened Prelude
  import opened StringOrder
  import opened AgentReports
  import opened Store
  import opened SnapshotParser

  datatype Shown = Shown(
    observedAt: Option<int>, freshness: string, loginRequired: bool, plan: string, source: string, windows: Windows)

  datatype Display = Display(
    generatedAt: int, codex: Shown, claude: Shown, codexTasks: TaskCount, claudeTasks: TaskCount,
    totalTasks: TaskCount, online: nat, total: nat, warnings: seq<string>)

  const UNAVAILABLE := Shown(None, "unavailable", false, "", "", NO_WINDOWS)

  // --- What the snapshot should say ---------------------------------------------

  predicate Candidate(t: Tables, provider: string, k: (string, string)) {
    k in t.providers && k.1 == provider && t.providers[k].observedAt > 0
  }

  /** a comes first when ordering by newest observation, then by agent. */
  predicate Ranks(t: Tables, a: (string, string), b: (string, string))
    requires a in t.providers && b in t.providers
  {
    t.providers[a].observedAt > t.providers[b].observedAt ||
    (t.providers[a].observedAt == t.providers[b].observedAt && Precedes(a.0, b.0))
  }

  ghost predicate IsLatest(t: Tables, provider: string, k: (string, string)) {
    Candidate(t, provider, k) && forall j :: Candidate(t, provider, j) && j != k ==> Ranks(t, k, j)
  }

  function ShownFrom(row: ProviderRow, now: int): Shown {
    Shown(Some(row.observedAt),
          if row.windows == NO_WINDOWS then "unavailable"
          else if now - row.observedAt > PROVIDER_FRESH_WINDOW then "stale" else "fresh",
          row.authState == "unauthenticated" || row.errorCode == "not_authenticated",
          row.plan, row.source, row.windows)
  }

  ghost predicate ProviderShown(t: Tables, provider: string, now: int, s: Shown) {
    if exists k :: Candidate(t, provider, k)
    then exists k :: IsLatest(t, provider, k) && s == ShownFrom(t.providers[k], now)
    else s == UNAVAILABLE
  }

  predicate Online(t: Tables, agent: string, now: int) {
    agent in t.agents && t.agents[agent].receivedAt >= now - AGENT_ONLINE_WINDOW
  }

  function OnlineAgents(t: Tables, among: set<string>, now: int): set<string> {
    set a | a in among && Online(t, a, now)
  }

  predicate Counted(t: Tables, k: (string, string, string), now: int, provider: string, kind: string) {
    k in t.tasks && Online(t, k.0, now) && t.tasks[k].lastSeenAt >= now - TASK_TTL && k.1 == provider &&
    t.tasks[k].kind == kind
  }

  function CountedTasks(
      t: Tables, pending: set<(string, string, string)>, now: int, provider: string, kind: string)
    : set<(string, string, string)>
  {
    set k | k in t.tasks && k !in pending && Counted(t, k, now, provider, kind)
  }

  function TaskCounts(t: Tables, pending: set<(string, string, string)>, now: int, provider: string): TaskCount {
    TaskCount(|CountedTasks(t, pending, now, provider, MAIN)|, |CountedTasks(t, pending, now, provider, SUB)|)
  }

  function Plus(a: TaskCount, b: TaskCount): TaskCount {
    TaskCount(a.main + b.main, a.sub + b.sub)
  }

  function WarningsFor(provider: string, s: Shown): (warnings: seq<string>)
    ensures |warnings| <= 1
  {
    if s.loginRequired then [provider + "_login_required"]
    else if s.freshness != "fresh" then [provider + "_" + s.freshness]
    else []
  }

  ghost predicate Says(t: Tables, now: int, d: Display) {
    d.generatedAt == now && ProviderShown(t, CODEX, now, d.codex) && ProviderShown(t, CLAUDE, now, d.claude) &&
    d.codexTasks == TaskCounts(t, {}, now, CODEX) && d.claudeTasks == TaskCounts(t, {}, now, CLAUDE) &&
    d.totalTasks == Plus(d.codexTasks, d.claudeTasks) &&
    d.total == |t.agents| && d.online == |OnlineAgents(t, t.agents.Keys, now)| &&
    d.warnings == WarningsFor(CODEX, d.codex) + WarningsFor(CLAUDE, d.claude)
  }

  // --- Building it ------------------------------------------------------------------

  lemma OnlineGrows(t: Tables, counted: set<string>, agent: string, now: int)
    requires agent !in counted
    ensures |OnlineAgents(t, counted + {agent}, now)| ==
            |OnlineAgents(t, counted, now)| + (if Online(t, agent, now) then 1 else 0)
  {
    hide Online;
    var before, after := OnlineAgents(t, counted, now), OnlineAgents(t, counted + {agent}, now);
    if Online(t, agent, now) {
      assert after == before + {agent};
    } else {
      assert after == before;
    }
  }

  lemma OneFewerPending(agents: set<string>, pending: set<string>, agent: string)
    requires agent in pending && pending <= agents
    ensures agents - (pending - {agent}) == agents - pending + {agent}
    ensures |agents - (pending - {agent})| == |agents - pending| + 1
  {
    assert agents - (pending - {agent}) == agents - pending + {agent};
  }

  lemma NobodyCounted(t: Tables, now: int)
    ensures OnlineAgents(t, {}, now) == {}
  {
  }

  lemma OnlineAtMost(t: Tables, now: int)
    ensures |OnlineAgents(t, t.agents.Keys, now)| <= |t.agents.Keys|
  {
    SubsetSize(OnlineAgents(t, t.agents.Keys, now), t.agents.Keys);
  }

  lemma {:induction false} SubsetSize<T>(a: set<T>, b: set<T>)
    requires a <= b
    ensures |a| <= |b|
  {
    if a != {} {
      var x :| x in a;
      SubsetSize(a - {x}, b - {x});
    }
  }

  method LoadAgentSummary(t: Tables, now: int) returns (total: nat, online: nat)
    ensures total == |t.agents| && online == |OnlineAgents(t, t.agents.Keys, now)|
    ensures online <= total
  {
    hide OnlineAgents;
    total, online := 0, 0;
    var agents := t.agents.Keys;
    var pending := agents;
    assert agents - pending == {};
    NobodyCounted(t, now);
    while pending != {}
      invariant pending <= agents
      invariant total == |agents - pending| && online == |OnlineAgents(t, agents - pending, now)|
    {
      var agent :| agent in pending;
      OnlineGrows(t, agents - pending, agent, now);
      OneFewerPending(agents, pending, agent);
      pending := pending - {agent};
      total := total + 1;
      if t.agents[agent].receivedAt >= now - AGENT_ONLINE_WINDOW {
        online := online + 1;
      }
    }
    assert agents - pending == agents;
    OnlineAtMost(t, now);
  }

  method LoadLatestProvider(t: Tables, provider: string, now: int) returns (s: Shown, found: bool)
    ensures ProviderShown(t, provider, now, s)
    ensures found <==> exists k :: Candidate(t, provider, k)
  {
    hide Precedes;
    var pending := t.providers.Keys;
    found := false;
    var best: (string, string) := ("", "");
    while pending != {}
      invariant pending <= t.providers.Keys
      invariant found ==> Candidate(t, provider, best) && best !in pending
      invariant found ==> forall j :: Candidate(t, provider, j) && j !in pending && j != best ==> Ranks(t, best, j)
      invariant !found ==> forall j :: Candidate(t, provider, j) ==> j in pending
    {
      var k :| k in pending;
      pending := pending - {k};
      if k.1 == provider && t.providers[k].observedAt > 0 {
        if !found || Ranks(t, k, best) {
          if found {
            forall j | Candidate(t, provider, j) && j !in pending && j != k
              ensures Ranks(t, k, j)
            {
              if j != best { RankingIsTransitive(t, k, best, j); }
            }
          }
          found, best := true, k;
        } else {
          RankingIsTotal(t, best, k);
        }
      }
    }
    if !found { return UNAVAILABLE, false; }
    assert IsLatest(t, provider, best);
    s := ShownFrom(t.providers[best], now);
  }

  lemma RankingIsTransitive(t: Tables, a: (string, string), b: (string, string), c: (string, string))
    requires a in t.providers && b in t.providers && c in t.providers && Ranks(t, a, b) && Ranks(t, b, c)
    ensures Ranks(t, a, c)
  {
    if Precedes(a.0, b.0) && Precedes(b.0, c.0) {
      PrecedesIsTransitive(a.0, b.0, c.0);
    }
  }

  lemma RankingIsTotal(t: Tables, a: (string, string), b: (string, string))
    requires a in t.providers && b in t.providers && a != b && a.1 == b.1
    ensures Ranks(t, a, b) || Ranks(t, b, a)
    ensures !(Ranks(t, a, b) && Ranks(t, b, a))
  {
    PrecedesIsStrict(a.0, b.0);
  }

  /** There is one latest row, so a provider's part of the snapshot is determined. */
  lemma LatestIsUnique(t: Tables, provider: string, now: int, a: Shown, b: Shown)
    requires ProviderShown(t, provider, now, a) && ProviderShown(t, provider, now, b)
    ensures a == b
  {
    if exists k :: Candidate(t, provider, k) {
      var j :| IsLatest(t, provider, j) && a == ShownFrom(t.providers[j], now);
      var k :| IsLatest(t, provider, k) && b == ShownFrom(t.providers[k], now);
      if j != k {
        RankingIsTotal(t, j, k);
      }
    }
  }

  lemma OneMoreCounted(
      t: Tables, pending: set<(string, string, string)>, k: (string, string, string), now: int, provider: string)
    requires k in pending && k in t.tasks
    ensures var before, after := TaskCounts(t, pending, now, provider), TaskCounts(t, pending - {k}, now, provider);
            after == TaskCount(before.main + (if Counted(t, k, now, provider, MAIN) then 1 else 0),
                               before.sub + (if Counted(t, k, now, provider, SUB) then 1 else 0))
  {
    OneMoreOfKind(t, pending, k, now, provider, MAIN);
    OneMoreOfKind(t, pending, k, now, provider, SUB);
  }

  lemma OneMoreOfKind(
      t: Tables, pending: set<(string, string, string)>, k: (string, string, string), now: int, provider: string,
      kind: string)
    requires k in pending && k in t.tasks
    ensures |CountedTasks(t, pending - {k}, now, provider, kind)| ==
            |CountedTasks(t, pending, now, provider, kind)| + (if Counted(t, k, now, provider, kind) then 1 else 0)
  {
    var before := CountedTasks(t, pending, now, provider, kind);
    var after := CountedTasks(t, pending - {k}, now, provider, kind);
    if Counted(t, k, now, provider, kind) {
      assert after == before + {k};
    } else {
      assert after == before;
    }
  }

  method LoadTaskSummary(t: Tables, now: int) returns (codex: TaskCount, claude: TaskCount, total: TaskCount)
    ensures codex == TaskCounts(t, {}, now, CODEX) && claude == TaskCounts(t, {}, now, CLAUDE)
    ensures total == Plus(codex, claude)
  {
    codex, claude, total := TaskCount(0, 0), TaskCount(0, 0), TaskCount(0, 0);
    var pending := t.tasks.Keys;
    NothingCounted(t, now, CODEX);
    NothingCounted(t, now, CLAUDE);
    hide CountedTasks, TaskCounts;
    while pending != {}
      invariant pending <= t.tasks.Keys
      invariant codex == TaskCounts(t, pending, now, CODEX) && claude == TaskCounts(t, pending, now, CLAUDE)
      invariant total == Plus(codex, claude)
    {
      var k :| k in pending;
      OneMoreCounted(t, pending, k, now, CODEX);
      OneMoreCounted(t, pending, k, now, CLAUDE);
      pending := pending - {k};
      var row := t.tasks[k];
      if k.0 in t.agents && t.agents[k.0].receivedAt >= now - AGENT_ONLINE_WINDOW && row.lastSeenAt >= now - TASK_TTL {
        var one :=
          if row.kind == MAIN then TaskCount(1, 0) else if row.kind == SUB then TaskCount(0, 1) else TaskCount(0, 0);
        if k.1 == CODEX {
          codex, total := Plus(codex, one), Plus(total, one);
        } else if k.1 == CLAUDE {
          claude, total := Plus(claude, one), Plus(total, one);
        }
      }
    }
  }

  lemma NothingCounted(t: Tables, now: int, provider: string)
    ensures TaskCounts(t, t.tasks.Keys, now, provider) == TaskCount(0, 0)
  {
    assert CountedTasks(t, t.tasks.Keys, now, provider, MAIN) == {};
    assert CountedTasks(t, t.tasks.Keys, now, provider, SUB) == {};
  }

  method BuildDisplaySnapshot(t: Tables, now: int) returns (d: Display)
    ensures Says(t, now, d)
  {
    hide ProviderShown, TaskCounts, OnlineAgents;
    var total, online := LoadAgentSummary(t, now);
    var codex, foundCodex := LoadLatestProvider(t, CODEX, now);
    var warnings := WarningsFor(CODEX, codex);
    var claude, foundClaude := LoadLatestProvider(t, CLAUDE, now);
    warnings := warnings + WarningsFor(CLAUDE, claude);
    var codexTasks, claudeTasks, totalTasks := LoadTaskSummary(t, now);
    d := Display(now, codex, claude, codexTasks, claudeTasks, totalTasks, online, total, warnings);
  }
}
