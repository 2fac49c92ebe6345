/** The display's snapshot and its NVS cache, shared by the network worker and
    the main loop. Each action below is one section under the shared lock, or the
    worker's request between two of them. */
module SnapshotGeneration {
  import opened Prelude

  datatype Endpoint = Endpoint(baseUrl: string, token: string)

  /** Where a snapshot came from; recorded, and never consulted by the program. */
  datatype Origin = FromBoot | FromFetch(generation: nat, endpoint: Endpoint)

  datatype Snapshot = Snapshot(generated: int, origin: Origin)

  datatype Worker =
    | Resting
    | Requesting(endpoint: Endpoint, replay: int, generation: nat)
    | Received(snapshot: Snapshot, replay: int, generation: nat)
    | Persisting(generation: nat)

  datatype Committer = Ready | Saved(candidate: Endpoint, changed: bool) | Published(changed: bool)

  datatype State = State(
    resetting: bool, generation: nat, config: Endpoint, committed: Endpoint,
    snapshot: Option<Snapshot>, lastAccepted: int, lastPersisted: int, cachePersisted: bool,
    nvsSnapshot: Option<Snapshot>, nvsEpoch: Option<int>, worker: Worker, committer: Committer)

  /** Fate of the writes of one attempt to persist. */
  datatype Persistence = Persistence(mounted: bool, serialized: bool, cacheLanded: bool, epochLanded: bool)

  datatype Removal = Removal(snapshotRemoved: bool, epochRemoved: bool)

  const MINIMUM_SANE_CLOCK: int := 1704067200
  const FUTURE_SKEW: int := 120
  const PERSIST_INTERVAL: int := 120

  /** A parsed timestamp is plausible and newer than the last accepted one. */
  predicate TimeAccepted(generated: int, now: int, replay: int) {
    now >= MINIMUM_SANE_CLOCK && generated > 0 && generated <= now + FUTURE_SKEW &&
    !(replay > 0 && generated <= replay)
  }

  // --- Specification of the actions -----------------------------------------------

  datatype Action =
    | BeginFetch
    | Respond(generated: Option<int>, now: int)
    | FinishFetch
    | PersistFetched(fate: Persistence)
    | PersistNow(fate: Persistence)
    | Stage(config: Endpoint)
    | Save(candidate: Endpoint, saved: bool)
    | Publish
    | FinishCommit(removal: Removal)
    | FactoryReset(erasure: Removal)

  function Persist(s: State, force: bool, expected: nat, fate: Persistence): State {
    if s.resetting || (expected != 0 && expected != s.generation) then s
    else if s.lastAccepted <= 0 then s
    else if force && s.lastAccepted == s.lastPersisted && s.cachePersisted then s
    else if !force && s.lastPersisted > 0 && s.lastAccepted - s.lastPersisted < PERSIST_INTERVAL then s
    else if !fate.mounted then s
    else
      var ready := s.snapshot.Some? && fate.serialized;
      s.(nvsSnapshot := if ready && fate.cacheLanded then s.snapshot else s.nvsSnapshot,
         nvsEpoch := if fate.epochLanded then Some(s.lastAccepted) else s.nvsEpoch,
         cachePersisted := s.cachePersisted || (ready && fate.cacheLanded),
         lastPersisted := if fate.epochLanded then s.lastAccepted else s.lastPersisted)
  }

  function ClearCache(s: State, removal: Removal): State {
    s.(generation := s.generation + 1, snapshot := None, cachePersisted := false,
       lastAccepted := 0, lastPersisted := 0,
       nvsSnapshot := if removal.snapshotRemoved then None else s.nvsSnapshot,
       nvsEpoch := if removal.epochRemoved then None else s.nvsEpoch)
  }

  function Step(s: State, a: Action): State {
    match a
    case BeginFetch =>
      if s.worker != Resting || s.resetting then s
      else s.(worker := Requesting(s.config, s.lastAccepted, s.generation))
    case Respond(generated, now) =>
      if !s.worker.Requesting? then s
      else
        var w := s.worker;
        if generated.Some? && TimeAccepted(generated.value, now, w.replay)
        then
          var fetched := Snapshot(generated.value, FromFetch(w.generation, w.endpoint));
          s.(worker := Received(fetched, w.replay, w.generation))
        else s.(worker := Resting)
    case FinishFetch =>
      if !s.worker.Received? then s
      else if s.resetting || s.worker.generation != s.generation then s.(worker := Resting)
      else s.(snapshot := Some(s.worker.snapshot), lastAccepted := s.worker.snapshot.generated,
              worker := Persisting(s.worker.generation))
    case PersistFetched(fate) =>
      if !s.worker.Persisting? then s
      else Persist(s, false, s.worker.generation, fate).(worker := Resting)
    case PersistNow(fate) => Persist(s, true, 0, fate)
    case Stage(config) => if s.committer != Ready then s else s.(config := config)
    case Save(candidate, saved) =>
      if s.committer != Ready || !saved then s
      else s.(committer := Saved(candidate, candidate != s.committed), committed := candidate)
    case Publish =>
      if !s.committer.Saved? then s
      else s.(config := s.committer.candidate, committer := Published(s.committer.changed))
    case FinishCommit(removal) =>
      if !s.committer.Published? then s
      else (if s.committer.changed then ClearCache(s, removal) else s).(committer := Ready)
    case FactoryReset(erasure) =>
      if s.committer != Ready then s
      else
        var none := Endpoint("", "");
        ClearCache(s, erasure).(resetting := true, config := none, committed := none)
  }

  // --- The device ------------------------------------------------------------------

  class Device {
    var resetting: bool
    var generation: nat
    var config: Endpoint
    var committed: Endpoint
    var snapshot: Option<Snapshot>
    var lastAccepted: int
    var lastPersisted: int
    var cachePersisted: bool
    var nvsSnapshot: Option<Snapshot>
    var nvsEpoch: Option<int>
    var worker: Worker
    var committer: Committer

    ghost function View(): State
      reads this
    {
      State(resetting, generation, config, committed, snapshot, lastAccepted, lastPersisted,
            cachePersisted, nvsSnapshot, nvsEpoch, worker, committer)
    }

    /** Boot: restore a parsed cache and the largest epoch known. */
    constructor (config: Endpoint, cached: Option<int>, epoch: Option<int>)
      ensures generation == 1 && !resetting && worker == Resting && committer == Ready
      ensures this.config == committed == config
      ensures snapshot == nvsSnapshot == if cached.Some? then Some(Snapshot(cached.value, FromBoot)) else None
      ensures nvsEpoch == epoch && lastAccepted == lastPersisted && (cachePersisted <==> cached.Some?)
      ensures lastAccepted == Max(if epoch.Some? then epoch.value else 0,
                                  if cached.Some? then cached.value else if epoch.Some? then epoch.value else 0)
    {
      this.config, committed := config, config;
      resetting, generation := false, 1;
      snapshot := if cached.Some? then Some(Snapshot(cached.value, FromBoot)) else None;
      nvsSnapshot := if cached.Some? then Some(Snapshot(cached.value, FromBoot)) else None;
      nvsEpoch := epoch;
      cachePersisted := cached.Some?;
      var stored := if epoch.Some? then epoch.value else 0;
      lastAccepted := if cached.Some? then Max(stored, cached.value) else stored;
      lastPersisted := if cached.Some? then Max(stored, cached.value) else stored;
      worker, committer := Resting, Ready;
    }

    method BeginFetch()
      requires worker == Resting
      modifies this
      ensures View() == Step(old(View()), Action.BeginFetch)
    {
      if resetting { return; }
      worker := Requesting(config, lastAccepted, generation);
    }

    method FinishFetch()
      requires worker.Received?
      modifies this
      ensures View() == Step(old(View()), Action.FinishFetch)
    {
      if resetting || worker.generation != generation {
        worker := Resting;
        return;
      }
      snapshot := Some(worker.snapshot);
      lastAccepted := worker.snapshot.generated;
      worker := Persisting(worker.generation);
    }

    method PersistSnapshotState(force: bool, expected: nat, fate: Persistence)
      modifies this
      ensures View() == Persist(old(View()), force, expected, fate)
    {
      if resetting || (expected != 0 && expected != generation) { return; }
      var accepted, persisted, wasCached := lastAccepted, lastPersisted, cachePersisted;
      if accepted <= 0 { return; }
      if force && accepted == persisted && wasCached { return; }
      if !force && persisted > 0 && accepted - persisted < PERSIST_INTERVAL { return; }
      var ready := snapshot.Some? && fate.serialized;
      if !fate.mounted { return; }
      var cacheWritten := wasCached;
      if ready {
        cacheWritten := fate.cacheLanded;
        if fate.cacheLanded { nvsSnapshot := snapshot; }
      }
      if fate.epochLanded { nvsEpoch := Some(accepted); }
      if !resetting && (expected == 0 || expected == generation) && lastAccepted == accepted {
        if ready && cacheWritten { cachePersisted := true; }
        if fate.epochLanded { lastPersisted := accepted; }
      }
    }

    method ClearSnapshotCache(removal: Removal)
      modifies this
      ensures View() == ClearCache(old(View()), removal)
    {
      generation := generation + 1;
      snapshot, cachePersisted, lastAccepted, lastPersisted := None, false, 0, 0;
      if removal.snapshotRemoved { nvsSnapshot := None; }
      if removal.epochRemoved { nvsEpoch := None; }
    }

    method SaveCandidate(candidate: Endpoint, saved: bool)
      requires committer == Ready
      modifies this
      ensures View() == Step(old(View()), Save(candidate, saved))
    {
      var changed := candidate != committed;
      if !saved { return; }
      committed := candidate;
      committer := Saved(candidate, changed);
    }

    method PublishConfig()
      requires committer.Saved?
      modifies this
      ensures View() == Step(old(View()), Publish)
    {
      config := committer.candidate;
      committer := Published(committer.changed);
    }

    method FinishCommit(removal: Removal)
      requires committer.Published?
      modifies this
      ensures View() == Step(old(View()), Action.FinishCommit(removal))
    {
      if committer.changed { ClearSnapshotCache(removal); }
      committer := Ready;
    }

    /** Factory reset. Whether the namespace was erased goes unnoticed. */
    method ClearConfig(erasure: Removal)
      requires committer == Ready
      modifies this
      ensures View() == Step(old(View()), FactoryReset(erasure))
    {
      resetting, generation := true, generation + 1;
      if erasure.snapshotRemoved { nvsSnapshot := None; }
      if erasure.epochRemoved { nvsEpoch := None; }
      config, committed := Endpoint("", ""), Endpoint("", "");
      lastAccepted, lastPersisted := 0, 0;
      snapshot, cachePersisted := None, false;
    }
  }

  // --- Every interleaving ----------------------------------------------------------------

  /** A run with what it has shown so far: the endpoints configured in the
      current generation, the accepted timestamps, and whether a removal failed. */
  datatype Tracked = Tracked(s: State, endpoints: set<Endpoint>, accepted: seq<(nat, int)>, removalFailed: bool)

  predicate Accepts(s: State, a: Action) {
    a.FinishFetch? && s.worker.Received? && !s.resetting && s.worker.generation == s.generation
  }

  /** What becomes of the removals an action attempts; all is well when it attempts none. */
  function RemovalOf(a: Action): Removal {
    match a
    case FinishCommit(removal) => removal
    case FactoryReset(erasure) => erasure
    case _ => Removal(true, true)
  }

  function Track(t: Tracked, a: Action): Tracked {
    var s := Step(t.s, a);
    Tracked(s,
            (if s.generation == t.s.generation then t.endpoints else {}) + {s.config},
            if Accepts(t.s, a) then t.accepted + [(t.s.generation, t.s.worker.snapshot.generated)] else t.accepted,
            t.removalFailed || (s.generation != t.s.generation && !RemovalOf(a).snapshotRemoved))
  }

  function Run(t: Tracked, actions: seq<Action>): Tracked
    decreases |actions|
  {
    if actions == [] then t else Run(Track(t, actions[0]), actions[1..])
  }

  /** The state right after boot. */
  predicate Booted(t: Tracked) {
    var s := t.s;
    s.generation == 1 && s.worker == Resting && s.committer == Ready && 0 <= s.lastAccepted &&
    (s.snapshot.Some? ==> s.snapshot.value.origin == FromBoot) &&
    (s.nvsSnapshot.Some? ==> s.nvsSnapshot.value.origin == FromBoot) &&
    t.endpoints == {s.config} && t.accepted == [] && !t.removalFailed
  }

  /** Fetched in the current generation with an endpoint configured in it, or
      restored by the boot that this generation began with. */
  predicate Current(t: Tracked, snapshot: Option<Snapshot>) {
    snapshot.Some? ==>
      match snapshot.value.origin
      case FromBoot => t.s.generation == 1
      case FromFetch(g, endpoint) => g == t.s.generation && endpoint in t.endpoints
  }

  /** Timestamps accepted in one generation strictly increase. */
  ghost predicate Increasing(accepted: seq<(nat, int)>) {
    forall i, j :: 0 <= i < j < |accepted| && accepted[i].0 == accepted[j].0 ==> accepted[i].1 < accepted[j].1
  }

  /** What is held and cached belongs to the current generation. */
  predicate Owned(t: Tracked) {
    var s := t.s;
    1 <= s.generation && s.config in t.endpoints && 0 <= s.lastAccepted &&
    (s.nvsSnapshot.Some? && s.nvsSnapshot.value.origin.FromFetch? ==>
       s.nvsSnapshot.value.origin.generation <= s.generation) &&
    Current(t, s.snapshot) && (!t.removalFailed ==> Current(t, s.nvsSnapshot))
  }

  /** The replay guard bounds every timestamp accepted in this generation. */
  ghost predicate Stamped(t: Tracked) {
    Increasing(t.accepted) &&
    forall i :: 0 <= i < |t.accepted| ==>
      t.accepted[i].0 <= t.s.generation &&
      (t.accepted[i].0 == t.s.generation ==> t.accepted[i].1 <= t.s.lastAccepted)
  }

  /** What the worker carries between two lock sections. */
  predicate Carried(t: Tracked) {
    var s := t.s;
    (s.worker.Requesting? && s.worker.generation == s.generation ==>
       s.worker.replay == s.lastAccepted && s.worker.endpoint in t.endpoints) &&
    (s.worker.Requesting? || s.worker.Received? || s.worker.Persisting? ==> 1 <= s.worker.generation <= s.generation) &&
    (s.worker.Received? ==>
       s.worker.snapshot.origin.FromFetch? && s.worker.snapshot.origin.generation == s.worker.generation &&
       (s.worker.generation == s.generation ==>
          s.worker.replay == s.lastAccepted && s.worker.snapshot.generated > s.lastAccepted &&
          s.worker.snapshot.origin.endpoint in t.endpoints))
  }

  ghost predicate Invariant(t: Tracked) {
    Owned(t) && Stamped(t) && Carried(t)
  }

  lemma OwnedStep(t: Tracked, a: Action)
    requires Invariant(t)
    ensures Owned(Track(t, a))
  {
    hide Stamped;
  }

  lemma StampedStep(t: Tracked, a: Action)
    requires Invariant(t)
    ensures Stamped(Track(t, a))
  {
    hide Current;
  }

  lemma CarriedStep(t: Tracked, a: Action)
    requires Invariant(t)
    ensures Carried(Track(t, a))
  {
    hide Stamped, Current;
  }

  lemma InvariantStep(t: Tracked, a: Action)
    requires Invariant(t)
    ensures Invariant(Track(t, a))
  {
    hide Track, Owned, Stamped, Carried;
    OwnedStep(t, a);
    StampedStep(t, a);
    CarriedStep(t, a);
  }

  lemma {:induction false} InvariantHolds(t: Tracked, actions: seq<Action>)
    requires Invariant(t)
    ensures Invariant(Run(t, actions))
    decreases |actions|
  {
    if actions != [] {
      InvariantStep(t, actions[0]);
      InvariantHolds(Track(t, actions[0]), actions[1..]);
    }
  }

  /** In every interleaving of the network worker with persisting, staging,
      committing and factory reset: the held snapshot comes from a fetch that read
      its configuration in the current generation, or from boot; so does the NVS
      cache unless a removal failed; accepted timestamps strictly increase within
      a generation. */
  lemma InterleavingsAreSafe(t: Tracked, actions: seq<Action>)
    requires Booted(t)
    ensures var end := Run(t, actions);
            Current(end, end.s.snapshot) &&
            (!end.removalFailed ==> Current(end, end.s.nvsSnapshot)) &&
            Increasing(end.accepted)
  {
    InvariantHolds(t, actions);
  }

  predicate NeverConfigures(actions: seq<Action>) {
    forall i :: 0 <= i < |actions| ==> !actions[i].Stage? && !actions[i].Publish? && !actions[i].FactoryReset?
  }

  lemma {:induction false} EndpointsStay(t: Tracked, actions: seq<Action>)
    requires t.endpoints == {t.s.config} && !t.s.committer.Published? && NeverConfigures(actions)
    ensures var end := Run(t, actions);
            end.endpoints == {t.s.config} && end.s.generation == t.s.generation && !end.s.committer.Published?
    decreases |actions|
  {
    if actions != [] {
      assert !actions[0].Stage? && !actions[0].Publish? && !actions[0].FactoryReset?;
      EndpointsStay(Track(t, actions[0]), actions[1..]);
    }
  }

  /** After a commit that changed the endpoint, and until the next configuration,
      only snapshots fetched from the new endpoint are ever held, even if an old
      request was under way. */
  lemma CommitDropsOldEndpoint(t: Tracked, before: seq<Action>, removal: Removal, after: seq<Action>)
    requires Booted(t) && NeverConfigures(after)
    requires Run(t, before).s.committer == Published(true)
    ensures var published := Run(t, before);
            var end := Run(Track(published, Action.FinishCommit(removal)), after);
            end.s.snapshot.Some? ==>
              end.s.snapshot.value.origin == FromFetch(end.s.generation, published.s.config)
  {
    var published := Run(t, before);
    InvariantHolds(t, before);
    var cleared := Track(published, Action.FinishCommit(removal));
    InvariantStep(published, Action.FinishCommit(removal));
    InvariantHolds(cleared, after);
    EndpointsStay(cleared, after);
  }

  /** The actions that begin a new generation. */
  predicate BeginsGeneration(s: State, a: Action) {
    (a.FinishCommit? && s.committer == Published(true)) || (a.FactoryReset? && s.committer == Ready)
  }

  lemma GenerationStep(t: Tracked, a: Action)
    ensures Track(t, a).s.generation == t.s.generation + if BeginsGeneration(t.s, a) then 1 else 0
  {
    hide TimeAccepted;
  }

  /** After a commit that changed the endpoint and after a factory reset, the NVS
      cache is current, if and only if the removal of the cached snapshot
      succeeded or there was none. No other action begins a generation. */
  lemma RemovalDecidesCache(t: Tracked, actions: seq<Action>, a: Action)
    requires Booted(t)
    ensures var before := Run(t, actions);
            var after := Track(before, a);
            if BeginsGeneration(before.s, a) then
              after.s.generation == before.s.generation + 1 &&
              (Current(after, after.s.nvsSnapshot) <==>
               RemovalOf(a).snapshotRemoved || before.s.nvsSnapshot.None?)
            else after.s.generation == before.s.generation
  {
    hide Stamped, Carried, Run, TimeAccepted;
    var before := Run(t, actions);
    InvariantHolds(t, actions);
    GenerationStep(before, a);
    if BeginsGeneration(before.s, a) {
      assert Track(before, a).s.nvsSnapshot == if RemovalOf(a).snapshotRemoved then None else before.s.nvsSnapshot;
    }
  }

  /** A run in which the removal fails: fetch, cache, commit another endpoint. The
      cache then holds a snapshot of an earlier generation and the old endpoint.
      Losing power right after the save has the same effect. */
  lemma OldSnapshotStays(t: Tracked, generated: int, now: int, endpoint: Endpoint)
    requires Booted(t) && !t.s.resetting
    requires TimeAccepted(generated, now, t.s.lastAccepted) && t.s.lastPersisted == 0
    requires t.s.config == t.s.committed && t.s.committed != endpoint
    ensures var good := Persistence(true, true, true, true);
            var actions := [BeginFetch, Respond(Some(generated), now), Action.FinishFetch, PersistFetched(good),
                            Save(endpoint, true), Publish];
            var end := Track(Run(t, actions), Action.FinishCommit(Removal(false, false)));
            end.s.nvsSnapshot == Some(Snapshot(generated, FromFetch(1, t.s.config))) && end.s.config == endpoint &&
            !Current(end, end.s.nvsSnapshot) && BootsStale(Run(t, actions[..5]).s, t.s.config)
  {
    hide Step, TimeAccepted;
    var good := Persistence(true, true, true, true);
    var a1, a2, a3, a4 := BeginFetch, Respond(Some(generated), now), Action.FinishFetch, PersistFetched(good);
    var a5, a6 := Save(endpoint, true), Publish;
    FetchIsCached(t, generated, now);
    var t4 := Track(Track(Track(Track(t, a1), a2), a3), a4);
    CommitFailsToClear(t4, endpoint);
    assert [a1, a2, a3, a4, a5, a6] == [a1, a2, a3, a4, a5] + [a6];
    assert [a1, a2, a3, a4, a5, a6][..5] == [a1, a2, a3, a4, a5];
    RunFive(t, a1, a2, a3, a4, a5);
    RunLast(t, [a1, a2, a3, a4, a5], a6);
  }

  lemma FetchIsCached(t: Tracked, generated: int, now: int)
    requires Booted(t) && !t.s.resetting && TimeAccepted(generated, now, t.s.lastAccepted) && t.s.lastPersisted == 0
    ensures var t1 := Track(t, BeginFetch);
            var t2 := Track(t1, Respond(Some(generated), now));
            var t3 := Track(t2, Action.FinishFetch);
            var t4 := Track(t3, PersistFetched(Persistence(true, true, true, true)));
            t4.s.nvsSnapshot == Some(Snapshot(generated, FromFetch(1, t.s.config))) &&
            t4.s.generation == 1 && t4.s.committer == Ready && t4.s.committed == t.s.committed
  {
    hide TimeAccepted;
    PositiveWhenAccepted(generated, now, t.s.lastAccepted);
    var t1 := Track(t, BeginFetch);
    assert t1.s == t.s.(worker := Requesting(t.s.config, t.s.lastAccepted, 1));
    var fetched := Snapshot(generated, FromFetch(1, t.s.config));
    var t2 := Track(t1, Respond(Some(generated), now));
    assert t2.s == t.s.(worker := Received(fetched, t.s.lastAccepted, 1));
    var t3 := Track(t2, Action.FinishFetch);
    assert t3.s == t.s.(snapshot := Some(fetched), lastAccepted := generated, worker := Persisting(1));
  }

  lemma CommitFailsToClear(t: Tracked, endpoint: Endpoint)
    requires t.s.committer == Ready && t.s.committed != endpoint && t.s.generation == 1
    requires t.s.nvsSnapshot.Some? && t.s.nvsSnapshot.value.origin.FromFetch?
    requires t.s.nvsSnapshot.value.origin.generation == 1
    ensures var published := Track(Track(t, Save(endpoint, true)), Publish);
            var end := Track(published, Action.FinishCommit(Removal(false, false)));
            end.s.nvsSnapshot == t.s.nvsSnapshot && end.s.config == endpoint && !Current(end, end.s.nvsSnapshot)
    ensures var saved := Track(t, Save(endpoint, true)).s;
            saved.nvsSnapshot == t.s.nvsSnapshot && saved.committed == endpoint
  {
    var t5 := Track(t, Save(endpoint, true));
    assert t5.s == t.s.(committer := Saved(endpoint, true), committed := endpoint);
    var t6 := Track(t5, Publish);
    assert t6.s == t5.s.(config := endpoint, committer := Published(true));
  }

  lemma PositiveWhenAccepted(generated: int, now: int, replay: int)
    requires TimeAccepted(generated, now, replay)
    ensures generated > 0
  {
  }

  lemma RunFive(t: Tracked, a1: Action, a2: Action, a3: Action, a4: Action, a5: Action)
    ensures Run(t, [a1, a2, a3, a4, a5]) == Track(Track(Track(Track(Track(t, a1), a2), a3), a4), a5)
  {
    hide Track, Run;
    var t1 := Track(t, a1);
    var t2 := Track(t1, a2);
    var t3 := Track(t2, a3);
    var t4 := Track(t3, a4);
    RunFirst(t, a1, [a2, a3, a4, a5]);
    RunFirst(t1, a2, [a3, a4, a5]);
    RunFirst(t2, a3, [a4, a5]);
    RunFirst(t3, a4, [a5]);
    RunFirst(t4, a5, []);
    RunNothing(Track(t4, a5));
    assert [a1] + [a2, a3, a4, a5] == [a1, a2, a3, a4, a5];
    assert [a2] + [a3, a4, a5] == [a2, a3, a4, a5];
    assert [a3] + [a4, a5] == [a3, a4, a5];
    assert [a4] + [a5] == [a4, a5];
    assert [a5] + [] == [a5];
  }

  lemma {:induction false} RunLast(t: Tracked, actions: seq<Action>, a: Action)
    ensures Run(t, actions + [a]) == Track(Run(t, actions), a)
    decreases |actions|
  {
    hide Track;
    if actions == [] {
      RunFirst(t, a, []);
      assert [a] + [] == [a] == [] + [a];
    } else {
      RunLast(Track(t, actions[0]), actions[1..], a);
      assert (actions + [a])[1..] == actions[1..] + [a];
    }
  }

  lemma RunFirst(t: Tracked, a: Action, rest: seq<Action>)
    ensures Run(t, [a] + rest) == Run(Track(t, a), rest)
  {
    assert ([a] + rest)[1..] == rest;
  }

  lemma RunNothing(t: Tracked)
    ensures Run(t, []) == t
  {
  }

  // --- Power loss during a commit ----------------------------------------------------------

  /** The endpoint a snapshot came from, given the one configured at boot. */
  function SourceOf(snapshot: Snapshot, atBoot: Endpoint): Endpoint {
    if snapshot.origin.FromBoot? then atBoot else snapshot.origin.endpoint
  }

  /** A boot from here would show a snapshot from another endpoint than it is
      configured for: the configuration is what was saved last, the snapshot what
      the NVS cache holds. */
  predicate BootsStale(s: State, atBoot: Endpoint) {
    s.nvsSnapshot.Some? && SourceOf(s.nvsSnapshot.value, atBoot) != s.committed
  }

  /** The endpoint settled on by the last commit that ended. */
  function Home(home: Endpoint, s: State, a: Action): Endpoint {
    if (a.FinishCommit? && s.committer.Published?) || a.FactoryReset? then Step(s, a).committed else home
  }

  /** The endpoints that fetches of this generation may have used. */
  function Reached(s: State, home: Endpoint): set<Endpoint> {
    {home} + (if s.committer.Published? then {s.committed} else {})
  }

  predicate From(snapshot: Option<Snapshot>, atBoot: Endpoint, endpoints: set<Endpoint>) {
    snapshot.Some? ==> SourceOf(snapshot.value, atBoot) in endpoints
  }

  /** What is configured and saved, as far as a commit under way has come. */
  predicate Settled(s: State, atBoot: Endpoint, home: Endpoint) {
    (match s.committer
     case Ready => s.config == home && s.committed == home
     case Saved(candidate, changed) =>
       s.config == home && s.committed == candidate && (changed <==> candidate != home)
     case Published(changed) => s.config == s.committed && (changed <==> s.committed != home)) &&
    (s.generation == 1 ==> home == atBoot)
  }

  /** What is held and cached comes from an endpoint within reach. */
  predicate Sourced(s: State, atBoot: Endpoint, home: Endpoint) {
    From(s.snapshot, atBoot, Reached(s, home)) && From(s.nvsSnapshot, atBoot, Reached(s, home))
  }

  /** So does what the worker is about to deliver. */
  predicate Underway(s: State, home: Endpoint) {
    (s.worker.Requesting? && s.worker.generation == s.generation ==> s.worker.endpoint in Reached(s, home)) &&
    (s.worker.Received? && s.worker.generation == s.generation ==>
       s.worker.snapshot.origin.FromFetch? && s.worker.snapshot.origin.endpoint in Reached(s, home))
  }

  predicate AtHome(s: State, atBoot: Endpoint, home: Endpoint) {
    Settled(s, atBoot, home) && Sourced(s, atBoot, home) && Underway(s, home)
  }

  /** No configuration is tried out before it is saved. */
  predicate NeverStages(actions: seq<Action>) {
    forall i :: 0 <= i < |actions| ==> !actions[i].Stage?
  }

  lemma SettledStep(t: Tracked, a: Action, atBoot: Endpoint, home: Endpoint)
    requires 1 <= t.s.generation && Settled(t.s, atBoot, home) && !a.Stage?
    requires a.FactoryReset? ==> t.s.committer == Ready
    ensures Settled(Track(t, a).s, atBoot, Home(home, t.s, a))
  {
  }

  lemma SourcedStep(t: Tracked, a: Action, atBoot: Endpoint, home: Endpoint)
    requires AtHome(t.s, atBoot, home) && !a.Stage? && !Track(t, a).removalFailed
    requires a.FactoryReset? ==> t.s.committer == Ready
    ensures Sourced(Track(t, a).s, atBoot, Home(home, t.s, a))
  {
    hide TimeAccepted;
  }

  lemma UnderwayStep(t: Tracked, a: Action, atBoot: Endpoint, home: Endpoint)
    requires Carried(t) && AtHome(t.s, atBoot, home) && !a.Stage?
    requires a.FactoryReset? ==> t.s.committer == Ready
    ensures Underway(Track(t, a).s, Home(home, t.s, a))
  {
    hide TimeAccepted, From;
  }

  lemma HomeStep(t: Tracked, a: Action, atBoot: Endpoint, home: Endpoint)
    requires Owned(t) && Carried(t) && AtHome(t.s, atBoot, home) && !a.Stage? && !Track(t, a).removalFailed
    requires a.FactoryReset? ==> t.s.committer == Ready
    ensures AtHome(Track(t, a).s, atBoot, Home(home, t.s, a))
  {
    hide Track, Home, Settled, Sourced, Underway;
    SettledStep(t, a, atBoot, home);
    SourcedStep(t, a, atBoot, home);
    UnderwayStep(t, a, atBoot, home);
  }

  lemma {:induction false} RunsStayHome(
      t: Tracked, actions: seq<Action>, atBoot: Endpoint, home: Endpoint) returns (end: Endpoint)
    requires Invariant(t) && AtHome(t.s, atBoot, home) && NeverStages(actions) && !Run(t, actions).removalFailed
    ensures Invariant(Run(t, actions)) && AtHome(Run(t, actions).s, atBoot, end)
    decreases |actions|
  {
    hide AtHome, Step, Invariant;
    end := home;
    if actions != [] {
      var a, rest := actions[0], actions[1..];
      var next := Track(t, a);
      InvariantStep(t, a);
      if next.removalFailed {
        FailureStays(next, rest);
      }
      if a.FactoryReset? && t.s.committer != Ready {
        ResetWaits(t, a);
        end := RunsStayHome(next, rest, atBoot, home);
      } else {
        InvariantParts(t);
        HomeStep(t, a, atBoot, home);
        end := RunsStayHome(next, rest, atBoot, Home(home, t.s, a));
      }
    }
  }

  lemma InvariantParts(t: Tracked)
    requires Invariant(t)
    ensures Owned(t) && Carried(t)
  {
  }

  lemma ResetWaits(t: Tracked, a: Action)
    requires a.FactoryReset? && t.s.committer != Ready
    ensures Track(t, a).s == t.s
  {
  }

  lemma {:induction false} FailureStays(t: Tracked, actions: seq<Action>)
    requires t.removalFailed
    ensures Run(t, actions).removalFailed
    decreases |actions|
  {
    hide Step;
    if actions != [] {
      FailureStays(Track(t, actions[0]), actions[1..]);
    }
  }

  /** Exactly when losing power shows a snapshot of another endpoint after the next
      boot, in any run that stages nothing and in which no removal fails: between
      the save of a changed endpoint and the clearing of the cache, while the cache
      holds a snapshot that the new endpoint did not deliver. */
  lemma PowerLossShowsOldSnapshot(t: Tracked, actions: seq<Action>)
    requires Booted(t) && t.s.config == t.s.committed && NeverStages(actions) && !Run(t, actions).removalFailed
    ensures var s := Run(t, actions).s;
            match s.committer
            case Ready => !BootsStale(s, t.s.config)
            case Saved(_, changed) => BootsStale(s, t.s.config) <==> changed && s.nvsSnapshot.Some?
            case Published(changed) =>
              BootsStale(s, t.s.config) <==>
              changed && s.nvsSnapshot.Some? && SourceOf(s.nvsSnapshot.value, t.s.config) != s.config
  {
    hide Run, NeverStages;
    BootedIsHome(t);
    var home := RunsStayHome(t, actions, t.s.config, t.s.config);
  }

  lemma BootedIsHome(t: Tracked)
    requires Booted(t) && t.s.config == t.s.committed
    ensures Invariant(t) && AtHome(t.s, t.s.config, t.s.config)
  {
  }
}
