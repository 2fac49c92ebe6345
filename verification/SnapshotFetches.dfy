/** When a fetched snapshot is shown, and when what is shown is cached. */
module SnapshotFetches {
  import opened Prelude
  import opened SnapshotGeneration

  // --- Which fetches are shown -----------------------------------------------------

  /** An action of the main loop: anything but the network worker's own. */
  predicate MainLoop(a: Action) {
    a.PersistNow? || a.Stage? || a.Save? || a.Publish? || a.FinishCommit? || a.FactoryReset?
  }

  ghost predicate AllMainLoop(actions: seq<Action>) {
    forall i :: 0 <= i < |actions| ==> MainLoop(actions[i])
  }

  /** Neither a changed endpoint nor a factory reset came in between. */
  predicate SameGeneration(before: State, after: State) {
    before.generation == after.generation
  }

  lemma MainLoopStep(t: Tracked, a: Action)
    requires MainLoop(a)
    ensures var s := Track(t, a).s;
            s.worker == t.s.worker && t.s.generation <= s.generation &&
            (SameGeneration(t.s, s) ==>
               s.snapshot == t.s.snapshot && s.lastAccepted == t.s.lastAccepted && s.resetting == t.s.resetting)
  {
  }

  lemma {:induction false} MainLoopRun(t: Tracked, actions: seq<Action>)
    requires AllMainLoop(actions)
    ensures var s := Run(t, actions).s;
            s.worker == t.s.worker && t.s.generation <= s.generation &&
            (SameGeneration(t.s, s) ==>
               s.snapshot == t.s.snapshot && s.lastAccepted == t.s.lastAccepted && s.resetting == t.s.resetting)
    decreases |actions|
  {
    hide Track, MainLoop;
    if actions != [] {
      MainLoopStep(t, actions[0]);
      MainLoopRun(Track(t, actions[0]), actions[1..]);
    }
  }

  /** The clock is set, the snapshot is not from the future, and it is newer than
      the last one shown. */
  predicate Plausible(generated: int, now: int, last: int) {
    1704067200 <= now && 0 < generated <= now + 120 && (last > 0 ==> last < generated)
  }

  /** One request, from its first lock section to its second, with anything the main
      loop does meanwhile: its snapshot is shown if and only if it is plausible and
      the generation is still the one in which the request began. Otherwise what is
      shown stays. */
  lemma FetchIsShownExactly(
      t: Tracked, during: seq<Action>, generated: int, now: int, later: seq<Action>)
    requires t.s.worker == Resting && !t.s.resetting && AllMainLoop(during) && AllMainLoop(later)
    ensures var asked := Run(Track(t, BeginFetch), during);
            var before := Run(Track(asked, Respond(Some(generated), now)), later);
            var after := Track(before, Action.FinishFetch);
            if Plausible(generated, now, t.s.lastAccepted) && SameGeneration(t.s, before.s)
            then after.s.snapshot == Some(Snapshot(generated, FromFetch(t.s.generation, t.s.config))) &&
                 after.s.lastAccepted == generated &&
                 after.accepted == before.accepted + [(t.s.generation, generated)]
            else after.s.snapshot == before.s.snapshot && after.s.lastAccepted == before.s.lastAccepted &&
                 after.accepted == before.accepted && after.s.worker == Resting
  {
    hide Run, MainLoop;
    var begun := Track(t, BeginFetch);
    assert begun.s == t.s.(worker := Requesting(t.s.config, t.s.lastAccepted, t.s.generation));
    MainLoopRun(begun, during);
    var asked := Run(begun, during);
    var answered := Track(asked, Respond(Some(generated), now));
    MainLoopRun(answered, later);
    assert answered.s.generation == asked.s.generation;
  }

  /** A request that fails, or whose answer does not parse, shows nothing. */
  lemma FailedFetchShowsNothing(t: Tracked, during: seq<Action>, now: int, later: seq<Action>)
    requires t.s.worker == Resting && !t.s.resetting && AllMainLoop(during) && AllMainLoop(later)
    ensures var before := Run(Track(Run(Track(t, BeginFetch), during), Respond(None, now)), later);
            before.s.worker == Resting && Track(before, Action.FinishFetch).s == before.s
  {
    hide Run, MainLoop;
    var begun := Track(t, BeginFetch);
    MainLoopRun(begun, during);
    MainLoopRun(Track(Run(begun, during), Respond(None, now)), later);
  }

  // --- When the cache holds what is shown -----------------------------------------------

  /** What the program relies on when it skips a write: if it takes the shown snapshot
      for cached, the cache holds it. */
  predicate Trusted(s: State) {
    s.lastPersisted <= s.lastAccepted &&
    (s.lastPersisted == s.lastAccepted && s.cachePersisted && s.snapshot.Some? ==> s.nvsSnapshot == s.snapshot)
  }

  predicate Persists(a: Action) {
    a.PersistFetched? || a.PersistNow?
  }

  /** A persist whose epoch landed wrote the snapshot as well. */
  predicate Together(a: Action) {
    Persists(a) ==> a.fate.mounted && a.fate.epochLanded ==> a.fate.serialized && a.fate.cacheLanded
  }

  ghost predicate AllTogether(actions: seq<Action>) {
    forall i :: 0 <= i < |actions| ==> Together(actions[i])
  }

  lemma TrustedStep(t: Tracked, a: Action)
    requires Invariant(t) && Trusted(t.s) && Together(a)
    ensures Trusted(Track(t, a).s)
  {
    hide Stamped, Current;
  }

  lemma {:induction false} TrustedRun(t: Tracked, actions: seq<Action>)
    requires Invariant(t) && Trusted(t.s) && AllTogether(actions)
    ensures Invariant(Run(t, actions)) && Trusted(Run(t, actions).s)
    decreases |actions|
  {
    hide Invariant, Track, Trusted, Together;
    if actions != [] {
      InvariantStep(t, actions[0]);
      TrustedStep(t, actions[0]);
      TrustedRun(Track(t, actions[0]), actions[1..]);
    }
  }

  /** The state right after boot, as the constructor leaves it. */
  predicate BootedTrusted(t: Tracked) {
    Booted(t) && t.s.lastAccepted == t.s.lastPersisted && t.s.nvsSnapshot == t.s.snapshot
  }

  /** In every run in which no persist writes the epoch without the snapshot, a forced
      persist with working flash leaves the shown snapshot in the cache: nothing is
      lost over a planned restart. */
  lemma ForcedPersistKeepsSnapshot(t: Tracked, actions: seq<Action>)
    requires BootedTrusted(t) && AllTogether(actions)
    requires var s := Run(t, actions).s; !s.resetting && s.snapshot.Some? && s.lastAccepted > 0
    ensures Track(Run(t, actions), PersistNow(Persistence(true, true, true, true))).s.nvsSnapshot ==
            Run(t, actions).s.snapshot
  {
    hide Run, AllTogether;
    TrustedRun(t, actions);
  }

  /** One persist that writes the epoch but not the snapshot misleads the program, if
      and only if it had cached another snapshot before; no forced persist then
      repairs the cache until something newer is accepted. */
  lemma EpochAloneMisleads(s: State, serialized: bool)
    requires s.lastPersisted < s.lastAccepted && 0 < s.lastAccepted && !s.resetting && s.snapshot.Some?
    ensures Trusted(Persist(s, true, 0, Persistence(true, serialized, false, true))) <==>
            !s.cachePersisted || s.nvsSnapshot == s.snapshot
    ensures var after := Persist(s, true, 0, Persistence(true, serialized, false, true));
            s.cachePersisted ==> forall fate :: Persist(after, true, 0, fate) == after
  {
  }

  /** A run: a cached snapshot is restored, a newer one is fetched, and its persist
      writes the epoch alone. The forced persist before a planned restart then leaves
      the older snapshot in the cache, although the flash works again. */
  lemma OlderSnapshotStaysCached(t: Tracked, generated: int, now: int)
    requires BootedTrusted(t) && !t.s.resetting && t.s.cachePersisted && t.s.snapshot.Some? && 0 < t.s.lastAccepted
    requires Plausible(generated, now, t.s.lastAccepted) && t.s.lastAccepted + 120 <= generated
    ensures var fetched := Track(Track(Track(t, BeginFetch), Respond(Some(generated), now)), Action.FinishFetch);
            var persisted := Track(fetched, PersistFetched(Persistence(true, true, false, true)));
            var end := Track(persisted, PersistNow(Persistence(true, true, true, true)));
            end.s.snapshot == Some(Snapshot(generated, FromFetch(1, t.s.config))) &&
            end.s.nvsSnapshot == t.s.snapshot && end.s.nvsSnapshot != end.s.snapshot
  {
    hide Plausible;
    PlausibleIsAccepted(generated, now, t.s.lastAccepted);
    var fetched := Snapshot(generated, FromFetch(1, t.s.config));
    var asked := Track(t, BeginFetch);
    assert asked.s == t.s.(worker := Requesting(t.s.config, t.s.lastAccepted, 1));
    var answered := Track(asked, Respond(Some(generated), now));
    assert answered.s == t.s.(worker := Received(fetched, t.s.lastAccepted, 1));
    var shown := Track(answered, Action.FinishFetch);
    assert shown.s == t.s.(snapshot := Some(fetched), lastAccepted := generated, worker := Persisting(1));
  }

  lemma PlausibleIsAccepted(generated: int, now: int, last: int)
    ensures Plausible(generated, now, last) <==> TimeAccepted(generated, now, last)
  {
  }

  /** The cache falls behind what is shown by less than two minutes: a fetched snapshot
      is written as soon as it is 120 s newer than the one written last. */
  lemma CacheKeepsUp(s: State, fate: Persistence)
    requires s.worker.Persisting? && !s.resetting && s.worker.generation == s.generation
    requires s.snapshot.Some? && s.lastAccepted > 0
    requires fate == Persistence(true, true, true, true)
    ensures var after := Step(s, PersistFetched(fate));
            if s.lastPersisted > 0 && s.lastAccepted < s.lastPersisted + 120
            then after == s.(worker := Resting)
            else after.nvsSnapshot == s.snapshot && after.nvsEpoch == Some(s.lastAccepted) &&
                 after.lastPersisted == s.lastAccepted && after.cachePersisted
  {
  }

  // --- After a factory reset ------------------------------------------------------------

  /** The display is forgetting everything. */
  predicate Forgetting(s: State) {
    s.resetting && s.snapshot.None? && s.lastAccepted == 0
  }

  lemma ForgettingStep(t: Tracked, a: Action)
    requires Forgetting(t.s)
    ensures Forgetting(Track(t, a).s)
    ensures Track(t, a).s.nvsSnapshot == t.s.nvsSnapshot || Track(t, a).s.nvsSnapshot.None?
  {
    hide TimeAccepted;
  }

  /** A factory reset leaves no endpoint, and whatever happens before the restart, the
      worker's request under way included, nothing is shown or cached any more. */
  lemma {:induction false} ResetIsFinal(t: Tracked, erasure: Removal, actions: seq<Action>)
    requires t.s.committer == Ready
    ensures var cleared := Track(t, FactoryReset(erasure)).s;
            cleared.config == Endpoint("", "") && cleared.committed == Endpoint("", "") &&
            (erasure.snapshotRemoved ==> cleared.nvsSnapshot.None?)
    ensures var end := Run(Track(t, FactoryReset(erasure)), actions).s;
            Forgetting(end) && (end.nvsSnapshot == t.s.nvsSnapshot || end.nvsSnapshot.None?)
    decreases |actions|
  {
    hide Run, TimeAccepted;
    ForgettingRun(Track(t, FactoryReset(erasure)), actions);
  }

  lemma {:induction false} ForgettingRun(t: Tracked, actions: seq<Action>)
    requires Forgetting(t.s)
    ensures Forgetting(Run(t, actions).s)
    ensures Run(t, actions).s.nvsSnapshot == t.s.nvsSnapshot || Run(t, actions).s.nvsSnapshot.None?
    decreases |actions|
  {
    hide Track, Forgetting;
    if actions != [] {
      ForgettingStep(t, actions[0]);
      ForgettingRun(Track(t, actions[0]), actions[1..]);
    }
  }
}
