/** How the agent keeps the latest provider state: polling results, failures and
    status-line updates are merged into one stored report per provider. */
module ProviderMerge {
  import opened Prelude
  import opened AgentReports

  const UNAUTHENTICATED := "unauthenticated"

  // --- Merging two reports ----------------------------------------------------

  function Newer(a: ProviderReport, b: ProviderReport): ProviderReport {
    if b.observedAt > a.observedAt then b else a
  }

  function Older(a: ProviderReport, b: ProviderReport): ProviderReport {
    if b.observedAt > a.observedAt then a else b
  }

  /** The window of an unused quota, which has no reset yet. */
  predicate Unused(w: LimitWindow) {
    w.resetsAt.None? && w.used == 0.0 && w.remaining == 100.0
  }

  predicate Reusable(w: Option<LimitWindow>, observedAt: int) {
    w.Some? &&
    (Unused(w.value) ||
     (w.value.resetsAt.Some? && w.value.resetsAt.value.at != ZERO_TIME && w.value.resetsAt.value.at > observedAt))
  }

  function Fill(newer: Option<LimitWindow>, older: Option<LimitWindow>, observedAt: int): Option<LimitWindow> {
    if newer.None? && Reusable(older, observedAt) then older else newer
  }

  function Merge(a: ProviderReport, b: ProviderReport): ProviderReport {
    var newer, older := Newer(a, b), Older(a, b);
    if newer.authState == UNAUTHENTICATED then newer.(windows := NO_WINDOWS)
    else
      newer.(windows := Windows(Fill(newer.windows.fiveHour, older.windows.fiveHour, newer.observedAt),
                                Fill(newer.windows.sevenDay, older.windows.sevenDay, newer.observedAt)),
             plan := if newer.plan == "" then older.plan else newer.plan,
             authState := if newer.authState == "" then older.authState else newer.authState)
  }

  /** The older window that a report observed at this instant takes over: one that
      resets later, or that of an unused quota. */
  predicate StillHolds(w: LimitWindow, observedAt: int) {
    match w.resetsAt
    case None => w.used == 0.0 && w.remaining == 100.0
    case Some(reset) => reset.at != ZERO_TIME && reset.at > observedAt
  }

  ghost predicate Filled(
      merged: Option<LimitWindow>, newer: Option<LimitWindow>, older: Option<LimitWindow>, observedAt: int) {
    (newer.Some? ==> merged == newer) &&
    (newer.None? && older.Some? && StillHolds(older.value, observedAt) ==> merged == older) &&
    (newer.None? && (older.None? || !StillHolds(older.value, observedAt)) ==> merged.None?)
  }

  /** Field by field: the newer report counts, the older one fills what is missing,
      and nothing is filled in after a logout. Order matters at a tie only. */
  lemma MergeMeans(newer: ProviderReport, older: ProviderReport)
    requires newer.observedAt >= older.observedAt
    ensures var m := Merge(newer, older);
            m.observedAt == newer.observedAt && m.source == newer.source && m.errorCode == newer.errorCode &&
            (newer.authState == "unauthenticated" ==>
               m.windows.fiveHour.None? && m.windows.sevenDay.None? && m.plan == newer.plan &&
               m.authState == newer.authState) &&
            (newer.authState != "unauthenticated" ==>
               Filled(m.windows.fiveHour, newer.windows.fiveHour, older.windows.fiveHour, newer.observedAt) &&
               Filled(m.windows.sevenDay, newer.windows.sevenDay, older.windows.sevenDay, newer.observedAt) &&
               m.plan == (if newer.plan != "" then newer.plan else older.plan) &&
               m.authState == (if newer.authState != "" then newer.authState else older.authState))
    ensures newer.observedAt > older.observedAt ==> Merge(older, newer) == Merge(newer, older)
  {
  }

  // --- The agent's stored state -------------------------------------------------

  datatype Incoming =
    | Collected(report: ProviderReport)
    | CollectionFailed(report: ProviderReport)
    | StatusLine(report: ProviderReport)

  function HasWindows(r: ProviderReport): bool {
    r.windows.fiveHour.Some? || r.windows.sevenDay.Some?
  }

  /** What is stored for Claude after an incoming result. */
  function Next(stored: Option<ProviderReport>, i: Incoming): ProviderReport {
    match i
    case Collected(r) => if stored.Some? then Merge(stored.value, r) else r
    case StatusLine(r) => if stored.Some? then Merge(stored.value, r) else r
    case CollectionFailed(r) =>
      if stored.Some? && HasWindows(stored.value)
      then stored.value.(errorCode := if r.errorCode != "" then r.errorCode else "collection_failed")
      else r
  }

  function Lookup(m: map<string, ProviderReport>, provider: string): Option<ProviderReport> {
    if provider in m then Some(m[provider]) else None
  }

  class Agent {
    var providers: map<string, ProviderReport>

    constructor ()
      ensures providers == map[]
    {
      providers := map[];
    }

    method StoreCollectionResult(provider: string, report: ProviderReport, failed: bool)
      modifies this
      ensures var before := Lookup(old(providers), provider);
              var result := if failed then CollectionFailed(report) else Collected(report);
              providers ==
              old(providers)[provider := if failed || provider == CLAUDE then Next(before, result) else report]
    {
      var known := provider in providers;
      if failed {
        if known && HasWindows(providers[provider]) {
          var previous := providers[provider];
          previous := previous.(errorCode := if report.errorCode != "" then report.errorCode else "collection_failed");
          providers := providers[provider := previous];
        } else {
          providers := providers[provider := report];
        }
      } else if provider == CLAUDE && known {
        providers := providers[provider := Merge(providers[provider], report)];
      } else {
        providers := providers[provider := report];
      }
    }

    method IngestStatusLine(report: ProviderReport)
      modifies this
      ensures providers == old(providers)[CLAUDE := Next(Lookup(old(providers), CLAUDE), StatusLine(report))]
    {
      if CLAUDE in providers {
        providers := providers[CLAUDE := Merge(providers[CLAUDE], report)];
      } else {
        providers := providers[CLAUDE := report];
      }
    }
  }

  // --- Runs -----------------------------------------------------------------------

  /** What is stored after the first k results. */
  function Stored(run: seq<Incoming>, k: nat): Option<ProviderReport>
    requires k <= |run|
  {
    if k == 0 then None else Some(Next(Stored(run, k - 1), run[k - 1]))
  }

  ghost predicate StrictlyLater(run: seq<Incoming>) {
    forall i, j :: 0 <= i < j < |run| ==> run[i].report.observedAt < run[j].report.observedAt
  }

  /** A successful observation that says nobody is logged in. */
  predicate Logout(i: Incoming) {
    !i.CollectionFailed? && i.report.authState == UNAUTHENTICATED
  }

  /** The number of results up to and including the last logout among the first k. */
  function LastLogout(run: seq<Incoming>, k: nat): (l: nat)
    requires k <= |run|
    ensures l <= k
  {
    if k == 0 then 0 else if Logout(run[k - 1]) then k else LastLogout(run, k - 1)
  }

  datatype Slot = FiveHour | SevenDay

  function Window(r: ProviderReport, slot: Slot): Option<LimitWindow> {
    if slot == FiveHour then r.windows.fiveHour else r.windows.sevenDay
  }

  /** Result j brought this window with it. */
  ghost predicate CarriedBy(run: seq<Incoming>, j: nat, slot: Slot, w: LimitWindow) {
    j < |run| && Window(run[j].report, slot) == Some(w)
  }

  /** A stored window is the newest observation's own, or not over yet, or unused. */
  ghost predicate Justified(run: seq<Incoming>, r: ProviderReport, slot: Slot, w: LimitWindow, k: nat) {
    (exists j :: 0 <= j < k && CarriedBy(run, j, slot, w) && run[j].report.observedAt == r.observedAt) ||
    (w.resetsAt.Some? && w.resetsAt.value.at > r.observedAt) ||
    Unused(w)
  }

  /** Some result since the last logout brought this window with it. */
  ghost predicate SeenSinceLogout(run: seq<Incoming>, slot: Slot, w: LimitWindow, k: nat)
    requires k <= |run|
  {
    exists j :: Max(0, LastLogout(run, k) - 1) <= j < k && CarriedBy(run, j, slot, w)
  }

  ghost predicate Sound(run: seq<Incoming>, k: nat)
    requires k <= |run|
  {
    var stored := Stored(run, k);
    stored.Some? ==>
      (exists j :: 0 <= j < k && run[j].report.observedAt == stored.value.observedAt) &&
      forall slot :: Window(stored.value, slot).Some? ==>
        Justified(run, stored.value, slot, Window(stored.value, slot).value, k) &&
        SeenSinceLogout(run, slot, Window(stored.value, slot).value, k)
  }

  lemma SoundStep(run: seq<Incoming>, k: nat, slot: Slot)
    requires 0 < k <= |run| && StrictlyLater(run) && Sound(run, k - 1)
    ensures var stored := Stored(run, k).value;
            Window(stored, slot).Some? ==>
              Justified(run, stored, slot, Window(stored, slot).value, k) &&
              SeenSinceLogout(run, slot, Window(stored, slot).value, k)
  {
    var before, i, after := Stored(run, k - 1), run[k - 1], Stored(run, k).value;
    if Window(after, slot).Some? {
      var w := Window(after, slot).value;
      if Window(i.report, slot) == Some(w) && after.observedAt == i.report.observedAt {
        assert CarriedBy(run, k - 1, slot, w);
      } else {
        var j0 :| 0 <= j0 < k - 1 && run[j0].report.observedAt == before.value.observedAt;
        assert before.value.observedAt < i.report.observedAt;
        assert Window(before.value, slot) == Some(w);
        assert !Logout(i);
        assert LastLogout(run, k) == LastLogout(run, k - 1);
        var j :| Max(0, LastLogout(run, k - 1) - 1) <= j < k - 1 && CarriedBy(run, j, slot, w);
        assert CarriedBy(run, j, slot, w);
      }
    }
  }

  /** In every run of collections, failures and status-line updates with
      strictly increasing observation times, each stored window was carried by
      the stored newest observation, or resets after it, or is the unused
      window; and none was last seen before a confirmed logout. */
  lemma {:induction false} StoredWindowsAreJustified(run: seq<Incoming>, k: nat)
    requires k <= |run| && StrictlyLater(run)
    ensures Sound(run, k)
  {
    if k > 0 {
      StoredWindowsAreJustified(run, k - 1);
      SoundStep(run, k, FiveHour);
      SoundStep(run, k, SevenDay);
      var before, after := Stored(run, k - 1), Stored(run, k).value;
      if after.observedAt != run[k - 1].report.observedAt {
        var j0 :| 0 <= j0 < k - 1 && run[j0].report.observedAt == before.value.observedAt;
        assert before.value.observedAt < run[k - 1].report.observedAt;
        assert run[j0].report.observedAt == after.observedAt;
      }
      hide Next, Justified, SeenSinceLogout;
    }
  }

  // --- Which window is stored -----------------------------------------------------------

  /** Result j replaces or completes what is stored: a first result always does, a
      logout never brings a window, and a failure counts while no window is stored. */
  predicate Enters(run: seq<Incoming>, j: nat)
    requires j < |run|
  {
    j == 0 ||
    (if run[j].CollectionFailed? then !HasWindows(Stored(run, j).value)
     else run[j].report.authState != "unauthenticated")
  }

  /** A window stored before result i is still stored after it. */
  predicate Spares(i: Incoming, slot: Slot, w: LimitWindow) {
    i.CollectionFailed? ||
    (i.report.authState != "unauthenticated" && Window(i.report, slot).None? && StillHolds(w, i.report.observedAt))
  }

  ghost predicate BroughtAndSpared(run: seq<Incoming>, j: nat, k: nat, slot: Slot, w: LimitWindow)
    requires k <= |run|
  {
    j < k && Enters(run, j) && CarriedBy(run, j, slot, w) &&
    forall i :: j < i < k ==> Spares(run[i], slot, w)
  }

  lemma StoredIsEarlier(run: seq<Incoming>, k: nat)
    requires 0 < k < |run| && StrictlyLater(run)
    ensures Stored(run, k).value.observedAt < run[k].report.observedAt
  {
    hide Next, Justified, SeenSinceLogout;
    StoredWindowsAreJustified(run, k);
    var j :| 0 <= j < k && run[j].report.observedAt == Stored(run, k).value.observedAt;
  }

  /** What one more result does to the stored window. */
  lemma WindowStep(run: seq<Incoming>, k: nat, slot: Slot, w: LimitWindow)
    requires k < |run| && StrictlyLater(run)
    ensures Window(Stored(run, k + 1).value, slot) == Some(w) <==>
            (Enters(run, k) && CarriedBy(run, k, slot, w)) ||
            (k > 0 && Window(Stored(run, k).value, slot) == Some(w) && Spares(run[k], slot, w))
  {
    if k > 0 {
      StoredIsEarlier(run, k);
      if !run[k].CollectionFailed? {
        MergeMeans(run[k].report, Stored(run, k).value);
      }
    }
  }

  /** A window is stored if and only if some result brought it and every later one
      spared it: failures always do, successes if they say nobody is logged out,
      bring none of their own, and come before it resets. */
  lemma {:induction false} StoredWindowExactly(run: seq<Incoming>, k: nat, slot: Slot, w: LimitWindow)
    requires 0 < k <= |run| && StrictlyLater(run)
    ensures Window(Stored(run, k).value, slot) == Some(w) <==> exists j: nat :: BroughtAndSpared(run, j, k, slot, w)
  {
    hide Stored, Spares, Enters, CarriedBy;
    var front := k - 1;
    WindowStep(run, front, slot, w);
    if Enters(run, k - 1) && CarriedBy(run, k - 1, slot, w) {
      assert BroughtAndSpared(run, k - 1, k, slot, w);
    }
    if k > 1 {
      StoredWindowExactly(run, k - 1, slot, w);
      if j: nat :| BroughtAndSpared(run, j, front, slot, w) {
        assert Spares(run[k - 1], slot, w) ==> BroughtAndSpared(run, j, k, slot, w);
      }
    }
    if j: nat :| BroughtAndSpared(run, j, k, slot, w) {
      if j < k - 1 {
        assert Spares(run[k - 1], slot, w);
        assert BroughtAndSpared(run, j, front, slot, w);
      }
    }
  }

  /** A failure leaves stored windows, and all that came with them, as they are and
      tells its reason, or that collecting failed; without windows it is stored itself. */
  lemma FailureMeans(run: seq<Incoming>, k: nat)
    requires 0 < k < |run| && run[k].CollectionFailed?
    ensures var before, after := Stored(run, k).value, Stored(run, k + 1).value;
            if before.windows.fiveHour.Some? || before.windows.sevenDay.Some?
            then after.windows == before.windows && after.observedAt == before.observedAt &&
                 after.plan == before.plan && after.authState == before.authState && after.source == before.source &&
                 after.errorCode == (if run[k].report.errorCode == "" then "collection_failed"
                                     else run[k].report.errorCode)
            else after == run[k].report
  {
    hide Merge;
  }

  // --- Confirming a logout ------------------------------------------------------------

  /** The outcome of one `auth status` probe. */
  datatype AuthProbe = Unreadable | SaysLoggedOut | SaysLoggedIn

  predicate TwoLoggedOut(probes: seq<AuthProbe>, i: nat)
    requires i < |probes|
  {
    0 < i && probes[i - 1] == SaysLoggedOut && probes[i] == SaysLoggedOut
  }

  const LOGOUT_CONFIRMATIONS: nat := 2

  class ClaudeCollector {
    var consecutiveLoggedOut: nat

    constructor ()
      ensures consecutiveLoggedOut == 0
    {
      consecutiveLoggedOut := 0;
    }

    /** Whether this probe reports a logout upwards. */
    method Observe(probe: AuthProbe) returns (confirmed: bool)
      modifies this
      ensures consecutiveLoggedOut == if probe == SaysLoggedOut then old(consecutiveLoggedOut) + 1 else 0
      ensures confirmed <==> probe == SaysLoggedOut && consecutiveLoggedOut >= LOGOUT_CONFIRMATIONS
    {
      if probe != SaysLoggedOut {
        consecutiveLoggedOut := 0;
        return false;
      }
      consecutiveLoggedOut := consecutiveLoggedOut + 1;
      confirmed := consecutiveLoggedOut >= LOGOUT_CONFIRMATIONS;
    }

    /** A run of probes reports a logout exactly where two in a row say so. */
    method ObserveAll(probes: seq<AuthProbe>) returns (confirmed: seq<bool>)
      requires consecutiveLoggedOut == 0
      modifies this
      ensures |confirmed| == |probes|
      ensures forall i :: 0 <= i < |probes| ==> (confirmed[i] <==> TwoLoggedOut(probes, i))
    {
      confirmed := [];
      for i := 0 to |probes|
        invariant |confirmed| == i
        invariant consecutiveLoggedOut > 0 <==> 0 < i && probes[i - 1] == SaysLoggedOut
        invariant forall j :: 0 <= j < i ==> (confirmed[j] <==> TwoLoggedOut(probes, j))
      {
        var c := Observe(probes[i]);
        confirmed := confirmed + [c];
      }
    }
  }
}
