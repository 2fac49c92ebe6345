/** What the failover policy does over whole runs. */
module WifiFailoverRuns {
  import opened Prelude
  import opened Arithmetic
  import opened WifiFailover

  // --- The 32-bit clock is as good as an unbounded one -------------------------

  /** One call on the policy; poll instants are unbounded. */
  datatype Input =
    | Poll(now: nat, connected: bool)
    | SetAvailable(available: Availability)
    | Note(profile: Profile)
    | Reset

  function Step(s: State, input: Input, clock: Clock): (State, Decision) {
    match input
    case Poll(now, connected) => Update(s, Reading(clock, now), connected, clock)
    case SetAvailable(a) => (Configure(s, a), Nothing)
    case Note(p) => (NoteConnected(s, p), Nothing)
    case Reset => (ManualReset(s), Nothing)
  }

  function Decisions(s: State, inputs: seq<Input>, clock: Clock): (ds: seq<Decision>)
    ensures |ds| == |inputs|
    decreases |inputs|
  {
    if inputs == [] then []
    else
      var (s', d) := Step(s, inputs[0], clock);
      [d] + Decisions(s', inputs[1..], clock)
  }

  /** Poll instants never decrease and are less than 2^31 ms apart. */
  predicate WellPaced(inputs: seq<Input>, previous: nat) {
    inputs == [] ||
    (if inputs[0].Poll? then
       previous <= inputs[0].now < previous + HALF_WORD && WellPaced(inputs[1..], inputs[0].now)
     else WellPaced(inputs[1..], previous))
  }

  /** The two machines are in the same state, as far as instants modulo 2^32 show. */
  ghost predicate SameUpToWrap(word: State, wide: State, previous: nat) {
    word == wide.(attemptStarted := word.attemptStarted, nextRound := word.nextRound) &&
    wide.nextBackoff <= MAXIMUM_BACKOFF &&
    (wide.phase == Attempting ==>
       word.attemptStarted == wide.attemptStarted % WORD &&
       wide.attemptStarted <= previous < wide.attemptStarted + PROFILE_TIMEOUT) &&
    (wide.phase == Waiting ==>
       word.nextRound == wide.nextRound % WORD &&
       previous < wide.nextRound <= previous + MAXIMUM_BACKOFF)
  }

  lemma SumModulo(a: nat, b: nat)
    ensures (a % WORD + b) % WORD == (a + b) % WORD
  {
    var q := a / WORD;
    assert a + b == (a % WORD + b) + WORD * q;
  }

  lemma SameTimeout(now: nat, previous: nat, started: nat)
    requires started <= previous < started + PROFILE_TIMEOUT && previous <= now < previous + HALF_WORD
    ensures TimedOut(Word32, now % WORD, started % WORD) == TimedOut(Unbounded, now, started)
  {
    DifferenceModulo(now, started);
    SmallModulo(now - started);
  }

  lemma SameDeadline(now: nat, previous: nat, deadline: nat)
    requires previous < deadline <= previous + MAXIMUM_BACKOFF && previous <= now < previous + HALF_WORD
    ensures DeadlineReached(Word32, now % WORD, deadline % WORD) == DeadlineReached(Unbounded, now, deadline)
  {
    DifferenceModulo(now, deadline);
    SmallModulo(now - deadline);
  }

  lemma WrapStep(word: State, wide: State, previous: nat, now: nat, connected: bool)
    requires SameUpToWrap(word, wide, previous) && previous <= now < previous + HALF_WORD && 0 < wide.nextBackoff
    ensures var (word', d1) := Update(word, now % WORD, connected, Word32);
            var (wide', d2) := Update(wide, now, connected, Unbounded);
            d1 == d2 && SameUpToWrap(word', wide', now)
  {
    hide Order;
    if wide.phase == Attempting {
      SameTimeout(now, previous, wide.attemptStarted);
      SumModulo(now, wide.nextBackoff);
    }
    if wide.phase == Waiting {
      SameDeadline(now, previous, wide.nextRound);
    }
  }

  lemma BackoffStaysPositive(s: State, input: Input, clock: Clock)
    requires 0 < s.nextBackoff
    ensures 0 < Step(s, input, clock).0.nextBackoff
  {
    hide Order;
  }

  /** Whatever is polled, configured, noted or reset, the 32-bit machine decides
      as the unbounded-clock one, as long as polls are less than 2^31 ms apart. */
  lemma {:induction false} WrapIsUnobservable(word: State, wide: State, inputs: seq<Input>, previous: nat)
    requires SameUpToWrap(word, wide, previous) && WellPaced(inputs, previous) && 0 < wide.nextBackoff
    ensures Decisions(word, inputs, Word32) == Decisions(wide, inputs, Unbounded)
    decreases |inputs|
  {
    if inputs != [] {
      var input := inputs[0];
      var (word', d1) := Step(word, input, Word32);
      var (wide', d2) := Step(wide, input, Unbounded);
      BackoffStaysPositive(wide, input, Unbounded);
      if input.Poll? {
        WrapStep(word, wide, previous, input.now, input.connected);
        WrapIsUnobservable(word', wide', inputs[1..], input.now);
      } else {
        WrapIsUnobservable(word', wide', inputs[1..], previous);
      }
    }
  }

  // --- The order of profiles ---------------------------------------------------------

  function Rank(p: Profile): nat {
    match p
    case Primary => 0
    case Backup1 => 1
    case Backup2 => 2
    case _ => 3
  }

  /** Exactly the available profiles, the primary one first and the backups by number. */
  ghost predicate ByPriority(order: seq<Profile>, a: Availability) {
    (Primary in order <==> a.primary) && (Backup1 in order <==> a.backup1) && (Backup2 in order <==> a.backup2) &&
    NoProfile !in order && forall i, j :: 0 <= i < j < |order| ==> Rank(order[i]) < Rank(order[j])
  }

  /** A round takes the available profiles in this order. */
  lemma OrderIsByPriority(a: Availability)
    ensures ByPriority(Order(a), a)
  {
  }

  // --- The pattern of rounds -----------------------------------------------------

  function Power2(k: nat): nat {
    if k == 0 then 1 else 2 * Power2(k - 1)
  }

  /** The wait after the k-th failed round in a row, counting from 0. */
  function Backoff(k: nat): nat {
    Min(1000 * Power2(k), 60_000)
  }

  /** A place in the run: `step` profiles of the round have been started, and
      the round has failed when step exceeds their number. */
  datatype Place = Place(round: nat, step: nat)

  /** The decision due at a place of a run over the profiles in `order`. */
  function Due(order: seq<Profile>, p: Place): Decision {
    if p.step < |order| then StartProfile(order[p.step]) else RoundFailed(Backoff(p.round))
  }

  /** The place after j decisions. */
  function PlaceAt(order: seq<Profile>, j: nat): Place {
    Place(j / (|order| + 1), j % (|order| + 1))
  }

  /** How long after the previous decision the decision at a place is due. */
  function Delay(p: Place): nat {
    if p.step > 0 then PROFILE_TIMEOUT else if p.round > 0 then Backoff(p.round - 1) else 0
  }

  /** The unbounded machine stands at the j-th decision, the one before it having
      been made at `since`. */
  ghost predicate StandsAt(s: State, order: seq<Profile>, j: nat, since: nat) {
    var p := PlaceAt(order, j);
    order == Order(s.available) && order != [] && s.nextBackoff == Backoff(p.round) &&
    (if j == 0 then (s.phase == Idle || s.phase == Connected) && since == 0
     else if p.step == 0 then s.phase == Waiting && s.nextRound == since + Delay(p)
     else s.phase == Attempting && s.order == order && s.index == p.step - 1 && s.attemptStarted == since)
  }

  /** About to begin a round with the initial backoff: after a reset, and whenever
      a connection is lost. */
  predicate Ready(s: State) {
    (s.phase == Idle || s.phase == Connected) && s.nextBackoff == INITIAL_BACKOFF && Order(s.available) != []
  }

  lemma ReadyToBegin(s: State, now: nat, clock: Clock)
    requires Order(s.available) != []
    ensures Ready(ManualReset(s)) && Ready(Update(s, now, true, clock).0)
    ensures forall p :: IsAvailable(s.available, p) ==> Ready(NoteConnected(s, p))
  {
    hide Order;
  }

  lemma NextPlace(order: seq<Profile>, j: nat)
    ensures var p := PlaceAt(order, j);
            PlaceAt(order, j + 1) == if p.step < |order| then Place(p.round, p.step + 1) else Place(p.round + 1, 0)
  {
    var n := |order| + 1;
    var q, r := j / n, j % n;
    assert j == q * n + r;
    if r + 1 < n {
      QuotientIs(j + 1, n, q, r + 1);
    } else {
      assert (q + 1) * n == q * n + n;
      QuotientIs(j + 1, n, q + 1, 0);
    }
  }

  lemma BackoffDoubles(k: nat)
    ensures Backoff(k + 1) == Min(Backoff(k) * 2, MAXIMUM_BACKOFF)
    ensures INITIAL_BACKOFF <= Backoff(k) <= MAXIMUM_BACKOFF
  {
    PowerPositive(k);
  }

  lemma {:induction false} PowerPositive(k: nat)
    ensures Power2(k) >= 1
  {
    if k > 0 {
      PowerPositive(k - 1);
    }
  }

  /** One poll without connection: nothing before the delay is over, and at once
      the decision that is due afterwards. */
  lemma PollAdvances(s: State, order: seq<Profile>, j: nat, since: nat, now: nat)
    requires StandsAt(s, order, j, since)
    ensures var (s', d) := Update(s, now, false, Unbounded);
            if now < since + Delay(PlaceAt(order, j)) then d == Nothing && s' == s
            else d == Due(order, PlaceAt(order, j)) && StandsAt(s', order, j + 1, now)
  {
    hide Order, PlaceAt;
    NextPlace(order, j);
    BackoffDoubles(PlaceAt(order, j).round);
    PlaceStep(order, j);
  }

  lemma PlaceStep(order: seq<Profile>, j: nat)
    ensures PlaceAt(order, j).step <= |order|
    ensures j == 0 <==> PlaceAt(order, j) == Place(0, 0)
  {
  }

  function Made(ds: seq<Decision>): seq<Decision> {
    if ds == [] then [] else (if ds[0] == Nothing then [] else [ds[0]]) + Made(ds[1..])
  }

  predicate PollsOnly(inputs: seq<Input>) {
    forall i :: 0 <= i < |inputs| ==> inputs[i].Poll? && !inputs[i].connected
  }

  /** n decisions in a row, beginning with the j-th. */
  function Pattern(order: seq<Profile>, j: nat, n: nat): (ds: seq<Decision>)
    ensures |ds| == n
    decreases n
  {
    if n == 0 then [] else [Due(order, PlaceAt(order, j))] + Pattern(order, j + 1, n - 1)
  }

  lemma {:induction false} PatternAt(order: seq<Profile>, j: nat, n: nat, i: nat)
    requires i < n
    ensures Pattern(order, j, n)[i] == Due(order, PlaceAt(order, j + i))
    decreases i
  {
    if i > 0 {
      PatternAt(order, j + 1, n - 1, i - 1);
    }
  }

  /** The timetable: what each poll decides, from the j-th decision on, when the
      decision before it was made at `since`. It knows no machine. */
  function Timetable(order: seq<Profile>, j: nat, since: nat, polls: seq<Input>): (ds: seq<Decision>)
    requires PollsOnly(polls)
    ensures |ds| == |polls|
    decreases |polls|
  {
    if polls == [] then []
    else if polls[0].now < since + Delay(PlaceAt(order, j)) then [Nothing] + Timetable(order, j, since, polls[1..])
    else [Due(order, PlaceAt(order, j))] + Timetable(order, j + 1, polls[0].now, polls[1..])
  }

  lemma {:induction false} TimetableFrom(s: State, polls: seq<Input>, order: seq<Profile>, j: nat, since: nat)
    requires StandsAt(s, order, j, since) && PollsOnly(polls)
    ensures Decisions(s, polls, Unbounded) == Timetable(order, j, since, polls)
    decreases |polls|
  {
    hide StandsAt, Due, PlaceAt, Update, Delay;
    if polls != [] {
      var now := polls[0].now;
      var (s', d) := Step(s, polls[0], Unbounded);
      PollAdvances(s, order, j, since, now);
      if now < since + Delay(PlaceAt(order, j)) {
        TimetableFrom(s, polls[1..], order, j, since);
      } else {
        TimetableFrom(s', polls[1..], order, j + 1, now);
      }
    }
  }

  /** With fixed availability and polls less than 2^31 ms apart, the 32-bit
      machine, from a reset or a lost connection on and as long as there is no
      connection, decides, poll by poll, as the timetable:
      it starts the next profile at the first poll 12 s after the last one, fails
      the round at the first poll 12 s after the last profile, and begins the next
      round at the first poll min(1000 * 2^k, 60000) ms after the k-th failure
      (from 0); every other poll decides nothing. */
  lemma RunsKeepTimetable(s: State, polls: seq<Input>, first: nat)
    requires Ready(s)
    requires PollsOnly(polls) && WellPaced(polls, first)
    ensures Decisions(s, polls, Word32) == Timetable(Order(s.available), 0, 0, polls)
  {
    hide Order, Decisions, Due, Timetable;
    PlaceStep(Order(s.available), 0);
    assert Backoff(0) == INITIAL_BACKOFF;
    assert StandsAt(s, Order(s.available), 0, 0);
    WrapIsUnobservable(s, s, polls, first);
    TimetableFrom(s, polls, Order(s.available), 0, 0);
  }

  lemma {:induction false} TimetableFollowsPattern(order: seq<Profile>, j: nat, since: nat, polls: seq<Input>)
    requires PollsOnly(polls)
    ensures var made := Made(Timetable(order, j, since, polls));
            made == Pattern(order, j, |made|)
    decreases |polls|
  {
    hide Due, PlaceAt, Delay;
    if polls != [] {
      var all := Timetable(order, j, since, polls);
      if polls[0].now < since + Delay(PlaceAt(order, j)) {
        TimetableFollowsPattern(order, j, since, polls[1..]);
        assert all[1..] == Timetable(order, j, since, polls[1..]);
      } else {
        TimetableFollowsPattern(order, j + 1, polls[0].now, polls[1..]);
        assert all[1..] == Timetable(order, j + 1, polls[0].now, polls[1..]);
        DueIsSomething(order, PlaceAt(order, j));
      }
    }
  }

  lemma DueIsSomething(order: seq<Profile>, p: Place)
    ensures Due(order, p) != Nothing
  {
  }

  /** The decisions of such a run are, in order: each available profile once by
      priority, then a failed round, the k-th of which (from 0) announces a wait
      of min(1000 * 2^k, 60000) ms, and so on for ever. */
  lemma RoundsFollowPattern(s: State, polls: seq<Input>, first: nat, i: nat)
    requires Ready(s)
    requires PollsOnly(polls) && WellPaced(polls, first)
    requires i < |Made(Decisions(s, polls, Word32))|
    ensures var order := Order(s.available);
            Made(Decisions(s, polls, Word32))[i] ==
            Due(order, Place(i / (|order| + 1), i % (|order| + 1)))
  {
    hide Order, Decisions, Due, Made, Timetable;
    RunsKeepTimetable(s, polls, first);
    TimetableFollowsPattern(Order(s.available), 0, 0, polls);
    PatternAt(Order(s.available), 0, |Made(Timetable(Order(s.available), 0, 0, polls))|, i);
  }

  /** How long a decision is left alone: a started profile 12 s, a failed round
      the wait it announces. */
  function Holds(d: Decision): nat
    requires d != Nothing
  {
    if d.StartProfile? then 12_000 else d.retryAfter
  }

  predicate FollowsStart(order: seq<Profile>, m: nat, d: Decision, next: Decision)
    requires m < |order|
  {
    d == StartProfile(order[m]) &&
    if m + 1 < |order| then next == StartProfile(order[m + 1]) else next.RoundFailed?
  }

  /** The next profile by priority, the failure of the round after the last one,
      and the first profile after a failure. */
  ghost predicate Follows(order: seq<Profile>, d: Decision, next: Decision) {
    (d.RoundFailed? && order != [] && next == StartProfile(order[0])) ||
    exists m :: 0 <= m < |order| && FollowsStart(order, m, d, next)
  }

  /** Poll i decided something, and no poll strictly between i and k did. */
  predicate QuietBetween(ds: seq<Decision>, i: nat, k: nat)
    requires i < k < |ds|
  {
    ds[i] != Nothing && forall l :: i < l < k ==> ds[l] == Nothing
  }

  lemma ConsecutivePlaces(order: seq<Profile>, j: nat)
    requires order != []
    ensures var d := Due(order, PlaceAt(order, j));
            d != Nothing && Holds(d) == Delay(PlaceAt(order, j + 1)) &&
            Follows(order, d, Due(order, PlaceAt(order, j + 1)))
  {
    hide PlaceAt, Backoff;
    NextPlace(order, j);
    PlaceStep(order, j);
    var m := PlaceAt(order, j).step;
    if m < |order| {
      assert FollowsStart(order, m, Due(order, PlaceAt(order, j)), Due(order, PlaceAt(order, j + 1)));
    }
  }

  /** After quiet polls, the next one decides exactly when the delay is over. */
  lemma {:induction false} FirstDecision(order: seq<Profile>, j: nat, since: nat, polls: seq<Input>, k: nat)
    requires PollsOnly(polls) && k < |polls|
    requires forall l :: 0 <= l < k ==> Timetable(order, j, since, polls)[l] == Nothing
    ensures Timetable(order, j, since, polls)[k] ==
            if polls[k].now < since + Delay(PlaceAt(order, j)) then Nothing else Due(order, PlaceAt(order, j))
    decreases k
  {
    hide Due, PlaceAt, Delay;
    if k > 0 {
      var ds := Timetable(order, j, since, polls);
      assert ds[0] == Nothing;
      DueIsSomething(order, PlaceAt(order, j));
      assert forall l :: 0 <= l < k - 1 ==> ds[1..][l] == ds[l + 1];
      FirstDecision(order, j, since, polls[1..], k - 1);
    }
  }

  lemma TimetableTail(order: seq<Profile>, j: nat, since: nat, polls: seq<Input>)
    requires PollsOnly(polls) && polls != []
    ensures var quiet := polls[0].now < since + Delay(PlaceAt(order, j));
            var (j', since') := if quiet then (j, since) else (j + 1, polls[0].now);
            Timetable(order, j, since, polls) ==
            [if quiet then Nothing else Due(order, PlaceAt(order, j))] + Timetable(order, j', since', polls[1..])
  {
    hide Due, PlaceAt, Delay;
  }

  lemma QuietTail(d: Decision, ds: seq<Decision>, i: nat, k: nat)
    requires i < k <= |ds| && QuietBetween([d] + ds, i, k)
    ensures i == 0 ==> d != Nothing && forall l :: 0 <= l < k - 1 ==> ds[l] == Nothing
    ensures i > 0 ==> QuietBetween(ds, i - 1, k - 1)
  {
    assert forall l :: 0 <= l < |ds| ==> ([d] + ds)[l + 1] == ds[l];
  }

  lemma {:induction false} NextDecision(order: seq<Profile>, j: nat, since: nat, polls: seq<Input>, i: nat, k: nat)
    requires order != [] && PollsOnly(polls) && i < k < |polls|
    requires QuietBetween(Timetable(order, j, since, polls), i, k)
    ensures var ds := Timetable(order, j, since, polls);
            if polls[k].now < polls[i].now + Holds(ds[i]) then ds[k] == Nothing else Follows(order, ds[i], ds[k])
    decreases i
  {
    hide Due, PlaceAt, Delay, Holds, Follows, Timetable, QuietBetween;
    var quiet := polls[0].now < since + Delay(PlaceAt(order, j));
    var (j', since') := if quiet then (j, since) else (j + 1, polls[0].now);
    var d := if quiet then Nothing else Due(order, PlaceAt(order, j));
    TimetableTail(order, j, since, polls);
    QuietTail(d, Timetable(order, j', since', polls[1..]), i, k);
    if i == 0 {
      ConsecutivePlaces(order, j);
      FirstDecision(order, j', since', polls[1..], k - 1);
    } else {
      NextDecision(order, j', since', polls[1..], i - 1, k - 1);
    }
  }

  /** Every decision is left alone for exactly the time it holds: after a failed
      round that announced r ms, every poll within r ms decides nothing and the
      first later one starts the first profile; the next profile (or the failure)
      comes at the first poll 12 s or more after a start. The first poll starts
      the first profile. */
  lemma DecisionsAreTimed(s: State, polls: seq<Input>, first: nat, i: nat, k: nat)
    requires Ready(s)
    requires PollsOnly(polls) && WellPaced(polls, first) && i < k < |polls|
    ensures var ds := Decisions(s, polls, Word32);
            ds[0] == StartProfile(Order(s.available)[0]) &&
            (QuietBetween(ds, i, k) ==>
               if polls[k].now < polls[i].now + Holds(ds[i]) then ds[k] == Nothing
               else Follows(Order(s.available), ds[i], ds[k]))
  {
    hide Order, Decisions, Holds, Follows;
    var order := Order(s.available);
    RunsKeepTimetable(s, polls, first);
    PlaceStep(order, 0);
    if QuietBetween(Timetable(order, 0, 0, polls), i, k) {
      NextDecision(order, 0, 0, polls, i, k);
    }
  }

  // --- How long the first profile has to wait ---------------------------------------

  /** Polls are at most `gap` apart. */
  predicate Gaps(inputs: seq<Input>, previous: nat, gap: nat) {
    inputs == [] ||
    (inputs[0].Poll? && previous <= inputs[0].now <= previous + gap && Gaps(inputs[1..], inputs[0].now, gap))
  }

  /** `started` is when the first profile of the order was last started. */
  ghost predicate OnSchedule(s: State, order: seq<Profile>, started: nat, previous: nat, gap: nat) {
    order == Order(s.available) && order != [] && s.order == order &&
    0 < s.nextBackoff <= MAXIMUM_BACKOFF &&
    ((s.phase == Attempting && s.index < |order| && s.attemptStarted <= previous < s.attemptStarted + PROFILE_TIMEOUT &&
      s.attemptStarted <= started + s.index * (PROFILE_TIMEOUT + gap)) ||
     (s.phase == Waiting && previous < s.nextRound <= started + |order| * (PROFILE_TIMEOUT + gap) + MAXIMUM_BACKOFF))
  }

  /** The longest time between two starts of the first profile, for n profiles. */
  function RetryBound(n: nat, gap: nat): nat {
    n * (12_000 + gap) + 60_000 + gap
  }

  lemma ScheduleStep(s: State, order: seq<Profile>, started: nat, previous: nat, gap: nat, now: nat)
    requires OnSchedule(s, order, started, previous, gap) && previous <= now <= previous + gap
    ensures var (s', d) := Update(s, now, false, Unbounded);
            var started' := if d == StartProfile(order[0]) then now else started;
            now <= started + RetryBound(|order|, gap) && OnSchedule(s', order, started', now, gap)
  {
    hide Order;
    OrderIsDistinct(s.available);
    var g := PROFILE_TIMEOUT + gap;
    if s.phase == Attempting {
      assert (s.index + 1) * g == s.index * g + g;
      assert (s.index + 1) * g <= |order| * g;
    }
  }

  lemma OrderIsDistinct(a: Availability)
    ensures forall i, j :: 0 <= i < j < |Order(a)| ==> Order(a)[i] != Order(a)[j]
  {
  }

  /** No poll comes later than `bound` after the last start of the first profile. */
  predicate RetriedInTime(ds: seq<Decision>, polls: seq<Input>, first: Profile, started: nat, bound: nat)
    requires PollsOnly(polls) && |ds| == |polls|
    decreases |polls|
  {
    polls == [] ||
    (polls[0].now <= started + bound &&
     RetriedInTime(ds[1..], polls[1..], first, if ds[0] == StartProfile(first) then polls[0].now else started, bound))
  }

  lemma {:induction false} ScheduleIsKept(
      s: State, polls: seq<Input>, order: seq<Profile>, started: nat, previous: nat, gap: nat)
    requires order != [] && OnSchedule(s, order, started, previous, gap)
    requires PollsOnly(polls) && Gaps(polls, previous, gap)
    ensures RetriedInTime(Decisions(s, polls, Unbounded), polls, order[0], started, RetryBound(|order|, gap))
    decreases |polls|
  {
    hide OnSchedule, Update, RetryBound;
    if polls != [] {
      var now := polls[0].now;
      var (s', d) := Update(s, now, false, Unbounded);
      ScheduleStep(s, order, started, previous, gap, now);
      ScheduleIsKept(s', polls[1..], order, if d == StartProfile(order[0]) then now else started, now, gap);
    }
  }

  /** No start of the first profile strictly between polls i and k. */
  predicate NoStartBetween(ds: seq<Decision>, first: Profile, i: int, k: nat)
    requires -1 <= i && k <= |ds|
  {
    forall l :: i < l < k ==> ds[l] != StartProfile(first)
  }

  lemma {:induction false} RetriedSince(
      ds: seq<Decision>, polls: seq<Input>, first: Profile, started: nat, bound: nat, i: int, k: nat)
    requires PollsOnly(polls) && |ds| == |polls| && RetriedInTime(ds, polls, first, started, bound)
    requires -1 <= i < k < |polls| && NoStartBetween(ds, first, i, k)
    requires 0 <= i ==> ds[i] == StartProfile(first)
    ensures polls[k].now <= (if i < 0 then started else polls[i].now) + bound
    decreases |polls|
  {
    if k > 0 {
      assert forall l :: 0 <= l < |ds| - 1 ==> ds[1..][l] == ds[l + 1];
      RetriedSince(ds[1..], polls[1..], first, if ds[0] == StartProfile(first) then polls[0].now else started, bound,
                   if i < 0 then -1 else i - 1, k - 1);
    }
  }

  lemma {:induction false} GapsArePaced(polls: seq<Input>, previous: nat, gap: nat)
    requires Gaps(polls, previous, gap) && gap < HALF_WORD
    ensures WellPaced(polls, previous)
    decreases |polls|
  {
    if polls != [] {
      GapsArePaced(polls[1..], polls[0].now, gap);
    }
  }

  lemma ReadyStarts(s: State, now: nat)
    requires Ready(s)
    ensures Update(s, now, false, Unbounded) == StartRound(s, now)
  {
    hide Order;
  }

  lemma FirstDecides(s: State, polls: seq<Input>, clock: Clock)
    requires polls != []
    ensures var (s', d) := Step(s, polls[0], clock);
            Decisions(s, polls, clock) == [d] + Decisions(s', polls[1..], clock)
  {
    hide Step;
  }

  lemma StartTail(d: Decision, ds: seq<Decision>, first: Profile, i: nat, k: nat)
    requires i < k <= |ds| && NoStartBetween([d] + ds, first, i, k)
    ensures NoStartBetween(ds, first, i - 1, k - 1)
  {
    assert forall l :: 0 <= l < |ds| ==> ([d] + ds)[l + 1] == ds[l];
  }

  /** As long as there is no connection, the 32-bit machine starts the first
      profile again within n * (12 s + gap) + 60 s + gap of its last start, for n
      available profiles and polls at most one gap apart. */
  lemma FirstProfileIsRetried(s: State, polls: seq<Input>, gap: nat, i: nat, k: nat)
    requires Ready(s) && gap < HALF_WORD
    requires PollsOnly(polls) && i < k < |polls| && Gaps(polls[1..], polls[0].now, gap)
    ensures var order, ds := Order(s.available), Decisions(s, polls, Word32);
            ds[i] == StartProfile(order[0]) && NoStartBetween(ds, order[0], i, k) ==>
            polls[k].now <= polls[i].now + RetryBound(|order|, gap)
  {
    hide Order, OnSchedule, RetryBound, RetriedInTime, Decisions, NoStartBetween, Update;
    var now, order := polls[0].now, Order(s.available);
    GapsArePaced(polls[1..], now, gap);
    WrapIsUnobservable(s, s, polls, now);
    var (s', d) := Update(s, now, false, Unbounded);
    ReadyStarts(s, now);
    StartIsOnSchedule(s, now, gap);
    ScheduleIsKept(s', polls[1..], order, now, now, gap);
    var ds, tail := Decisions(s, polls, Unbounded), Decisions(s', polls[1..], Unbounded);
    FirstDecides(s, polls, Unbounded);
    if ds[i] == StartProfile(order[0]) && NoStartBetween(ds, order[0], i, k) {
      StartTail(d, tail, order[0], i, k);
      RetriedSince(tail, polls[1..], order[0], now, RetryBound(|order|, gap), i - 1, k - 1);
    }
  }

  /** A start of the first profile puts the machine on schedule. */
  lemma StartIsOnSchedule(s: State, now: nat, gap: nat)
    requires Order(s.available) != [] && 0 < s.nextBackoff <= MAXIMUM_BACKOFF
    ensures var (s', d) := StartRound(s, now);
            d == StartProfile(Order(s.available)[0]) && OnSchedule(s', Order(s.available), now, now, gap)
  {
    hide Order;
  }
}
