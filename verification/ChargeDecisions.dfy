/** Exactly when the charge detector changes its decision, told by the readings. */
module ChargeDecisions {
  import opened Prelude
  import opened ChargeTrend
  import opened ChargeTrendRuns

  // --- The two trend tests, told by samples and ages ---------------------------------

  /** The newest group of three that is old enough ends at i, and is not too old. */
  ghost predicate NewestGroup(w: seq<Sample>, now: U32, window: nat, i: int) {
    2 <= i <= |w| - 3 && window <= Age(w, now, i) <= window + 30000 &&
    forall j :: i < j <= |w| - 3 ==> Age(w, now, j) < window
  }

  /** The median of that group lies `drop` or more above the newest median. */
  ghost predicate FellBy(w: seq<Sample>, now: U32, window: nat, drop: int) {
    |w| >= 6 && exists i :: NewestGroup(w, now, window, i) && MedianAt(w, i) - MedianAt(w, |w| - 1) >= drop
  }

  /** The newest median lies `rise` or more above the median of that group. */
  ghost predicate RoseBy(w: seq<Sample>, now: U32, window: nat, rise: int) {
    |w| >= 6 && exists i :: NewestGroup(w, now, window, i) && MedianAt(w, |w| - 1) - MedianAt(w, i) >= rise
  }

  /** Within 90 s there are 12 readings or more, and at most 30 in 100 of their
      steps fall by more than 8 mV. */
  ghost predicate MostlyRising(w: seq<Sample>, now: U32) {
    exists first :: 0 <= first <= |w| - 12 && WithinFrom(w, now, first) &&
      10 * |FallsUpTo(w, first, |w|)| <= 3 * (|w| - first - 1)
  }

  /** The readings from `first` on begin the newest run that is within 90 s. */
  ghost predicate WithinFrom(w: seq<Sample>, now: U32, first: int)
    requires 0 <= first < |w|
  {
    Age(w, now, first) <= 90000 && forall j :: 0 <= j < first ==> Age(w, now, j) > 90000
  }

  predicate StepFalls(w: seq<Sample>, i: int)
    requires 0 < i < |w|
  {
    w[i - 1].mv - w[i].mv > 8
  }

  function FallsUpTo(w: seq<Sample>, first: nat, end: nat): set<int>
    requires end <= |w|
  {
    set i | first < i < end && StepFalls(w, i)
  }

  lemma {:induction false} AnchorIsNewestGroup(w: seq<Sample>, now: U32, window: U32, i: int)
    requires i <= |w| - 3 && forall j :: 0 <= j && i < j <= |w| - 3 ==> Age(w, now, j) < window
    ensures Anchor(w, now, window, i).Some? ==> NewestGroup(w, now, window, Anchor(w, now, window, i).value)
    ensures Anchor(w, now, window, i).None? ==> forall a :: !NewestGroup(w, now, window, a)
  {
    if 2 <= i && Age(w, now, i) < window {
      AnchorIsNewestGroup(w, now, window, i - 1);
    }
  }

  lemma NewestGroupIsUnique(w: seq<Sample>, now: U32, window: nat, a: int, b: int)
    requires NewestGroup(w, now, window, a) && NewestGroup(w, now, window, b)
    ensures a == b
  {
  }

  /** A reading counts against the charger, if and only if the newest median is 35
      mV below the newest group of three 30 s or more back, or 45 mV below the
      highest median so far. */
  lemma FallingMeans(w: seq<Sample>, now: U32, peak: U16)
    requires |w| >= 3 && MedianAt(w, |w| - 1) < 0x1_0000 - 45
    ensures Falling(w, now, peak) <==>
            FellBy(w, now, 30000, 35) || Max(peak, MedianAt(w, |w| - 1)) - MedianAt(w, |w| - 1) >= 45
  {
    hide MedianAt;
    if |w| >= 6 {
      AnchorIsNewestGroup(w, now, 30000, |w| - 3);
      forall a | NewestGroup(w, now, 30000, a)
        ensures Anchor(w, now, 30000, |w| - 3) == Some(a)
      {
        NewestGroupIsUnique(w, now, 30000, a, Anchor(w, now, 30000, |w| - 3).value);
      }
    }
  }

  lemma DeltaMeans(w: seq<Sample>, now: U32, window: U32, rise: int)
    ensures DeltaOver(w, now, window).Some? && DeltaOver(w, now, window).value >= rise <==> RoseBy(w, now, window, rise)
  {
    hide MedianAt;
    if |w| >= 6 {
      AnchorIsNewestGroup(w, now, window, |w| - 3);
      forall a | NewestGroup(w, now, window, a)
        ensures Anchor(w, now, window, |w| - 3) == Some(a)
      {
        NewestGroupIsUnique(w, now, window, a, Anchor(w, now, window, |w| - 3).value);
      }
    }
  }

  lemma {:induction false} FirstIsNewestRun(w: seq<Sample>, now: U32, i: nat)
    requires i <= |w| && forall j :: 0 <= j < i ==> Age(w, now, j) > 90000
    ensures var first := FirstWithin(w, now, 90000, i);
            (forall j :: 0 <= j < first ==> Age(w, now, j) > 90000) && (first < |w| ==> WithinFrom(w, now, first))
    decreases |w| - i
  {
    if i < |w| && Age(w, now, i) > 90000 {
      FirstIsNewestRun(w, now, i + 1);
    }
  }

  lemma {:induction false} MaterialFallsCount(w: seq<Sample>, first: nat, end: nat)
    requires first < end <= |w|
    ensures MaterialFalls(w, first, end) == |FallsUpTo(w, first, end)|
  {
    if end == first + 1 {
      assert FallsUpTo(w, first, end) == {};
    } else {
      MaterialFallsCount(w, first, end - 1);
      var fewer, more := FallsUpTo(w, first, end - 1), FallsUpTo(w, first, end);
      if StepFalls(w, end - 1) {
        assert more == fewer + {end - 1};
      } else {
        assert more == fewer;
      }
    }
  }

  lemma ConsistentMeans(w: seq<Sample>, now: U32)
    ensures RisingIsConsistent(w, now, 90000) <==> MostlyRising(w, now)
  {
    FirstIsNewestRun(w, now, 0);
    var first := FirstWithin(w, now, 90000, 0);
    if first < |w| {
      MaterialFallsCount(w, first, |w|);
    }
    forall other | 0 <= other <= |w| - 12 && WithinFrom(w, now, other)
      ensures other == first
    {
    }
  }

  /** A reading counts for a charger, if and only if the newest median is 35 mV above
      the newest group 30 s or more back, or 25 mV above the one 90 s or more back
      while most of the readings of the last 90 s do not fall. */
  lemma RisingMeans(w: seq<Sample>, now: U32)
    ensures Rising(w, now) <==>
            RoseBy(w, now, 30000, 35) || (RoseBy(w, now, 90000, 25) && MostlyRising(w, now))
  {
    hide DeltaOver, RisingIsConsistent, RoseBy, MostlyRising;
    DeltaMeans(w, now, 30000, 35);
    DeltaMeans(w, now, 90000, 25);
    ConsistentMeans(w, now);
  }

  // --- Exactly when charging is released ----------------------------------------------

  /** While charging, the release evidence is the number of readings in a row that
      counted against the charger. */
  ghost predicate EvidenceIsStreak(t: Tracked) {
    t.s.charging ==> t.s.unplugEvidence == t.falls
  }

  lemma StreakStep(t: Tracked, input: Input)
    requires Sound(t) && EvidenceIsStreak(t)
    ensures EvidenceIsStreak(Track(t, input))
  {
    hide Accept, Append, Falling, Step, MedianOf, IsMedianOf;
    var loaded := NoteLoad(t.s, input.now, input.pwm);
    if Accepts(t.s, input) {
      Accepted(t, input);
      if t.s.charging {
        ChargingAccept(loaded.(invalidActive := false), input.now, input.mv);
      } else {
        IdleAcceptKeepsWindow(loaded.(invalidActive := false), input.now, input.mv);
      }
    } else {
      NotAccepted(t, input);
    }
  }

  lemma {:induction false} StreaksAreEvidence(inputs: seq<Input>, k: nat)
    requires k <= |inputs|
    ensures EvidenceIsStreak(At(START, inputs, k)) && Sound(At(START, inputs, k))
  {
    hide Track, Sound;
    StartIsQuiet();
    RunsAreSound(START, inputs, k);
    if k > 0 {
      StreaksAreEvidence(inputs, k - 1);
      StreakStep(At(START, inputs, k - 1), inputs[k - 1]);
    }
  }

  /** In every run, charging is released by the 60 s fail-safe and by the third
      accepted reading in a row that counts against the charger, and by nothing else. */
  lemma ReleasesExactly(inputs: seq<Input>, k: nat)
    requires k < |inputs| && At(START, inputs, k).s.charging
    ensures !At(START, inputs, k + 1).s.charging <==>
            TimesOut(At(START, inputs, k).s, inputs[k]) ||
            (Accepts(At(START, inputs, k).s, inputs[k]) && FallsNow(At(START, inputs, k).s, inputs[k]) &&
             At(START, inputs, k + 1).falls == 3)
  {
    StreaksAreEvidence(inputs, k);
    var t, input := At(START, inputs, k), inputs[k];
    hide Accept, Append, Falling, Step, MedianOf, Sound;
    assert At(START, inputs, k + 1) == Track(t, input);
    ChargingIsSound(t);
    if Accepts(t.s, input) {
      Accepted(t, input);
      ChargingAccept(NoteLoad(t.s, input.now, input.pwm).(invalidActive := false), input.now, input.mv);
    } else {
      NotAccepted(t, input);
      if TimesOut(t.s, input) {
        TimeoutReleases(t.s, input);
        TrackSteps(t, input);
      }
    }
  }

  lemma ChargingIsSound(t: Tracked)
    requires Sound(t) && t.s.charging
    ensures t.s.unplugEvidence < 3
  {
  }

  lemma TimeoutReleases(s: State, input: Input)
    requires TimesOut(s, input)
    ensures !Step(s, input).charging && Step(s, input).samples == [] && Step(s, input).chargeEvidence == 0
  {
    hide Accept;
  }

  // --- Readings that never fall, and readings that are invalid ----------------------------

  ghost predicate NeverFalls(segment: seq<U16>) {
    forall i, j :: 0 <= i <= j < |segment| ==> segment[i] <= segment[j]
  }

  lemma MedianGrows(segment: seq<U16>, m: U16)
    requires NeverFalls(segment) && |segment| >= 3 && IsMedianOf(segment, m)
    ensures m <= TripleMedian(segment, |segment| - 1)
  {
    var i :| 2 <= i < |segment| && m == TripleMedian(segment, i);
  }

  lemma NeverFallingIsNotFalling(w: seq<Sample>, segment: seq<U16>, now: U32, peak: U16)
    requires Suffix(w, segment) && NeverFalls(segment) && |w| >= 3
    requires forall v :: v in segment ==> 2800 <= v <= 4350
    requires peak == 0 || IsMedianOf(segment, peak)
    ensures !Falling(w, now, peak)
  {
    hide MedianOf, Falling, IsMedianOf;
    SegmentMedian(w, segment);
    FallingMeans(w, now, peak);
    var n := |segment|;
    assert MedianAt(w, |w| - 1) == TripleMedian(segment, n - 1);
    if peak != 0 {
      MedianGrows(segment, peak);
    }
    forall i | NewestGroup(w, now, 30000, i)
      ensures MedianAt(w, i) <= MedianAt(w, |w| - 1)
    {
      var j := n - |w| + i;
      assert MedianAt(w, i) == TripleMedian(segment, j);
      MedianIsOf(segment, j);
      MedianGrows(segment, TripleMedian(segment, j));
    }
  }

  lemma MedianIsOf(segment: seq<U16>, j: int)
    requires 2 <= j < |segment|
    ensures IsMedianOf(segment, TripleMedian(segment, j))
  {
  }

  /** Once charging, readings that never fall below an earlier one since the last
      load change never release, as long as no invalid run reaches 60 s. */
  lemma {:induction false} NeverFallingKeepsCharging(inputs: seq<Input>, from: nat, k: nat)
    requires from <= k <= |inputs|
    requires At(START, inputs, from).s.charging
    requires forall j :: from <= j < k ==> !TimesOut(At(START, inputs, j).s, inputs[j])
    requires forall j :: from < j <= k ==> NeverFalls(At(START, inputs, j).segment)
    ensures At(START, inputs, k).s.charging
    decreases k - from
  {
    hide Track, TimesOut, NeverFalls, Sound;
    if from < k {
      NeverFallingKeepsCharging(inputs, from, k - 1);
      StreaksAreEvidence(inputs, k - 1);
      assert NeverFalls(At(START, inputs, k).segment);
      NeverFallingStep(At(START, inputs, k - 1), inputs[k - 1]);
    }
  }

  lemma NeverFallingStep(t: Tracked, input: Input)
    requires Sound(t) && t.s.charging && !TimesOut(t.s, input) && NeverFalls(Track(t, input).segment)
    ensures Track(t, input).s.charging
  {
    hide Accept, Append, Falling, Step, MedianOf, IsMedianOf, NeverFalls;
    var next, loaded := Track(t, input), NoteLoad(t.s, input.now, input.pwm);
    var segment := if LoadChanges(t.s, input.pwm) then [] else t.segment;
    if Accepts(t.s, input) {
      Accepted(t, input);
      AppendKeepsSuffix(loaded.samples, segment, Sample(input.now, input.mv));
      if |NextWindow(t.s, input)| >= 3 {
        if loaded.peak != 0 {
          LongerSegmentKeepsMedian(segment, input.mv, loaded.peak);
        }
        SoundStep(t, input);
        SegmentIsPlausible(t, input);
        NeverFallingIsNotFalling(NextWindow(t.s, input), next.segment, input.now, loaded.peak);
      }
      ChargingAccept(loaded.(invalidActive := false), input.now, input.mv);
    } else {
      NotAccepted(t, input);
    }
  }

  lemma SegmentIsPlausible(t: Tracked, input: Input)
    requires Sound(t)
    ensures forall v :: v in Track(t, input).segment ==> 2800 <= v <= 4350
  {
    hide Step, FallsNow, IsMedianOf;
  }

  ghost predicate AllInvalid(inputs: seq<Input>) {
    forall i :: 0 <= i < |inputs| ==> inputs[i].Update? && !Plausible(inputs[i].mv, inputs[i].valid)
  }

  function After(s: State, inputs: seq<Input>): State {
    if inputs == [] then s else Step(After(s, inputs[..|inputs| - 1]), inputs[|inputs| - 1])
  }

  /** Invalid readings release charging, if and only if one of them comes 60 s or
      more after the first, whatever the load does meanwhile. */
  lemma {:induction false} InvalidRunReleases(s: State, inputs: seq<Input>)
    requires s.charging && !s.invalidActive && AllInvalid(inputs) && inputs != []
    ensures var s' := After(s, inputs);
            s'.invalidActive && s'.invalidSince == inputs[0].now &&
            (!s'.charging <==> exists i :: 0 <= i < |inputs| && Sub32(inputs[i].now, inputs[0].now) >= 60000)
    decreases |inputs|
  {
    hide Accept;
    var n := |inputs|;
    if n == 1 {
      assert After(s, inputs[..0]) == s;
      assert Sub32(inputs[0].now, inputs[0].now) == 0;
    } else {
      var front := inputs[..n - 1];
      InvalidRunReleases(s, front);
      assert forall i :: 0 <= i < n - 1 ==> front[i] == inputs[i];
    }
  }

  // --- A lasting drop -----------------------------------------------------------------------

  /** Charging under one load, with no evidence yet, and all of the window and the
      highest median within 24 mV. */
  ghost predicate OnPlateau(s: State, pwm: U8, base: nat) {
    s.charging && s.havePwm && s.lastPwm == pwm && !s.haveTransition && s.unplugEvidence == 0 &&
    4 <= |s.samples| && (s.peak == 0 || base <= s.peak <= base + 24) && base + 24 <= 4350 &&
    forall i :: 0 <= i < |s.samples| ==> base <= s.samples[i].mv <= base + 24
  }

  function Readings4(pwm: U8, r: seq<Sample>): (inputs: seq<Input>)
    requires |r| == 4
    ensures |inputs| == 4 && forall i :: 0 <= i < 4 ==> inputs[i] == Update(r[i].at, r[i].mv, true, pwm)
  {
    seq(4, i requires 0 <= i < 4 => Update(r[i].at, r[i].mv, true, pwm))
  }

  function WindowAfter(w: seq<Sample>, r: seq<Sample>): seq<Sample> {
    if r == [] then w else Append(WindowAfter(w, r[..|r| - 1]), r[|r| - 1])
  }

  lemma {:induction false} WindowShape(w: seq<Sample>, r: seq<Sample>)
    requires |w| <= CAPACITY && |r| <= 4
    ensures var after := WindowAfter(w, r);
            |after| == Min(|w| + |r|, CAPACITY) && |r| <= |after| &&
            (forall i :: 0 <= i < |r| ==> after[|after| - |r| + i] == r[i]) &&
            forall i :: 0 <= i < |after| - |r| ==> after[i] in w
  {
    if r != [] {
      WindowShape(w, r[..|r| - 1]);
    }
  }

  /** One accepted reading of a charging detector. */
  lemma ChargingReading(s: State, now: U32, mv: U16, pwm: U8)
    requires s.charging && s.havePwm && s.lastPwm == pwm && !s.haveTransition && 2800 <= mv <= 4350
    requires s.unplugEvidence < 3 && |s.samples| >= 2
    ensures var s', w := Step(s, Update(now, mv, true, pwm)), Append(s.samples, Sample(now, mv));
            var falls := Falling(w, now, s.peak);
            (s'.charging <==> !(falls && s.unplugEvidence == 2)) &&
            (s'.charging ==>
               s'.samples == w && s'.peak == Max(s.peak, MedianAt(w, |w| - 1)) && s'.havePwm && s'.lastPwm == pwm &&
               !s'.haveTransition && s'.unplugEvidence == if falls then s.unplugEvidence + 1 else 0)
  {
    hide Falling, MedianAt, Append;
  }

  ghost predicate InBand(w: seq<Sample>, from: int, to: int, low: int, width: nat) {
    forall i :: 0 <= from <= i < to <= |w| ==> low <= w[i].mv <= low + width
  }

  /** The window reaches 30 s back in steps of at most 30 s. */
  ghost predicate Reaches(w: seq<Sample>, now: U32) {
    |w| >= 6 && AgesFall(w, now) && Age(w, now, |w| - 1) == 0 && Age(w, now, 2) >= 30000
  }

  /** With one low reading the newest median is still high. */
  lemma FirstLowIsKept(w: seq<Sample>, now: U32, peak: U16, base: nat)
    requires |w| >= 3 && InBand(w, 0, |w| - 1, base, 24) && base + 24 <= 4350
    requires peak == 0 || base <= peak <= base + 24
    ensures !Falling(w, now, peak) && base <= MedianAt(w, |w| - 1) <= base + 24
  {
    hide MedianOf, Falling;
    var n := |w|;
    MedianWithinBand(w[n - 3].mv, w[n - 2].mv, w[n - 1].mv, base, base + 24);
    FallingMeans(w, now, peak);
    forall i | NewestGroup(w, now, 30000, i)
      ensures base <= MedianAt(w, i) <= base + 24
    {
      MedianWithinBand(w[i - 2].mv, w[i - 1].mv, w[i].mv, base, base + 24);
    }
  }

  lemma LowMedian(w: seq<Sample>, low: nat)
    requires |w| >= 3 && InBand(w, |w| - 2, |w|, low, 8)
    ensures low <= MedianAt(w, |w| - 1) <= low + 8
  {
    hide MedianOf;
    var n := |w|;
    MedianWithinBand(w[n - 3].mv, w[n - 2].mv, w[n - 1].mv, low, low + 8);
  }

  /** Two to four low readings after a plateau that reaches 30 s back. */
  lemma DropFalls(w: seq<Sample>, now: U32, peak: U16, base: nat, low: nat, j: nat)
    requires 2 <= j <= 4 && Reaches(w, now) && InBand(w, 0, |w| - j, base, 24) && InBand(w, |w| - j, |w|, low, 8)
    requires low + 8 + 35 <= base && base + 24 <= 4350
    requires j == 4 ==> Age(w, now, |w| - 3) < 30000
    ensures Falling(w, now, peak)
  {
    hide MedianOf, Falling;
    var n := |w|;
    LowMedian(w, low);
    assert Age(w, now, n - 2) <= Age(w, now, n - 1) + 30000;
    assert Age(w, now, n - 3) <= Age(w, now, n - 2) + 30000;
    AnchorIsFound(w, now, n - 3);
    AnchorIsNewestGroup(w, now, 30000, n - 3);
    var a := Anchor(w, now, 30000, n - 3).value;
    MedianWithinBand(w[a - 2].mv, w[a - 1].mv, w[a].mv, base, base + 24);
    FallingMeans(w, now, peak);
  }

  /** The window when reading j of the drop arrives, with the plateau before it. */
  lemma DropWindow(s: State, pwm: U8, r: seq<Sample>, base: nat, low: nat, j: nat)
    requires OnPlateau(s, pwm, base) && |s.samples| <= CAPACITY && 1 <= j <= |r| == 4
    requires InBand(r, 0, 4, low, 8)
    ensures var w := WindowAfter(s.samples, r[..j]);
            |w| >= 5 && InBand(w, 0, |w| - j, base, 24) && InBand(w, |w| - j, |w|, low, 8) &&
            w == Append(WindowAfter(s.samples, r[..j - 1]), r[j - 1])
  {
    WindowShape(s.samples, r[..j]);
    assert r[..j][..j - 1] == r[..j - 1];
    var w := WindowAfter(s.samples, r[..j]);
    forall i | |w| - j <= i < |w|
      ensures w[i] == r[i - (|w| - j)]
    {
      assert w[|w| - j + (i - (|w| - j))] == r[..j][i - (|w| - j)];
    }
  }

  ghost predicate CountsAt(w: seq<Sample>, r: seq<Sample>, j: int, peak: U16)
    requires |r| == 4 && 1 <= j <= 4
  {
    |WindowAfter(w, r[..j])| >= 3 && Falling(WindowAfter(w, r[..j]), r[j - 1].at, peak)
  }

  /** The readings of a drop count from the second on. */
  ghost predicate CountsFromSecond(w: seq<Sample>, r: seq<Sample>, base: nat)
    requires |r| == 4
  {
    forall peak: U16, j :: base <= peak && 2 <= j <= 4 ==> CountsAt(w, r, j, peak)
  }

  lemma DropReleases(s: State, pwm: U8, r: seq<Sample>, base: nat, low: nat)
    requires OnPlateau(s, pwm, base) && |s.samples| <= CAPACITY && |r| == 4 && InBand(r, 0, 4, low, 8)
    requires 2800 <= low && low + 8 <= base && CountsFromSecond(s.samples, r, base)
    ensures forall k :: 0 <= k <= 4 ==> (After(s, Readings4(pwm, r)[..k]).charging <==> k < 4)
  {
    hide Step, Falling, MedianAt, WindowAfter;
    var inputs := Readings4(pwm, r);
    assert inputs[..0] == [];
    assert r[..0] == [];
    NoReadings(s.samples);
    for k := 0 to 4
      invariant forall i :: 0 <= i <= k ==> (After(s, inputs[..i]).charging <==> i < 4)
      invariant k < 4 ==>
                  var t := After(s, inputs[..k]);
                  t.havePwm && t.lastPwm == pwm && !t.haveTransition && t.samples == WindowAfter(s.samples, r[..k]) &&
                  |t.samples| >= 4 && t.unplugEvidence == (if k < 2 then 0 else k - 1) &&
                  (if k == 0 then t.peak == s.peak else base <= t.peak <= base + 24)
    {
      var t := After(s, inputs[..k]);
      DropWindow(s, pwm, r, base, low, k + 1);
      var w := WindowAfter(s.samples, r[..k + 1]);
      if k == 0 {
        FirstLowIsKept(w, r[0].at, s.peak, base);
      } else {
        LowMedian(w, low);
        assert CountsAt(s.samples, r, k + 1, t.peak);
      }
      ChargingReading(t, r[k].at, r[k].mv, pwm);
      assert inputs[..k + 1][..k] == inputs[..k];
    }
  }

  lemma NoReadings(w: seq<Sample>)
    ensures WindowAfter(w, []) == w
  {
  }

  /** A lasting drop of 35 mV or more is released at its fourth reading, the third
      that counts, and not before, if the window reaches 30 s back from the second
      one on and the second is less than 30 s old at the fourth. */
  lemma DropIsReported(s: State, pwm: U8, r: seq<Sample>, base: nat, low: nat)
    requires OnPlateau(s, pwm, base) && |s.samples| <= CAPACITY && |r| == 4 && InBand(r, 0, 4, low, 8)
    requires 2800 <= low && low + 8 + 35 <= base
    requires forall j :: 2 <= j <= 4 ==> Reaches(WindowAfter(s.samples, r[..j]), r[j - 1].at)
    requires Sub32(r[3].at, r[1].at) < 30000
    ensures forall k :: 0 <= k <= 4 ==> (After(s, Readings4(pwm, r)[..k]).charging <==> k < 4)
  {
    hide Falling, WindowAfter, Reaches;
    forall peak: U16, j | base <= peak && 2 <= j <= 4
      ensures CountsAt(s.samples, r, j, peak)
    {
      DropWindow(s, pwm, r, base, low, j);
      if j == 4 {
        SecondOfFour(s.samples, r);
      }
      ReachesFar(WindowAfter(s.samples, r[..j]), r[j - 1].at);
      DropFalls(WindowAfter(s.samples, r[..j]), r[j - 1].at, peak, base, low, j);
    }
    DropReleases(s, pwm, r, base, low);
  }

  lemma ReachesFar(w: seq<Sample>, now: U32)
    requires Reaches(w, now)
    ensures |w| >= 6
  {
  }

  lemma SecondOfFour(w: seq<Sample>, r: seq<Sample>)
    requires |r| == 4 && |w| <= CAPACITY
    ensures var after := WindowAfter(w, r[..4]); |after| >= 4 && after[|after| - 3] == r[1]
  {
    WindowShape(w, r[..4]);
    var after := WindowAfter(w, r[..4]);
    assert after[|after| - 4 + 1] == r[..4][1];
  }

  /** A lasting drop of 45 mV or more below the plateau is released at its fourth
      reading whatever the times are. */
  lemma DeepDropIsReported(s: State, pwm: U8, r: seq<Sample>, base: nat, low: nat)
    requires OnPlateau(s, pwm, base) && |s.samples| <= CAPACITY && |r| == 4 && InBand(r, 0, 4, low, 8)
    requires 2800 <= low && low + 8 + 45 <= base
    ensures forall k :: 0 <= k <= 4 ==> (After(s, Readings4(pwm, r)[..k]).charging <==> k < 4)
  {
    hide Falling, WindowAfter, MedianAt;
    forall peak: U16, j | base <= peak && 2 <= j <= 4
      ensures CountsAt(s.samples, r, j, peak)
    {
      DropWindow(s, pwm, r, base, low, j);
      var w := WindowAfter(s.samples, r[..j]);
      LowMedian(w, low);
      FallingMeans(w, r[j - 1].at, peak);
    }
    DropReleases(s, pwm, r, base, low);
  }

  function Cadence(start: nat, n: nat): (times: seq<nat>)
    ensures |times| == n && forall i :: 0 <= i < n ==> times[i] == start + i * 5000
  {
    seq(n, i requires 0 <= i < n => start + i * 5000)
  }

  lemma {:induction false} WindowIsNewest(w: seq<Sample>, n: nat, j: nat)
    requires n + j <= |w| && j <= 4
    ensures WindowAfter(Newest(w[..n]), w[n..n + j]) == Newest(w[..n + j])
  {
    hide Append, Newest;
    if j > 0 {
      WindowIsNewest(w, n, j - 1);
      var r := w[n..n + j];
      assert r[..j - 1] == w[n..n + j - 1] && r[j - 1] == w[n + j - 1] && |r| == j;
      NewestGrows(w, n + j - 1);
    } else {
      assert w[n..n] == [];
    }
  }

  ghost predicate EveryFiveSeconds(w: seq<Sample>, now: U32) {
    forall i :: 0 <= i < |w| ==> Age(w, now, i) == (|w| - 1 - i) * 5000
  }

  lemma CadenceAges(start: nat, levels: seq<U16>, k: nat)
    requires 0 < k <= |levels|
    ensures var all := Samples(Cadence(start, |levels|), levels);
            var w := Newest(all[..k]);
            |w| == (if k <= CAPACITY then k else CAPACITY) &&
            EveryFiveSeconds(w, all[k - 1].at)
  {
    var times := Cadence(start, |levels|);
    var all := Samples(times, levels);
    var w, off, now := Newest(all[..k]), if k <= CAPACITY then 0 else k - CAPACITY, all[k - 1].at;
    forall i | 0 <= i < |w|
      ensures Age(w, now, i) == (|w| - 1 - i) * 5000
    {
      AgeIsElapsed(times, levels, off + i, k - 1);
      assert w[i] == all[off + i];
    }
  }

  lemma CadenceReaches(start: nat, levels: seq<U16>, k: nat)
    requires 9 <= k <= |levels|
    ensures var w := Newest(Samples(Cadence(start, |levels|), levels)[..k]);
            Reaches(w, Samples(Cadence(start, |levels|), levels)[k - 1].at) &&
            Age(w, Samples(Cadence(start, |levels|), levels)[k - 1].at, |w| - 3) == 10000
  {
    hide Age, Newest, Cadence;
    CadenceAges(start, levels, k);
  }

  /** At the device's own cadence of 5 s: after seven readings or more on a plateau,
      a lasting drop of 35 mV is released at its fourth reading and not before. */
  lemma ChargerIsReleasedAtCadence(s: State, pwm: U8, start: nat, levels: seq<U16>, n: nat, base: nat, low: nat)
    requires n >= 7 && |levels| == n + 4 && 2800 <= low && low + 8 + 35 <= base
    requires OnPlateau(s, pwm, base) && s.samples == Newest(Samples(Cadence(start, n + 4), levels)[..n])
    requires forall i :: n <= i < n + 4 ==> low <= levels[i] <= low + 8
    ensures var r := Samples(Cadence(start, n + 4), levels)[n..];
            forall k :: 0 <= k <= 4 ==> (After(s, Readings4(pwm, r)[..k]).charging <==> k < 4)
  {
    hide Reaches, WindowAfter, OnPlateau, Newest;
    var all := Samples(Cadence(start, n + 4), levels);
    var r := all[n..];
    forall j | 2 <= j <= 4
      ensures Reaches(WindowAfter(s.samples, r[..j]), r[j - 1].at)
    {
      assert r[..j] == all[n..n + j];
      WindowIsNewest(all, n, j);
      CadenceReaches(start, levels, n + j);
    }
    AgeIsElapsed(Cadence(start, n + 4), levels, n + 1, n + 3);
    NewestFits(all[..n]);
    DropIsReported(s, pwm, r, base, low);
  }

  lemma NewestFits(w: seq<Sample>)
    ensures |Newest(w)| <= CAPACITY
  {
  }

  // --- Exactly when charging is reported ------------------------------------------------------

  /** A run of accepted readings that speak for a charger: how many, and the median
      at which it began. */
  datatype Candidate = Candidate(count: nat, level: int)

  const NO_CANDIDATE := Candidate(0, 0)

  /** The candidate after one more accepted reading: it begins with a rise, and goes
      on with rises and with medians at most 8 mV below its beginning. */
  ghost function Extended(c: Candidate, w: seq<Sample>, now: U32): Candidate
    requires |w| >= 3
  {
    var recent := MedianAt(w, |w| - 1);
    var rises := RoseBy(w, now, 30000, 35) || (RoseBy(w, now, 90000, 25) && MostlyRising(w, now));
    if rises && c.count == 0 then Candidate(1, recent)
    else if rises || (c.count > 0 && c.level - recent <= 8) then Candidate(c.count + 1, c.level)
    else NO_CANDIDATE
  }

  ghost function CandidateAt(inputs: seq<Input>, k: nat): Candidate
    requires k <= |inputs|
  {
    if k == 0 then NO_CANDIDATE
    else
      var t, input := At(START, inputs, k - 1), inputs[k - 1];
      var before := if LoadChanges(t.s, input.pwm) || t.s.charging then NO_CANDIDATE else CandidateAt(inputs, k - 1);
      if TimesOut(t.s, input) || t.s.charging then NO_CANDIDATE
      else if !Accepts(t.s, input) || |NextWindow(t.s, input)| < 3 then before
      else Extended(before, NextWindow(t.s, input), input.now)
  }

  /** What an idle detector makes of one accepted reading. */
  lemma IdleReading(s: State, now: U32, mv: U16, c: Candidate)
    requires !s.charging && s.chargeEvidence == c.count < 3 && (c.count > 0 ==> s.candidateLevel == c.level)
    ensures var s', w := Accept(s, now, mv), Append(s.samples, Sample(now, mv));
            if |w| < 3 then
              !s'.charging && s'.chargeEvidence == s.chargeEvidence && s'.candidateLevel == s.candidateLevel
            else
              var c' := Extended(c, w, now);
              (s'.charging <==> c'.count == 3) && s'.chargeEvidence == c'.count <= 3 &&
              (c'.count > 0 ==> s'.candidateLevel == c'.level)
  {
    hide Append, MedianOf, MedianAt, Rising, RoseBy, MostlyRising;
    var w := Append(s.samples, Sample(now, mv));
    RisingMeans(w, now);
  }

  lemma {:induction false} CandidateIsEvidence(inputs: seq<Input>, k: nat)
    requires k <= |inputs|
    ensures var s, c := At(START, inputs, k).s, CandidateAt(inputs, k);
            !s.charging ==> s.chargeEvidence == c.count < 3 && (c.count > 0 ==> s.candidateLevel == c.level)
  {
    hide Track, Extended, NextWindow;
    if k > 0 {
      CandidateIsEvidence(inputs, k - 1);
      CandidateStep(inputs, k - 1);
    }
  }

  lemma CandidateStep(inputs: seq<Input>, k: nat)
    requires k < |inputs|
    requires var s, c := At(START, inputs, k).s, CandidateAt(inputs, k);
             !s.charging ==> s.chargeEvidence == c.count < 3 && (c.count > 0 ==> s.candidateLevel == c.level)
    ensures var s, s', c := At(START, inputs, k).s, At(START, inputs, k + 1).s, CandidateAt(inputs, k + 1);
            (!s'.charging ==> s'.chargeEvidence == c.count < 3 && (c.count > 0 ==> s'.candidateLevel == c.level)) &&
            (!s.charging ==> (s'.charging <==> c.count == 3))
  {
    hide Accept, Append, FallsNow, Step, Extended, Sound;
    var t, input := At(START, inputs, k), inputs[k];
    StreaksAreEvidence(inputs, k);
    assert At(START, inputs, k + 1) == Track(t, input);
    var loaded := NoteLoad(t.s, input.now, input.pwm).(invalidActive := false);
    if Accepts(t.s, input) {
      Accepted(t, input);
      if t.s.charging {
        ChargingIsSound(t);
        ReleasedIsCleared(loaded, input.now, input.mv);
      } else {
        var before := if LoadChanges(t.s, input.pwm) then NO_CANDIDATE else CandidateAt(inputs, k);
        IdleReading(loaded, input.now, input.mv, before);
      }
    } else {
      NotAccepted(t, input);
      if TimesOut(t.s, input) {
        TimeoutReleases(t.s, input);
        TrackSteps(t, input);
      }
    }
  }

  lemma ReleasedIsCleared(s: State, now: U32, mv: U16)
    requires s.charging && s.unplugEvidence < 3
    ensures !Accept(s, now, mv).charging ==> Accept(s, now, mv).chargeEvidence == 0
  {
    hide Append, MedianOf, MedianAt, Falling;
  }

  /** In every run, charging is reported at the third reading of a candidate, and
      nowhere else. */
  lemma ReportsExactly(inputs: seq<Input>, k: nat)
    requires k < |inputs| && !At(START, inputs, k).s.charging
    ensures At(START, inputs, k + 1).s.charging <==> CandidateAt(inputs, k + 1).count == 3
  {
    CandidateIsEvidence(inputs, k);
    CandidateStep(inputs, k);
  }

  // --- Settling after a load change -----------------------------------------------------------

  /** After a load change, plausible readings under the new load are accepted once
      15 s have passed, or 45 s while charging, and not before. */
  lemma SettlesFor(s: State, changed: U32, now: U32, mv: U16, pwm: U8)
    requires s.havePwm && s.lastPwm != pwm && 2800 <= mv <= 4350
    ensures var loaded := Step(s, Load(changed, pwm));
            Step(loaded, Update(now, mv, true, pwm)).samples ==
            if Sub32(now, changed) >= (if s.charging then 45000 else 15000) then [Sample(now, mv)] else []
  {
    hide WhileCharging, WhileIdle;
  }
}
