/** What the charge trend detector guarantees over whole runs. */
module ChargeTrendRuns {
  import opened Prelude
  import opened Arithmetic
  import opened ChargeTrend

  // --- Observing a run ------------------------------------------------------

  /** A detector state with the samples accepted since the last load change and
      the length of the current streak of falling accepted samples. */
  datatype Tracked = Tracked(s: State, segment: seq<U16>, falls: nat)

  const START := Tracked(INITIAL, [], 0)

  predicate Accepts(s: State, input: Input) {
    input.Update? && Plausible(input.mv, input.valid) &&
    !Settling(NoteLoad(s, input.now, input.pwm), input.now)
  }

  /** The window as this input leaves it, before any decision is taken. */
  function NextWindow(s: State, input: Input): seq<Sample>
    requires Accepts(s, input)
  {
    Append(NoteLoad(s, input.now, input.pwm).samples, Sample(input.now, input.mv))
  }

  /** While charging, this accepted sample counts against the charger. */
  predicate FallsNow(s: State, input: Input)
    requires Accepts(s, input)
  {
    var w := NextWindow(s, input);
    s.charging && |w| >= 3 && Falling(w, input.now, NoteLoad(s, input.now, input.pwm).peak)
  }

  /** An invalid reading that completes 60 s of invalid readings. */
  predicate TimesOut(s: State, input: Input) {
    input.Update? && !Plausible(input.mv, input.valid) && s.invalidActive &&
    Sub32(input.now, s.invalidSince) >= INVALID_FAIL_SAFE
  }

  function Track(t: Tracked, input: Input): Tracked {
    var changed := LoadChanges(t.s, input.pwm);
    var segment := if changed then [] else t.segment;
    var falls := if changed then 0 else t.falls;
    var s := Step(t.s, input);
    if Accepts(t.s, input)
    then Tracked(s, segment + [input.mv], if FallsNow(t.s, input) then falls + 1 else 0)
    else Tracked(s, segment, falls)
  }

  /** The tracked state after the first k inputs. */
  ghost function At(t: Tracked, inputs: seq<Input>, k: nat): Tracked
    requires k <= |inputs|
  {
    if k == 0 then t else Track(At(t, inputs, k - 1), inputs[k - 1])
  }

  // --- Bands and medians ------------------------------------------------------

  function Magnitude(d: int): int {
    if d < 0 then -d else d
  }

  predicate Within(v: int, low: int, high: int) {
    low <= v <= high
  }

  predicate TwoWithin(a: int, b: int, c: int, low: int, high: int) {
    (Within(a, low, high) && Within(b, low, high)) ||
    (Within(a, low, high) && Within(c, low, high)) ||
    (Within(b, low, high) && Within(c, low, high))
  }

  predicate TripleWithin(segment: seq<U16>, i: int, low: int, width: nat)
    requires 2 <= i < |segment|
  {
    TwoWithin(segment[i - 2], segment[i - 1], segment[i], low, low + width)
  }

  function TripleMedian(segment: seq<U16>, i: int): U16
    requires 2 <= i < |segment|
  {
    MedianOf(segment[i - 2], segment[i - 1], segment[i])
  }

  ghost predicate BandedAt(segment: seq<U16>, low: int, width: nat) {
    forall i :: 2 <= i < |segment| ==> TripleWithin(segment, i, low, width)
  }

  /** Two of any three consecutive samples lie in one band of the given width. */
  ghost predicate Banded(segment: seq<U16>, width: nat) {
    exists low :: BandedAt(segment, low, width)
  }

  /** The window holds the newest samples of the segment. */
  ghost predicate Suffix(w: seq<Sample>, segment: seq<U16>) {
    |w| <= |segment| &&
    forall i :: 0 <= i < |w| ==> w[i].mv == segment[|segment| - |w| + i]
  }

  /** A median of three ignores one outlier. */
  lemma MedianWithinBand(a: U16, b: U16, c: U16, low: int, high: int)
    requires TwoWithin(a, b, c, low, high)
    ensures low <= MedianOf(a, b, c) <= high
  {
  }

  lemma WindowMedian(w: seq<Sample>, segment: seq<U16>, low: int, width: nat, i: nat)
    requires Suffix(w, segment) && BandedAt(segment, low, width) && 2 <= i < |w|
    ensures low <= MedianAt(w, i) <= low + width
  {
    var j := |segment| - |w| + i;
    assert TripleWithin(segment, j, low, width);
    assert w[i - 2].mv == segment[j - 2] && w[i - 1].mv == segment[j - 1] && w[i].mv == segment[j];
    MedianWithinBand(segment[j - 2], segment[j - 1], segment[j], low, low + width);
  }

  /** Whatever anchor the search finds, the change it reports fits the band. */
  lemma DeltaWithinBand(w: seq<Sample>, segment: seq<U16>, low: int, width: nat, now: U32, window: U32)
    requires Suffix(w, segment) && BandedAt(segment, low, width)
    requires DeltaOver(w, now, window).Some?
    ensures Magnitude(DeltaOver(w, now, window).value) <= width
  {
    var a := Anchor(w, now, window, |w| - 3);
    WindowMedian(w, segment, low, width, a.value);
    WindowMedian(w, segment, low, width, |w| - 1);
  }

  lemma AppendKeepsSuffix(w: seq<Sample>, segment: seq<U16>, sample: Sample)
    requires Suffix(w, segment)
    ensures Suffix(Append(w, sample), segment + [sample.mv])
  {
    var r, longer := Append(w, sample), segment + [sample.mv];
    forall i | 0 <= i < |r|
      ensures r[i].mv == longer[|longer| - |r| + i]
    {
      if i < |r| - 1 {
        var shift := if |w| >= CAPACITY then 1 else 0;
        assert r[i] == w[i + shift];
      }
    }
  }

  // --- Steady voltage never looks like a charger ------------------------------

  ghost predicate Quiet(t: Tracked) {
    !t.s.charging && t.s.chargeEvidence == 0 && Suffix(t.s.samples, t.segment)
  }

  lemma BandedWindowIsNotRising(w: seq<Sample>, segment: seq<U16>, now: U32)
    requires Suffix(w, segment) && Banded(segment, 24)
    ensures !Rising(w, now)
  {
    var low :| BandedAt(segment, low, 24);
    if DeltaOver(w, now, 30000).Some? {
      DeltaWithinBand(w, segment, low, 24, now, 30000);
    }
    if DeltaOver(w, now, 90000).Some? {
      DeltaWithinBand(w, segment, low, 24, now, 90000);
    }
    hide DeltaOver, RisingIsConsistent;
  }

  /** Accepting a sample without a candidate and without a rise changes nothing but the window. */
  lemma IdleAccept(s: State, now: U32, mv: U16)
    requires !s.charging && s.chargeEvidence == 0
    requires !Rising(Append(s.samples, Sample(now, mv)), now)
    ensures var s' := Accept(s, now, mv);
            !s'.charging && s'.chargeEvidence == 0 && s'.samples == Append(s.samples, Sample(now, mv))
  {
    hide DeltaOver, Rising, MedianOf, Append;
  }

  /** An input that is not accepted leaves the window or empties it. */
  lemma NotAccepted(t: Tracked, input: Input)
    requires !Accepts(t.s, input)
    ensures var s', loaded := Track(t, input).s, NoteLoad(t.s, input.now, input.pwm);
            (s'.samples == loaded.samples || s'.samples == []) &&
            (s' == loaded.(invalidActive := s'.invalidActive, invalidSince := s'.invalidSince) ||
             (TimesOut(t.s, input) && !s'.charging && s'.chargeEvidence == 0))
  {
    hide Accept, Append;
  }

  /** An accepted input acts on the state after the load change. */
  lemma Accepted(t: Tracked, input: Input)
    requires Accepts(t.s, input)
    ensures var loaded := NoteLoad(t.s, input.now, input.pwm);
            Track(t, input).s == Accept(loaded.(invalidActive := false), input.now, input.mv)
    ensures NoteLoad(t.s, input.now, input.pwm).charging == t.s.charging
    ensures Track(t, input).segment == (if LoadChanges(t.s, input.pwm) then [] else t.segment) + [input.mv]
  {
    hide Accept, Append, FallsNow;
  }

  lemma QuietStep(t: Tracked, input: Input)
    requires Quiet(t) && Banded(Track(t, input).segment, 24)
    ensures Quiet(Track(t, input))
  {
    hide Accept, Append, Rising, FallsNow, Step, Banded;
    var next := Track(t, input);
    var loaded := NoteLoad(t.s, input.now, input.pwm);
    var segment := if LoadChanges(t.s, input.pwm) then [] else t.segment;
    assert !loaded.charging && loaded.chargeEvidence == 0 && Suffix(loaded.samples, segment);
    if Accepts(t.s, input) {
      Accepted(t, input);
      AppendKeepsSuffix(loaded.samples, segment, Sample(input.now, input.mv));
      BandedWindowIsNotRising(NextWindow(t.s, input), next.segment, input.now);
      IdleAccept(loaded.(invalidActive := false), input.now, input.mv);
    } else {
      NotAccepted(t, input);
    }
  }

  /** In a run that starts without a candidate, if every constant-load segment
      keeps two of any three consecutive accepted samples in a band of 24 mV,
      the detector never reports charging, whatever happens at load changes. */
  lemma {:induction false} SteadyVoltageNeverCharges(t: Tracked, inputs: seq<Input>, k: nat)
    requires Quiet(t) && k <= |inputs|
    requires forall j :: 0 < j <= k ==> Banded(At(t, inputs, j).segment, 24)
    ensures Quiet(At(t, inputs, k))
    ensures !At(t, inputs, k).s.charging
  {
    if k > 0 {
      SteadyVoltageNeverCharges(t, inputs, k - 1);
      assert Banded(At(t, inputs, k).segment, 24);
      QuietStep(At(t, inputs, k - 1), inputs[k - 1]);
    }
  }

  lemma StartIsQuiet()
    ensures Quiet(START) && Sound(START)
  {
  }

  // --- Charging is not given up lightly ---------------------------------------

  /** m is the median of some three consecutive samples of the segment. */
  ghost predicate IsMedianOf(segment: seq<U16>, m: U16) {
    exists i :: 2 <= i < |segment| && m == TripleMedian(segment, i)
  }

  /** Holds in every state of every run. */
  ghost predicate Sound(t: Tracked) {
    Suffix(t.s.samples, t.segment) &&
    (forall v :: v in t.segment ==> 2800 <= v <= 4350) &&
    (t.s.charging ==>
       (t.s.peak == 0 || IsMedianOf(t.segment, t.s.peak)) &&
       t.s.unplugEvidence <= t.falls && t.s.unplugEvidence < 3 &&
       (|t.s.samples| < 3 ==> t.s.unplugEvidence == 0))
  }

  lemma SegmentMedian(w: seq<Sample>, segment: seq<U16>)
    requires Suffix(w, segment) && |w| >= 3
    requires forall v :: v in segment ==> 2800 <= v <= 4350
    ensures IsMedianOf(segment, MedianAt(w, |w| - 1))
    ensures 2800 <= MedianAt(w, |w| - 1) <= 4350
  {
    var j := |segment| - 1;
    assert w[|w| - 3].mv == segment[j - 2] && w[|w| - 2].mv == segment[j - 1] && w[|w| - 1].mv == segment[j];
    assert segment[j - 2] in segment && segment[j - 1] in segment && segment[j] in segment;
    assert MedianAt(w, |w| - 1) == TripleMedian(segment, j);
  }

  lemma LongerSegmentKeepsMedian(segment: seq<U16>, v: U16, m: U16)
    requires IsMedianOf(segment, m)
    ensures IsMedianOf(segment + [v], m)
  {
    hide MedianOf;
    var i :| 2 <= i < |segment| && m == TripleMedian(segment, i);
    var longer := segment + [v];
    assert m == TripleMedian(longer, i);
  }

  /** What accepting a sample does to a charging detector. */
  lemma ChargingAccept(s: State, now: U32, mv: U16)
    requires s.charging && s.unplugEvidence < 3
    ensures var s', w := Accept(s, now, mv), Append(s.samples, Sample(now, mv));
            if |w| < 3 then s' == s.(samples := w, trend := Charging)
            else
              var recent := MedianAt(w, |w| - 1);
              var falls := Falling(w, now, s.peak);
              (s'.charging <==> !(falls && s.unplugEvidence == 2)) &&
              (s'.charging ==> s'.samples == w && s'.peak == Max(s.peak, recent) &&
                               s'.unplugEvidence == if falls then s.unplugEvidence + 1 else 0) &&
              (!s'.charging ==> s'.samples == [])
  {
    hide DeltaOver, MedianOf, Append, Falling;
  }

  /** What accepting a sample does to an idle detector. */
  lemma IdleAcceptKeepsWindow(s: State, now: U32, mv: U16)
    requires !s.charging
    ensures var s', w := Accept(s, now, mv), Append(s.samples, Sample(now, mv));
            s'.samples == w &&
            (s'.charging ==> |w| >= 3 && s'.peak == MedianAt(w, |w| - 1) && s'.unplugEvidence == 0)
  {
    hide DeltaOver, MedianOf, Append, Rising;
  }

  lemma SoundStep(t: Tracked, input: Input)
    requires Sound(t)
    ensures Sound(Track(t, input))
  {
    hide Accept, Append, Falling, Step, MedianOf, IsMedianOf;
    var next := Track(t, input);
    var loaded := NoteLoad(t.s, input.now, input.pwm);
    var segment := if LoadChanges(t.s, input.pwm) then [] else t.segment;
    assert Suffix(loaded.samples, segment);
    if Accepts(t.s, input) {
      Accepted(t, input);
      var w := NextWindow(t.s, input);
      AppendKeepsSuffix(loaded.samples, segment, Sample(input.now, input.mv));
      if |w| >= 3 {
        SegmentMedian(w, next.segment);
      }
      if t.s.charging {
        if loaded.peak != 0 {
          LongerSegmentKeepsMedian(segment, input.mv, loaded.peak);
        }
        ChargingAccept(loaded.(invalidActive := false), input.now, input.mv);
      } else {
        IdleAcceptKeepsWindow(loaded.(invalidActive := false), input.now, input.mv);
      }
    } else {
      NotAccepted(t, input);
    }
  }

  lemma {:induction false} RunsAreSound(t: Tracked, inputs: seq<Input>, k: nat)
    requires Sound(t) && k <= |inputs|
    ensures Sound(At(t, inputs, k))
  {
    hide Track, Sound;
    if k > 0 {
      RunsAreSound(t, inputs, k - 1);
      SoundStep(At(t, inputs, k - 1), inputs[k - 1]);
    }
  }

  /** A load change never releases a charging decision. */
  lemma LoadChangeKeepsCharging(s: State, now: U32, pwm: U8)
    ensures Step(s, Load(now, pwm)).charging == s.charging
    ensures LoadChanges(s, pwm) ==> Step(s, Load(now, pwm)).samples == []
  {
  }

  lemma BandedMedian(segment: seq<U16>, low: int, width: nat, m: U16)
    requires BandedAt(segment, low, width) && IsMedianOf(segment, m)
    ensures low <= m <= low + width
  {
    hide MedianOf;
    var i :| 2 <= i < |segment| && m == TripleMedian(segment, i);
    assert TripleWithin(segment, i, low, width);
    MedianWithinBand(segment[i - 2], segment[i - 1], segment[i], low, low + width);
  }

  lemma BandedWindowIsNotFalling(w: seq<Sample>, segment: seq<U16>, now: U32, peak: U16)
    requires Suffix(w, segment) && Banded(segment, 34) && |w| >= 3
    requires forall v :: v in segment ==> 2800 <= v <= 4350
    requires peak == 0 || IsMedianOf(segment, peak)
    ensures !Falling(w, now, peak)
  {
    hide DeltaOver, MedianAt, MedianOf, IsMedianOf, Suffix, BandedAt;
    var low :| BandedAt(segment, low, 34);
    SegmentMedian(w, segment);
    WindowMedian(w, segment, low, 34, |w| - 1);
    if DeltaOver(w, now, 30000).Some? {
      DeltaWithinBand(w, segment, low, 34, now, 30000);
    }
    if peak != 0 {
      BandedMedian(segment, low, 34, peak);
    }
  }

  lemma SteadyStepKeepsCharging(t: Tracked, input: Input)
    requires Sound(t) && t.s.charging && !TimesOut(t.s, input)
    requires Banded(Track(t, input).segment, 34)
    ensures Track(t, input).s.charging
  {
    hide Accept, Append, Falling, Step, MedianOf, Banded, IsMedianOf;
    var next := Track(t, input);
    var loaded := NoteLoad(t.s, input.now, input.pwm);
    var segment := if LoadChanges(t.s, input.pwm) then [] else t.segment;
    if Accepts(t.s, input) {
      var w := NextWindow(t.s, input);
      Accepted(t, input);
      ChargingAccept(loaded.(invalidActive := false), input.now, input.mv);
      if |w| >= 3 {
        SoundStep(t, input);
        AppendKeepsSuffix(loaded.samples, segment, Sample(input.now, input.mv));
        if loaded.peak != 0 {
          LongerSegmentKeepsMedian(segment, input.mv, loaded.peak);
        }
        BandedWindowIsNotFalling(w, next.segment, input.now, loaded.peak);
      }
    } else {
      NotAccepted(t, input);
    }
  }

  /** Once charging, and while two of any three consecutive samples accepted
      since the last load change lie in a band of 34 mV and no run of invalid
      readings reaches 60 s, charging is never released. */
  lemma {:induction false} SteadyVoltageKeepsCharging(inputs: seq<Input>, from: nat, k: nat)
    requires from <= k <= |inputs|
    requires At(START, inputs, from).s.charging
    requires forall j :: from <= j < k ==> !TimesOut(At(START, inputs, j).s, inputs[j])
    requires forall j :: from < j <= k ==> Banded(At(START, inputs, j).segment, 34)
    ensures At(START, inputs, k).s.charging
    decreases k - from
  {
    hide Track, TimesOut, Banded, Sound;
    if from < k {
      SteadyVoltageKeepsCharging(inputs, from, k - 1);
      StartIsQuiet();
      RunsAreSound(START, inputs, k - 1);
      assert Banded(At(START, inputs, k).segment, 34);
      SteadyStepKeepsCharging(At(START, inputs, k - 1), inputs[k - 1]);
    }
  }

  /** In every run, a release is either the 60 s fail-safe or the third falling
      accepted sample in a row without a load change in between. */
  lemma ReleaseNeedsThreeFalls(inputs: seq<Input>, k: nat)
    requires k < |inputs|
    requires At(START, inputs, k).s.charging && !At(START, inputs, k + 1).s.charging
    ensures TimesOut(At(START, inputs, k).s, inputs[k]) ||
            (Accepts(At(START, inputs, k).s, inputs[k]) && FallsNow(At(START, inputs, k).s, inputs[k]) &&
             At(START, inputs, k + 1).falls >= 3)
  {
    StartIsQuiet();
    RunsAreSound(START, inputs, k);
    var t, input := At(START, inputs, k), inputs[k];
    hide Accept, Append, Falling, Step, MedianOf;
    assert At(START, inputs, k + 1) == Track(t, input);
    if Accepts(t.s, input) {
      Accepted(t, input);
      ChargingAccept(NoteLoad(t.s, input.now, input.pwm).(invalidActive := false), input.now, input.mv);
    } else {
      NotAccepted(t, input);
    }
  }

  // --- A charger is noticed -----------------------------------------------------

  /** A run of plausible readings under one load, on a clock that wraps. */
  function Readings(times: seq<nat>, levels: seq<U16>, pwm: U8): (inputs: seq<Input>)
    requires |times| == |levels|
    ensures |inputs| == |times|
    ensures forall i :: 0 <= i < |inputs| ==> inputs[i] == Update(times[i] % WORD, levels[i], true, pwm)
  {
    seq(|times|, i requires 0 <= i < |times| => Update(times[i] % WORD, levels[i], true, pwm))
  }

  function Samples(times: seq<nat>, levels: seq<U16>): (w: seq<Sample>)
    requires |times| == |levels|
    ensures |w| == |times|
    ensures forall i :: 0 <= i < |w| ==> w[i] == Sample(times[i] % WORD, levels[i])
  {
    seq(|times|, i requires 0 <= i < |times| => Sample(times[i] % WORD, levels[i]))
  }

  ghost predicate AllPlausible(levels: seq<U16>) {
    forall i :: 0 <= i < |levels| ==> 2800 <= levels[i] <= 4350
  }

  function Newest(w: seq<Sample>): seq<Sample> {
    if |w| <= CAPACITY then w else w[|w| - CAPACITY..]
  }

  lemma NewestGrows(w: seq<Sample>, k: nat)
    requires k < |w|
    ensures Append(Newest(w[..k]), w[k]) == Newest(w[..k + 1])
    ensures |Newest(w[..k])| == Min(k, CAPACITY)
  {
    assert w[..k + 1] == w[..k] + [w[k]];
    if k < CAPACITY {
      assert Append(Newest(w[..k]), w[k]) == w[..k + 1];
    } else {
      var before, after := Newest(w[..k]), Newest(w[..k + 1]);
      assert before == w[k - CAPACITY..k] && after == w[k + 1 - CAPACITY..k + 1];
      assert Append(before, w[k]) == w[k + 1 - CAPACITY..k] + [w[k]];
    }
  }

  /** A plausible reading under an unchanged load is accepted and changes no load. */
  lemma LoadStep(s: State, now: U32, mv: U16, pwm: U8)
    requires !s.haveTransition && (s.havePwm ==> s.lastPwm == pwm) && 2800 <= mv <= 4350
    ensures Accepts(s, Update(now, mv, true, pwm))
    ensures var s' := Step(s, Update(now, mv, true, pwm)); !s'.haveTransition && s'.havePwm && s'.lastPwm == pwm
  {
    hide MedianAt, Rising, Falling, Append;
  }

  /** After k readings under one load, all of them have been accepted. */
  lemma {:induction false} LoadStays(times: seq<nat>, levels: seq<U16>, pwm: U8, k: nat)
    requires |times| == |levels| && k <= |levels| && AllPlausible(levels)
    ensures var t := At(START, Readings(times, levels, pwm), k);
            t.segment == levels[..k] && !t.s.haveTransition && t.s.havePwm == (k > 0) && (k > 0 ==> t.s.lastPwm == pwm)
    ensures k < |levels| ==> Accepts(At(START, Readings(times, levels, pwm), k).s, Readings(times, levels, pwm)[k])
  {
    hide Step, Accepts, FallsNow;
    var inputs := Readings(times, levels, pwm);
    if k > 0 {
      LoadStays(times, levels, pwm, k - 1);
      LoadStep(At(START, inputs, k - 1).s, inputs[k - 1].now, inputs[k - 1].mv, pwm);
      assert levels[..k] == levels[..k - 1] + [levels[k - 1]];
    }
    if k < |levels| {
      LoadStep(At(START, inputs, k).s, inputs[k].now, inputs[k].mv, pwm);
    }
  }

  /** While charging is not reported, the window holds the newest readings. */
  lemma {:induction false} WindowFills(times: seq<nat>, levels: seq<U16>, pwm: U8, k: nat)
    requires |times| == |levels| && k <= |levels| && AllPlausible(levels)
    requires forall j :: 0 <= j < k ==> !At(START, Readings(times, levels, pwm), j).s.charging
    ensures At(START, Readings(times, levels, pwm), k).s.samples == Newest(Samples(times, levels)[..k])
  {
    hide Accept, NoteLoad, Accepts, FallsNow, Track, Append, Newest, Readings, Samples;
    NoneIsNewest(Samples(times, levels));
    if k > 0 {
      var inputs, w := Readings(times, levels, pwm), Samples(times, levels);
      var t := At(START, inputs, k - 1);
      LoadStays(times, levels, pwm, k - 1);
      WindowFills(times, levels, pwm, k - 1);
      Accepted(t, inputs[k - 1]);
      var loaded := NoteLoad(t.s, inputs[k - 1].now, pwm);
      SameWindow(t.s, inputs[k - 1].now, pwm);
      IdleAcceptKeepsWindow(loaded.(invalidActive := false), inputs[k - 1].now, inputs[k - 1].mv);
      NewestGrows(w, k - 1);
    }
  }

  lemma NoneIsNewest(w: seq<Sample>)
    ensures Newest(w[..0]) == []
  {
  }

  lemma SameWindow(s: State, now: U32, pwm: U8)
    requires if s.havePwm then s.lastPwm == pwm else s.samples == []
    ensures NoteLoad(s, now, pwm).samples == s.samples && NoteLoad(s, now, pwm).charging == s.charging
    ensures s.havePwm ==> NoteLoad(s, now, pwm) == s
  {
  }

  /** A sample that raises the evidence: a rise, or a level held after one. */
  lemma EvidenceGrows(s: State, pwm: U8, now: U32, mv: U16)
    requires s.havePwm && s.lastPwm == pwm && !s.haveTransition && !s.charging && 2800 <= mv <= 4350
    requires |s.samples| >= 5 && s.chargeEvidence < 3
    requires var w := Append(s.samples, Sample(now, mv));
             if s.chargeEvidence == 0 then Rising(w, now) else MedianAt(w, |w| - 1) + 8 >= s.candidateLevel
    ensures var s', w := Step(s, Update(now, mv, true, pwm)), Append(s.samples, Sample(now, mv));
            s'.chargeEvidence == s.chargeEvidence + 1 && s'.charging == (s.chargeEvidence == 2) &&
            s'.candidateLevel == (if s.chargeEvidence == 0 then MedianAt(w, |w| - 1) else s.candidateLevel)
  {
    hide MedianAt, Rising, Append;
  }

  /** Consecutive readings are at most 30 s apart. */
  ghost predicate Spaced(times: seq<nat>) {
    forall i, j :: 0 <= i < j < |times| && j == i + 1 ==> times[i] <= times[j] <= times[i] + 30000
  }

  lemma {:induction false} SpacedApart(times: seq<nat>, i: nat, j: nat)
    requires Spaced(times) && i <= j < |times|
    ensures times[i] <= times[j] <= times[i] + (j - i) * 30000
    decreases j - i
  {
    if i < j {
      SpacedApart(times, i, j - 1);
      assert times[j - 1] <= times[j];
    }
  }

  lemma AgeIsElapsed(times: seq<nat>, levels: seq<U16>, i: nat, j: nat)
    requires |times| == |levels| && Spaced(times) && i <= j < |times| && j - i <= CAPACITY
    ensures times[i] + Sub32(times[j] % WORD, Samples(times, levels)[i].at) == times[j]
  {
    SpacedApart(times, i, j);
    DifferenceModulo(times[j], times[i]);
    SmallModulo(times[j] as int - times[i]);
  }

  /** Ages fall by at most 30 s from each sample of the window to the next. */
  ghost predicate AgesFall(w: seq<Sample>, now: U32) {
    forall i, j :: 0 <= i < j < |w| && j == i + 1 ==> Age(w, now, j) <= Age(w, now, i) <= Age(w, now, j) + 30000
  }

  /** The search stops at an anchor, given one old enough at the front. */
  lemma {:induction false} AnchorIsFound(w: seq<Sample>, now: U32, i: nat)
    requires 2 <= i < |w| && AgesFall(w, now) && Age(w, now, 2) >= 30000 && Age(w, now, i) <= 60000
    ensures Anchor(w, now, 30000, i).Some?
    decreases i
  {
    if Age(w, now, i) < 30000 {
      assert Age(w, now, i - 1) <= Age(w, now, i) + 30000;
      AnchorIsFound(w, now, i - 1);
    }
  }

  /** Two high samples after low ones, in a window that reaches 30 s back. */
  lemma StepRises(w: seq<Sample>, now: U32, base: nat, top: nat)
    requires |w| >= 6 && AgesFall(w, now) && Age(w, now, |w| - 1) == 0 && Age(w, now, 2) >= 30000
    requires forall i :: 0 <= i < |w| - 2 ==> base <= w[i].mv <= base + 24
    requires forall i :: |w| - 2 <= i < |w| ==> top <= w[i].mv <= top + 8
    requires base + 24 + 35 <= top
    ensures Rising(w, now)
    ensures top <= MedianAt(w, |w| - 1) <= top + 8
  {
    hide RisingIsConsistent, MedianOf;
    var n := |w|;
    assert Age(w, now, n - 2) <= Age(w, now, n - 1) + 30000;
    assert Age(w, now, n - 3) <= Age(w, now, n - 2) + 30000;
    AnchorIsFound(w, now, n - 3);
    var a := Anchor(w, now, 30000, n - 3).value;
    MedianWithinBand(w[a - 2].mv, w[a - 1].mv, w[a].mv, base, base + 24);
    MedianWithinBand(w[n - 3].mv, w[n - 2].mv, w[n - 1].mv, top, top + 8);
    assert DeltaOver(w, now, 30000) == Some(MedianAt(w, n - 1) - MedianAt(w, a));
  }

  /** n readings within 24 mV, then four within 8 mV and at least 35 mV higher,
      at most 30 s apart. The window at the second of the four reaches 30 s back. */
  ghost predicate PluggedIn(times: seq<nat>, levels: seq<U16>, n: nat, base: nat, top: nat) {
    |times| == |levels| == n + 4 && n >= 4 && Spaced(times) &&
    times[if n <= 23 then 2 else n - 21] + 30000 <= times[n + 1] &&
    2800 <= base && base + 24 + 35 <= top && top + 8 <= 4350 &&
    (forall i :: 0 <= i < n ==> base <= levels[i] <= base + 24) &&
    (forall i :: n <= i < n + 4 ==> top <= levels[i] <= top + 8)
  }

  /** Up to the first high reading the detector is idle without a candidate. */
  lemma IdleBefore(times: seq<nat>, levels: seq<U16>, pwm: U8, n: nat, base: nat, top: nat, k: nat)
    requires PluggedIn(times, levels, n, base, top) && k <= n + 1
    ensures Quiet(At(START, Readings(times, levels, pwm), k))
  {
    hide Track, Quiet, Banded;
    var inputs := Readings(times, levels, pwm);
    assert AllPlausible(levels);
    forall j | 0 < j <= k
      ensures Banded(At(START, inputs, j).segment, 24)
    {
      LoadStays(times, levels, pwm, j);
      LowIsBanded(levels[..j], base, n);
    }
    StartIsQuiet();
    SteadyVoltageNeverCharges(START, inputs, k);
  }

  lemma LowIsBanded(segment: seq<U16>, base: nat, n: nat)
    requires |segment| <= n + 1
    requires forall i :: 0 <= i < |segment| && i < n ==> base <= segment[i] <= base + 24
    ensures Banded(segment, 24)
  {
    assert BandedAt(segment, base, 24);
  }

  lemma RiseAtSecond(times: seq<nat>, levels: seq<U16>, n: nat, base: nat, top: nat)
    requires PluggedIn(times, levels, n, base, top)
    ensures var w := Newest(Samples(times, levels)[..n + 2]);
            |w| >= 6 && Rising(w, times[n + 1] % WORD) && top <= MedianAt(w, |w| - 1) <= top + 8
  {
    hide Rising, MedianAt;
    var all := Samples(times, levels);
    var w, off := Newest(all[..n + 2]), if n + 2 <= CAPACITY then 0 else n + 2 - CAPACITY;
    var now := times[n + 1] % WORD;
    forall i | 0 <= i < |w|
      ensures w[i] == all[off + i] && times[off + i] + Age(w, now, i) == times[n + 1]
    {
      AgeIsElapsed(times, levels, off + i, n + 1);
    }
    StepRises(w, now, base, top);
  }

  /** The newest three of at least two high readings have a high median. */
  lemma HighMedian(times: seq<nat>, levels: seq<U16>, n: nat, base: nat, top: nat, k: nat)
    requires PluggedIn(times, levels, n, base, top) && n + 2 <= k <= n + 4
    ensures var w := Newest(Samples(times, levels)[..k]);
            |w| >= 6 && top <= MedianAt(w, |w| - 1) <= top + 8
  {
    hide MedianOf;
    var w := Newest(Samples(times, levels)[..k]);
    MedianWithinBand(w[|w| - 3].mv, w[|w| - 2].mv, w[|w| - 1].mv, top, top + 8);
  }

  /** A voltage step of 35 mV or more that lasts is reported at the fourth reading
      after it and not before, for any levels, any load and any spacing up to 30 s,
      once the window reaches 30 s back; also with a full window and across the
      wrap of the clock. */
  lemma ChargerIsDetected(times: seq<nat>, levels: seq<U16>, pwm: U8, n: nat, base: nat, top: nat)
    requires PluggedIn(times, levels, n, base, top)
    ensures forall k :: 0 <= k <= n + 4 ==>
              (At(START, Readings(times, levels, pwm), k).s.charging <==> k == n + 4)
  {
    hide Step, MedianAt, Rising, Track, Accepts, PluggedIn, Newest;
    Shape(times, levels, n, base, top);
    var inputs, w := Readings(times, levels, pwm), Samples(times, levels);
    forall k | 0 <= k <= n + 1
      ensures !At(START, inputs, k).s.charging && At(START, inputs, k).s.chargeEvidence == 0
    {
      IdleBefore(times, levels, pwm, n, base, top, k);
    }
    RiseAtSecond(times, levels, n, base, top);
    for k := n + 1 to n + 4
      invariant forall j :: 0 <= j <= k ==> (At(START, inputs, j).s.charging <==> j == n + 4)
      invariant At(START, inputs, k).s.chargeEvidence == k - n - 1
      invariant k > n + 1 ==> At(START, inputs, k).s.candidateLevel <= top + 8
    {
      var t := At(START, inputs, k);
      LoadStays(times, levels, pwm, k);
      WindowFills(times, levels, pwm, k);
      NewestGrows(w, k);
      HighMedian(times, levels, n, base, top, k + 1);
      TrackSteps(t, inputs[k]);
      EvidenceGrows(t.s, pwm, inputs[k].now, inputs[k].mv);
    }
  }

  lemma Shape(times: seq<nat>, levels: seq<U16>, n: nat, base: nat, top: nat)
    requires PluggedIn(times, levels, n, base, top)
    ensures |times| == |levels| == n + 4 && n >= 4 && AllPlausible(levels)
  {
  }

  lemma TrackSteps(t: Tracked, input: Input)
    ensures Track(t, input).s == Step(t.s, input)
  {
  }

  /** At the device's own cadence of 5 s, seven readings before the step are enough. */
  lemma ChargerIsDetectedAtCadence(start: nat, levels: seq<U16>, pwm: U8, n: nat, base: nat, top: nat)
    requires n >= 7 && |levels| == n + 4
    requires 2800 <= base && base + 24 + 35 <= top && top + 8 <= 4350
    requires forall i :: 0 <= i < n ==> base <= levels[i] <= base + 24
    requires forall i :: n <= i < n + 4 ==> top <= levels[i] <= top + 8
    ensures var times := seq(n + 4, i requires 0 <= i < n + 4 => start + i * 5000);
            forall k :: 0 <= k <= n + 4 ==>
              (At(START, Readings(times, levels, pwm), k).s.charging <==> k == n + 4)
  {
    var times := seq(n + 4, i requires 0 <= i < n + 4 => start + i * 5000);
    ChargerIsDetected(times, levels, pwm, n, base, top);
  }
}
