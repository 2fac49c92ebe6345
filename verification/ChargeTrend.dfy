/** Charger inference from battery voltage: a sliding window of accepted
    samples, medians of three, an anchor search and evidence counters. */
module ChargeTrend {
  import opened Prelude

  datatype Sample = Sample(at: U32, mv: U16)

  datatype Trend = Unknown | Battery | ChargeCandidate | Charging | UnplugCandidate

  datatype State = State(
    samples: seq<Sample>, lastLoadChange: U32, loadSettle: U32, invalidSince: U32,
    peak: U16, candidateLevel: U16, lastPwm: U8, chargeEvidence: U8, unplugEvidence: U8,
    havePwm: bool, haveTransition: bool, invalidActive: bool, charging: bool, trend: Trend)

  /** One call on the detector. */
  datatype Input =
    | Update(now: U32, mv: U16, valid: bool, pwm: U8)
    | Load(now: U32, pwm: U8)

  const CAPACITY: nat := 25
  const NORMAL_SETTLE: U32 := 15000
  const CHARGING_SETTLE: U32 := 45000
  const INVALID_FAIL_SAFE: U32 := 60000

  const INITIAL := State([], 0, 0, 0, 0, 0, 0, 0, 0, false, false, false, false, Unknown)

  // --- Specification of one call ------------------------------------------

  function MedianOf(a: U16, b: U16, c: U16): U16 {
    Max(Min(a, b), Min(Max(a, b), c))
  }

  /** Median of the three samples ending at index i. */
  function MedianAt(w: seq<Sample>, i: int): U16
    requires 2 <= i < |w|
  {
    MedianOf(w[i - 2].mv, w[i - 1].mv, w[i].mv)
  }

  function Age(w: seq<Sample>, now: U32, i: int): U32
    requires 0 <= i < |w|
  {
    Sub32(now, w[i].at)
  }

  /** The newest index at most i, and at least 2, whose age reaches the window;
      none when that sample is more than 30 s older than asked for. */
  function Anchor(w: seq<Sample>, now: U32, window: U32, i: int): (a: Option<nat>)
    requires i < |w|
    ensures a.Some? ==> 2 <= a.value <= i
  {
    if i < 2 then None
    else if Age(w, now, i) >= window then (if Age(w, now, i) <= window + 30000 then Some(i) else None)
    else Anchor(w, now, window, i - 1)
  }

  function DeltaOver(w: seq<Sample>, now: U32, window: U32): Option<int> {
    if |w| < 6 then None
    else
      var a := Anchor(w, now, window, |w| - 3);
      if a.None? then None else Some(MedianAt(w, |w| - 1) - MedianAt(w, a.value))
  }

  /** The first index from i on whose age is within the window. */
  function FirstWithin(w: seq<Sample>, now: U32, window: U32, i: nat): (first: nat)
    requires i <= |w|
    ensures i <= first <= |w|
    decreases |w| - i
  {
    if i < |w| && Age(w, now, i) > window then FirstWithin(w, now, window, i + 1) else i
  }

  /** Steps within [first, end) that fall by more than 8 mV. */
  function MaterialFalls(w: seq<Sample>, first: nat, end: nat): nat
    requires first < end <= |w|
  {
    if end == first + 1 then 0
    else MaterialFalls(w, first, end - 1) + (if w[end - 1].mv + 8 < w[end - 2].mv then 1 else 0)
  }

  predicate RisingIsConsistent(w: seq<Sample>, now: U32, window: U32) {
    var first := FirstWithin(w, now, window, 0);
    |w| - first >= 12 &&
    MaterialFalls(w, first, |w|) * 10 <= (|w| - first - 1) * 3
  }

  function Cleared(s: State): State {
    s.(samples := [], chargeEvidence := 0, unplugEvidence := 0, peak := 0, candidateLevel := 0)
  }

  predicate LoadChanges(s: State, pwm: U8) {
    !s.havePwm || s.lastPwm != pwm
  }

  function NoteLoad(s: State, now: U32, pwm: U8): State {
    if !LoadChanges(s, pwm) then s
    else if !s.havePwm then Cleared(s.(havePwm := true, lastPwm := pwm))
    else Cleared(s.(lastPwm := pwm, haveTransition := true, lastLoadChange := now,
                    loadSettle := if s.charging then CHARGING_SETTLE else NORMAL_SETTLE,
                    trend := if s.charging then Charging else Unknown))
  }

  predicate Plausible(mv: U16, valid: bool) {
    valid && 2800 <= mv <= 4350
  }

  predicate Settling(s: State, now: U32) {
    s.haveTransition && Sub32(now, s.lastLoadChange) < s.loadSettle
  }

  function RejectInvalid(s: State, now: U32): State {
    if !s.invalidActive then s.(invalidActive := true, invalidSince := now)
    else if Sub32(now, s.invalidSince) >= INVALID_FAIL_SAFE then Cleared(s.(charging := false, trend := Unknown))
    else s
  }

  function Append(w: seq<Sample>, sample: Sample): (r: seq<Sample>)
    ensures |r| == if |w| >= CAPACITY then |w| else |w| + 1
  {
    (if |w| >= CAPACITY then w[1..] else w) + [sample]
  }

  /** The window shows a loss of voltage, given the highest median so far. */
  predicate Falling(w: seq<Sample>, now: U32, peak: U16)
    requires |w| >= 3
  {
    var recent := MedianAt(w, |w| - 1);
    var delta := DeltaOver(w, now, 30000);
    (delta.Some? && delta.value <= -35) || Max(peak, recent) >= (recent + 45) % 0x1_0000
  }

  /** Evidence counts in 8 bits up to 3. */
  function OneMore(evidence: U8): U8 {
    Min(3, (evidence + 1) % 0x100)
  }

  function WhileCharging(s: State, now: U32): State
    requires |s.samples| >= 3
  {
    var recent := MedianAt(s.samples, |s.samples| - 1);
    var falling := Falling(s.samples, now, s.peak);
    var evidence: U8 := if falling then OneMore(s.unplugEvidence) else 0;
    var s1 := s.(peak := Max(s.peak, recent), unplugEvidence := evidence,
                 trend := if falling then UnplugCandidate else Charging);
    if evidence >= 3 then Cleared(s1.(charging := false, trend := Battery)) else s1
  }

  /** A fast rise over 30 s, or a slower consistent one over 90 s. */
  predicate Rising(w: seq<Sample>, now: U32) {
    var fast := DeltaOver(w, now, 30000);
    var slow := DeltaOver(w, now, 90000);
    (fast.Some? && fast.value >= 35) ||
    (slow.Some? && slow.value >= 25 && RisingIsConsistent(w, now, 90000))
  }

  function WhileIdle(s: State, now: U32): State
    requires |s.samples| >= 3
  {
    var recent := MedianAt(s.samples, |s.samples| - 1);
    var rising := Rising(s.samples, now);
    var held := s.chargeEvidence != 0 && recent + 8 >= s.candidateLevel;
    var evidence: U8 := if rising || held then OneMore(s.chargeEvidence) else 0;
    var level: U16 :=
      if rising && s.chargeEvidence == 0 then recent
      else if rising || held then s.candidateLevel
      else 0;
    var s1 := s.(chargeEvidence := evidence, candidateLevel := level,
                 trend := if rising || held then ChargeCandidate else Battery);
    if evidence >= 3
    then s1.(charging := true, trend := Charging, peak := recent, unplugEvidence := 0)
    else s1
  }

  function Accept(s: State, now: U32, mv: U16): State {
    var s1 := s.(samples := Append(s.samples, Sample(now, mv)));
    if |s1.samples| < 3 then s1.(trend := if s1.charging then Charging else Unknown)
    else if s1.charging then WhileCharging(s1, now)
    else WhileIdle(s1, now)
  }

  function Step(s: State, input: Input): State {
    var loaded := NoteLoad(s, input.now, input.pwm);
    match input
    case Load(_, _) => loaded
    case Update(now, mv, valid, _) =>
      if !Plausible(mv, valid) then RejectInvalid(loaded, now)
      else
        var s1 := loaded.(invalidActive := false);
        if Settling(s1, now) then s1 else Accept(s1, now, mv)
  }

  // --- The detector itself ------------------------------------------------

  method Median3(x: U16, y: U16, z: U16) returns (m: U16)
    ensures m == MedianOf(x, y, z)
  {
    var a, b, c := x, y, z;
    if a > b { a, b := b, a; }
    if b > c { b, c := c, b; }
    if a > b { a, b := b, a; }
    m := b;
  }

  class Detector {
    const buffer: array<Sample>
    var count: nat
    var lastLoadChange: U32
    var loadSettle: U32
    var invalidSince: U32
    var peak: U16
    var candidateLevel: U16
    var lastPwm: U8
    var chargeEvidence: U8
    var unplugEvidence: U8
    var havePwm: bool
    var haveTransition: bool
    var invalidActive: bool
    var charging: bool
    var trend: Trend

    ghost predicate Valid()
      reads this, buffer
    {
      buffer.Length == CAPACITY && count <= CAPACITY
    }

    ghost function Window(): seq<Sample>
      requires Valid()
      reads this, buffer
    {
      buffer[..count]
    }

    ghost function View(): State
      requires Valid()
      reads this, buffer
    {
      State(Window(), lastLoadChange, loadSettle, invalidSince, peak, candidateLevel, lastPwm,
            chargeEvidence, unplugEvidence, havePwm, haveTransition, invalidActive, charging, trend)
    }

    constructor ()
      ensures Valid() && View() == INITIAL && fresh(buffer)
    {
      buffer := new Sample[CAPACITY](_ => Sample(0, 0));
      count, lastLoadChange, loadSettle, invalidSince := 0, 0, 0, 0;
      peak, candidateLevel, lastPwm, chargeEvidence, unplugEvidence := 0, 0, 0, 0, 0;
      havePwm, haveTransition, invalidActive, charging, trend := false, false, false, false, Unknown;
    }

    method ClearSamples()
      requires Valid()
      modifies this
      ensures Valid() && View() == Cleared(old(View()))
    {
      count, chargeEvidence, unplugEvidence, peak, candidateLevel := 0, 0, 0, 0, 0;
    }

    method NoteLoadTransition(now: U32, pwm: U8)
      requires Valid()
      modifies this
      ensures Valid() && View() == NoteLoad(old(View()), now, pwm)
    {
      if havePwm && lastPwm == pwm { return; }
      if !havePwm {
        havePwm, lastPwm := true, pwm;
        ClearSamples();
        return;
      }
      havePwm, lastPwm, haveTransition, lastLoadChange := true, pwm, true, now;
      loadSettle := if charging then CHARGING_SETTLE else NORMAL_SETTLE;
      ClearSamples();
      trend := if charging then Charging else Unknown;
    }

    /** Moves every sample of a full window one place to the front. */
    method ShiftSamples()
      requires Valid() && count == CAPACITY
      modifies buffer
      ensures forall k :: 0 <= k < CAPACITY - 1 ==> buffer[k] == old(buffer[k + 1])
    {
      var i := 1;
      while i < CAPACITY
        invariant 1 <= i <= CAPACITY
        invariant forall k :: 0 <= k < i - 1 ==> buffer[k] == old(buffer[k + 1])
        invariant forall k :: i - 1 <= k < CAPACITY ==> buffer[k] == old(buffer[k])
      {
        buffer[i - 1] := buffer[i];
        i := i + 1;
      }
    }

    /** Drops the oldest sample of a full window by shifting in place. */
    method AppendSample(now: U32, mv: U16)
      requires Valid()
      modifies this`count, buffer
      ensures Valid() && Window() == Append(old(Window()), Sample(now, mv))
    {
      if count == CAPACITY {
        ShiftSamples();
        count := count - 1;
        assert Window() == old(Window())[1..];
      }
      buffer[count] := Sample(now, mv);
      count := count + 1;
    }

    method RecentMedian() returns (m: U16)
      requires Valid()
      ensures m == if count < 3 then 0 else MedianAt(Window(), count - 1)
    {
      if count < 3 { return 0; }
      m := Median3(buffer[count - 3].mv, buffer[count - 2].mv, buffer[count - 1].mv);
    }

    /** Finds the newest group of three old enough, by a search that stops at index 2. */
    method FindDelta(now: U32, window: U32) returns (found: bool, delta: int)
      requires Valid()
      ensures found <==> DeltaOver(Window(), now, window).Some?
      ensures found ==> DeltaOver(Window(), now, window) == Some(delta)
    {
      delta := 0;
      if count < 6 { return false, 0; }
      var anchor := count;
      var i := count - 3;
      while true
        invariant 2 <= i <= count - 3
        invariant anchor == count
        invariant Anchor(Window(), now, window, i) == Anchor(Window(), now, window, count - 3)
        decreases i
      {
        var age := Sub32(now, buffer[i].at);
        if age >= window {
          if age <= window + 30000 { anchor := i; }
          break;
        }
        if i == 2 { break; }
        i := i - 1;
      }
      if anchor == count { return false, 0; }
      var older: int := Median3(buffer[anchor - 2].mv, buffer[anchor - 1].mv, buffer[anchor].mv);
      var recent: int := RecentMedian();
      return true, recent - older;
    }

    method CheckRising(now: U32, window: U32) returns (consistent: bool)
      requires Valid()
      ensures consistent == RisingIsConsistent(Window(), now, window)
    {
      var first := 0;
      while first < count && Sub32(now, buffer[first].at) > window
        invariant first <= count
        invariant FirstWithin(Window(), now, window, first) == FirstWithin(Window(), now, window, 0)
      {
        first := first + 1;
      }
      if count - first < 12 { return false; }
      var intervals, falls := 0, 0;
      var i := first + 1;
      while i < count
        invariant first < i <= count
        invariant intervals == i - first - 1
        invariant falls == MaterialFalls(Window(), first, i)
      {
        intervals := intervals + 1;
        if buffer[i].mv + 8 < buffer[i - 1].mv { falls := falls + 1; }
        i := i + 1;
      }
      return intervals != 0 && falls * 10 <= intervals * 3;
    }

    method UpdateCharging(now: U32)
      requires Valid() && charging && count >= 3
      modifies this
      ensures Valid() && View() == WhileCharging(old(View()), now)
    {
      hide DeltaOver, MedianAt, OneMore;
      var recent: int := RecentMedian();
      peak := Max(peak, recent);
      var have, delta := FindDelta(now, 30000);
      if (have && delta <= -35) || peak >= (recent + 45) % 0x1_0000 {
        unplugEvidence := OneMore(unplugEvidence);
        trend := UnplugCandidate;
      } else {
        unplugEvidence := 0;
        trend := Charging;
      }
      if unplugEvidence >= 3 {
        charging, trend := false, Battery;
        ClearSamples();
      }
    }

    method DetectRise(now: U32) returns (rising: bool)
      requires Valid()
      ensures rising == Rising(Window(), now)
    {
      hide DeltaOver, RisingIsConsistent;
      var have30, delta30 := FindDelta(now, 30000);
      var have90, delta90 := FindDelta(now, 90000);
      var consistent := CheckRising(now, 90000);
      rising := (have30 && delta30 >= 35) || (have90 && delta90 >= 25 && consistent);
    }

    method UpdateIdle(now: U32)
      requires Valid() && !charging && count >= 3
      modifies this`candidateLevel, this`chargeEvidence, this`trend, this`charging, this`peak, this`unplugEvidence
      ensures View() == WhileIdle(old(View()), now)
    {
      hide MedianAt, Rising, OneMore;
      var recent: int := RecentMedian();
      var rising := DetectRise(now);
      if rising {
        if chargeEvidence == 0 { candidateLevel := recent; }
        chargeEvidence := OneMore(chargeEvidence);
        trend := ChargeCandidate;
      } else if chargeEvidence != 0 && recent + 8 >= candidateLevel {
        chargeEvidence := OneMore(chargeEvidence);
        trend := ChargeCandidate;
      } else {
        chargeEvidence, candidateLevel, trend := 0, 0, Battery;
      }
      if chargeEvidence >= 3 {
        charging, trend, peak, unplugEvidence := true, Charging, recent, 0;
      }
    }

    method HandleInvalid(now: U32)
      requires Valid()
      modifies this
      ensures Valid() && View() == RejectInvalid(old(View()), now)
    {
      if !invalidActive {
        invalidActive, invalidSince := true, now;
      } else if Sub32(now, invalidSince) >= INVALID_FAIL_SAFE {
        charging, trend := false, Unknown;
        ClearSamples();
      }
    }

    method AcceptSample(now: U32, mv: U16)
      requires Valid()
      modifies this, buffer
      ensures Valid() && View() == Accept(old(View()), now, mv)
    {
      hide WhileCharging, WhileIdle, Append;
      ghost var before := View();
      AppendSample(now, mv);
      assert View() == before.(samples := Window());
      if count < 3 {
        trend := if charging then Charging else Unknown;
      } else if charging {
        UpdateCharging(now);
      } else {
        UpdateIdle(now);
      }
    }

    method Update(now: U32, mv: U16, valid: bool, pwm: U8) returns (isCharging: bool)
      requires Valid()
      modifies this, buffer
      ensures Valid() && View() == Step(old(View()), Input.Update(now, mv, valid, pwm))
      ensures isCharging == charging
    {
      hide Accept, RejectInvalid;
      if !havePwm || pwm != lastPwm {
        NoteLoadTransition(now, pwm);
      }
      if !(valid && 2800 <= mv <= 4350) {
        HandleInvalid(now);
        return charging;
      }
      invalidActive := false;
      if haveTransition && Sub32(now, lastLoadChange) < loadSettle { return charging; }
      AcceptSample(now, mv);
      return charging;
    }
  }
}
