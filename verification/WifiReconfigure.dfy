/** What it does to call `configure` with the availability the machine has already. */
module WifiReconfigure {
  import opened Prelude
  import opened WifiFailover
  import opened WifiFailoverRuns

  /** Holds in every state as long as the availability does not change. */
  predicate Sensible(s: State) {
    (s.phase == Waiting ==> s.active == NoProfile) &&
    (s.phase == Attempting ==>
       s.index < |s.order| && s.active == s.order[s.index] &&
       forall i :: 0 <= i < |s.order| ==> IsAvailable(s.available, s.order[i]))
  }

  /** A wait that a poll without connection finds unfinished. */
  predicate WaitUnfinished(s: State, now: nat, clock: Clock) {
    s.phase == Waiting && Order(s.available) != [] && !DeadlineReached(clock, now, s.nextRound)
  }

  /** Repeating the current availability changes the decision of the next poll, if
      and only if that poll finds a wait unfinished: the call sends the waiting
      machine, which has no active profile, to idle. */
  lemma ReconfiguringIsHarmless(s: State, now: nat, clock: Clock)
    requires Sensible(s)
    ensures Update(Configure(s, s.available), now, false, clock).1 == Update(s, now, false, clock).1 <==>
            !WaitUnfinished(s, now, clock)
    ensures Update(Configure(s, s.available), now, true, clock).1 == Update(s, now, true, clock).1
  {
    hide Order;
  }

  // --- Whole runs ---------------------------------------------------------------

  /** Calls that leave the availability as it is. */
  predicate Fixed(inputs: seq<Input>, a: Availability) {
    forall i :: 0 <= i < |inputs| && inputs[i].SetAvailable? ==> inputs[i].available == a
  }

  /** The run without its calls of `configure`. */
  function Spared(inputs: seq<Input>): seq<Input> {
    if inputs == [] then []
    else (if inputs[0].SetAvailable? then [] else [inputs[0]]) + Spared(inputs[1..])
  }

  /** The decisions of all other calls. */
  function OtherDecisions(s: State, inputs: seq<Input>, clock: Clock): seq<Decision>
    decreases |inputs|
  {
    if inputs == [] then []
    else
      var (s', d) := Step(s, inputs[0], clock);
      (if inputs[0].SetAvailable? then [] else [d]) + OtherDecisions(s', inputs[1..], clock)
  }

  /** The next poll comes without connection and finds the wait unfinished, and
      nothing ends the wait before it. */
  predicate CutsShort(s: State, inputs: seq<Input>, clock: Clock) {
    inputs != [] &&
    match inputs[0]
    case Poll(now, connected) => !connected && WaitUnfinished(s, Reading(clock, now), clock)
    case Note(p) => !IsAvailable(s.available, p) && CutsShort(s, inputs[1..], clock)
    case SetAvailable(_) => CutsShort(s, inputs[1..], clock)
    case Reset => false
  }

  /** Some call of `configure` comes while the run without such calls would wait,
      and would still be waiting at the next poll. */
  predicate SomeWaitIsCut(s: State, inputs: seq<Input>, clock: Clock)
    decreases |inputs|
  {
    inputs != [] &&
    if inputs[0].SetAvailable? then CutsShort(s, inputs[1..], clock) || SomeWaitIsCut(s, inputs[1..], clock)
    else SomeWaitIsCut(Step(s, inputs[0], clock).0, inputs[1..], clock)
  }

  predicate Resting(s: State) {
    s.phase == Idle || s.phase == Connected
  }

  /** The two machines decide alike from now on. */
  predicate Alike(t: State, s: State) {
    t.available == s.available && t.nextBackoff == s.nextBackoff &&
    (Order(s.available) == [] || (Resting(t) && Resting(s)) ||
     (t.phase == s.phase && t.active == s.active &&
      (s.phase == Attempting ==> t.order == s.order && t.index == s.index && t.attemptStarted == s.attemptStarted) &&
      (s.phase == Waiting ==> t.nextRound == s.nextRound)))
  }

  /** One machine was sent to idle while the other still waits. */
  predicate Sent(t: State, s: State) {
    t.available == s.available && t.nextBackoff == s.nextBackoff &&
    Resting(t) && s.phase == Waiting && Order(s.available) != []
  }

  lemma SensibleStep(s: State, input: Input, clock: Clock)
    requires Sensible(s) && !input.SetAvailable?
    ensures Sensible(Step(s, input, clock).0) && Step(s, input, clock).0.available == s.available
  {
    hide Order;
  }

  lemma AlikeStep(t: State, s: State, input: Input, clock: Clock)
    requires Alike(t, s) && Sensible(s) && !input.SetAvailable?
    ensures Step(t, input, clock).1 == Step(s, input, clock).1
    ensures Alike(Step(t, input, clock).0, Step(s, input, clock).0)
  {
    hide Order;
  }

  lemma ConfigureKeepsAlike(t: State, s: State)
    requires Alike(t, s) && Sensible(s)
    ensures var t' := Configure(t, s.available); Alike(t', s) || Sent(t', s)
  {
    hide Order;
  }

  lemma SentStep(t: State, s: State, inputs: seq<Input>, clock: Clock)
    requires Sent(t, s) && inputs != [] && !inputs[0].SetAvailable? && !CutsShort(s, inputs, clock)
    ensures Step(t, inputs[0], clock).1 == Step(s, inputs[0], clock).1
    ensures var t', s' := Step(t, inputs[0], clock).0, Step(s, inputs[0], clock).0;
            Alike(t', s') || (Sent(t', s') && s' == s && !CutsShort(s', inputs[1..], clock))
  {
    hide Order;
  }

  lemma {:induction false} CutShows(t: State, s: State, inputs: seq<Input>, clock: Clock)
    requires Sent(t, s) && CutsShort(s, inputs, clock) && Fixed(inputs, s.available)
    ensures OtherDecisions(t, inputs, clock) != Decisions(s, Spared(inputs), clock)
    decreases |inputs|
  {
    hide Order;
    var input, rest := inputs[0], inputs[1..];
    var t' := Step(t, input, clock).0;
    assert Fixed(rest, s.available);
    if input.Poll? {
      assert Step(t, input, clock).1 != Step(s, input, clock).1;
      assert OtherDecisions(t, inputs, clock)[0] == Step(t, input, clock).1;
      assert Spared(inputs)[0] == input;
      assert Decisions(s, Spared(inputs), clock)[0] == Step(s, input, clock).1;
    } else {
      CutShows(t', s, rest, clock);
      if input.Note? {
        assert Spared(inputs)[1..] == Spared(rest);
        assert OtherDecisions(t, inputs, clock)[1..] == OtherDecisions(t', rest, clock);
        assert Decisions(s, Spared(inputs), clock)[1..] == Decisions(s, Spared(rest), clock);
      } else {
        assert Spared(inputs) == Spared(rest);
        assert OtherDecisions(t, inputs, clock) == OtherDecisions(t', rest, clock);
      }
    }
  }

  lemma {:induction false} Compare(t: State, s: State, inputs: seq<Input>, clock: Clock)
    requires Sensible(s) && Fixed(inputs, s.available)
    requires Alike(t, s) || (Sent(t, s) && !CutsShort(s, inputs, clock))
    ensures OtherDecisions(t, inputs, clock) == Decisions(s, Spared(inputs), clock) <==>
            !SomeWaitIsCut(s, inputs, clock)
    decreases |inputs|
  {
    hide Order, Alike, Sent, Step, CutsShort, Sensible, Configure;
    if inputs != [] {
      var input, rest := inputs[0], inputs[1..];
      assert Fixed(rest, s.available);
      var (t', d) := Step(t, input, clock);
      if input.SetAvailable? {
        assert Spared(inputs) == Spared(rest);
        assert OtherDecisions(t, inputs, clock) == OtherDecisions(t', rest, clock);
        StepConfigures(t, input, clock);
        AfterConfigure(t, s, inputs, clock);
        if Sent(t', s) && CutsShort(s, rest, clock) {
          CutShows(t', s, rest, clock);
        } else {
          if CutsShort(s, rest, clock) {
            CutIsWaiting(s, rest, clock);
            ConfiguredIsNotWaiting(t, s);
          }
          Compare(t', s, rest, clock);
        }
      } else {
        var (s', e) := Step(s, input, clock);
        SensibleStep(s, input, clock);
        if Alike(t, s) {
          AlikeStep(t, s, input, clock);
        } else {
          SentStep(t, s, inputs, clock);
        }
        Compare(t', s', rest, clock);
        assert Spared(inputs)[1..] == Spared(rest);
        var mine, yours := OtherDecisions(t', rest, clock), Decisions(s', Spared(rest), clock);
        assert OtherDecisions(t, inputs, clock) == [d] + mine && ([d] + mine)[1..] == mine;
        assert Decisions(s, Spared(inputs), clock) == [e] + yours && ([e] + yours)[1..] == yours;
      }
    }
  }

  lemma StepConfigures(t: State, input: Input, clock: Clock)
    requires input.SetAvailable?
    ensures Step(t, input, clock).0 == Configure(t, input.available)
  {
  }

  lemma AfterConfigure(t: State, s: State, inputs: seq<Input>, clock: Clock)
    requires Sensible(s) && inputs != [] && inputs[0] == SetAvailable(s.available)
    requires Alike(t, s) || (Sent(t, s) && !CutsShort(s, inputs, clock))
    ensures var t' := Configure(t, s.available);
            Alike(t', s) || (Sent(t', s) && (Sent(t, s) ==> !CutsShort(s, inputs[1..], clock)))
  {
    hide Order;
    if Alike(t, s) {
      ConfigureKeepsAlike(t, s);
    }
  }

  /** Only a waiting machine can be cut short. */
  lemma {:induction false} CutIsWaiting(s: State, inputs: seq<Input>, clock: Clock)
    requires CutsShort(s, inputs, clock)
    ensures s.phase == Waiting && Order(s.available) != []
  {
    if !inputs[0].Poll? {
      CutIsWaiting(s, inputs[1..], clock);
    }
  }

  lemma ConfiguredIsNotWaiting(t: State, s: State)
    requires Sensible(s) && s.phase == Waiting && Order(s.available) != [] && (Alike(t, s) || Sent(t, s))
    ensures !Alike(Configure(t, s.available), s)
  {
    hide Order;
  }

  /** For all calls with fixed availability, on either clock: the calls of
      `configure` leave every other call's decision as it would be without them,
      if and only if none of them comes during a wait that the next poll finds
      unfinished. */
  lemma RepeatedConfigureShows(s: State, inputs: seq<Input>, clock: Clock)
    requires Sensible(s) && Fixed(inputs, s.available)
    ensures OtherDecisions(s, inputs, clock) == Decisions(s, Spared(inputs), clock) <==>
            !SomeWaitIsCut(s, inputs, clock)
  {
    Compare(s, s, inputs, clock);
  }

  /** Configuring before every poll therefore skips every backoff: the first poll
      after a failed round starts the next one, whatever the time. */
  lemma ConfiguringEveryTickSkipsBackoff(s: State, failed: nat, next: nat, clock: Clock)
    requires Order(s.available) != []
    requires Update(s, failed, false, clock).1.RoundFailed?
    ensures var waiting := Update(s, failed, false, clock).0;
            Update(Configure(waiting, s.available), next, false, clock).1 ==
            StartProfile(Order(s.available)[0])
  {
    hide Order;
  }
}
