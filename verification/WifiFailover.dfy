/** Wi-Fi failover policy: rounds over the configured profiles with exponential
    backoff, on a 32-bit millisecond clock. The same step is also defined on an
    unbounded clock. */
module WifiFailover {
  import opened Prelude

  datatype Profile = NoProfile | Primary | Backup1 | Backup2

  datatype Phase = Idle | Attempting | Waiting | Connected

  datatype Decision = Nothing | StartProfile(profile: Profile) | RoundFailed(retryAfter: nat)

  datatype Availability = Availability(primary: bool, backup1: bool, backup2: bool)

  datatype State = State(
    available: Availability, phase: Phase, order: seq<Profile>, index: nat, active: Profile,
    lastGood: Profile, attemptStarted: nat, nextRound: nat, nextBackoff: nat)

  const PROFILE_TIMEOUT: nat := 12000
  const INITIAL_BACKOFF: nat := 1000
  const MAXIMUM_BACKOFF: nat := 60000
  const HALF_WORD: int := 0x8000_0000

  const INITIAL := State(Availability(false, false, false), Idle, [], 0, NoProfile, NoProfile, 0, 0, INITIAL_BACKOFF)

  datatype Clock = Word32 | Unbounded

  function Reading(clock: Clock, t: nat): nat {
    if clock == Word32 then t % WORD else t
  }

  /** At least 12 s have passed since the attempt started. */
  predicate TimedOut(clock: Clock, now: nat, started: nat) {
    if clock == Word32 then (now - started) % WORD >= PROFILE_TIMEOUT else now - started >= PROFILE_TIMEOUT
  }

  /** The signed 32-bit difference is not negative. */
  predicate DeadlineReached(clock: Clock, now: nat, deadline: nat) {
    if clock == Word32 then (now - deadline) % WORD < HALF_WORD else now >= deadline
  }

  // --- Specification ----------------------------------------------------------

  predicate IsAvailable(a: Availability, p: Profile) {
    (p == Primary && a.primary) || (p == Backup1 && a.backup1) || (p == Backup2 && a.backup2)
  }

  function Order(a: Availability): (order: seq<Profile>)
    ensures |order| <= 3
    ensures order == [] <==> !a.primary && !a.backup1 && !a.backup2
    ensures forall i :: 0 <= i < |order| ==> IsAvailable(a, order[i])
  {
    (if a.primary then [Primary] else []) +
    (if a.backup1 then [Backup1] else []) +
    (if a.backup2 then [Backup2] else [])
  }

  function Configure(s: State, a: Availability): State {
    var s1 := s.(available := a, lastGood := if IsAvailable(a, s.lastGood) then s.lastGood else NoProfile);
    if IsAvailable(a, s.active) then s1 else s1.(active := NoProfile, phase := Idle)
  }

  function StartCurrent(s: State, now: nat): (State, Decision) {
    if s.index >= |s.order| then (s, Nothing)
    else (s.(active := s.order[s.index], attemptStarted := now, phase := Attempting), StartProfile(s.order[s.index]))
  }

  function StartRound(s: State, now: nat): (State, Decision) {
    StartCurrent(s.(order := Order(s.available), index := 0), now)
  }

  /** One poll; `now` is a reading of the given clock. */
  function Update(s: State, now: nat, connected: bool, clock: Clock): (State, Decision) {
    if connected then
      (s.(lastGood := if IsAvailable(s.available, s.active) then s.active else s.lastGood,
          phase := Connected, nextBackoff := INITIAL_BACKOFF), Nothing)
    else if !s.available.primary && !s.available.backup1 && !s.available.backup2 then
      (s.(active := NoProfile, phase := Idle), Nothing)
    else if s.phase == Connected || s.phase == Idle then StartRound(s, now)
    else if s.phase == Waiting then
      if !DeadlineReached(clock, now, s.nextRound) then (s, Nothing) else StartRound(s, now)
    else if !TimedOut(clock, now, s.attemptStarted) then (s, Nothing)
    else
      var s1 := s.(index := s.index + 1);
      if s1.index < |s1.order| then StartCurrent(s1, now)
      else
        (s1.(nextRound := Reading(clock, now + s.nextBackoff),
             nextBackoff := Min(s.nextBackoff * 2, MAXIMUM_BACKOFF),
             active := NoProfile, phase := Waiting),
         RoundFailed(s.nextBackoff))
  }

  function NoteConnected(s: State, p: Profile): State {
    if !IsAvailable(s.available, p) then s
    else s.(active := p, lastGood := p, phase := Connected, nextBackoff := INITIAL_BACKOFF)
  }

  function ManualReset(s: State): State {
    s.(phase := Idle, order := [], index := 0, active := NoProfile,
       attemptStarted := 0, nextRound := 0, nextBackoff := INITIAL_BACKOFF)
  }

  // --- The policy object ----------------------------------------------------------

  class WifiFailoverPolicy {
    var available: Availability
    var phase: Phase
    const slots: array<Profile>
    var orderSize: nat
    var orderIndex: nat
    var active: Profile
    var lastGood: Profile
    var attemptStarted: U32
    var nextRound: U32
    var nextBackoff: U32

    ghost predicate Valid()
      reads this
    {
      slots.Length == 3 && orderSize <= 3 && orderIndex <= 3 && nextBackoff <= MAXIMUM_BACKOFF &&
      (phase == Attempting ==> orderIndex < orderSize)
    }

    ghost function View(): State
      requires Valid()
      reads this, slots
    {
      State(available, phase, slots[..orderSize], orderIndex, active, lastGood, attemptStarted, nextRound, nextBackoff)
    }

    constructor ()
      ensures Valid() && View() == INITIAL && fresh(slots)
    {
      available, phase := Availability(false, false, false), Idle;
      slots := new Profile[3](_ => NoProfile);
      orderSize, orderIndex, active, lastGood := 0, 0, NoProfile, NoProfile;
      attemptStarted, nextRound, nextBackoff := 0, 0, INITIAL_BACKOFF;
    }

    method Reconfigure(a: Availability)
      requires Valid()
      modifies this
      ensures Valid() && View() == Configure(old(View()), a)
    {
      available := a;
      if !IsAvailable(available, lastGood) { lastGood := NoProfile; }
      if !IsAvailable(available, active) {
        active, phase := NoProfile, Idle;
      }
    }

    /** Appends an available profile that is not in the order yet. Only a full
        order must already hold it, or the array would overflow. */
    method AppendProfile(p: Profile)
      requires Valid() && phase != Attempting
      requires orderSize < 3 || p in slots[..orderSize] || !IsAvailable(available, p)
      modifies this`orderSize, slots
      ensures Valid() && orderSize <= old(orderSize) + 1
      ensures slots[..orderSize] ==
              old(slots[..orderSize]) +
              (if IsAvailable(available, p) && p !in old(slots[..orderSize]) then [p] else [])
    {
      if !IsAvailable(available, p) { return; }
      for i := 0 to orderSize
        invariant orderSize == old(orderSize)
        invariant slots[..] == old(slots[..])
        invariant p !in slots[..i]
      {
        if slots[i] == p { return; }
      }
      slots[orderSize] := p;
      orderSize := orderSize + 1;
    }

    method PrepareRound()
      requires Valid() && phase != Attempting
      modifies this`orderSize, this`orderIndex, slots
      ensures Valid()
      ensures slots[..orderSize] == Order(available) && orderIndex == 0
    {
      slots[0], slots[1], slots[2] := NoProfile, NoProfile, NoProfile;
      orderSize, orderIndex := 0, 0;
      AppendProfile(Primary);
      AppendProfile(Backup1);
      AppendProfile(Backup2);
    }

    method StartCurrentProfile(now: U32) returns (d: Decision)
      requires Valid()
      modifies this`active, this`attemptStarted, this`phase
      ensures Valid() && (View(), d) == StartCurrent(old(View()), now)
    {
      if orderIndex >= orderSize { return Nothing; }
      active := slots[orderIndex];
      attemptStarted := now;
      phase := Attempting;
      return StartProfile(active);
    }

    method Poll(now: U32, connected: bool) returns (d: Decision)
      requires Valid()
      modifies this, slots
      ensures Valid() && (View(), d) == Update(old(View()), now, connected, Word32)
    {
      hide Order;
      if connected {
        if IsAvailable(available, active) { lastGood := active; }
        phase, nextBackoff := Connected, INITIAL_BACKOFF;
        return Nothing;
      }
      if !available.primary && !available.backup1 && !available.backup2 {
        active, phase := NoProfile, Idle;
        return Nothing;
      }
      if phase == Connected || phase == Idle {
        PrepareRound();
        d := StartCurrentProfile(now);
        return;
      }
      if phase == Waiting {
        if Sub32(now, nextRound) >= HALF_WORD { return Nothing; }
        PrepareRound();
        d := StartCurrentProfile(now);
        return;
      }
      if Sub32(now, attemptStarted) < PROFILE_TIMEOUT { return Nothing; }
      orderIndex := orderIndex + 1;
      if orderIndex < orderSize {
        d := StartCurrentProfile(now);
        return;
      }
      var retryAfter := nextBackoff;
      nextRound := (now + retryAfter) % WORD;
      nextBackoff := Min(nextBackoff * 2, MAXIMUM_BACKOFF);
      active, phase := NoProfile, Waiting;
      return RoundFailed(retryAfter);
    }

    method NoteConnectedProfile(p: Profile)
      requires Valid()
      modifies this
      ensures Valid() && View() == NoteConnected(old(View()), p)
    {
      if !IsAvailable(available, p) { return; }
      active, lastGood, phase, nextBackoff := p, p, Connected, INITIAL_BACKOFF;
    }

    method Reset()
      requires Valid()
      modifies this
      ensures Valid() && View() == ManualReset(old(View()))
    {
      phase, orderSize, orderIndex, active := Idle, 0, 0, NoProfile;
      attemptStarted, nextRound, nextBackoff := 0, 0, INITIAL_BACKOFF;
    }
  }
}
