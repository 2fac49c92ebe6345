/** Two-slot configuration storage of the display: every NVS write may fail or
    be the last one before a power loss, and boot recovery is itself
    interruptible. */
module ConfigStore {
  import opened Prelude

  datatype Config = Config(
    ssid: string, password: string, ssid2: string, password2: string,
    ssid3: string, password3: string, baseUrl: string, token: string,
    timezone: string, refreshSeconds: U32, brightness: U8, dimAfter: U32,
    offAfter: U32, offRefresh: U32, externalPower: bool,
    touchXMin: U16, touchXMax: U16, touchYMin: U16, touchYMax: U16)

  const DEFAULT_CONFIG := Config("", "", "", "", "", "", "", "", "CST-8",
                                 15, 60, 60, 300, 60, false, 495, 3398, 721, 3448)

  function Clamp(value: U32, low: U32, high: U32): U32
    requires low <= high
  {
    if value < low then low else if high < value then high else value
  }

  function Normalize(c: Config): Config {
    var badTouch := c.touchXMin + 100 >= c.touchXMax || c.touchYMin + 100 >= c.touchYMax;
    c.(refreshSeconds := Clamp(c.refreshSeconds, 5, 3600),
       brightness := if c.brightness == 30 || c.brightness == 60 || c.brightness == 100 then c.brightness else 60,
       dimAfter := Clamp(c.dimAfter, 0, 86400),
       offAfter := Clamp(c.offAfter, 0, 86400),
       offRefresh := Clamp(c.offRefresh, 60, 3600),
       touchXMin := if badTouch then 495 else c.touchXMin,
       touchXMax := if badTouch then 3398 else c.touchXMax,
       touchYMin := if badTouch then 721 else c.touchYMin,
       touchYMax := if badTouch then 3448 else c.touchYMax)
  }

  // --- One slot namespace -------------------------------------------------

  datatype Key =
    | Valid | Ssid | Password | Ssid2 | Password2 | Ssid3 | Password3 | BaseUrl
    | Token | Timezone | Refresh | Brightness | DimSec | OffSec | OffRefresh
    | ExtPower | TouchX0 | TouchX1 | TouchY0 | TouchY1

  datatype Value = Text(text: string) | Number(number: U32) | Flag(flag: bool)

  type Namespace = map<Key, Value>

  /** The order in which a slot's fields are written. */
  const FIELD_KEYS: seq<Key> :=
    [Ssid, Password, Ssid2, Password2, Ssid3, Password3, BaseUrl, Token,
     Timezone, Refresh, Brightness, DimSec, OffSec, OffRefresh, ExtPower,
     TouchX0, TouchX1, TouchY0, TouchY1]

  function Field(c: Config, k: Key): Value {
    match k
    case Valid => Flag(true)
    case Ssid => Text(c.ssid)
    case Password => Text(c.password)
    case Ssid2 => Text(c.ssid2)
    case Password2 => Text(c.password2)
    case Ssid3 => Text(c.ssid3)
    case Password3 => Text(c.password3)
    case BaseUrl => Text(c.baseUrl)
    case Token => Text(c.token)
    case Timezone => Text(c.timezone)
    case Refresh => Number(c.refreshSeconds)
    case Brightness => Number(c.brightness)
    case DimSec => Number(c.dimAfter)
    case OffSec => Number(c.offAfter)
    case OffRefresh => Number(c.offRefresh)
    case ExtPower => Flag(c.externalPower)
    case TouchX0 => Number(c.touchXMin)
    case TouchX1 => Number(c.touchXMax)
    case TouchY0 => Number(c.touchYMin)
    case TouchY1 => Number(c.touchYMax)
  }

  function GetText(ns: Namespace, k: Key, fallback: string): string {
    if k in ns && ns[k].Text? then ns[k].text else fallback
  }

  function GetNumber(ns: Namespace, k: Key, fallback: U32): U32 {
    if k in ns && ns[k].Number? then ns[k].number else fallback
  }

  function GetU16(ns: Namespace, k: Key, fallback: U16): U16 {
    if k in ns && ns[k].Number? && ns[k].number < 0x1_0000 then ns[k].number else fallback
  }

  function GetU8(ns: Namespace, k: Key, fallback: U8): U8 {
    if k in ns && ns[k].Number? && ns[k].number < 0x100 then ns[k].number else fallback
  }

  function GetFlag(ns: Namespace, k: Key, fallback: bool): bool {
    if k in ns && ns[k].Flag? then ns[k].flag else fallback
  }

  function Decode(ns: Namespace): Config {
    Config(GetText(ns, Ssid, ""), GetText(ns, Password, ""),
           GetText(ns, Ssid2, ""), GetText(ns, Password2, ""),
           GetText(ns, Ssid3, ""), GetText(ns, Password3, ""),
           GetText(ns, BaseUrl, ""), GetText(ns, Token, ""),
           GetText(ns, Timezone, "CST-8"), GetNumber(ns, Refresh, 15),
           GetU8(ns, Brightness, 60), GetNumber(ns, DimSec, 60),
           GetNumber(ns, OffSec, 300), GetNumber(ns, OffRefresh, 60),
           GetFlag(ns, ExtPower, false),
           GetU16(ns, TouchX0, 495), GetU16(ns, TouchX1, 3398),
           GetU16(ns, TouchY0, 721), GetU16(ns, TouchY1, 3448))
  }

  /** What a slot yields at boot: nothing unless it is marked valid. */
  function ReadSlot(ns: Namespace): Option<Config> {
    if GetFlag(ns, Valid, false) then Some(Normalize(Decode(ns))) else None
  }

  /** The v0.2 namespace holds no brightness and no dimming fields. */
  function DecodeLegacy(ns: Namespace): Config {
    Normalize(Decode(ns).(brightness := DEFAULT_CONFIG.brightness,
                          dimAfter := DEFAULT_CONFIG.dimAfter,
                          offAfter := DEFAULT_CONFIG.offAfter,
                          offRefresh := DEFAULT_CONFIG.offRefresh))
  }

  lemma LoadedIsNormal(ns: Namespace)
    ensures ReadSlot(ns).Some? ==> Normalize(ReadSlot(ns).value) == ReadSlot(ns).value
    ensures Normalize(DecodeLegacy(ns)) == DecodeLegacy(ns)
  {
    NormalizeIdempotent(Decode(ns));
    NormalizeIdempotent(Decode(ns).(brightness := DEFAULT_CONFIG.brightness,
                                    dimAfter := DEFAULT_CONFIG.dimAfter,
                                    offAfter := DEFAULT_CONFIG.offAfter,
                                    offRefresh := DEFAULT_CONFIG.offRefresh));
  }

  /** A field that was never written reads as its default, whatever the others hold. */
  lemma MissingFieldsReadAsDefaults(ns: Namespace)
    ensures var c := Decode(ns);
            (Refresh !in ns ==> c.refreshSeconds == 15) && (Brightness !in ns ==> c.brightness == 60) &&
            (DimSec !in ns ==> c.dimAfter == 60) && (OffSec !in ns ==> c.offAfter == 300) &&
            (OffRefresh !in ns ==> c.offRefresh == 60) && (ExtPower !in ns ==> !c.externalPower) &&
            (TouchX0 !in ns ==> c.touchXMin == 495) && (TouchX1 !in ns ==> c.touchXMax == 3398) &&
            (TouchY0 !in ns ==> c.touchYMin == 721) && (TouchY1 !in ns ==> c.touchYMax == 3448) &&
            (Timezone !in ns ==> c.timezone == "CST-8") && (BaseUrl !in ns ==> c.baseUrl == "") &&
            (Token !in ns ==> c.token == "") && (Ssid !in ns ==> c.ssid == "") && (Password !in ns ==> c.password == "")
  {
  }

  /** A v0.2 namespace in which every field was written keeps them; what it cannot
      hold takes the defaults. */
  lemma LegacyKeepsFields(ns: Namespace, c: Config)
    requires forall k: Key :: k != Valid ==> Kept(ns, k, Field(c, k))
    requires c.timezone != "" && InRange(c)
    requires c.brightness == 60 && c.dimAfter == 60 && c.offAfter == 300 && c.offRefresh == 60
    ensures DecodeLegacy(ns) == c
  {
    KeptTexts(ns, c);
    KeptNumbers(ns, c);
    KeptCalibration(ns, c);
    var d := Decode(ns);
    assert d == c;
    NormalIsInRange(c);
  }

  /** A text write reports its length, so losing the write of an empty text goes
      unnoticed. Only the time zone has a default other than the empty text. */
  ghost predicate Stored(wanted: Config, kept: Config) {
    kept == wanted || (wanted.timezone == "" && kept == wanted.(timezone := "CST-8"))
  }

  /** Field k of the namespace was written, or is an empty text that is absent. */
  ghost predicate Kept(ns: Namespace, k: Key, v: Value) {
    (k in ns && ns[k] == v) || (v == Text("") && k !in ns)
  }

  lemma NormalizeIdempotent(c: Config)
    ensures Normalize(Normalize(c)) == Normalize(c)
    ensures Normalize(c).timezone == c.timezone
  {
  }

  /** Every number and the touch calibration are usable. */
  predicate InRange(c: Config) {
    5 <= c.refreshSeconds <= 3600 && c.brightness in {30, 60, 100} && c.dimAfter <= 86400 && c.offAfter <= 86400 &&
    60 <= c.offRefresh <= 3600 && UsableTouch(c)
  }

  /** Both touch spans exceed 100. */
  predicate UsableTouch(c: Config) {
    c.touchXMax - c.touchXMin > 100 && c.touchYMax - c.touchYMin > 100
  }

  predicate SameTouch(a: Config, b: Config) {
    a.touchXMin == b.touchXMin && a.touchXMax == b.touchXMax && a.touchYMin == b.touchYMin && a.touchYMax == b.touchYMax
  }

  /** Everything the user types, and the power switch. */
  predicate SameTexts(a: Config, b: Config) {
    a.ssid == b.ssid && a.password == b.password && a.ssid2 == b.ssid2 && a.password2 == b.password2 &&
    a.ssid3 == b.ssid3 && a.password3 == b.password3 && a.baseUrl == b.baseUrl && a.token == b.token &&
    a.timezone == b.timezone && a.externalPower == b.externalPower
  }

  function Distance(a: int, b: int): int {
    if a <= b then b - a else a - b
  }

  /** b is the value of the range that is nearest to a. */
  ghost predicate Nearest(a: int, b: int, low: int, high: int) {
    low <= b <= high && forall x :: low <= x <= high ==> Distance(a, b) <= Distance(a, x)
  }

  /** Normalizing keeps every text, moves each number to the nearest usable one,
      replaces an unknown brightness by 60, and replaces the touch calibration as
      a whole, and only if one of its spans is unusable. */
  lemma NormalizeRepairs(c: Config)
    ensures var n := Normalize(c);
            InRange(n) && SameTexts(n, c) &&
            Nearest(c.refreshSeconds, n.refreshSeconds, 5, 3600) && Nearest(c.dimAfter, n.dimAfter, 0, 86400) &&
            Nearest(c.offAfter, n.offAfter, 0, 86400) && Nearest(c.offRefresh, n.offRefresh, 60, 3600) &&
            n.brightness == (if c.brightness in {30, 60, 100} then c.brightness else 60) &&
            if UsableTouch(c) then SameTouch(n, c)
            else n.touchXMin == 495 && n.touchXMax == 3398 && n.touchYMin == 721 && n.touchYMax == 3448
  {
  }

  /** Normalizing leaves a configuration alone, if and only if it is in range. */
  lemma NormalIsInRange(c: Config)
    ensures Normalize(c) == c <==> InRange(c)
  {
    NormalizeRepairs(c);
  }

  /** What flash holds after saving a configuration: all its texts, except that an
      empty time zone may read as the default, usable numbers, and nothing else
      than requested if that was usable and named a time zone. */
  predicate Delivers(requested: Config, kept: Config) {
    InRange(kept) &&
    (SameTexts(kept, requested) ||
     (requested.timezone == "" && SameTexts(kept, requested.(timezone := "CST-8")))) &&
    (InRange(requested) && requested.timezone != "" ==> kept == requested)
  }

  lemma StoredDelivers(requested: Config, kept: Config)
    requires Stored(Normalize(requested), kept)
    ensures Delivers(requested, kept)
  {
    hide Normalize;
    NormalizeRepairs(requested);
    NormalIsInRange(requested);
  }

  lemma NormalizeIgnoresTimezone(c: Config, zone: string)
    ensures Normalize(c.(timezone := zone)) == Normalize(c).(timezone := zone)
  {
  }

  lemma KeptTexts(ns: Namespace, c: Config)
    requires forall k: Key :: k != Valid ==> Kept(ns, k, Field(c, k))
    ensures var d := Decode(ns);
            d.ssid == c.ssid && d.password == c.password && d.ssid2 == c.ssid2 && d.password2 == c.password2 &&
            d.ssid3 == c.ssid3 && d.password3 == c.password3 && d.baseUrl == c.baseUrl && d.token == c.token
    ensures Decode(ns).timezone == c.timezone || (c.timezone == "" && Timezone !in ns && Decode(ns).timezone == "CST-8")
  {
    assert Kept(ns, Ssid, Field(c, Ssid));
    assert Kept(ns, Password, Field(c, Password));
    assert Kept(ns, Ssid2, Field(c, Ssid2));
    assert Kept(ns, Password2, Field(c, Password2));
    assert Kept(ns, Ssid3, Field(c, Ssid3));
    assert Kept(ns, Password3, Field(c, Password3));
    assert Kept(ns, BaseUrl, Field(c, BaseUrl));
    assert Kept(ns, Token, Field(c, Token));
    assert Kept(ns, Timezone, Field(c, Timezone));
  }

  lemma KeptNumbers(ns: Namespace, c: Config)
    requires forall k: Key :: k != Valid ==> Kept(ns, k, Field(c, k))
    ensures var d := Decode(ns);
            d.refreshSeconds == c.refreshSeconds && d.brightness == c.brightness && d.dimAfter == c.dimAfter &&
            d.offAfter == c.offAfter && d.offRefresh == c.offRefresh && d.externalPower == c.externalPower
  {
    assert Kept(ns, Refresh, Field(c, Refresh));
    assert Kept(ns, Brightness, Field(c, Brightness));
    assert Kept(ns, DimSec, Field(c, DimSec));
    assert Kept(ns, OffSec, Field(c, OffSec));
    assert Kept(ns, OffRefresh, Field(c, OffRefresh));
    assert Kept(ns, ExtPower, Field(c, ExtPower));
  }

  lemma KeptCalibration(ns: Namespace, c: Config)
    requires forall k: Key :: k != Valid ==> Kept(ns, k, Field(c, k))
    ensures var d := Decode(ns);
            d.touchXMin == c.touchXMin && d.touchXMax == c.touchXMax && d.touchYMin == c.touchYMin &&
            d.touchYMax == c.touchYMax
  {
    assert Kept(ns, TouchX0, Field(c, TouchX0));
    assert Kept(ns, TouchX1, Field(c, TouchX1));
    assert Kept(ns, TouchY0, Field(c, TouchY0));
    assert Kept(ns, TouchY1, Field(c, TouchY1));
  }

  lemma KeptFieldsRead(ns: Namespace, c: Config)
    requires forall k :: k in FIELD_KEYS ==> Kept(ns, k, Field(c, k))
    requires GetFlag(ns, Valid, false)
    ensures ReadSlot(ns).Some?
    ensures Stored(Normalize(c), ReadSlot(ns).value)
    ensures ReadSlot(ns).value == Normalize(c) <==> (c.timezone == "" ==> Timezone in ns)
  {
    forall k: Key | k != Valid
      ensures Kept(ns, k, Field(c, k))
    {
      FieldKeysCover(k);
    }
    KeptTexts(ns, c);
    KeptNumbers(ns, c);
    KeptCalibration(ns, c);
    var d := Decode(ns);
    assert d == c.(timezone := d.timezone);
    NormalizeIgnoresTimezone(c, d.timezone);
    assert Normalize(c).timezone == c.timezone;
  }

  lemma FieldKeysCover(k: Key)
    requires k != Valid
    ensures k in FIELD_KEYS
  {
    var position := match k
      case Valid => 0
      case Ssid => 0 case Password => 1 case Ssid2 => 2 case Password2 => 3
      case Ssid3 => 4 case Password3 => 5 case BaseUrl => 6 case Token => 7
      case Timezone => 8 case Refresh => 9 case Brightness => 10 case DimSec => 11
      case OffSec => 12 case OffRefresh => 13 case ExtPower => 14
      case TouchX0 => 15 case TouchX1 => 16 case TouchY0 => 17 case TouchY1 => 18;
    assert FIELD_KEYS[position] == k;
  }

  // --- Commit metadata and what a boot loads ------------------------------

  datatype Meta = Meta(active: Option<U8>, pending: Option<bool>, target: Option<U8>)

  function Other(slot: nat): (other: nat)
    requires slot < 2
    ensures other < 2 && other != slot
  {
    1 - slot
  }

  predicate Pending(m: Meta) {
    m.pending == Some(true)
  }

  /** A pending marker naming a real slot: boot must undo that commit. */
  predicate Rollback(m: Meta) {
    Pending(m) && m.target.Some? && m.target.value <= 1
  }

  /** The slot boot asks for first. */
  function BootSlot(m: Meta): (slot: nat)
    ensures slot < 2
  {
    if Rollback(m) then Other(m.target.value)
    else if m.active.Some? && m.active.value <= 1 then m.active.value
    else 0
  }

  type Slots = s: seq<Namespace> | |s| == 2 witness [map[], map[]]

  /** What a boot sees of the slots: each as it is, or empty if it does not open. */
  predicate Glimpsed(seen: Slots, slots: Slots) {
    forall i :: 0 <= i < 2 ==> seen[i] == slots[i] || seen[i] == map[]
  }

  /** The slot and configuration a boot ends up with. */
  function Boot(m: Meta, slots: Slots, legacy: Namespace): (nat, Config) {
    var first := BootSlot(m);
    if ReadSlot(slots[first]).Some? then (first, ReadSlot(slots[first]).value)
    else if !Rollback(m) && ReadSlot(slots[Other(first)]).Some?
    then (Other(first), ReadSlot(slots[Other(first)]).value)
    else (first, DecodeLegacy(legacy))
  }

  /** Metadata after the commit marker's two writes landed or not. */
  function Marked(m: Meta, target: nat, targetLanded: bool, pendingLanded: bool): Meta
    requires target < 2
  {
    var m1 := if targetLanded then m.(target := Some(target as U8)) else m;
    if pendingLanded then m1.(pending := Some(true)) else m1
  }

  /** Metadata after the two writes that end a commit or a recovery on a slot
      landed or not. */
  function Settled(m: Meta, slot: nat, activeLanded: bool, pendingLanded: bool): Meta
    requires slot < 2
  {
    var m1 := if activeLanded then m.(active := Some(slot as U8)) else m;
    if pendingLanded then m1.(pending := Some(false)) else m1
  }

  /** Whatever becomes of the marker's writes, the old slot stays the boot slot. */
  ghost predicate MarkerIsSafe(m: Meta) {
    forall targetLanded, pendingLanded ::
      BootSlot(Marked(m, Other(BootSlot(m)), targetLanded, pendingLanded)) == BootSlot(m)
  }

  /** Whatever becomes of the closing writes, the boot slot is the new one exactly
      when both landed. */
  ghost predicate FinishIsSafe(m: Meta) {
    forall activeLanded, pendingLanded ::
      BootSlot(Settled(m, Other(BootSlot(m)), activeLanded, pendingLanded)) ==
      if activeLanded && pendingLanded then Other(BootSlot(m)) else BootSlot(m)
  }

  /** No failure of a "target" or "active" write can move the boot slot. */
  predicate Guarded(m: Meta) {
    m.target != Some(BootSlot(m) as U8) && BootSlot(m.(pending := None)) == BootSlot(m)
  }

  /** The marker is safe, if and only if the stored target is not the boot slot
      already: otherwise a lost target write followed by a landed pending=true
      names the committed slot as the one to undo. */
  lemma MarkerKeepsBootSlot(m: Meta)
    ensures MarkerIsSafe(m) <==> m.target != Some(BootSlot(m) as U8)
  {
    var slot := BootSlot(m);
    if m.target == Some(slot as U8) {
      assert BootSlot(Marked(m, Other(slot), false, true)) == Other(slot);
    }
  }

  /** The closing writes are safe, if and only if "active" did not name the new
      slot already. */
  lemma FinishIsAtomic(m: Meta)
    requires Rollback(m)
    ensures FinishIsSafe(m) <==> BootSlot(m.(pending := None)) == BootSlot(m)
  {
    var slot := BootSlot(m);
    if BootSlot(m.(pending := None)) != slot {
      assert BootSlot(Settled(m, Other(slot), false, true)) != slot;
    }
  }

  /** Metadata is guarded, if and only if a commit's marker and the closing writes
      after it are both safe. */
  lemma GuardedIsExact(m: Meta)
    ensures Guarded(m) <==> MarkerIsSafe(m) && FinishIsSafe(Marked(m, Other(BootSlot(m)), true, true))
  {
    hide MarkerIsSafe, FinishIsSafe;
    MarkerKeepsBootSlot(m);
    FinishIsAtomic(Marked(m, Other(BootSlot(m)), true, true));
  }

  /** Which of a commit's four metadata writes landed. */
  datatype Fate = Fate(target: bool, pending: bool, active: bool, cleared: bool)

  function Committed(m: Meta, target: nat, fate: Fate): Meta
    requires target < 2
  {
    Settled(Marked(m, target, fate.target, fate.pending), target, fate.active, fate.cleared)
  }

  /** Every completed commit leaves metadata for which the marker is unsafe. */
  lemma CommittedMetadataIsExposed(slot: U8, older: Namespace, newer: Namespace, legacy: Namespace)
    requires slot <= 1
    requires ReadSlot(older).Some? && ReadSlot(newer).Some?
    ensures var m := Meta(Some(slot), Some(false), Some(slot));
            var slots: Slots := if slot == 0 then [newer, older] else [older, newer];
            Boot(m, slots, legacy).1 == ReadSlot(newer).value &&
            Boot(Marked(m, Other(slot), false, true), slots, legacy).1 == ReadSlot(older).value
  {
  }

  /** A recovery keeps the boot slot whatever becomes of its two writes, if and
      only if the stored "active" value already names that slot. Without a
      failed "active" write it always does. */
  lemma RecoveryKeepsBootSlot(m: Meta)
    requires Rollback(m)
    ensures (forall activeLanded, pendingLanded ::
               BootSlot(Settled(m, BootSlot(m), activeLanded, pendingLanded)) == BootSlot(m)) <==>
            BootSlot(m.(pending := None)) == BootSlot(m)
    ensures forall activeLanded, pendingLanded :: (pendingLanded ==> activeLanded) ==>
              BootSlot(Settled(m, BootSlot(m), activeLanded, pendingLanded)) == BootSlot(m)
  {
    var slot := BootSlot(m);
    if BootSlot(m.(pending := None)) != slot {
      assert BootSlot(Settled(m, slot, false, true)) != slot;
    }
  }

  lemma BootLoads(m: Meta, slots: Slots, legacy: Namespace)
    ensures var first := BootSlot(m);
            Boot(m, slots, legacy) ==
            if ReadSlot(slots[first]).Some? then (first, ReadSlot(slots[first]).value)
            else if !Rollback(m) && ReadSlot(slots[Other(first)]).Some?
            then (Other(first), ReadSlot(slots[Other(first)]).value)
            else (first, DecodeLegacy(legacy))
  {
  }

  lemma BootSlotSettles(m: Meta, activeLanded: bool, pendingLanded: bool)
    requires pendingLanded ==> activeLanded
    ensures BootSlot(Settled(m, BootSlot(m), activeLanded, pendingLanded)) == BootSlot(m)
  {
  }

  lemma NothingSettled(m: Meta)
    ensures forall slot: nat :: slot < 2 ==> Settled(m, slot, false, false) == m
  {
  }

  /** A boot that undid a commit and the boot after it agree, if and only if the
      slot fallen back to was valid or the half-committed slot is not. The very
      first commit violates this: its target slot is complete, the other one was
      never written, and the second boot loads what the first one undid. */
  lemma SecondBootAgrees(m: Meta, slots: Slots, legacy: Namespace)
    requires Rollback(m)
    ensures var (slot, config) := Boot(m, slots, legacy);
            Boot(Settled(m, slot, true, true), slots, legacy) == (slot, config) <==>
            ReadSlot(slots[BootSlot(m)]).Some? || ReadSlot(slots[Other(BootSlot(m))]).None?
  {
    hide ReadSlot, DecodeLegacy;
  }

  // --- The device ---------------------------------------------------------

  class Device {
    // Flash
    var meta: Meta
    var slots: Slots
    const legacy: Namespace
    // Power holds, every namespace opens, and every write lands.
    const reliable: bool
    // Cleared by a power loss; no write takes effect while it is false.
    var powered: bool
    // RAM
    var activeSlot: nat
    var config: Config
    var committed: Config
    // History: a metadata write of "target" or "active" failed under power, or
    // a namespace failed to open during a boot.
    ghost var metaFault: bool
    ghost var openFault: bool
    // What each save told its caller while power held.
    ghost var answers: seq<bool>

    constructor (legacy: Namespace, reliable: bool)
      ensures powered && meta == Meta(None, None, None) && slots == [map[], map[]]
      ensures this.legacy == legacy && this.reliable == reliable && !metaFault && !openFault && answers == []
    {
      this.legacy, this.reliable := legacy, reliable;
      meta, slots, powered := Meta(None, None, None), [map[], map[]], true;
      activeSlot, config, committed := 0, DEFAULT_CONFIG, DEFAULT_CONFIG;
      metaFault, openFault, answers := false, false, [];
    }

    ghost function Persisted(): Option<Config>
      reads this
    {
      ReadSlot(slots[BootSlot(meta)])
    }

    /** A running device whose flash and RAM agree on the committed slot. */
    ghost predicate Running()
      reads this
    {
      powered && activeSlot == BootSlot(meta) &&
      Persisted().Some? && Stored(committed, Persisted().value)
    }

    /** The fate of one NVS write: it lands and is reported, it fails and is
        reported as failed, or power is lost just before or just after it. */
    method Attempt() returns (reported: bool, landed: bool)
      modifies this`powered
      ensures powered ==> old(powered)
      ensures landed ==> old(powered)
      ensures powered ==> (reported <==> landed)
      ensures reliable && old(powered) ==> powered && reported
    {
      reported, landed := *, false;
      if powered {
        if reliable {
          reported, landed := true, true;
        } else if * {
          reported, landed := true, true;
        } else if * {
          reported, landed := false, false;
        } else {
          landed := *;
          powered := false;
        }
      }
    }

    method PutTarget(slot: U8) returns (reported: bool, ghost landed: bool)
      modifies this`powered, this`meta, this`metaFault
      ensures powered ==> old(powered) && (reported <==> landed)
      ensures landed ==> old(powered)
      ensures meta == if landed then old(meta).(target := Some(slot)) else old(meta)
      ensures metaFault <==> old(metaFault) || (powered && !landed)
      ensures reliable && old(powered) ==> powered && landed
    {
      var effect: bool;
      reported, effect := Attempt();
      if effect { meta := meta.(target := Some(slot)); }
      landed := effect;
      metaFault := metaFault || (powered && !landed);
    }

    method PutActive(slot: U8) returns (reported: bool, ghost landed: bool)
      modifies this`powered, this`meta, this`metaFault
      ensures powered ==> old(powered) && (reported <==> landed)
      ensures landed ==> old(powered)
      ensures meta == if landed then old(meta).(active := Some(slot)) else old(meta)
      ensures metaFault <==> old(metaFault) || (powered && !landed)
      ensures reliable && old(powered) ==> powered && landed
    {
      var effect: bool;
      reported, effect := Attempt();
      if effect { meta := meta.(active := Some(slot)); }
      landed := effect;
      metaFault := metaFault || (powered && !landed);
    }

    method PutPending(flag: bool) returns (reported: bool, ghost landed: bool)
      modifies this`powered, this`meta
      ensures powered ==> old(powered) && (reported <==> landed)
      ensures landed ==> old(powered)
      ensures meta == if landed then old(meta).(pending := Some(flag)) else old(meta)
      ensures reliable && old(powered) ==> powered && landed
    {
      var effect: bool;
      reported, effect := Attempt();
      if effect { meta := meta.(pending := Some(flag)); }
      landed := effect;
    }

    /** One field write; `reported` compares the returned size with the expected one. */
    method PutField(slot: nat, k: Key, v: Value) returns (reported: bool, ghost landed: bool)
      requires slot < 2
      modifies this`powered, this`slots
      ensures powered ==> old(powered) && (reported <==> landed || v == Text(""))
      ensures landed ==> old(powered)
      ensures slots == if landed then old(slots)[slot := old(slots)[slot][k := v]] else old(slots)
      ensures reliable && old(powered) ==> powered && landed
    {
      var effect: bool;
      reported, effect := Attempt();
      if effect { slots := slots[slot := slots[slot][k := v]]; }
      landed := effect;
      if powered && !effect {
        reported := v == Text("");
      }
    }

    /** Erasing a namespace may stop anywhere when it fails or power is lost. */
    method ClearSlot(slot: nat) returns (reported: bool)
      requires slot < 2
      modifies this`powered, this`slots
      ensures powered ==> old(powered)
      ensures !old(powered) ==> slots == old(slots)
      ensures slots[Other(slot)] == old(slots)[Other(slot)]
      ensures powered && reported ==> slots[slot] == map[]
      ensures reliable && old(powered) ==> powered && reported
    {
      var effect: bool;
      var before := powered;
      reported, effect := Attempt();
      var rest: set<Key> := *;
      if before {
        var remaining := map k | k in slots[slot] && k in rest && !(powered && reported) :: slots[slot][k];
        slots := slots[slot := remaining];
      }
    }

    /** Writes every field in order; a lost write of an empty text goes unnoticed. */
    method PutFields(slot: nat, value: Config, keys: seq<Key>, ghost erased: bool) returns (ok: bool)
      requires slot < 2
      requires Valid !in keys
      requires powered && erased ==> slots[slot].Keys == {Valid}
      modifies this`powered, this`slots
      ensures powered ==> old(powered)
      ensures !old(powered) ==> slots == old(slots)
      ensures slots[Other(slot)] == old(slots)[Other(slot)]
      ensures reliable && old(powered) ==> powered && ok
      ensures powered && ok && erased ==> Valid in slots[slot]
      ensures powered && ok && erased ==> forall k :: k in keys ==> Kept(slots[slot], k, Field(value, k))
    {
      hide Field;
      ok := true;
      for i := 0 to |keys|
        invariant powered ==> old(powered)
        invariant reliable && old(powered) ==> powered && ok
        invariant !old(powered) ==> slots == old(slots)
        invariant slots[Other(slot)] == old(slots)[Other(slot)]
        invariant powered && ok && erased ==> Valid in slots[slot]
        invariant powered && ok && erased ==> forall k :: k in keys[..i] ==> Kept(slots[slot], k, Field(value, k))
        invariant powered && ok && erased ==> forall k :: k in slots[slot] ==> k == Valid || k in keys[..i]
      {
        var key := keys[i];
        ghost var landed: bool;
        var reported: bool;
        reported, landed := PutField(slot, key, Field(value, key));
        ok := ok && reported;
        assert keys[..i + 1] == keys[..i] + [key];
      }
      assert keys[..|keys|] == keys;
    }

    method WriteSlot(slot: nat, value: Config) returns (ok: bool)
      requires slot < 2
      requires Normalize(value) == value
      modifies this`powered, this`slots
      ensures powered ==> old(powered)
      ensures !old(powered) ==> slots == old(slots)
      ensures slots[Other(slot)] == old(slots)[Other(slot)]
      ensures powered && ok ==>
                ReadSlot(slots[slot]).Some? && Stored(value, ReadSlot(slots[slot]).value)
      ensures powered && ok && value.timezone != "" ==> ReadSlot(slots[slot]) == Some(value)
      ensures reliable && old(powered) ==> powered && ok
    {
      var mounted: bool :| reliable ==> mounted;
      if !mounted { return false; }
      ghost var landed: bool;
      var reported: bool;
      reported, landed := PutField(slot, Valid, Flag(false));
      var invalidated := reported && !GetFlag(slots[slot], Valid, true);
      if !invalidated { return false; }
      ok := ClearSlot(slot);
      if ok {
        reported, landed := PutField(slot, Valid, Flag(false));
        ok := reported && !GetFlag(slots[slot], Valid, true);
      }
      var all := PutFields(slot, value, FIELD_KEYS, ok);
      ok := ok && all;
      if ok {
        reported, landed := PutField(slot, Valid, Flag(true));
        ok := reported && GetFlag(slots[slot], Valid, false);
        if powered && ok {
          KeptFieldsRead(slots[slot], value);
        }
      }
    }

    /** Marks a commit to the target slot as under way. */
    method MarkTarget(target: nat) returns (marked: bool, ghost targetLanded: bool, ghost pendingLanded: bool)
      requires target < 2
      modifies this`powered, this`meta, this`metaFault
      ensures powered ==> old(powered)
      ensures meta == Marked(old(meta), target, targetLanded, pendingLanded)
      ensures targetLanded || pendingLanded ==> old(powered)
      ensures powered ==> (marked <==> targetLanded && pendingLanded)
      ensures marked ==> meta.target == Some(target as U8) && Pending(meta)
      ensures old(metaFault) ==> metaFault
      ensures !metaFault && pendingLanded ==> targetLanded
      ensures reliable && old(powered) ==> powered && marked && metaFault == old(metaFault)
    {
      var mounted: bool :| reliable ==> mounted;
      if !mounted { return false, false, false; }
      var targetReported, pendingReported: bool;
      targetReported, targetLanded := PutTarget(target as U8);
      pendingReported, pendingLanded := PutPending(true);
      marked := targetReported && pendingReported && meta.target == Some(target as U8) && Pending(meta);
    }

    /** Ends a commit to the target slot. */
    method CloseCommit(target: nat) returns (closed: bool, ghost activeLanded: bool, ghost clearedLanded: bool)
      requires target < 2
      modifies this`powered, this`meta, this`metaFault
      ensures powered ==> old(powered)
      ensures meta == Settled(old(meta), target, activeLanded, clearedLanded)
      ensures activeLanded || clearedLanded ==> old(powered)
      ensures powered ==> (closed <==> activeLanded && clearedLanded)
      ensures closed ==> meta.active == Some(target as U8) && meta.pending == Some(false)
      ensures old(metaFault) ==> metaFault
      ensures !metaFault && clearedLanded ==> activeLanded
      ensures reliable && old(powered) ==> powered && closed && metaFault == old(metaFault)
    {
      var mounted: bool :| reliable ==> mounted;
      if !mounted { return false, false, false; }
      var activeReported, clearedReported: bool;
      activeReported, activeLanded := PutActive(target as U8);
      clearedReported, clearedLanded := PutPending(false);
      closed := activeReported && clearedReported && meta.active == Some(target as U8) && meta.pending == Some(false);
    }

    /** Saves a configuration. Unless a "target" or "active" write fails, flash
        holds exactly the old configuration until the final write of
        pending=false lands and exactly the new one afterwards. Such failures do
        no harm either when the metadata is guarded; when it is not, the metadata
        and the slots are still known from the writes that landed. A completed
        save always leaves unguarded metadata. */
    method SaveConfig(requested: Config) returns (saved: bool, ghost switched: bool, ghost fate: Fate)
      requires powered && activeSlot < 2
      modifies this`powered, this`meta, this`slots, this`metaFault, this`activeSlot, this`committed, this`answers
      ensures old(metaFault) ==> metaFault
      ensures reliable ==> powered && saved && metaFault == old(metaFault)
      ensures answers == old(answers) + [saved && powered]
      ensures activeSlot == if saved then Other(old(activeSlot)) else old(activeSlot)
      ensures old(Running()) && (!metaFault || old(Guarded(meta))) ==>
                if switched
                then
                  Persisted().Some? && Stored(Normalize(requested), Persisted().value) &&
                  Delivers(requested, Persisted().value) &&
                  (requested.timezone != "" ==> Persisted() == Some(Normalize(requested)))
                else Persisted() == old(Persisted())
      ensures old(Running()) && (!metaFault || old(Guarded(meta))) && powered ==> Running() && (saved <==> switched)
      ensures committed == if saved then Normalize(requested) else old(committed)
      ensures meta == Committed(old(meta), Other(old(activeSlot)), fate)
      ensures slots[old(activeSlot)] == old(slots[activeSlot])
      ensures !(fate.target && fate.pending) ==> slots == old(slots) && !fate.active && !fate.cleared
      ensures fate.active || fate.cleared ==>
                var written := ReadSlot(slots[Other(old(activeSlot))]);
                written.Some? && Stored(Normalize(requested), written.value)
      ensures saved && powered ==>
                meta == Meta(Some(activeSlot as U8), Some(false), Some(activeSlot as U8)) && !Guarded(meta)
    {
      hide ReadSlot, Normalize, Stored, Delivers;
      NormalizeIdempotent(requested);
      switched, fate, answers := false, Fate(false, false, false, false), answers + [false];
      var value := Normalize(requested);
      var target := Other(activeSlot);
      var marked, closed: bool;
      ghost var first, second: bool;
      marked, first, second := MarkTarget(target);
      fate := fate.(target := first, pending := second);
      if !marked { return false, false, fate; }
      var written := WriteSlot(target, value);
      if !written { return false, false, fate; }
      closed, first, second := CloseCommit(target);
      fate := fate.(active := first, cleared := second);
      switched := second && BootSlot(meta) == target;
      if switched && Persisted().Some? && Stored(value, Persisted().value) {
        StoredDelivers(requested, Persisted().value);
      }
      if !closed { return false, switched, fate; }
      activeSlot, committed, answers := target, value, answers[|answers| - 1 := powered];
      return true, switched, fate;
    }

    /** Ends an interrupted commit on the slot just chosen. */
    method Recover() returns (ghost activeLanded: bool, ghost pendingLanded: bool)
      requires activeSlot < 2
      modifies this`powered, this`meta, this`metaFault
      ensures powered ==> old(powered)
      ensures meta == Settled(old(meta), activeSlot, activeLanded, pendingLanded)
      ensures !metaFault && pendingLanded ==> activeLanded
      ensures reliable ==> metaFault == old(metaFault)
      ensures reliable && old(powered) ==> powered && activeLanded && pendingLanded
      ensures old(metaFault) ==> metaFault
    {
      var reported: bool;
      reported, activeLanded := PutActive(activeSlot as U8);
      reported, pendingLanded := PutPending(false);
    }

    /** Reads one slot; a namespace that does not open reads as an empty one. */
    method ReadNamespace(slot: nat) returns (stored: Option<Config>, ghost seen: Namespace)
      requires slot < 2
      modifies this`openFault
      ensures old(openFault) ==> openFault
      ensures seen == slots[slot] || seen == map[]
      ensures !openFault ==> seen == slots[slot]
      ensures reliable ==> openFault == old(openFault)
      ensures stored == ReadSlot(seen)
      ensures stored.Some? ==> Normalize(stored.value) == stored.value
    {
      LoadedIsNormal(slots[slot]);
      var mounted: bool :| reliable ==> mounted;
      openFault := openFault || (!mounted && slots[slot] != map[]);
      seen := if mounted then slots[slot] else map[];
      stored := if mounted then ReadSlot(slots[slot]) else None;
    }

    /** Sets the RAM configuration from the requested slot, the other slot, or
        the legacy namespace, in that order; a rollback never uses the other slot. */
    method LoadSlot(first: nat, rollback: bool) returns (ghost seen: Slots)
      requires first < 2
      modifies this`openFault, this`activeSlot, this`config, this`committed
      ensures activeSlot < 2 && committed == config
      ensures old(openFault) ==> openFault
      ensures reliable ==> openFault == old(openFault)
      ensures Glimpsed(seen, slots) && (!openFault ==> seen == slots)
      ensures if ReadSlot(seen[first]).Some? then activeSlot == first && ReadSlot(seen[first]) == Some(config)
              else if !rollback && ReadSlot(seen[Other(first)]).Some? then
                activeSlot == Other(first) && ReadSlot(seen[Other(first)]) == Some(config)
              else activeSlot == first && config == DecodeLegacy(legacy)
    {
      hide Decode, Normalize;
      LoadedIsNormal(legacy);
      var requested := first;
      activeSlot := requested;
      ghost var namespace: Namespace;
      var stored: Option<Config>;
      stored, namespace := ReadNamespace(requested);
      seen := slots[requested := namespace];
      if stored.None? && !rollback {
        requested := Other(requested);
        stored, namespace := ReadNamespace(requested);
        seen := seen[requested := namespace];
      }
      if stored.Some? {
        config := stored.value;
        activeSlot := requested;
      } else {
        config := DecodeLegacy(legacy);
      }
      config := Normalize(config);
      committed := config;
    }

    /** Reads the metadata, chooses a slot and loads it. */
    method LoadRequested() returns (hadPending: bool, ghost read: Meta, ghost seen: Slots)
      modifies this`openFault, this`activeSlot, this`config, this`committed
      ensures activeSlot < 2 && committed == config
      ensures read == meta || read == Meta(None, None, None)
      ensures Glimpsed(seen, slots) && (!openFault ==> read == meta && seen == slots)
      ensures (activeSlot, config) == Boot(read, seen, legacy) && hadPending == Pending(read)
      ensures old(openFault) ==> openFault
      ensures reliable ==> openFault == old(openFault)
    {
      hide Decode, Normalize, ReadSlot, DecodeLegacy, Glimpsed, Boot;
      var metadataOpen: bool :| reliable ==> metadataOpen;
      openFault := openFault || (!metadataOpen && meta != Meta(None, None, None));
      read := if metadataOpen then meta else Meta(None, None, None);
      var requested := if metadataOpen && meta.active.Some? then meta.active.value else 0;
      if requested > 1 { requested := 0; }
      hadPending := metadataOpen && Pending(meta);
      var target := if metadataOpen && meta.target.Some? then meta.target.value else 0xff;
      var rollback := hadPending && target <= 1;
      if rollback { requested := Other(target); }
      seen := LoadSlot(requested, rollback);
      BootLoads(read, seen, legacy);
    }

    /** Boot: choose a slot, load it, and undo an interrupted commit. While no
        namespace fails to open and no "active" write fails, the boot returns
        the persisted configuration and leaves it persisted, wherever the
        recovery itself loses power. A namespace that does not open counts as
        empty; what is loaded and what recovery writes then follow from that. */
    method LoadConfig() returns (ghost read: Meta, ghost seen: Slots, ghost landed: (bool, bool))
      modifies this
      ensures powered ==> old(powered)
      ensures slots == old(slots) && answers == old(answers) && activeSlot < 2 && committed == config
      ensures read == old(meta) || read == Meta(None, None, None)
      ensures Glimpsed(seen, slots) && (!openFault ==> read == old(meta) && seen == slots)
      ensures (activeSlot, config) == Boot(read, seen, legacy)
      ensures meta == Settled(old(meta), activeSlot, landed.0, landed.1)
      ensures landed.0 || landed.1 ==> Pending(read)
      ensures reliable ==> openFault == old(openFault) && metaFault == old(metaFault)
      ensures reliable && old(powered) ==> powered && (Pending(read) ==> landed == (true, true))
      ensures !openFault && !metaFault && old(Persisted()).Some? ==>
                Persisted() == old(Persisted()) == Some(config)
      ensures !openFault && !metaFault && old(Persisted()).Some? && powered ==> Running()
      ensures old(openFault) ==> openFault
      ensures old(metaFault) ==> metaFault
    {
      hide Decode, Normalize, ReadSlot, DecodeLegacy, Settled, Glimpsed, Boot, BootSlot, Pending;
      NothingSettled(meta);
      BootLoads(meta, slots, legacy);
      var hadPending: bool;
      hadPending, read, seen := LoadRequested();
      landed := (false, false);
      if hadPending {
        var mounted: bool :| reliable ==> mounted;
        if mounted {
          ghost var activeLanded, pendingLanded := Recover();
          landed := (activeLanded, pendingLanded);
          if pendingLanded ==> activeLanded {
            BootSlotSettles(old(meta), activeLanded, pendingLanded);
          }
        }
      }
    }

    /** Any sequence of saves, each followed by any number of power cycles with
        interruptible recoveries. Flash always holds the initial configuration
        or a requested one, and never one older than a save that answered true. */
    method Lifetime(requests: seq<Config>) returns (ghost current: int)
      requires Running() && !metaFault && !openFault
      modifies this
      ensures -1 <= current < |requests|
      ensures old(answers) <= answers && |answers| <= |old(answers)| + |requests|
      ensures !metaFault && !openFault ==> Holds(old(Persisted()), requests, current, |old(answers)|)
    {
      hide Normalize, ReadSlot, DecodeLegacy, Stored;
      current := -1;
      var i := 0;
      while i < |requests| && powered
        invariant 0 <= i <= |requests|
        invariant -1 <= current < i
        invariant old(answers) <= answers && |answers| == |old(answers)| + i
        invariant !metaFault && !openFault ==> Holds(old(Persisted()), requests, current, |old(answers)|)
        invariant powered ==> activeSlot < 2
        invariant !metaFault && !openFault && powered ==> Running()
      {
        ghost var switched: bool;
        var saved: bool;
        ghost var fate: Fate;
        saved, switched, fate := SaveConfig(requests[i]);
        if switched { current := i; }
        var cycles: nat := *;
        while 0 < cycles
          invariant old(answers) <= answers && |answers| == |old(answers)| + i + 1
          invariant !metaFault && !openFault ==> Holds(old(Persisted()), requests, current, |old(answers)|)
          invariant powered ==> activeSlot < 2
          invariant !metaFault && !openFault && powered ==> Running()
        {
          powered := true;
          ghost var read, seen, landed := LoadConfig();
          cycles := cycles - 1;
        }
        i := i + 1;
      }
    }

    /** Flash holds the request `current`, or what it held before the first one if
        there is none, and no later request was answered with success. */
    ghost predicate Holds(before: Option<Config>, requests: seq<Config>, current: int, first: nat)
      requires -1 <= current < |requests|
      reads this
    {
      (forall i :: first <= i < |answers| && answers[i] ==> i - first <= current) &&
      Persisted().Some? &&
      if current == -1 then Persisted() == before else Stored(Normalize(requests[current]), Persisted().value)
    }
  }

  // --- Runs in which the guarantees fail ----------------------------------------------

  /** The very first commit, interrupted before its closing writes: the next boot
      loads the legacy configuration and ends the commit, and the boot after that
      loads what was undone. */
  lemma FirstCommitComesBack(written: Namespace, legacy: Namespace)
    requires ReadSlot(written).Some?
    ensures var m := Committed(Meta(None, None, None), 1, Fate(true, true, false, false));
            Boot(m, [map[], written], legacy) == (0, DecodeLegacy(legacy)) &&
            Boot(Settled(m, 0, true, true), [map[], written], legacy) == (1, ReadSlot(written).value)
  {
    hide Decode, Normalize;
  }

  /** A save on top of slot 1 loses power after "active" has landed. From there the
      boot slot is 1 still; a recovery or a repeated save that fails to write
      "active" but clears "pending" moves it to the unfinished slot 0. */
  lemma FailedActiveMovesBootSlot()
    ensures var m := Committed(Meta(Some(1), Some(false), Some(1)), 0, Fate(true, true, true, false));
            BootSlot(m) == 1 && BootSlot(Committed(m, 0, Fate(true, true, false, true))) == 0 &&
            BootSlot(Settled(m, 1, false, true)) == 0
  {
  }

  /** The namespace that the writes of a configuration leave when that of the
      time zone is lost. */
  function WithoutZone(c: Config): Namespace {
    map k: Key | k != Timezone :: Field(c, k)
  }

  /** A configuration without time zone reads back as one with "CST-8". */
  lemma LostZoneReadsAsDefault(c: Config)
    requires c.timezone == ""
    ensures forall k :: k in FIELD_KEYS ==> Kept(WithoutZone(c), k, Field(c, k))
    ensures ReadSlot(WithoutZone(c)).Some? && ReadSlot(WithoutZone(c)).value.timezone == "CST-8"
  {
    hide Normalize, Decode;
    var ns := WithoutZone(c);
    assert ns[Valid] == Flag(true);
    ZoneOfAbsent(ns);
    NormalizeIdempotent(Decode(ns));
  }

  lemma ZoneOfAbsent(ns: Namespace)
    requires Timezone !in ns
    ensures Decode(ns).timezone == "CST-8"
  {
  }
}
