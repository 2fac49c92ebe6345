/** The timestamp parser of the display, for section 5.6 of RFC 3339. */
module Rfc3339 {
  import opened Prelude
  import opened Decimals
  import opened Calendar

  /** The fields of a timestamp; `fraction` holds the digits after the point. */
  datatype Timestamp = Timestamp(
    year: nat, month: nat, day: nat, hour: nat, minute: nat, second: nat, fraction: string, zone: Zone)

  datatype Zone = Zulu | Offset(east: bool, hours: nat, minutes: nat)

  predicate ValidFields(t: Timestamp) {
    1970 <= t.year <= 9999 && 1 <= t.month <= 12 && ValidDate(Date(t.year, t.month, t.day)) &&
    t.hour <= 23 && t.minute <= 59 && t.second <= 59 &&
    AllDigits(t.fraction) && (t.zone.Offset? ==> t.zone.hours <= 23 && t.zone.minutes <= 59)
  }

  function OffsetSeconds(z: Zone): int {
    match z
    case Zulu => 0
    case Offset(east, h, m) => (if east then 1 else -1) * (h * 3600 + m * 60)
  }

  /** The true epoch second: days by calendar, local time of day, less the offset. */
  function Epoch(t: Timestamp): int
    requires ValidDate(Date(t.year, t.month, t.day))
  {
    Days(Date(t.year, t.month, t.day)) * 86400 + t.hour * 3600 + t.minute * 60 + t.second - OffsetSeconds(t.zone)
  }

  // --- Writing ----------------------------------------------------------------

  /** The last `width` decimal digits of n. */
  function Pad(n: nat, width: nat): (s: string)
    ensures |s| == width && AllDigits(s)
  {
    if width == 0 then "" else Pad(n / 10, width - 1) + [DigitOf(n % 10)]
  }

  function RenderZone(z: Zone): string {
    match z
    case Zulu => "Z"
    case Offset(east, h, m) => (if east then "+" else "-") + Pad(h, 2) + ":" + Pad(m, 2)
  }

  function RenderFraction(f: string): string {
    if f == "" then "" else "." + f
  }

  function RenderDateTime(t: Timestamp): string {
    Pad(t.year, 4) + "-" + Pad(t.month, 2) + "-" + Pad(t.day, 2) + "T" +
    Pad(t.hour, 2) + ":" + Pad(t.minute, 2) + ":" + Pad(t.second, 2)
  }

  function Render(t: Timestamp): string {
    RenderDateTime(t) + (RenderFraction(t.fraction) + RenderZone(t.zone))
  }

  // --- Reading: specification -----------------------------------------------------

  /** The length of the longest run of digits from `at` on. */
  function RunEnd(s: string, at: nat): (end: nat)
    requires at <= |s|
    ensures at <= end <= |s| && AllDigits(s[at..end])
    ensures end < |s| ==> !IsDigit(s[end])
    decreases |s| - at
  {
    if at < |s| && IsDigit(s[at]) then
      var end := RunEnd(s, at + 1);
      assert s[at..end] == [s[at]] + s[at + 1..end];
      end
    else at
  }

  predicate FieldsInPlace(s: string) {
    |s| >= 20 &&
    AllDigits(s[0..4]) && s[4] == '-' && AllDigits(s[5..7]) && s[7] == '-' && AllDigits(s[8..10]) && s[10] == 'T' &&
    AllDigits(s[11..13]) && s[13] == ':' && AllDigits(s[14..16]) && s[16] == ':' && AllDigits(s[17..19])
  }

  function ParseZone(s: string): (z: Option<Zone>)
    ensures z.Some? && z.value.Offset? ==> z.value.hours <= 23 && z.value.minutes <= 59
  {
    if s == "Z" then Some(Zulu)
    else if |s| == 6 && (s[0] == '+' || s[0] == '-') && AllDigits(s[1..3]) && s[3] == ':' && AllDigits(s[4..6]) &&
            NumberOf(s[1..3]) <= 23 && NumberOf(s[4..6]) <= 59
    then Some(Offset(s[0] == '+', NumberOf(s[1..3]), NumberOf(s[4..6])))
    else None
  }

  /** Where the zone begins, unless a point is followed by no digit. */
  function ZoneStart(s: string): (start: Option<nat>)
    requires |s| >= 20
    ensures start.Some? ==> 19 <= start.value <= |s|
  {
    if s[19] != '.' then Some(19)
    else if RunEnd(s, 20) == 20 then None
    else Some(RunEnd(s, 20))
  }

  function Parse(s: string): (r: Option<Timestamp>)
    ensures r.Some? ==> ValidFields(r.value)
  {
    if !FieldsInPlace(s) || ZoneStart(s).None? || ParseZone(s[ZoneStart(s).value..]).None? then None
    else
      var z := ZoneStart(s).value;
      var t := Timestamp(NumberOf(s[0..4]), NumberOf(s[5..7]), NumberOf(s[8..10]),
                         NumberOf(s[11..13]), NumberOf(s[14..16]), NumberOf(s[17..19]),
                         if z == 19 then "" else s[20..z], ParseZone(s[z..]).value);
      if ValidFields(t) then Some(t) else None
  }

  function EpochOf(s: string): Option<int> {
    if Parse(s).Some? then Some(Epoch(Parse(s).value)) else None
  }

  // --- Reading: the program ------------------------------------------------------------

  method Digits(s: string, at: nat, count: nat) returns (ok: bool, output: nat)
    ensures ok <==> at + count <= |s| && AllDigits(s[at..at + count])
    ensures ok ==> output == NumberOf(s[at..at + count])
  {
    output := 0;
    if at + count > |s| { return false, 0; }
    for i := 0 to count
      invariant AllDigits(s[at..at + i])
      invariant output == NumberOf(s[at..at + i])
    {
      var c := s[at + i];
      if c < '0' || c > '9' {
        assert s[at..at + count][i] == c;
        return false, 0;
      }
      assert s[at..at + i + 1] == s[at..at + i] + [c];
      output := output * 10 + (c as int - '0' as int);
    }
    return true, output;
  }

  method ReadDateTime(s: string)
    returns (ok: bool, year: nat, month: nat, day: nat, hour: nat, minute: nat, second: nat)
    ensures ok <==> FieldsInPlace(s)
    ensures ok ==> year == NumberOf(s[0..4]) && month == NumberOf(s[5..7]) && day == NumberOf(s[8..10]) &&
                   hour == NumberOf(s[11..13]) && minute == NumberOf(s[14..16]) && second == NumberOf(s[17..19])
  {
    hide NumberOf, AllDigits;
    year, month, day, hour, minute, second := 0, 0, 0, 0, 0, 0;
    ok := |s| >= 20;
    if !ok { return; }
    ok, year := Digits(s, 0, 4);
    if !ok || s[4] != '-' { ok := false; return; }
    ok, month := Digits(s, 5, 2);
    if !ok || s[7] != '-' { ok := false; return; }
    ok, day := Digits(s, 8, 2);
    if !ok || s[10] != 'T' { ok := false; return; }
    ok, hour := Digits(s, 11, 2);
    if !ok || s[13] != ':' { ok := false; return; }
    ok, minute := Digits(s, 14, 2);
    if !ok || s[16] != ':' { ok := false; return; }
    ok, second := Digits(s, 17, 2);
  }

  method ReadZone(s: string, start: nat) returns (zone: Option<Zone>)
    requires start <= |s|
    ensures zone == ParseZone(s[start..])
  {
    hide NumberOf, AllDigits;
    var cursor := start;
    ghost var rest := s[start..];
    if cursor < |s| && s[cursor] == 'Z' {
      cursor := cursor + 1;
      zone := Some(Zulu);
    } else if cursor < |s| && (s[cursor] == '+' || s[cursor] == '-') {
      var east := s[cursor] == '+';
      var ok, hours := Digits(s, cursor + 1, 2);
      assert |rest| >= 3 ==> s[cursor + 1..cursor + 3] == rest[1..3];
      if !ok || cursor + 5 >= |s| || s[cursor + 3] != ':' { return None; }
      var ok2, minutes := Digits(s, cursor + 4, 2);
      assert s[cursor + 4..cursor + 6] == rest[4..6];
      if !ok2 || hours > 23 || minutes > 59 { return None; }
      cursor := cursor + 6;
      zone := Some(Offset(east, hours, minutes));
    } else {
      return None;
    }
    if cursor != |s| { return None; }
  }

  method ParseRfc3339(s: string) returns (ok: bool, epoch: int)
    ensures ok <==> EpochOf(s).Some?
    ensures ok ==> EpochOf(s) == Some(epoch)
  {
    hide NumberOf, ParseZone, FieldsInPlace, ValidDate, DaysFromCivil;
    epoch := 0;
    var year, month, day, hour, minute, second: nat;
    ok, year, month, day, hour, minute, second := ReadDateTime(s);
    if !ok { return; }
    DateRange(year, month, day);
    if year < 1970 || year > 9999 || month < 1 || month > 12 || day < 1 || day > MonthDays(year, month) ||
       hour > 23 || minute > 59 || second > 59 {
      return false, 0;
    }
    ShortestTimestamp(s);
    var cursor := 19;
    if cursor < |s| && s[cursor] == '.' {
      cursor := cursor + 1;
      var start := cursor;
      while cursor < |s| && s[cursor] >= '0' && s[cursor] <= '9'
        invariant 20 <= cursor <= |s|
        invariant RunEnd(s, cursor) == RunEnd(s, 20)
      {
        cursor := cursor + 1;
      }
      if cursor == start { return false, 0; }
    }
    var zone := ReadZone(s, cursor);
    if zone.None? { return false, 0; }
    ok := true;
    epoch := DaysFromCivil(year, month, day) * 86400 + hour * 3600 + minute * 60 + second - OffsetSeconds(zone.value);
  }

  lemma DateRange(year: nat, month: nat, day: nat)
    ensures ValidDate(Date(year, month, day)) <==>
            1 <= month && month <= 12 && 1 <= day && day <= MonthDays(year, month)
  {
  }

  lemma ShortestTimestamp(s: string)
    requires FieldsInPlace(s)
    ensures |s| >= 20
  {
  }
}
