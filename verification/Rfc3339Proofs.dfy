/** The display accepts exactly the timestamps of section 5.6 of RFC 3339 with
    upper-case letters, years 1970 to 9999 and no leap second. */
module Rfc3339Proofs {
  import opened Prelude
  import opened Decimals
  import opened Calendar
  import opened Rfc3339

  function Power10(w: nat): nat {
    if w == 0 then 1 else 10 * Power10(w - 1)
  }

  lemma {:induction false} PadKeepsNumber(n: nat, w: nat)
    requires n < Power10(w)
    ensures NumberOf(Pad(n, w)) == n
  {
    if w > 0 {
      PadKeepsNumber(n / 10, w - 1);
      var s := Pad(n, w);
      assert s[..|s| - 1] == Pad(n / 10, w - 1);
    }
  }

  lemma {:induction false} NumberKeepsDigits(s: string)
    requires AllDigits(s)
    ensures Pad(NumberOf(s), |s|) == s && NumberOf(s) < Power10(|s|)
  {
    if s != "" {
      var front, last := s[..|s| - 1], s[|s| - 1] as int - '0' as int;
      NumberKeepsDigits(front);
      var n := NumberOf(s);
      assert n == NumberOf(front) * 10 + last;
      assert n / 10 == NumberOf(front) && n % 10 == last;
      assert s == front + [DigitOf(last)];
    }
  }

  // --- The zone -----------------------------------------------------------------

  lemma ZoneRoundTrip(z: Zone)
    requires z.Offset? ==> z.hours <= 23 && z.minutes <= 59
    ensures ParseZone(RenderZone(z)) == Some(z)
  {
    hide NumberOf, Pad;
    if z.Offset? {
      var s, h, m := RenderZone(z), Pad(z.hours, 2), Pad(z.minutes, 2);
      TwoDigits(z.hours);
      TwoDigits(z.minutes);
      assert s[1..3] == h && s[4..6] == m;
    }
  }

  lemma TwoDigits(n: nat)
    requires n < 100
    ensures NumberOf(Pad(n, 2)) == n
  {
    assert Power10(1) == 10;
    PadKeepsNumber(n, 2);
  }

  lemma ParsedZoneIsRendered(s: string)
    requires ParseZone(s).Some?
    ensures RenderZone(ParseZone(s).value) == s
  {
    hide NumberOf, Pad;
    if s != "Z" {
      NumberKeepsDigits(s[1..3]);
      NumberKeepsDigits(s[4..6]);
      assert s == [s[0]] + s[1..3] + ":" + s[4..6];
    }
  }

  lemma ZoneBeginsWithNoDigit(z: Zone)
    ensures RenderZone(z) != "" && !IsDigit(RenderZone(z)[0]) && RenderZone(z)[0] != '.'
  {
    hide Pad;
  }

  // --- The fixed fields -----------------------------------------------------------

  /** The six fields of a date and time joined by their separators. */
  function Joined(y: string, mo: string, d: string, h: string, mi: string, s: string): string {
    y + "-" + mo + "-" + d + "T" + h + ":" + mi + ":" + s
  }

  lemma JoinedFields(y: string, mo: string, d: string, h: string, mi: string, s: string, tail: string)
    requires |y| == 4 && |mo| == |d| == |h| == |mi| == |s| == 2 && tail != ""
    ensures var w := Joined(y, mo, d, h, mi, s) + tail;
            |w| == 19 + |tail| && w[0..4] == y && w[5..7] == mo && w[8..10] == d && w[11..13] == h &&
            w[14..16] == mi && w[17..19] == s && w[19..] == tail &&
            w[4] == '-' && w[7] == '-' && w[10] == 'T' && w[13] == ':' && w[16] == ':'
  {
  }

  lemma FieldsJoined(w: string)
    requires |w| >= 20 && w[4] == '-' && w[7] == '-' && w[10] == 'T' && w[13] == ':' && w[16] == ':'
    ensures w == Joined(w[0..4], w[5..7], w[8..10], w[11..13], w[14..16], w[17..19]) + w[19..]
  {
    var j := Joined(w[0..4], w[5..7], w[8..10], w[11..13], w[14..16], w[17..19]);
    assert |j| == 19;
    forall i | 0 <= i < 19
      ensures j[i] == w[i]
    {
    }
  }

  // --- The fraction -----------------------------------------------------------------

  lemma {:induction false} RunEndIs(s: string, at: nat, end: nat)
    requires at <= end < |s| && AllDigits(s[at..end]) && !IsDigit(s[end])
    ensures RunEnd(s, at) == end
    decreases end - at
  {
    if at < end {
      assert IsDigit(s[at..end][0]);
      assert s[at + 1..end] == s[at..end][1..];
      RunEndIs(s, at + 1, end);
    }
  }

  lemma FractionFound(head: string, f: string, zone: string)
    requires |head| == 19 && AllDigits(f) && zone != "" && !IsDigit(zone[0]) && zone[0] != '.'
    ensures var s := head + (RenderFraction(f) + zone);
            |s| >= 20 && ZoneStart(s) == Some(if f == "" then 19 else 20 + |f|) &&
            s[ZoneStart(s).value..] == zone && (f != "" ==> s[20..ZoneStart(s).value] == f)
  {
    var s := head + (RenderFraction(f) + zone);
    if f == "" {
      assert s[19..] == zone;
    } else {
      var end := 20 + |f|;
      assert s[20..end] == f && s[end..] == zone;
      RunEndIs(s, 20, end);
    }
  }

  // --- Both directions ------------------------------------------------------------------

  lemma RenderedParses(t: Timestamp)
    requires ValidFields(t)
    ensures Parse(Render(t)) == Some(t)
  {
    hide NumberOf, Pad, ParseZone, ValidDate, RenderFraction, ZoneStart, RenderZone, AllDigits;
    var s, tail := Render(t), RenderFraction(t.fraction) + RenderZone(t.zone);
    ZoneBeginsWithNoDigit(t.zone);
    var y, mo, d := Pad(t.year, 4), Pad(t.month, 2), Pad(t.day, 2);
    var h, mi, sec := Pad(t.hour, 2), Pad(t.minute, 2), Pad(t.second, 2);
    JoinedFields(y, mo, d, h, mi, sec, tail);
    assert s == Joined(y, mo, d, h, mi, sec) + tail;
    FractionFound(RenderDateTime(t), t.fraction, RenderZone(t.zone));
    ZoneRoundTrip(t.zone);
    DayBelowHundred(t);
    FourDigits(t.year);
    TwoDigits(t.month);
    TwoDigits(t.day);
    TwoDigits(t.hour);
    TwoDigits(t.minute);
    TwoDigits(t.second);
  }

  lemma FourDigits(n: nat)
    requires n < 10000
    ensures NumberOf(Pad(n, 4)) == n
  {
    assert Power10(1) == 10 && Power10(2) == 100 && Power10(3) == 1000;
    PadKeepsNumber(n, 4);
  }

  lemma DayBelowHundred(t: Timestamp)
    requires ValidFields(t)
    ensures t.day < 100
  {
  }

  lemma ParsedIsRendered(s: string)
    requires Parse(s).Some?
    ensures Render(Parse(s).value) == s
  {
    hide NumberOf, Pad, ParseZone, ValidFields, RenderZone, AllDigits, Joined;
    var t := Parse(s).value;
    var z := ZoneStart(s).value;
    NumberKeepsDigits(s[0..4]);
    NumberKeepsDigits(s[5..7]);
    NumberKeepsDigits(s[8..10]);
    NumberKeepsDigits(s[11..13]);
    NumberKeepsDigits(s[14..16]);
    NumberKeepsDigits(s[17..19]);
    FieldsJoined(s);
    ParsedZoneIsRendered(s[z..]);
    if z > 19 {
      assert s[19..] == "." + s[20..z] + s[z..];
    }
    DateTimeIsJoined(t);
  }

  lemma DateTimeIsJoined(t: Timestamp)
    ensures RenderDateTime(t) ==
            Joined(Pad(t.year, 4), Pad(t.month, 2), Pad(t.day, 2), Pad(t.hour, 2), Pad(t.minute, 2), Pad(t.second, 2))
  {
  }

  /** The parser accepts a text if and only if it is the rendering of valid fields
      with any fraction and any offset, and then yields their true epoch second. */
  lemma AcceptsExactlyRenderings(s: string, t: Timestamp)
    ensures Parse(s) == Some(t) <==> ValidFields(t) && s == Render(t)
    ensures ValidFields(t) ==> EpochOf(Render(t)) == Some(Epoch(t))
  {
    hide Parse, Render, ValidDate;
    if ValidFields(t) {
      RenderedParses(t);
    }
    if Parse(s) == Some(t) {
      ParsedIsRendered(s);
    }
  }
}
