/** Reading Claude's reset times, which normally omit the year. Instants are
    nanoseconds since 1970, zones are fixed offsets in seconds. */
module ClaudeReset {
  import opened Prelude
  import opened Calendar

  const HOUR: int := 60 * MINUTE
  const DAY: int := 24 * HOUR

  const PAST_TOLERANCE: int := 24 * HOUR
  const MAX_HORIZON: int := 8 * DAY

  datatype Meridiem = AM | PM

  /** The groups of the matched phrase; the month name is in lower case. */
  datatype Phrase = Phrase(
    month: string, day: nat, year: Option<nat>, hour: nat, minute: Option<nat>, meridiem: Option<Meridiem>)

  const MONTH_NAMES: seq<string> :=
    ["january", "february", "march", "april", "may", "june", "july", "august",
     "september", "october", "november", "december"]

  // --- Wall clocks ------------------------------------------------------------

  /** A minute on the wall clock of a zone. */
  datatype Wall = Wall(date: Date, hour: int, minute: int)

  /** The day number shown by the zone's calendar. */
  function LocalDay(t: int, offset: int): int {
    (t + offset * SECOND) / DAY
  }

  /** Time since local midnight. */
  function TimeOfDay(t: int, offset: int): (n: int)
    ensures 0 <= n < DAY
  {
    (t + offset * SECOND) % DAY
  }

  function WallOf(t: int, offset: int): Wall {
    Wall(DateOf(LocalDay(t, offset)), TimeOfDay(t, offset) / HOUR, TimeOfDay(t, offset) % HOUR / MINUTE)
  }

  /** time.Date: a day past the end of the month runs into the next one. */
  function Instant(year: int, month: int, day: int, hour: int, minute: int, offset: int): int
    requires 1 <= month <= 12
  {
    (DaysFromCivil(year, month, 1) + day - 1) * DAY + hour * HOUR + minute * MINUTE - offset * SECOND
  }

  // --- The program --------------------------------------------------------------

  predicate InHorizon(reset: int, observed: int) {
    -PAST_TOLERANCE <= reset - observed <= MAX_HORIZON
  }

  /** The instant, unless normalization changed the wall clock asked for. */
  function Build(year: int, month: int, day: int, hour: int, minute: int, offset: int): Option<int>
    requires 1 <= month <= 12
  {
    var t := Instant(year, month, day, hour, minute, offset);
    if WallOf(t, offset) == Wall(Date(year, month, day), hour, minute) then Some(t) else None
  }

  method EnglishMonth(lower: string) returns (month: Option<int>)
    ensures month.Some? ==> 1 <= month.value <= 12 && Names(lower, month.value)
    ensures month.None? ==> forall m :: !Names(lower, m)
  {
    for m := 1 to 13
      invariant forall k :: 1 <= k < m ==> !Names(lower, k)
    {
      var name := MONTH_NAMES[m - 1];
      if lower == name || lower == name[..3] { return Some(m); }
    }
    return None;
  }

  /** The full English name of a month, or its first three letters. */
  predicate Names(lower: string, month: int): (named: bool)
    ensures named ==> 1 <= month <= 12
  {
    1 <= month <= 12 && |MONTH_NAMES[month - 1]| >= 3 &&
    (lower == MONTH_NAMES[month - 1] || lower == MONTH_NAMES[month - 1][..3])
  }

  /** 12-hour to 24-hour time. */
  function FullHour(hour: nat, meridiem: Option<Meridiem>): Option<int> {
    match meridiem
    case None => if hour > 23 then None else Some(hour)
    case Some(m) =>
      if hour < 1 || hour > 12 then None
      else Some((if hour == 12 then 0 else hour) + (if m == PM then 12 else 0))
  }

  /** A year for which the wall clock exists and lies in the horizon. */
  predicate Fits(year: int, month: int, day: int, hour: int, minute: int, offset: int, observed: int)
    requires 1 <= month <= 12
  {
    var t := Build(year, month, day, hour, minute, offset);
    t.Some? && InHorizon(t.value, observed)
  }

  function MinuteOf(p: Phrase): nat {
    if p.minute.Some? then p.minute.value else 0
  }

  /** This month and year are what the phrase can mean at the observation. */
  predicate Solves(p: Phrase, month: int, year: int, observed: int, offset: int) {
    Names(p.month, month) && FullHour(p.hour, p.meridiem).Some? && 1 <= p.day <= 31 && MinuteOf(p) <= 59 &&
    (p.year.Some? ==> year == p.year.value) &&
    Fits(year, month, p.day, FullHour(p.hour, p.meridiem).value, MinuteOf(p), offset, observed)
  }

  function Solution(p: Phrase, month: int, year: int, offset: int): Option<int>
    requires Names(p.month, month) && FullHour(p.hour, p.meridiem).Some?
  {
    Build(year, month, p.day, FullHour(p.hour, p.meridiem).value, MinuteOf(p), offset)
  }

  /** The meaning of a phrase, over all months and all years there are. */
  ghost function Meaning(p: Phrase, observed: int, offset: int): Option<int> {
    if exists month, year :: Solves(p, month, year, observed, offset) then
      var month, year :| Solves(p, month, year, observed, offset);
      Solution(p, month, year, offset)
    else None
  }

  /** Tries the years around the observation only. */
  method ParseAbsoluteReset(p: Phrase, observed: int, offset: int) returns (r: Option<int>)
    ensures r == Meaning(p, observed, offset)
  {
    hide WallOf, Instant, Build, Names, FullHour, Fits, InHorizon;
    var named := EnglishMonth(p.month);
    if named.None? { return None; }
    var month := named.value;
    MonthNamesDiffer();
    var minute := MinuteOf(p);
    if p.day < 1 || p.day > 31 || minute > 59 { return None; }
    var full := FullHour(p.hour, p.meridiem);
    if full.None? { return None; }
    var hour := full.value;
    if p.year.Some? {
      if !Fits(p.year.value, month, p.day, hour, minute, offset, observed) { return None; }
      SolutionIsMeaning(p, month, p.year.value, observed, offset);
      return Build(p.year.value, month, p.day, hour, minute, offset);
    }
    var current := WallOf(observed, offset).date.year;
    var year := current - 1;
    while year <= current + 1
      invariant current - 1 <= year <= current + 2
      invariant forall y :: current - 1 <= y < year ==> !Solves(p, month, y, observed, offset)
    {
      if Fits(year, month, p.day, hour, minute, offset, observed) {
        SolutionIsMeaning(p, month, year, observed, offset);
        return Build(year, month, p.day, hour, minute, offset);
      }
      year := year + 1;
    }
    forall m, y
      ensures !Solves(p, m, y, observed, offset)
    {
      if Solves(p, m, y, observed, offset) {
        FittingYearIsNear(y, month, p.day, hour, minute, offset, observed);
      }
    }
    return None;
  }

  // --- Why three candidate years are enough ------------------------------------------

  lemma BuiltDay(year: int, month: int, day: int, hour: int, minute: int, offset: int)
    requires 1 <= month <= 12 && Build(year, month, day, hour, minute, offset).Some?
    ensures ValidDate(Date(year, month, day))
    ensures LocalDay(Build(year, month, day, hour, minute, offset).value, offset) == Days(Date(year, month, day))
  {
    hide DateOf, DaysFromCivil;
  }

  lemma HorizonInDays(reset: int, observed: int, offset: int)
    requires InHorizon(reset, observed)
    ensures -1 <= LocalDay(reset, offset) - LocalDay(observed, offset) <= 8
  {
    var a, b := reset + offset * SECOND, observed + offset * SECOND;
    assert a - b == reset - observed;
  }

  lemma NearDaysHaveNearYears(a: Date, b: Date)
    requires ValidDate(a) && ValidDate(b) && -9 <= Days(a) - Days(b) <= 9
    ensures -1 <= a.year - b.year <= 1
  {
    if a.year + 1 < b.year {
      EarlyAndLate(a, b);
    } else if b.year + 1 < a.year {
      EarlyAndLate(b, a);
    }
  }

  /** More than a year apart when a whole year lies in between. */
  lemma EarlyAndLate(a: Date, b: Date)
    requires ValidDate(a) && ValidDate(b) && a.year + 1 < b.year
    ensures Days(a) + 365 < Days(b)
  {
    hide DaysFromCivil, LeapYear;
    var start := Date(a.year + 1, 1, 1);
    EarlierIsSmaller(a, start);
    YearsApart(a.year + 1, b.year);
    if Date(b.year, 1, 1) != b {
      EarlierIsSmaller(Date(b.year, 1, 1), b);
    }
  }

  lemma FittingYearIsNear(year: int, month: int, day: int, hour: int, minute: int, offset: int, observed: int)
    requires 1 <= month <= 12 && Fits(year, month, day, hour, minute, offset, observed)
    ensures var current := WallOf(observed, offset).date.year; current - 1 <= year <= current + 1
  {
    hide DaysFromCivil, ValidDate, Build, LocalDay;
    var t := Build(year, month, day, hour, minute, offset).value;
    BuiltDay(year, month, day, hour, minute, offset);
    HorizonInDays(t, observed, offset);
    NearDaysHaveNearYears(Date(year, month, day), DateOf(LocalDay(observed, offset)));
  }

  /** No two years put the same wall clock into the horizon. */
  lemma FittingYearIsUnique(a: int, b: int, month: int, day: int, hour: int, minute: int, offset: int, observed: int)
    requires 1 <= month <= 12
    requires Fits(a, month, day, hour, minute, offset, observed) && Fits(b, month, day, hour, minute, offset, observed)
    ensures a == b
  {
    hide DaysFromCivil, ValidDate, Build, LocalDay, DateOf;
    var t, u := Build(a, month, day, hour, minute, offset).value, Build(b, month, day, hour, minute, offset).value;
    BuiltDay(a, month, day, hour, minute, offset);
    BuiltDay(b, month, day, hour, minute, offset);
    HorizonInDays(t, observed, offset);
    HorizonInDays(u, observed, offset);
    if a < b {
      SameDayOfOtherYear(Date(a, month, day), Date(b, month, day));
    } else if b < a {
      SameDayOfOtherYear(Date(b, month, day), Date(a, month, day));
    }
  }

  /** The three letters that tell the months apart. */
  function Letters(month: int): (char, char, char)
    requires 1 <= month <= 12
  {
    match month
    case 1 => ('j', 'a', 'n') case 2 => ('f', 'e', 'b') case 3 => ('m', 'a', 'r') case 4 => ('a', 'p', 'r')
    case 5 => ('m', 'a', 'y') case 6 => ('j', 'u', 'n') case 7 => ('j', 'u', 'l') case 8 => ('a', 'u', 'g')
    case 9 => ('s', 'e', 'p') case 10 => ('o', 'c', 't') case 11 => ('n', 'o', 'v') case _ => ('d', 'e', 'c')
  }

  lemma NameShowsLetters(lower: string, month: int)
    requires Names(lower, month)
    ensures |lower| >= 3 && (lower[0], lower[1], lower[2]) == Letters(month)
  {
    var name := MONTH_NAMES[month - 1];
    assert name[..3][0] == name[0] && name[..3][1] == name[1] && name[..3][2] == name[2];
    assert month == 1 ==> name == "january";
    assert month == 2 ==> name == "february";
    assert month == 3 ==> name == "march";
    assert month == 4 ==> name == "april";
    assert month == 5 ==> name == "may";
    assert month == 6 ==> name == "june";
    assert month == 7 ==> name == "july";
    assert month == 8 ==> name == "august";
    assert month == 9 ==> name == "september";
    assert month == 10 ==> name == "october";
    assert month == 11 ==> name == "november";
  }

  lemma MonthNamesDiffer()
    ensures forall lower, a, b :: Names(lower, a) && Names(lower, b) ==> a == b
  {
    forall lower, a, b | Names(lower, a) && Names(lower, b)
      ensures a == b
    {
      NameShowsLetters(lower, a);
      NameShowsLetters(lower, b);
    }
  }

  lemma SolutionIsMeaning(p: Phrase, month: int, year: int, observed: int, offset: int)
    requires Solves(p, month, year, observed, offset)
    ensures Meaning(p, observed, offset) == Solution(p, month, year, offset)
  {
    hide Names, Fits, Build, FullHour, MinuteOf;
    MonthNamesDiffer();
    forall m, y | Solves(p, m, y, observed, offset)
      ensures m == month && y == year
    {
      FittingYearIsUnique(y, year, month, p.day, FullHour(p.hour, p.meridiem).value, MinuteOf(p), offset, observed);
    }
  }

  // --- Dropping the year loses nothing -----------------------------------------------

  /** How a reset is written without its year. */
  datatype Style = Style(abbreviated: bool, twelveHour: bool, dropZeroMinute: bool)

  function PhraseOf(reset: int, offset: int, style: Style): Phrase
  {
    var w := WallOf(reset, offset);
    WallInRange(reset, offset);
    var name := MONTH_NAMES[w.date.month - 1];
    Phrase(if style.abbreviated && |name| >= 3 then name[..3] else name, w.date.day, None,
           if style.twelveHour then (if w.hour % 12 == 0 then 12 else w.hour % 12) else w.hour,
           if style.dropZeroMinute && w.minute == 0 then None else Some(w.minute),
           if style.twelveHour then Some(if w.hour >= 12 then PM else AM) else None)
  }

  lemma WallInRange(t: int, offset: int)
    ensures var w := WallOf(t, offset);
            ValidDate(w.date) && 1 <= w.date.month <= 12 && 1 <= w.date.day <= 31 && 0 <= w.hour < 24 &&
            0 <= w.minute < 60
  {
    hide DateOf, DaysFromCivil, LeapYear;
  }

  lemma MinutesOfDay(local: int)
    requires local % MINUTE == 0
    ensures var n := local % DAY; n == n / HOUR * HOUR + n % HOUR / MINUTE * MINUTE
  {
    var days, n := local / DAY, local % DAY;
    assert local == 1440 * days * MINUTE + n;
    assert n % MINUTE == 0;
    var hours, rest := n / HOUR, n % HOUR;
    assert n == 60 * hours * MINUTE + rest;
    assert rest % MINUTE == 0;
  }

  /** A whole minute is rebuilt from what the wall clock shows. */
  lemma WholeMinuteIsRebuilt(t: int, offset: int)
    requires (t + offset * SECOND) % MINUTE == 0
    ensures var w := WallOf(t, offset);
            1 <= w.date.month <= 12 && Build(w.date.year, w.date.month, w.date.day, w.hour, w.minute, offset) == Some(t)
  {
    hide DateOf, DaysFromCivil, LeapYear;
    WallInRange(t, offset);
    var w, local := WallOf(t, offset), t + offset * SECOND;
    DayWithinMonth(w.date.year, w.date.month, w.date.day);
    MinutesOfDay(local);
    assert local == LocalDay(t, offset) * DAY + TimeOfDay(t, offset);
    assert Instant(w.date.year, w.date.month, w.date.day, w.hour, w.minute, offset) == t;
  }

  lemma StyleIsReadable(reset: int, offset: int, style: Style)
    ensures var p, w := PhraseOf(reset, offset, style), WallOf(reset, offset);
            Names(p.month, w.date.month) && FullHour(p.hour, p.meridiem) == Some(w.hour) &&
            MinuteOf(p) == w.minute && p.day == w.date.day && 1 <= p.day <= 31 && w.minute <= 59
  {
    hide WallOf;
    WallInRange(reset, offset);
    assert forall i :: 0 <= i < 12 ==> |MONTH_NAMES[i]| >= 3;
  }

  /** Year inference inverts dropping the year: any whole-minute reset from 24 h
      before to 8 days after the observation, written without its year in any
      style, means exactly that instant, and no other year would fit. */
  lemma DroppedYearIsRecovered(reset: int, observed: int, offset: int, style: Style)
    requires (reset + offset * SECOND) % MINUTE == 0
    requires observed - 24 * HOUR <= reset <= observed + 8 * DAY
    ensures Meaning(PhraseOf(reset, offset, style), observed, offset) == Some(reset)
    ensures forall month, year :: Solves(PhraseOf(reset, offset, style), month, year, observed, offset) ==>
              month == WallOf(reset, offset).date.month && year == WallOf(reset, offset).date.year
  {
    hide WallOf, Build, Names, FullHour, PhraseOf;
    var p, w := PhraseOf(reset, offset, style), WallOf(reset, offset);
    StyleIsReadable(reset, offset, style);
    WholeMinuteIsRebuilt(reset, offset);
    PhraseHasNoYear(reset, offset, style);
    assert Solves(p, w.date.month, w.date.year, observed, offset);
    SolutionIsMeaning(p, w.date.month, w.date.year, observed, offset);
    MonthNamesDiffer();
    forall month, year | Solves(p, month, year, observed, offset)
      ensures month == w.date.month && year == w.date.year
    {
      FittingYearIsUnique(year, w.date.year, month, p.day, w.hour, w.minute, offset, observed);
    }
  }

  lemma PhraseHasNoYear(reset: int, offset: int, style: Style)
    ensures PhraseOf(reset, offset, style).year.None?
  {
    hide WallOf;
  }

  // --- Exactly what a phrase means -------------------------------------------------------

  /** The hour of the day h, as written with or without a meridiem. */
  predicate WritesHour(p: Phrase, h: int) {
    match p.meridiem
    case None => p.hour == h
    case Some(AM) => h < 12 && p.hour == if h == 0 then 12 else h
    case Some(PM) => 12 <= h && p.hour == if h == 12 then 12 else h - 12
  }

  /** The phrase writes down what the zone's calendar and clock show at t. A year or
      a minute that is left out is not told, a minute left out is zero. */
  predicate Writes(p: Phrase, t: int, offset: int) {
    var w := WallOf(t, offset);
    Names(p.month, w.date.month) && p.day == w.date.day && (p.year.None? || p.year.value == w.date.year) &&
    WritesHour(p, w.hour) && (if p.minute.Some? then p.minute.value == w.minute else w.minute == 0)
  }

  lemma HourIsFull(p: Phrase, h: int)
    requires 0 <= h < 24
    ensures WritesHour(p, h) <==> FullHour(p.hour, p.meridiem) == Some(h)
  {
  }

  lemma FullHourInRange(p: Phrase)
    ensures FullHour(p.hour, p.meridiem).Some? ==> 0 <= FullHour(p.hour, p.meridiem).value < 24
  {
  }

  lemma BuiltIsWholeMinute(year: int, month: int, day: int, hour: int, minute: int, offset: int)
    requires 1 <= month <= 12
    ensures (Instant(year, month, day, hour, minute, offset) + offset * SECOND) % MINUTE == 0
  {
    hide DaysFromCivil;
    var days := DaysFromCivil(year, month, 1) + day - 1;
    assert Instant(year, month, day, hour, minute, offset) + offset * SECOND ==
           (1440 * days + 60 * hour + minute) * MINUTE;
  }

  lemma MeaningIsWritten(p: Phrase, observed: int, offset: int, t: int)
    requires Meaning(p, observed, offset) == Some(t)
    ensures (t + offset * SECOND) % MINUTE == 0 && InHorizon(t, observed) && Writes(p, t, offset)
  {
    hide WallOf, Names, FullHour, Instant, WritesHour, InHorizon;
    var month, year :| Solves(p, month, year, observed, offset) && Solution(p, month, year, offset) == Some(t);
    assert Names(p.month, month);
    assert FullHour(p.hour, p.meridiem).Some?;
    var hour := FullHour(p.hour, p.meridiem).value;
    assert Solution(p, month, year, offset) == Build(year, month, p.day, hour, MinuteOf(p), offset);
    BuiltIsWholeMinute(year, month, p.day, hour, MinuteOf(p), offset);
    FullHourInRange(p);
    HourIsFull(p, hour);
    assert Build(year, month, p.day, hour, MinuteOf(p), offset) == Some(t);
  }

  lemma WrittenIsMeaning(p: Phrase, observed: int, offset: int, t: int)
    requires (t + offset * SECOND) % MINUTE == 0 && InHorizon(t, observed) && Writes(p, t, offset)
    ensures Meaning(p, observed, offset) == Some(t)
  {
    hide WallOf, Names, FullHour, Build, WritesHour, Meaning;
    var w := WallOf(t, offset);
    WallInRange(t, offset);
    WholeMinuteIsRebuilt(t, offset);
    HourIsFull(p, w.hour);
    assert Solves(p, w.date.month, w.date.year, observed, offset);
    SolutionIsMeaning(p, w.date.month, w.date.year, observed, offset);
  }

  /** A phrase, with or without a year, means t if and only if t is a whole minute
      from 24 h before to 8 days after the observation and the phrase writes it. */
  lemma MeansExactly(p: Phrase, observed: int, offset: int, t: int)
    ensures Meaning(p, observed, offset) == Some(t) <==>
            (t + offset * SECOND) % MINUTE == 0 &&
            observed - 86_400_000_000_000 <= t <= observed + 691_200_000_000_000 && Writes(p, t, offset)
  {
    hide Meaning, Writes;
    assert InHorizon(t, observed) <==> observed - 86_400_000_000_000 <= t <= observed + 691_200_000_000_000;
    if Meaning(p, observed, offset) == Some(t) { MeaningIsWritten(p, observed, offset, t); }
    if (t + offset * SECOND) % MINUTE == 0 && InHorizon(t, observed) && Writes(p, t, offset) {
      WrittenIsMeaning(p, observed, offset, t);
    }
  }

  /** Keeping the year is as good as dropping it, and any other year means nothing. */
  lemma WrittenYearIsRecovered(reset: int, observed: int, offset: int, style: Style, year: nat)
    requires (reset + offset * SECOND) % MINUTE == 0
    requires observed - 24 * HOUR <= reset <= observed + 8 * DAY
    ensures Meaning(PhraseOf(reset, offset, style).(year := Some(year)), observed, offset) ==
            if year == WallOf(reset, offset).date.year then Some(reset) else None
  {
    hide WallOf, Meaning, Names, PhraseOf;
    var plain := PhraseOf(reset, offset, style);
    var p := plain.(year := Some(year));
    DroppedYearIsRecovered(reset, observed, offset, style);
    MeansExactly(plain, observed, offset, reset);
    if year == WallOf(reset, offset).date.year {
      MeansExactly(p, observed, offset, reset);
    } else if Meaning(p, observed, offset).Some? {
      var t := Meaning(p, observed, offset).value;
      MeansExactly(p, observed, offset, t);
      PhraseHasNoYear(reset, offset, style);
      MeansExactly(plain, observed, offset, t);
    }
  }
}
