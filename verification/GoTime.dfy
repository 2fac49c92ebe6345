/** How the server writes instants: RFC 3339 with as many fractional digits as
    needed, in a zone of whole minutes. */
module GoTime {
  import opened Prelude
  import opened Decimals
  import opened Calendar
  import opened Rfc3339
  import opened Rfc3339Proofs

  /** The local second of an instant in nanoseconds. */
  function LocalSecond(at: int, offset: int): int {
    at / SECOND + offset * 60
  }

  /** The fractional digits without trailing zeros. */
  function Trimmed(digits: string): (s: string)
    requires AllDigits(digits)
    ensures AllDigits(s)
  {
    if digits != "" && digits[|digits| - 1] == '0' then Trimmed(digits[..|digits| - 1]) else digits
  }

  function ZoneOf(offset: int): Zone {
    if offset == 0 then Zulu
    else
      var minutes: nat := if offset < 0 then -offset else offset;
      Offset(offset > 0, minutes / 60, minutes % 60)
  }

  /** The zone's date, if its year can be written with four digits from 1970 on. */
  predicate Writable(at: int, offset: int) {
    1970 <= DateOf(LocalSecond(at, offset) / 86400).year <= 9999 && -1440 < offset < 1440
  }

  function FieldsOf(at: int, offset: int): Timestamp
    requires Writable(at, offset)
  {
    var second := LocalSecond(at, offset);
    var date, rest := DateOf(second / 86400), second % 86400;
    Timestamp(date.year, date.month, date.day, rest / 3600, rest % 3600 / 60, rest % 60,
              Trimmed(Pad(at % SECOND, 9)), ZoneOf(offset))
  }

  function Rfc3339Nano(at: int, offset: int): string
    requires Writable(at, offset)
  {
    Render(FieldsOf(at, offset))
  }

  lemma FieldsAreValid(at: int, offset: int)
    requires Writable(at, offset)
    ensures ValidFields(FieldsOf(at, offset))
    ensures Epoch(FieldsOf(at, offset)) == at / SECOND
  {
    hide DateOf, DaysFromCivil, LeapYear, Trimmed, Pad;
    var second := LocalSecond(at, offset);
    var rest := second % 86400;
    assert rest == rest / 3600 * 3600 + rest % 3600 / 60 * 60 + rest % 60;
    OffsetOfZone(offset);
  }

  lemma OffsetOfZone(offset: int)
    requires -1440 < offset < 1440
    ensures OffsetSeconds(ZoneOf(offset)) == offset * 60
    ensures ZoneOf(offset).Offset? ==> ZoneOf(offset).hours <= 23 && ZoneOf(offset).minutes <= 59
  {
  }

  /** The display reads back the whole second of every instant the server writes. */
  lemma WrittenInstantReads(at: int, offset: int)
    requires Writable(at, offset)
    ensures EpochOf(Rfc3339Nano(at, offset)) == Some(at / SECOND)
    ensures Rfc3339Nano(at, offset) != ""
  {
    hide Writable, ValidFields, FieldsOf;
    FieldsAreValid(at, offset);
    AcceptsExactlyRenderings(Rfc3339Nano(at, offset), FieldsOf(at, offset));
    NotEmpty(FieldsOf(at, offset));
  }

  lemma NotEmpty(t: Timestamp)
    ensures Render(t) != ""
  {
    hide Pad;
  }
}
