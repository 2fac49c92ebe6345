/** Strict MAJOR.MINOR.PATCH versions. */
module Versions {
  import opened Prelude
  import opened Arithmetic
  import opened Decimals

  datatype Version = Version(major: nat, minor: nat, patch: nat)

  const COMPONENT_LIMIT: nat := 0x1_0000_0000

  /** No leading zero, digits only, not empty. */
  predicate CanonicalDecimal(s: string) {
    s != "" && (|s| > 1 ==> s[0] != '0') && AllDigits(s)
  }

  function ParseComponent(s: string): Option<nat> {
    if CanonicalDecimal(s) && NumberOf(s) < COMPONENT_LIMIT then Some(NumberOf(s)) else None
  }

  /** The text before the first separator, and the rest after it. */
  function Split(s: string, separator: char): (parts: seq<string>)
    ensures |parts| >= 1
  {
    if s == "" then [""]
    else
      var rest := Split(s[1..], separator);
      if s[0] == separator then [""] + rest else [[s[0]] + rest[0]] + rest[1..]
  }

  function Parse(s: string): Option<Version> {
    var parts := Split(s, '.');
    if |parts| != 3 then None
    else
      var a, b, c := ParseComponent(parts[0]), ParseComponent(parts[1]), ParseComponent(parts[2]);
      if a.Some? && b.Some? && c.Some? then Some(Version(a.value, b.value, c.value)) else None
  }

  function Decimal(n: nat): (s: string)
    ensures s != "" && AllDigits(s)
  {
    (if n < 10 then "" else Decimal(n / 10)) + [DigitOf(n % 10)]
  }

  function Format(v: Version): string {
    Decimal(v.major) + "." + Decimal(v.minor) + "." + Decimal(v.patch)
  }

  // --- Order ----------------------------------------------------------------

  /** -1, 0 or 1 by the first component that differs. */
  method Compare(a: Version, b: Version) returns (order: int)
    ensures -1 <= order <= 1
    ensures order == -1 <==> Less(a, b)
    ensures order == 1 <==> Less(b, a)
    ensures order == 0 <==> a == b
  {
    var left := [a.major, a.minor, a.patch];
    var right := [b.major, b.minor, b.patch];
    for i := 0 to 3
      invariant forall k :: 0 <= k < i ==> left[k] == right[k]
    {
      assert (1 <= i ==> left[0] == right[0]) && (2 <= i ==> left[1] == right[1]);
      if left[i] < right[i] { return -1; }
      if left[i] > right[i] { return 1; }
    }
    assert left[0] == right[0] && left[1] == right[1] && left[2] == right[2];
    return 0;
  }

  predicate Less(a: Version, b: Version) {
    a.major < b.major ||
    (a.major == b.major && (a.minor < b.minor || (a.minor == b.minor && a.patch < b.patch)))
  }

  // --- Parsing and formatting are inverse -----------------------------------------

  lemma {:induction false} DecimalRoundTrip(n: nat)
    ensures CanonicalDecimal(Decimal(n)) && NumberOf(Decimal(n)) == n
    ensures n > 0 ==> Decimal(n)[0] != '0'
  {
    if n >= 10 {
      DecimalRoundTrip(n / 10);
    }
    var s := Decimal(n);
    assert s[..|s| - 1] == if n < 10 then "" else Decimal(n / 10);
  }

  lemma NumberOfNothing()
    ensures NumberOf("") == 0
  {
  }

  lemma NumberStep(s: string)
    requires s != "" && AllDigits(s)
    ensures NumberOf(s) == NumberOf(s[..|s| - 1]) * 10 + (s[|s| - 1] as int - '0' as int)
  {
  }

  lemma DecimalStep(n: nat)
    ensures Decimal(n) == (if n < 10 then "" else Decimal(n / 10)) + [DigitOf(n % 10)]
  {
  }

  lemma {:induction false} CanonicalIsDecimal(s: string)
    requires CanonicalDecimal(s)
    ensures s == Decimal(NumberOf(s))
    ensures |s| > 1 ==> NumberOf(s) >= 10
    ensures s[0] != '0' ==> NumberOf(s) > 0
  {
    hide Decimal, NumberOf;
    var last := s[|s| - 1] as int - '0' as int;
    NumberStep(s);
    DecimalStep(NumberOf(s));
    if |s| == 1 {
      assert s[..0] == "";
      NumberOfNothing();
      assert DigitOf(last) == s[0];
      assert s == "" + [s[0]];
    } else {
      var front := s[..|s| - 1];
      CanonicalIsDecimal(front);
      var n := NumberOf(s);
      assert n == NumberOf(front) * 10 + last;
      QuotientIs(n, 10, NumberOf(front), last);
      assert DigitOf(last) == s[|s| - 1];
      assert s == front + [s[|s| - 1]];
    }
  }

  predicate Without(s: string, c: char) {
    forall i :: 0 <= i < |s| ==> s[i] != c
  }

  lemma {:induction false} SplitPlain(s: string, separator: char)
    requires Without(s, separator)
    ensures Split(s, separator) == [s]
  {
    if s != "" {
      SplitPlain(s[1..], separator);
      assert s == [s[0]] + s[1..];
    }
  }

  lemma {:induction false} SplitFirst(head: string, separator: char, rest: string)
    requires Without(head, separator)
    ensures Split(head + [separator] + rest, separator) == [head] + Split(rest, separator)
  {
    var s := head + [separator] + rest;
    if head == "" {
      assert s[1..] == rest;
    } else {
      SplitFirst(head[1..], separator, rest);
      assert s[1..] == head[1..] + [separator] + rest;
      assert head == [head[0]] + head[1..];
    }
  }

  function Join(parts: seq<string>, separator: char): string
    requires |parts| >= 1
  {
    if |parts| == 1 then parts[0] else parts[0] + [separator] + Join(parts[1..], separator)
  }

  lemma {:induction false} JoinSplit(s: string, separator: char)
    ensures Join(Split(s, separator), separator) == s
  {
    if s != "" {
      JoinSplit(s[1..], separator);
      var rest := Split(s[1..], separator);
      if s[0] == separator {
        assert ([""] + rest)[1..] == rest;
      } else if |rest| > 1 {
        assert ([[s[0]] + rest[0]] + rest[1..])[1..] == rest[1..];
      }
    }
  }

  lemma FormatSplits(v: Version)
    ensures Split(Format(v), '.') == [Decimal(v.major), Decimal(v.minor), Decimal(v.patch)]
  {
    hide Split, Decimal;
    var a, b, c := Decimal(v.major), Decimal(v.minor), Decimal(v.patch);
    assert Format(v) == a + ['.'] + (b + ['.'] + c);
    SplitFirst(a, '.', b + ['.'] + c);
    SplitFirst(b, '.', c);
    SplitPlain(c, '.');
  }

  lemma JoinThree(a: string, b: string, c: string)
    ensures Join([a, b, c], '.') == a + "." + b + "." + c
  {
    assert [a, b, c][1..] == [b, c];
    assert [b, c][1..] == [c];
    assert Join([b, c], '.') == b + ['.'] + c;
  }

  lemma ParsedIsCanonical(s: string)
    requires Parse(s).Some?
    ensures s == Format(Parse(s).value)
  {
    hide Split, Join, Decimal, NumberOf;
    var parts := Split(s, '.');
    JoinSplit(s, '.');
    CanonicalIsDecimal(parts[0]);
    CanonicalIsDecimal(parts[1]);
    CanonicalIsDecimal(parts[2]);
    assert parts == [parts[0], parts[1], parts[2]];
    JoinThree(parts[0], parts[1], parts[2]);
  }

  /** A text is accepted if and only if it is the canonical form of a version
      with 32-bit components, and then yields that version. */
  lemma ParseIsInverseOfFormat(s: string, v: Version)
    ensures Parse(s) == Some(v) <==>
            s == Format(v) && v.major < COMPONENT_LIMIT && v.minor < COMPONENT_LIMIT && v.patch < COMPONENT_LIMIT
  {
    hide Split, Decimal, NumberOf, CanonicalDecimal, Format;
    DecimalRoundTrip(v.major);
    DecimalRoundTrip(v.minor);
    DecimalRoundTrip(v.patch);
    if s == Format(v) {
      FormatSplits(v);
    }
    if Parse(s) == Some(v) {
      ParsedIsCanonical(s);
    }
  }
}
