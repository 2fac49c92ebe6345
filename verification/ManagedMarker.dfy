/** A managed value is recognized on its JSON text; the tree tells the same. */
module ManagedMarker {
  import opened Prelude
  import opened JsonTree
  import opened HookInstall

  // --- The text of a value -----------------------------------------------------

  /** What the encoder leaves open here: how numbers are written, and in which order
      the members of an object come. */
  datatype Codec = Codec(number: Json -> string, order: Fields -> seq<string>)

  ghost predicate Sensible(codec: Codec) {
    (forall v: Json, c: char :: c in codec.number(v) ==> c in "0123456789+-.eE") &&
    forall fields: Fields, k: string :: k in codec.order(fields) <==> k in fields
  }

  function HexDigit(n: int): char
    requires 0 <= n < 16
  {
    "0123456789abcdef"[n]
  }

  /** Quotes, backslashes, control characters, the three characters of HTML and the
      two line separators are escaped. */
  function Escape(c: char): (text: string)
    ensures text == [c] || (text != "" && text[0] == '\\' && MARKER[0] !in text)
    ensures text == [c] ==> c != '"' && c != '\\'
  {
    if c == '"' then "\\\""
    else if c == '\\' then "\\\\"
    else if c == '\n' then "\\n"
    else if c == '\r' then "\\r"
    else if c == '\t' then "\\t"
    else if c as int == 8 then "\\b"
    else if c as int == 12 then "\\f"
    else if (c as int) < 0x20 then "\\u00" + [HexDigit(c as int / 16), HexDigit(c as int % 16)]
    else if c == '<' then "\\u003c"
    else if c == '>' then "\\u003e"
    else if c == '&' then "\\u0026"
    else if c == '\U{2028}' then "\\u2028"
    else if c == '\U{2029}' then "\\u2029"
    else [c]
  }

  function EscapeAll(s: string): string {
    if s == "" then "" else Escape(s[0]) + EscapeAll(s[1..])
  }

  function Quoted(s: string): string {
    "\"" + EscapeAll(s) + "\""
  }

  ghost function Encode(codec: Codec, v: Json): string
    requires Sensible(codec)
    decreases v, 2
  {
    match v
    case Null => "null"
    case Boolean(flag) => if flag then "true" else "false"
    case Text(s) => Quoted(s)
    case Array(items) => "[" + EncodeItems(codec, v, 0) + "]"
    case Object(fields) => "{" + EncodeMembers(codec, v, codec.order(fields)) + "}"
    case _ => codec.number(v)
  }

  ghost function EncodeItems(codec: Codec, v: Json, i: nat): string
    requires Sensible(codec) && v.Array? && i <= |v.items|
    decreases v, 1, |v.items| - i
  {
    if i == |v.items| then ""
    else Encode(codec, v.items[i]) + (if i + 1 < |v.items| then "," + EncodeItems(codec, v, i + 1) else "")
  }

  ghost function EncodeMembers(codec: Codec, v: Json, keys: seq<string>): string
    requires Sensible(codec) && v.Object? && forall k :: k in keys ==> k in v.fields
    decreases v, 1, |keys|
  {
    if keys == [] then ""
    else
      Quoted(keys[0]) + ":" + Encode(codec, v.fields[keys[0]]) +
      (if |keys| > 1 then "," + EncodeMembers(codec, v, keys[1..]) else "")
  }

  // --- Occurrences ------------------------------------------------------------------

  lemma OccurrenceCovers(s: string, i: nat, part: string)
    requires i <= |s| && part <= s[i..]
    ensures forall at :: i <= at < i + |part| ==> s[at] in part
  {
    forall at | i <= at < i + |part|
      ensures s[at] in part
    {
      assert part[at - i] == s[i..][at - i] == s[at];
    }
  }

  /** No occurrence reaches across a character that the marker does not contain. */
  lemma Separated(a: string, c: char, b: string)
    requires c !in MARKER
    ensures Contains(a + [c] + b, MARKER) <==> Contains(a, MARKER) || Contains(b, MARKER)
  {
    var s := a + [c] + b;
    if i :| 0 <= i <= |s| && MARKER <= s[i..] {
      OccurrenceCovers(s, i, MARKER);
      assert s[|a|] == c;
      if i + |MARKER| <= |a| {
        assert s[i..] == a[i..] + [c] + b;
        assert MARKER <= a[i..];
      } else if i > |a| {
        assert s[i..] == b[i - |a| - 1..];
      }
    }
    if i :| 0 <= i <= |a| && MARKER <= a[i..] {
      assert s[i..] == a[i..] + [c] + b;
    }
    if i :| 0 <= i <= |b| && MARKER <= b[i..] {
      assert s[|a| + 1 + i..] == b[i..];
    }
  }

  lemma NothingInNothing()
    ensures !Contains("", MARKER)
  {
  }

  lemma AtStartOrLater(s: string)
    requires s != ""
    ensures Contains(s, MARKER) <==> MARKER <= s || Contains(s[1..], MARKER)
  {
    if i :| 0 <= i <= |s| && MARKER <= s[i..] {
      if i > 0 {
        assert s[1..][i - 1..] == s[i..];
      }
    }
    if MARKER <= s {
      assert s[0..] == s;
    }
    if i :| 0 <= i <= |s[1..]| && MARKER <= s[1..][i..] {
      assert s[i + 1..] == s[1..][i..];
    }
  }

  /** No occurrence starts where the marker's first character does not occur. */
  lemma {:induction false} NoStart(a: string, b: string)
    requires MARKER[0] !in a
    ensures Contains(a + b, MARKER) <==> Contains(b, MARKER)
  {
    if a == "" {
      assert a + b == b;
    } else {
      AtStartOrLater(a + b);
      assert (a + b)[1..] == a[1..] + b;
      NoStart(a[1..], b);
      assert (a + b)[0] == a[0];
    }
  }

  predicate Plain(c: char) {
    'a' <= c <= 'z' || '0' <= c <= '9' || c == '-'
  }

  lemma PlainIsKept(c: char)
    requires Plain(c)
    ensures Escape(c) == [c] && c !in "\",:[]{}"
  {
  }

  lemma MarkerIsPlain()
    ensures forall i :: 0 <= i < |MARKER| ==> Escape(MARKER[i]) == [MARKER[i]]
    ensures '"' !in MARKER && ',' !in MARKER && ':' !in MARKER && '[' !in MARKER && ']' !in MARKER
    ensures '{' !in MARKER && '}' !in MARKER && |MARKER| > 0 && MARKER[0] == 'q'
  {
    hide Escape;
    assert forall i :: 0 <= i < |MARKER| ==> Plain(MARKER[i]);
    forall i | 0 <= i < |MARKER|
      ensures Escape(MARKER[i]) == [MARKER[i]]
    {
      PlainIsKept(MARKER[i]);
    }
  }

  lemma {:induction false} PlainPrefix(plain: string, s: string)
    requires forall i :: 0 <= i < |plain| ==> Escape(plain[i]) == [plain[i]]
    ensures plain <= EscapeAll(s) <==> plain <= s
  {
    if plain != "" && s != "" {
      if Escape(s[0]) == [s[0]] {
        PlainPrefix(plain[1..], s[1..]);
        assert EscapeAll(s)[1..] == EscapeAll(s[1..]);
        assert plain <= EscapeAll(s) <==> plain[0] == s[0] && plain[1..] <= EscapeAll(s)[1..];
        assert plain <= s <==> plain[0] == s[0] && plain[1..] <= s[1..];
      } else {
        assert EscapeAll(s)[0] == '\\';
      }
    }
  }

  lemma {:induction false} EscapingKeepsMarker(s: string)
    ensures Contains(EscapeAll(s), MARKER) <==> Contains(s, MARKER)
  {
    if s != "" {
      EscapingKeepsMarker(s[1..]);
      MarkerIsPlain();
      AtStartOrLater(s);
      if Escape(s[0]) == [s[0]] {
        AtStartOrLater(EscapeAll(s));
        assert EscapeAll(s)[1..] == EscapeAll(s[1..]);
        PlainPrefix(MARKER, s);
      } else {
        NoStart(Escape(s[0]), EscapeAll(s[1..]));
      }
    }
  }

  lemma QuotedShowsMarker(s: string)
    ensures Contains(Quoted(s), MARKER) <==> Contains(s, MARKER)
  {
    hide Contains, EscapeAll;
    MarkerIsPlain();
    NothingInNothing();
    EscapingKeepsMarker(s);
    Separated("", '"', EscapeAll(s) + "\"");
    Separated(EscapeAll(s), '"', "");
    assert Quoted(s) == "" + ['"'] + (EscapeAll(s) + "\"");
    assert EscapeAll(s) + "\"" == EscapeAll(s) + ['"'] + "";
  }

  /** Text between brackets. */
  lemma Enclosed(open: char, s: string, close: char)
    requires open !in MARKER && close !in MARKER
    ensures Contains([open] + s + [close], MARKER) <==> Contains(s, MARKER)
  {
    hide Contains;
    NothingInNothing();
    Separated("", open, s + [close]);
    Separated(s, close, "");
    assert [open] + s + [close] == "" + [open] + (s + [close]);
    assert s + [close] == s + [close] + "";
  }

  // --- The tree tells what the text shows ---------------------------------------------

  /** The marker occurs in the JSON text of a value, if and only if the tree counts as
      managed, however numbers are written and members are ordered. */
  lemma {:induction false} MarkerShowsInText(codec: Codec, v: Json)
    requires Sensible(codec)
    ensures Contains(Encode(codec, v), MARKER) <==> IsManaged(v)
    decreases v, 2
  {
    hide Contains, EscapeAll;
    MarkerIsPlain();
    match v
    case Text(s) => QuotedShowsMarker(s);
    case Array(items) =>
      ItemsShowMarker(codec, v, 0);
      Enclosed('[', EncodeItems(codec, v, 0), ']');
    case Object(fields) =>
      MembersShowMarker(codec, v, codec.order(fields));
      Enclosed('{', EncodeMembers(codec, v, codec.order(fields)), '}');
      assert forall k :: k in codec.order(fields) <==> k in fields;
    case _ => OtherShowsNothing(codec, v);
  }

  lemma OtherShowsNothing(codec: Codec, v: Json)
    requires Sensible(codec) && !v.Text? && !v.Array? && !v.Object?
    ensures !Contains(Encode(codec, v), MARKER)
  {
    var s := Encode(codec, v);
    assert MARKER[0] == 'q';
    assert 'q' !in s by {
      if v.Integer? || v.Decimal? {
        assert s == codec.number(v) && 'q' !in "0123456789+-.eE";
        assert 'q' in s ==> 'q' in "0123456789+-.eE";
      } else {
        assert s == "null" || s == "true" || s == "false";
      }
    }
    NoStart(s, "");
    NothingInNothing();
    assert s + "" == s;
  }

  lemma {:induction false} ItemsShowMarker(codec: Codec, v: Json, i: nat)
    requires Sensible(codec) && v.Array? && i <= |v.items|
    ensures Contains(EncodeItems(codec, v, i), MARKER) <==> exists j :: i <= j < |v.items| && IsManaged(v.items[j])
    decreases v, 1, |v.items| - i
  {
    hide Contains, IsManaged;
    MarkerIsPlain();
    NothingInNothing();
    if i < |v.items| {
      MarkerShowsInText(codec, v.items[i]);
      ItemsShowMarker(codec, v, i + 1);
      var first := Encode(codec, v.items[i]);
      if i + 1 < |v.items| {
        var rest := EncodeItems(codec, v, i + 1);
        Separated(first, ',', rest);
        assert EncodeItems(codec, v, i) == first + [','] + rest;
      } else {
        assert EncodeItems(codec, v, i) == first;
      }
    }
  }

  lemma {:induction false} MembersShowMarker(codec: Codec, v: Json, keys: seq<string>)
    requires Sensible(codec) && v.Object? && forall k :: k in keys ==> k in v.fields
    ensures Contains(EncodeMembers(codec, v, keys), MARKER) <==>
            exists k :: k in keys && (Contains(k, MARKER) || IsManaged(v.fields[k]))
    decreases v, 1, |keys|
  {
    hide Contains, IsManaged, Quoted;
    MarkerIsPlain();
    NothingInNothing();
    if keys != [] {
      var k, rest := keys[0], keys[1..];
      MarkerShowsInText(codec, v.fields[k]);
      QuotedShowsMarker(k);
      MembersShowMarker(codec, v, rest);
      var value := Encode(codec, v.fields[k]);
      Separated(Quoted(k), ':', value);
      var member := Quoted(k) + ":" + value;
      assert forall l :: l in keys <==> l == k || l in rest;
      if |keys| > 1 {
        var more := EncodeMembers(codec, v, rest);
        Separated(member, ',', more);
        assert EncodeMembers(codec, v, keys) == member + [','] + more;
      } else {
        assert EncodeMembers(codec, v, keys) == member;
      }
    }
  }
}
