/** What an installed hook runs: the shell reads the command line back as the
    executable and its arguments. */
module HookCommands {
  import opened Prelude
  import opened JsonTree
  import opened HookInstall
  import opened HookInstallProofs
  import AgentReports
  import Ledger

  // --- Reading a command line -----------------------------------------------------

  /** Where a reader of one simple command stands, by the quoting rules of the POSIX
      shell (IEEE Std 1003.1-2017, Shell Command Language, section 2.2). */
  datatype Mode = Between | Bare | Single | Double

  /** Neither a blank nor special outside quotes. */
  predicate Plain(c: char) {
    'a' <= c <= 'z' || 'A' <= c <= 'Z' || '0' <= c <= '9' || c in "-_./,:@+"
  }

  /** The words of a text, the one begun being word; none if a quote stays open, or a
      character has a meaning that is not read here. */
  function ReadWords(mode: Mode, word: string, s: string): Option<seq<string>>
    decreases |s|
  {
    if s == "" then
      match mode
      case Between => Some([])
      case Bare => Some([word])
      case _ => None
    else
      var c, rest := s[0], s[1..];
      match mode
      case Single => if c == '\'' then ReadWords(Bare, word, rest) else ReadWords(Single, word + [c], rest)
      case Double =>
        if c == '"' then ReadWords(Bare, word, rest)
        else if c in "\\$`" then None
        else ReadWords(Double, word + [c], rest)
      case _ =>
        if c == ' ' || c == '\t' then
          var more := ReadWords(Between, "", rest);
          if mode == Between then more else if more.Some? then Some([word] + more.value) else None
        else
          var begun := if mode == Between then "" else word;
          if c == '\'' then ReadWords(Single, begun, rest)
          else if c == '"' then ReadWords(Double, begun, rest)
          else if Plain(c) then ReadWords(Bare, begun + [c], rest)
          else None
  }

  lemma ApostropheReads(word: string, rest: string)
    ensures ReadWords(Single, word, "'\"'\"'" + rest) == ReadWords(Single, word + "'", rest)
  {
    var s := "'\"'\"'" + rest;
    assert s[1..] == "\"'\"'" + rest;
    assert s[1..][1..] == "'\"'" + rest;
    assert s[1..][1..][1..] == "\"'" + rest;
    assert s[1..][1..][1..][1..] == "'" + rest;
    assert s[1..][1..][1..][1..][1..] == rest;
    assert ReadWords(Single, word, s) == ReadWords(Bare, word, s[1..]);
    assert ReadWords(Bare, word, s[1..]) == ReadWords(Double, word, s[1..][1..]);
    assert ReadWords(Double, word, s[1..][1..]) == ReadWords(Double, word + "'", s[1..][1..][1..]);
    assert ReadWords(Double, word + "'", s[1..][1..][1..]) == ReadWords(Bare, word + "'", s[1..][1..][1..][1..]);
  }

  lemma {:induction false} QuotedReads(value: string, word: string, rest: string)
    ensures ReadWords(Single, word, ReplaceAll(value, '\'', "'\"'\"'") + "'" + rest) ==
            ReadWords(Bare, word + value, rest)
  {
    if value == "" {
      assert ReplaceAll(value, '\'', "'\"'\"'") + "'" + rest == "'" + rest;
      assert ("'" + rest)[1..] == rest;
      assert word + value == word;
    } else {
      var c, tail := value[0], ReplaceAll(value[1..], '\'', "'\"'\"'") + "'" + rest;
      QuotedReads(value[1..], word + [c], rest);
      assert word + [c] + value[1..] == word + value;
      var s := ReplaceAll(value, '\'', "'\"'\"'") + "'" + rest;
      if c == '\'' {
        assert s == "'\"'\"'" + tail;
        ApostropheReads(word, tail);
        assert [c] == "'";
      } else {
        assert s == [c] + tail && s[1..] == tail;
      }
    }
  }

  /** Quoting loses nothing: whatever the executable's path and the arguments
      contain, splitting the command line gives them back, one word each. */
  lemma {:induction false} CommandLineReadsBack(values: seq<string>)
    ensures ReadWords(Between, "", JoinQuoted(false, values)) == Some(values)
  {
    if values != [] {
      var value := values[0];
      var rest := if |values| == 1 then "" else " " + JoinQuoted(false, values[1..]);
      var body := ReplaceAll(value, '\'', "'\"'\"'") + "'" + rest;
      assert JoinQuoted(false, values) == "'" + body;
      assert ("'" + body)[1..] == body;
      QuotedReads(value, "", rest);
      assert "" + value == value;
      if |values| == 1 {
        assert values == [value];
      } else {
        CommandLineReadsBack(values[1..]);
        assert rest[1..] == JoinQuoted(false, values[1..]);
        assert values == [value] + values[1..];
      }
    }
  }

  // --- What is installed ------------------------------------------------------------

  /** One entry that runs these words, for five seconds at most. */
  ghost predicate Runs(group: Json, words: seq<string>) {
    group.Object? && group.fields.Keys == {"hooks"} && group.fields["hooks"].Array? &&
    |group.fields["hooks"].items| == 1 &&
    var entry := group.fields["hooks"].items[0];
    entry.Object? && entry.fields.Keys == {"type", "command", "timeout"} &&
    entry.fields["type"] == Text("command") && entry.fields["timeout"] == Integer(5) &&
    entry.fields["command"].Text? && ReadWords(Between, "", entry.fields["command"].text) == Some(words)
  }

  lemma ManagedGroupRuns(command: string, words: seq<string>)
    requires ReadWords(Between, "", command) == Some(words)
    ensures Runs(ManagedGroup(command), words)
  {
    hide ReadWords;
    var entry := map["type" := Text("command"), "command" := Text(command), "timeout" := Integer(5)];
    assert entry.Keys == {"type", "command", "timeout"};
    assert map["hooks" := Array([Object(entry)])].Keys == {"hooks"};
  }

  /** After an installation every hooked event ends with one group that runs the
      executable with its arguments and the marker, behind the user's own groups. */
  lemma InstalledHookRuns(
      root: Fields, events: seq<string>, executable: string, arguments: seq<string>, event: string)
    requires event in events
    ensures var groups :=
              GroupsOf(HooksOf(Merge(root, events, ManagedCommand(false, executable, arguments))), event);
            |groups| > 0 && groups[..|groups| - 1] == UserGroups(root, event) &&
            Runs(groups[|groups| - 1], [executable] + arguments + ["--managed-by", "quota-monitor-managed-v1"])
  {
    hide ReadWords, Merge, GroupsOf, UserGroups, Runs, Contains, JoinQuoted, ManagedGroup;
    var command := ManagedCommand(false, executable, arguments);
    ManagedCommandIsManaged(false, executable, arguments);
    MergeKeepsUserGroups(root, events, command, event);
    CommandLineReadsBack([executable] + arguments + ["--managed-by", MARKER]);
    ManagedGroupRuns(command, [executable] + arguments + ["--managed-by", MARKER]);
  }

  /** The status line an installation writes runs these words every fifteen seconds. */
  lemma InstalledLineRuns(
      root: Fields, saved: SavedLine, command: string, executable: string, arguments: seq<string>)
    ensures var after := Install(root, saved, command, ManagedCommand(false, executable, arguments)).0;
            "statusLine" in after && after["statusLine"].Object? &&
            var line := after["statusLine"].fields;
            line.Keys == {"type", "command", "refreshInterval"} && line["type"] == Text("command") &&
            line["refreshInterval"] == Integer(15) && line["command"].Text? &&
            ReadWords(Between, "", line["command"].text) ==
            Some([executable] + arguments + ["--managed-by", "quota-monitor-managed-v1"])
  {
    hide ReadWords, Merge, JoinQuoted;
    var text := ManagedCommand(false, executable, arguments);
    CommandLineReadsBack([executable] + arguments + ["--managed-by", MARKER]);
    assert StatusLine(text).fields.Keys == {"type", "command", "refreshInterval"};
  }

  // --- Which events are hooked ----------------------------------------------------------

  ghost predicate ChangesLedger(m: Ledger.Tasks, e: Ledger.Event, now: int) {
    Ledger.Effect(m, e, now) != m
  }

  /** A ledger and an event of this name that changes it. */
  lemma HookedEventChanges(name: string) returns (m: Ledger.Tasks, e: Ledger.Event)
    requires name in CLAUDE_EVENTS
    ensures e.name == name && ChangesLedger(m, e, 0)
  {
    hide Ledger.LedgerKey, Ledger.TrimSpace;
    e := Ledger.Event("claude", name, "s", "a", 0, false);
    var main, sub := Ledger.LedgerKey("claude", "main", "s"), Ledger.LedgerKey("claude", "sub", Ledger.SubTaskID(e));
    m := map[];
    if name != "UserPromptSubmit" && name != "SubagentStart" {
      m := map[main := Ledger.TaskRecord(AgentReports.ActiveTask("claude", "main", "s", -1, -1), "s"),
               sub := Ledger.TaskRecord(AgentReports.ActiveTask("claude", "sub", "s", -1, -1), "s")];
      assert main in m && sub in m && m[main].task.lastSeenAt == -1 && m[sub].task.kind == "sub";
      var after := Ledger.Effect(m, e, 0);
      assert name == "PostToolUse" ==> main in after && after[main].task.lastSeenAt == 0;
      assert name == "SubagentStop" ==> sub !in after;
      assert name == "SessionEnd" ==> sub !in after;
    }
  }

  /** The events installed for Claude are exactly those that can change the ledger;
      Codex has no failing stop. */
  lemma HookedEventsAreTheLedgers(name: string)
    ensures name in CLAUDE_EVENTS <==>
            exists m: Ledger.Tasks, e: Ledger.Event, now: int :: e.name == name && ChangesLedger(m, e, now)
    ensures name in CODEX_EVENTS <==> name in CLAUDE_EVENTS && name != "StopFailure"
  {
    if name in CLAUDE_EVENTS {
      var m, e := HookedEventChanges(name);
    } else {
      assert Ledger.KindOf(name).Unrelated?;
    }
  }
}
