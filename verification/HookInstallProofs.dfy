/** Installation leaves the user's configuration alone and can be undone. */
module HookInstallProofs {
  import opened Prelude
  import opened JsonTree
  import opened HookInstall

  // --- Managed commands carry the marker -----------------------------------------

  lemma ContainsWithin(prefix: string, s: string, suffix: string, part: string)
    requires Contains(s, part)
    ensures Contains(prefix + s + suffix, part)
  {
    var i :| 0 <= i <= |s| && part <= s[i..];
    var whole := prefix + s + suffix;
    assert whole[|prefix| + i..] == s[i..] + suffix;
  }

  lemma {:induction false} PlainTextIsKept(s: string, c: char, escape: string)
    requires forall i :: 0 <= i < |s| ==> s[i] != c
    ensures ReplaceAll(s, c, escape) == s
  {
    if s != "" {
      PlainTextIsKept(s[1..], c, escape);
      assert s == [s[0]] + s[1..];
    }
  }

  lemma {:induction false} JoinedKeepsLast(windows: bool, values: seq<string>)
    requires values != []
    ensures Contains(JoinQuoted(windows, values), ShellQuote(windows, values[|values| - 1]))
  {
    var last := ShellQuote(windows, values[|values| - 1]);
    if |values| == 1 {
      assert last <= last[0..];
    } else {
      JoinedKeepsLast(windows, values[1..]);
      ContainsWithin(ShellQuote(windows, values[0]) + " ", JoinQuoted(windows, values[1..]), "", last);
      assert JoinQuoted(windows, values) ==
             ShellQuote(windows, values[0]) + " " + JoinQuoted(windows, values[1..]) + "";
    }
  }

  lemma ContainsIsTransitive(s: string, part: string, piece: string)
    requires Contains(s, part) && Contains(part, piece)
    ensures Contains(s, piece)
  {
    var i :| 0 <= i <= |s| && part <= s[i..];
    var before, after := s[..i], s[i + |part|..];
    assert s == before + part + after;
    ContainsWithin(before, part, after, piece);
  }

  lemma WrappedContains(quote: string, s: string)
    ensures Contains(quote + s + quote, s)
  {
    assert s <= s[0..];
    ContainsWithin(quote, s, quote, s);
  }

  lemma MarkerHasNoQuotes()
    ensures forall i :: 0 <= i < |MARKER| ==> MARKER[i] != '"' && MARKER[i] != '\''
  {
  }

  lemma QuotedMarkerContainsMarker(windows: bool)
    ensures Contains(ShellQuote(windows, MARKER), MARKER)
  {
    MarkerHasNoQuotes();
    PlainTextIsKept(MARKER, '"', "\\\"");
    PlainTextIsKept(MARKER, '\'', "'\"'\"'");
    hide ReplaceAll, Contains;
    WrappedContains("\"", MARKER);
    WrappedContains("'", MARKER);
  }

  /** Whatever the shell and the other arguments, the quoted command line is
      recognized as managed. */
  lemma ManagedCommandIsManaged(windows: bool, executable: string, arguments: seq<string>)
    ensures IsManaged(Text(ManagedCommand(windows, executable, arguments)))
  {
    hide JoinQuoted, ShellQuote, Contains;
    JoinedKeepsLast(windows, [executable] + arguments + ["--managed-by", MARKER]);
    QuotedMarkerContainsMarker(windows);
    ContainsIsTransitive(ManagedCommand(windows, executable, arguments), ShellQuote(windows, MARKER), MARKER);
  }

  // --- Filtering ---------------------------------------------------------------------

  /** The user's own group: nothing managed in it, and not an empty list. */
  predicate Clean(group: Json) {
    HasCommands(group) ==>
      CommandsOf(group) != [] && forall i :: 0 <= i < |CommandsOf(group)| ==> !IsManaged(CommandsOf(group)[i])
  }

  predicate AllClean(groups: seq<Json>) {
    forall i :: 0 <= i < |groups| ==> Clean(groups[i])
  }

  lemma {:induction false} KeepUnmanagedKeeps(commands: seq<Json>)
    ensures var kept := KeepUnmanaged(commands);
            (forall i :: 0 <= i < |kept| ==> !IsManaged(kept[i])) && |kept| <= |commands| &&
            ((forall i :: 0 <= i < |commands| ==> !IsManaged(commands[i])) <==> kept == commands) &&
            ((exists i :: 0 <= i < |commands| && IsManaged(commands[i])) ==> |kept| < |commands|)
  {
    hide IsManaged;
    if commands != [] {
      KeepUnmanagedKeeps(commands[1..]);
      assert commands == [commands[0]] + commands[1..];
    }
  }

  /** A group survives filtering unchanged, if and only if it is the user's own. */
  lemma FilterGroupKeepsClean(group: Json)
    ensures FilterGroup(group) == [group] <==> Clean(group)
    ensures AllClean(FilterGroup(group)) && |FilterGroup(group)| <= 1
    ensures RemovesFrom(group) ==> !Clean(group)
    ensures !RemovesFrom(group) && (HasCommands(group) ==> CommandsOf(group) != []) ==> Clean(group)
  {
    hide IsManaged;
    if HasCommands(group) {
      KeepUnmanagedKeeps(CommandsOf(group));
      var kept := KeepUnmanaged(CommandsOf(group));
      if kept == CommandsOf(group) && kept != [] {
        assert group.fields["hooks" := Array(kept)] == group.fields;
      }
    }
  }

  lemma {:induction false} FilterGroupsConcat(a: seq<Json>, b: seq<Json>)
    ensures FilterGroups(a + b) == FilterGroups(a) + FilterGroups(b)
  {
    hide FilterGroup;
    if a == [] {
      assert a + b == b;
    } else {
      FilterGroupsConcat(a[1..], b);
      assert (a + b)[1..] == a[1..] + b;
    }
  }

  /** Filtering changes a list of groups, unless all of them are the user's own. */
  lemma {:induction false} FilterKeepsExactlyClean(groups: seq<Json>)
    ensures FilterGroups(groups) == groups <==> AllClean(groups)
    ensures AllClean(FilterGroups(groups)) && |FilterGroups(groups)| <= |groups|
    decreases |groups|
  {
    hide FilterGroup, Clean;
    if groups != [] {
      var first, rest := groups[0], groups[1..];
      FilterKeepsExactlyClean(rest);
      FilterGroupKeepsClean(first);
      assert groups == [first] + rest;
      var f := FilterGroups(groups);
      assert f == FilterGroup(first) + FilterGroups(rest);
      if f == groups {
        assert |FilterGroup(first)| == 1;
        assert f[0] == FilterGroup(first)[0];
        assert f[1..] == FilterGroups(rest);
      }
    }
  }

  lemma FilterTwice(groups: seq<Json>)
    ensures FilterGroups(FilterGroups(groups)) == FilterGroups(groups)
  {
    FilterKeepsExactlyClean(groups);
    FilterKeepsExactlyClean(FilterGroups(groups));
  }

  lemma ManagedGroupIsFiltered(command: string)
    requires Contains(command, MARKER)
    ensures FilterGroup(ManagedGroup(command)) == [] && RemovesFrom(ManagedGroup(command))
  {
    var fields := map["type" := Text("command"), "command" := Text(command), "timeout" := Integer(5)];
    var entry := Object(fields);
    assert IsManaged(entry) by {
      assert "command" in fields && IsManaged(fields["command"]);
    }
    var commands := CommandsOf(ManagedGroup(command));
    assert commands == [entry];
    assert commands[0] == entry;
    assert commands[1..] == [];
    assert KeepUnmanaged(commands) == [];
  }

  lemma FilterAfterMerge(groups: seq<Json>, command: string)
    requires Contains(command, MARKER)
    ensures FilterGroups(FilterGroups(groups) + [ManagedGroup(command)]) == FilterGroups(groups)
    ensures Removes(FilterGroups(groups) + [ManagedGroup(command)])
  {
    hide ManagedGroup, FilterGroup;
    FilterGroupsConcat(FilterGroups(groups), [ManagedGroup(command)]);
    FilterTwice(groups);
    ManagedGroupIsFiltered(command);
    var all := FilterGroups(groups) + [ManagedGroup(command)];
    assert all[|all| - 1] == ManagedGroup(command);
    assert [ManagedGroup(command)][1..] == [];
  }

  // --- What belongs to the user ---------------------------------------------------------

  /** The user's groups for an event, in order. */
  function UserGroups(root: Fields, event: string): seq<Json> {
    FilterGroups(GroupsOf(HooksOf(root), event))
  }

  /** The user's status line: the visible one, or the remembered one behind ours. */
  function UserLine(root: Fields, saved: SavedLine): Option<Json> {
    if HasManagedLine(root) then saved else LineOf(root)
  }

  /** No group has an empty list of commands. */
  ghost predicate NoEmptyGroups(root: Fields) {
    forall event: string, i :: 0 <= i < |GroupsOf(HooksOf(root), event)| ==>
      var group := GroupsOf(HooksOf(root), event)[i];
      HasCommands(group) ==> CommandsOf(group) != []
  }

  lemma {:induction false} MergedGroups(hooks: Fields, events: seq<string>, command: string, event: string)
    requires Contains(command, MARKER)
    ensures GroupsOf(MergeEvents(hooks, events, command), event) ==
            if event in events then FilterGroups(GroupsOf(hooks, event)) + [ManagedGroup(command)]
            else GroupsOf(hooks, event)
    ensures event !in events ==>
              (event in MergeEvents(hooks, events, command) <==> event in hooks) &&
              (event in hooks ==> MergeEvents(hooks, events, command)[event] == hooks[event])
    ensures event in events ==>
              event in MergeEvents(hooks, events, command) && MergeEvents(hooks, events, command)[event].Array?
  {
    hide FilterGroups, ManagedGroup, Contains;
    if events != [] {
      var front, last := events[..|events| - 1], events[|events| - 1];
      assert events == front + [last];
      MergedGroups(hooks, front, command, event);
      FilterAfterMerge(GroupsOf(hooks, event), command);
    }
  }

  /** Merging keeps every event's user groups, and adds exactly one of ours. */
  lemma MergeKeepsUserGroups(root: Fields, events: seq<string>, command: string, event: string)
    requires Contains(command, MARKER)
    ensures UserGroups(Merge(root, events, command), event) == UserGroups(root, event)
    ensures event in events ==>
              GroupsOf(HooksOf(Merge(root, events, command)), event) ==
              UserGroups(root, event) + [ManagedGroup(command)]
  {
    hide FilterGroups, ManagedGroup, Contains, MergeEvents;
    MergedGroups(HooksOf(root), events, command, event);
    FilterAfterMerge(GroupsOf(HooksOf(root), event), command);
  }

  lemma RemovedGroups(root: Fields, event: string)
    ensures var groups := GroupsOf(HooksOf(root), event);
            GroupsOf(HooksOf(Remove(root)), event) == if Removes(groups) then FilterGroups(groups) else groups
  {
    hide FilterGroup, RemovesFrom;
  }

  lemma RemoveLeavesUserGroups(root: Fields, event: string)
    requires NoEmptyGroups(root)
    ensures GroupsOf(HooksOf(Remove(root)), event) == UserGroups(root, event)
  {
    hide FilterGroups, HooksOf, GroupsOf, Remove;
    RemovedGroups(root, event);
    var groups := GroupsOf(HooksOf(root), event);
    if !Removes(groups) {
      forall i | 0 <= i < |groups|
        ensures Clean(groups[i])
      {
        FilterGroupKeepsClean(groups[i]);
      }
      FilterKeepsExactlyClean(groups);
    }
  }

  // --- Any run of installs and edits --------------------------------------------------------

  datatype Operation = InstallAgain(command: string, lineCommand: string) | Edit(root: Fields)

  /** Commands are managed ones; the user writes no empty lists of commands. */
  ghost predicate Admissible(op: Operation) {
    match op
    case InstallAgain(command, lineCommand) => Contains(command, MARKER) && IsManaged(StatusLine(lineCommand))
    case Edit(root) => NoEmptyGroups(root)
  }

  function After(root: Fields, saved: SavedLine, ops: seq<Operation>): (Fields, SavedLine) {
    if ops == [] then (root, saved)
    else
      var (root1, saved1) := After(root, saved, ops[..|ops| - 1]);
      match ops[|ops| - 1]
      case InstallAgain(command, lineCommand) => Install(root1, saved1, command, lineCommand)
      case Edit(edited) => (edited, saved1)
  }

  /** The configuration the user wrote last, or the one to begin with. */
  function LastWritten(root: Fields, saved: SavedLine, ops: seq<Operation>): (Fields, SavedLine) {
    if ops == [] then (root, saved)
    else if ops[|ops| - 1].Edit? then After(root, saved, ops)
    else LastWritten(root, saved, ops[..|ops| - 1])
  }

  /** Both hold the same user content. */
  ghost predicate SameContent(a: Fields, savedA: SavedLine, b: Fields, savedB: SavedLine) {
    (forall event :: UserGroups(a, event) == UserGroups(b, event)) &&
    UserLine(a, savedA) == UserLine(b, savedB) &&
    a - {"hooks", "statusLine"} == b - {"hooks", "statusLine"}
  }

  lemma InstallKeepsContent(root: Fields, saved: SavedLine, command: string, lineCommand: string)
    requires Contains(command, MARKER) && IsManaged(StatusLine(lineCommand))
    ensures var (root', saved') := Install(root, saved, command, lineCommand);
            SameContent(root', saved', root, saved) && (NoEmptyGroups(root) ==> NoEmptyGroups(root'))
  {
    hide FilterGroups, ManagedGroup, Contains, MergeEvents, IsManaged, StatusLine, UserGroups, NoEmptyGroups;
    var merged := Merge(root, CLAUDE_EVENTS, command);
    var (root', saved') := Install(root, saved, command, lineCommand);
    LineIsSeparate(merged, StatusLine(lineCommand));
    assert merged - {"hooks", "statusLine"} == root - {"hooks", "statusLine"};
    assert LineOf(merged) == LineOf(root);
    forall event
      ensures UserGroups(root', event) == UserGroups(root, event)
    {
      MergeKeepsUserGroups(root, CLAUDE_EVENTS, command, event);
    }
    if NoEmptyGroups(root) {
      MergeLeavesNoEmptyGroups(root, CLAUDE_EVENTS, command);
    }
  }

  /** Writing the status line does not touch the hooks. */
  lemma LineIsSeparate(root: Fields, line: Json)
    ensures HooksOf(root["statusLine" := line]) == HooksOf(root)
    ensures forall event :: UserGroups(root["statusLine" := line], event) == UserGroups(root, event)
    ensures NoEmptyGroups(root["statusLine" := line]) <==> NoEmptyGroups(root)
    ensures root["statusLine" := line] - {"hooks", "statusLine"} == root - {"hooks", "statusLine"}
  {
    hide FilterGroups;
  }

  lemma MergeLeavesNoEmptyGroups(root: Fields, events: seq<string>, command: string)
    requires Contains(command, MARKER) && NoEmptyGroups(root)
    ensures NoEmptyGroups(Merge(root, events, command))
  {
    hide Contains, IsManaged, MergeEvents, FilterGroups;
    var merged := Merge(root, events, command);
    forall event: string, i | 0 <= i < |GroupsOf(HooksOf(merged), event)|
      ensures var group := GroupsOf(HooksOf(merged), event)[i]; HasCommands(group) ==> CommandsOf(group) != []
    {
      MergedGroups(HooksOf(root), events, command, event);
      if event in events {
        FilterKeepsExactlyClean(GroupsOf(HooksOf(root), event));
        var kept := FilterGroups(GroupsOf(HooksOf(root), event));
        if i < |kept| {
          assert Clean(kept[i]);
        }
      }
    }
  }

  lemma {:induction false} RunKeepsContent(root: Fields, saved: SavedLine, ops: seq<Operation>)
    requires NoEmptyGroups(root) && forall i :: 0 <= i < |ops| ==> Admissible(ops[i])
    ensures var (root', saved'), (written, savedThen) := After(root, saved, ops), LastWritten(root, saved, ops);
            SameContent(root', saved', written, savedThen) && NoEmptyGroups(root')
    decreases |ops|
  {
    hide Install, SameContent, NoEmptyGroups, IsManaged, Contains;
    if ops == [] {
      ContentIsReflexive(root, saved);
    } else {
      var front, op := ops[..|ops| - 1], ops[|ops| - 1];
      var (root1, saved1) := After(root, saved, front);
      assert Admissible(op);
      if op.InstallAgain? {
        RunKeepsContent(root, saved, front);
        InstallKeepsContent(root1, saved1, op.command, op.lineCommand);
        var (root', saved') := Install(root1, saved1, op.command, op.lineCommand);
        var (written, savedThen) := LastWritten(root, saved, front);
        ContentIsTransitive(root', saved', root1, saved1, written, savedThen);
      } else {
        ContentIsReflexive(op.root, saved1);
      }
    }
  }

  lemma ContentIsReflexive(a: Fields, saved: SavedLine)
    ensures SameContent(a, saved, a, saved)
  {
    hide UserGroups, UserLine;
  }

  lemma ContentIsTransitive(a: Fields, s: SavedLine, b: Fields, t: SavedLine, c: Fields, u: SavedLine)
    requires SameContent(a, s, b, t) && SameContent(b, t, c, u)
    ensures SameContent(a, s, c, u)
  {
    hide UserGroups, UserLine;
  }

  /** Any run of installs with any managed commands, interleaved with any user
      edits, followed by uninstall: each event is left with exactly the user's
      groups in order, the status line is the user's last one, and everything
      else in the file is as last written. */
  lemma UninstallRestoresUserContent(root: Fields, saved: SavedLine, ops: seq<Operation>)
    requires NoEmptyGroups(root) && forall i :: 0 <= i < |ops| ==> Admissible(ops[i])
    ensures var (installed, remembered), (written, savedThen) := After(root, saved, ops), LastWritten(root, saved, ops);
            var final := Uninstall(installed, remembered);
            (forall event :: GroupsOf(HooksOf(final), event) == UserGroups(written, event)) &&
            LineOf(final) == UserLine(written, savedThen) &&
            final - {"hooks", "statusLine"} == written - {"hooks", "statusLine"}
  {
    hide Install, NoEmptyGroups, IsManaged, Contains, FilterGroups, After, LastWritten, GroupsOf, RemoveEvents,
      UserGroups, Admissible;
    RunKeepsContent(root, saved, ops);
    var (installed, remembered) := After(root, saved, ops);
    var rest, final := Remove(installed), Uninstall(installed, remembered);
    assert LineOf(rest) == LineOf(installed);
    assert rest - {"hooks", "statusLine"} == installed - {"hooks", "statusLine"};
    assert final - {"hooks", "statusLine"} == rest - {"hooks", "statusLine"};
    assert HooksOf(final) == HooksOf(rest);
    forall event
      ensures GroupsOf(HooksOf(final), event) == UserGroups(installed, event)
    {
      RemoveLeavesUserGroups(installed, event);
    }
  }

  // --- The user's status line, read off the operations alone ------------------------------

  /** The line the user wrote last. Our own line left standing in an edit says
      nothing about it. */
  function WrittenLine(root: Fields, saved: SavedLine, ops: seq<Operation>): Option<Json> {
    if ops == [] then UserLine(root, saved)
    else
      var front, op := ops[..|ops| - 1], ops[|ops| - 1];
      if op.Edit? && !HasManagedLine(op.root) then LineOf(op.root) else WrittenLine(root, saved, front)
  }

  /** The last edit of the line put ours where the user's own line stood, and what
      is remembered from an earlier install is not that line. */
  predicate PastedOver(root: Fields, saved: SavedLine, ops: seq<Operation>) {
    ops != [] &&
    var front, op := ops[..|ops| - 1], ops[|ops| - 1];
    var (root1, saved1) := After(root, saved, front);
    if op.Edit? && !HasManagedLine(op.root) then false
    else if op.Edit? && !HasManagedLine(root1) then saved1 != LineOf(root1)
    else PastedOver(root, saved, front)
  }

  /** No edit brings our line back to where it does not stand. */
  ghost predicate NeverPasted(root: Fields, saved: SavedLine, ops: seq<Operation>) {
    forall i :: 0 <= i < |ops| && ops[i].Edit? && HasManagedLine(ops[i].root) ==>
      HasManagedLine(After(root, saved, ops[..i]).0)
  }

  lemma {:induction false} RemembersWrittenLine(root: Fields, saved: SavedLine, ops: seq<Operation>)
    requires forall i :: 0 <= i < |ops| ==> Admissible(ops[i])
    ensures var (root', saved') := After(root, saved, ops);
            (UserLine(root', saved') == WrittenLine(root, saved, ops) <==> !PastedOver(root, saved, ops)) &&
            (!HasManagedLine(root') ==> !PastedOver(root, saved, ops))
    decreases |ops|
  {
    hide Install, SameContent, NoEmptyGroups, Contains, IsManaged;
    if ops != [] {
      var front, op := ops[..|ops| - 1], ops[|ops| - 1];
      var (root1, saved1) := After(root, saved, front);
      assert Admissible(op);
      RemembersWrittenLine(root, saved, front);
      if op.InstallAgain? {
        InstallKeepsLine(root1, saved1, op.command, op.lineCommand);
      }
    }
  }

  lemma InstallKeepsLine(root: Fields, saved: SavedLine, command: string, lineCommand: string)
    requires Contains(command, MARKER) && IsManaged(StatusLine(lineCommand))
    ensures var (root', saved') := Install(root, saved, command, lineCommand);
            HasManagedLine(root') && UserLine(root', saved') == UserLine(root, saved)
  {
    hide Contains, IsManaged, MergeEvents, StatusLine;
    InstallKeepsContent(root, saved, command, lineCommand);
  }

  /** Uninstall leaves the status line the user wrote last, if and only if the user
      did not paste our line over their own; not pasting it at all is enough. */
  lemma UninstallRestoresUserLine(root: Fields, saved: SavedLine, ops: seq<Operation>)
    requires NoEmptyGroups(root) && forall i :: 0 <= i < |ops| ==> Admissible(ops[i])
    ensures var (installed, remembered) := After(root, saved, ops);
            LineOf(Uninstall(installed, remembered)) == WrittenLine(root, saved, ops) <==> !PastedOver(root, saved, ops)
    ensures NeverPasted(root, saved, ops) ==> !PastedOver(root, saved, ops)
  {
    hide After, WrittenLine, PastedOver, NoEmptyGroups, IsManaged, NeverPasted;
    RemembersWrittenLine(root, saved, ops);
    var (installed, remembered) := After(root, saved, ops);
    UninstalledLine(installed, remembered);
    if NeverPasted(root, saved, ops) {
      NothingPasted(root, saved, ops);
    }
  }

  lemma UninstalledLine(root: Fields, saved: SavedLine)
    ensures LineOf(Uninstall(root, saved)) == UserLine(root, saved)
  {
    hide RemoveEvents, IsManaged;
    assert LineOf(Remove(root)) == LineOf(root);
  }

  lemma {:induction false} NothingPasted(root: Fields, saved: SavedLine, ops: seq<Operation>)
    requires NeverPasted(root, saved, ops)
    ensures !PastedOver(root, saved, ops)
    decreases |ops|
  {
    hide Install, HasManagedLine;
    if ops != [] {
      var front := ops[..|ops| - 1];
      assert forall i :: 0 <= i < |front| ==> ops[..i] == front[..i] && ops[i] == front[i];
      assert ops[..|ops| - 1] == front;
      NothingPasted(root, saved, front);
    }
  }

  /** Line A, an install, line B over ours, and ours pasted back: A comes back. */
  lemma PastedLineLosesUserLine(command: string, lineCommand: string)
    requires Contains(command, MARKER) && IsManaged(StatusLine(lineCommand))
    ensures var ours, a, b := StatusLine(lineCommand), Text("A"), Text("B");
            var ops :=
              [InstallAgain(command, lineCommand), Edit(map["statusLine" := b]), Edit(map["statusLine" := ours])];
            var (installed, remembered) := After(map["statusLine" := a], None, ops);
            WrittenLine(map["statusLine" := a], None, ops) == Some(b) &&
            LineOf(Uninstall(installed, remembered)) == Some(a)
  {
    hide Contains, MergeEvents, StatusLine, RemoveEvents, Remove;
    var ours, a, b := StatusLine(lineCommand), Text("A"), Text("B");
    var root: Fields := map["statusLine" := a];
    var one := [InstallAgain(command, lineCommand)];
    var two := one + [Edit(map["statusLine" := b])];
    var three := two + [Edit(map["statusLine" := ours])];
    ShortTextsAreUnmanaged();
    assert one[..0] == [] && two[..1] == one && three[..2] == two;
    assert After(root, None, []) == (root, None);
    assert After(root, None, one).1 == Some(a);
    assert After(root, None, two) == (map["statusLine" := b], Some(a));
    assert After(root, None, three) == (map["statusLine" := ours], Some(a));
    UninstalledLine(map["statusLine" := ours], Some(a));
    assert three == [InstallAgain(command, lineCommand), Edit(map["statusLine" := b]), Edit(map["statusLine" := ours])];
    assert HasManagedLine(map["statusLine" := ours]);
    assert WrittenLine(root, None, two) == Some(b);
  }

  lemma ShortTextsAreUnmanaged()
    ensures !IsManaged(Text("A")) && !IsManaged(Text("B"))
  {
    assert |MARKER| > 1;
  }

  // --- The same for the other provider's file ------------------------------------------------

  /** The Codex file has no status line; an install only merges. */
  function CodexAfter(root: Fields, ops: seq<Operation>): Fields {
    if ops == [] then root
    else
      match ops[|ops| - 1]
      case InstallAgain(command, _) => Merge(CodexAfter(root, ops[..|ops| - 1]), CODEX_EVENTS, command)
      case Edit(edited) => edited
  }

  function CodexLastWritten(root: Fields, ops: seq<Operation>): Fields {
    if ops == [] then root
    else if ops[|ops| - 1].Edit? then ops[|ops| - 1].root
    else CodexLastWritten(root, ops[..|ops| - 1])
  }

  ghost predicate SameHooksContent(a: Fields, b: Fields) {
    (forall event :: UserGroups(a, event) == UserGroups(b, event)) && a - {"hooks"} == b - {"hooks"}
  }

  lemma MergeKeepsContent(root: Fields, command: string)
    requires Contains(command, MARKER)
    ensures SameHooksContent(Merge(root, CODEX_EVENTS, command), root)
  {
    hide Contains, MergeEvents, FilterGroups, UserGroups;
    forall event
      ensures UserGroups(Merge(root, CODEX_EVENTS, command), event) == UserGroups(root, event)
    {
      MergeKeepsUserGroups(root, CODEX_EVENTS, command, event);
    }
  }

  lemma {:induction false} CodexRunKeepsContent(root: Fields, ops: seq<Operation>)
    requires NoEmptyGroups(root) && forall i :: 0 <= i < |ops| ==> Admissible(ops[i])
    ensures SameHooksContent(CodexAfter(root, ops), CodexLastWritten(root, ops))
    ensures NoEmptyGroups(CodexAfter(root, ops))
    decreases |ops|
  {
    hide Merge, NoEmptyGroups, IsManaged, Contains, UserGroups;
    if ops != [] {
      var front, op := ops[..|ops| - 1], ops[|ops| - 1];
      assert Admissible(op);
      if op.InstallAgain? {
        CodexRunKeepsContent(root, front);
        MergeKeepsContent(CodexAfter(root, front), op.command);
        MergeLeavesNoEmptyGroups(CodexAfter(root, front), CODEX_EVENTS, op.command);
      }
    }
  }

  /** Any run of installs and user edits, followed by uninstall, leaves each event
      of the Codex file with exactly the user's groups in order, and everything
      else in the file as last written. */
  lemma UninstallRestoresCodexContent(root: Fields, ops: seq<Operation>)
    requires NoEmptyGroups(root) && forall i :: 0 <= i < |ops| ==> Admissible(ops[i])
    ensures var final, written := Remove(CodexAfter(root, ops)), CodexLastWritten(root, ops);
            (forall event :: GroupsOf(HooksOf(final), event) == UserGroups(written, event)) &&
            final - {"hooks"} == written - {"hooks"}
  {
    hide NoEmptyGroups, GroupsOf, RemoveEvents, UserGroups, CodexAfter, CodexLastWritten, Admissible;
    CodexRunKeepsContent(root, ops);
    var installed := CodexAfter(root, ops);
    forall event
      ensures GroupsOf(HooksOf(Remove(installed)), event) == UserGroups(installed, event)
    {
      RemoveLeavesUserGroups(installed, event);
    }
  }

  // --- When the file comes back exactly as it was ---------------------------------------------

  /** This event's value comes back: absent, or a non-empty array of the user's
      own groups, or, for an event that is not managed, without managed commands. */
  predicate EventComesBack(hooks: Fields, events: seq<string>, event: string) {
    event in hooks ==>
      if event in events then hooks[event].Array? && hooks[event].items != [] && AllClean(hooks[event].items)
      else !Removes(GroupsOf(hooks, event))
  }

  predicate SameEvent(a: Fields, b: Fields, event: string) {
    (event in a <==> event in b) && (event in a && event in b ==> a[event] == b[event])
  }

  lemma EventUndone(hooks: Fields, events: seq<string>, command: string, event: string)
    requires Contains(command, MARKER)
    ensures SameEvent(RemoveEvents(MergeEvents(hooks, events, command)), hooks, event) <==>
            EventComesBack(hooks, events, event)
  {
    hide Contains, ManagedGroup, MergeEvents, RemovesFrom, FilterGroup, Clean;
    var merged, groups := MergeEvents(hooks, events, command), GroupsOf(hooks, event);
    MergedGroups(hooks, events, command, event);
    FilterAfterMerge(groups, command);
    FilterKeepsExactlyClean(groups);
    if event in events {
      assert GroupsOf(merged, event) == FilterGroups(groups) + [ManagedGroup(command)];
    } else if Removes(groups) {
      var i :| 0 <= i < |groups| && RemovesFrom(groups[i]);
      FilterGroupKeepsClean(groups[i]);
      assert !AllClean(groups);
    }
  }

  /** The configurations that a first install followed by uninstall restores. */
  ghost predicate Restorable(root: Fields) {
    "hooks" in root && root["hooks"].Object? && !HasManagedLine(root) &&
    forall event :: EventComesBack(root["hooks"].fields, CLAUDE_EVENTS, event)
  }

  lemma SameEverywhere(a: Fields, b: Fields)
    ensures a == b <==> forall event :: SameEvent(a, b, event)
  {
    if forall event :: SameEvent(a, b, event) {
      assert forall event :: event in a ==> SameEvent(a, b, event);
      assert forall event :: event in b ==> SameEvent(a, b, event);
    }
  }

  /** Uninstalling right after a first install gives back the very same tree, if
      and only if the tree was restorable. */
  lemma UninstallUndoesInstall(root: Fields, command: string, lineCommand: string)
    requires Contains(command, MARKER) && IsManaged(StatusLine(lineCommand))
    ensures var (installed, saved) := Install(root, None, command, lineCommand);
            Uninstall(installed, saved) == root <==> Restorable(root)
  {
    hide Contains, IsManaged, StatusLine, MergeEvents, RemoveEvents, EventComesBack, SameEvent;
    var (installed, saved) := Install(root, None, command, lineCommand);
    var before, after := HooksOf(root), RemoveEvents(MergeEvents(HooksOf(root), CLAUDE_EVENTS, command));
    SameEverywhere(after, before);
    forall event
      ensures SameEvent(after, before, event) <==> EventComesBack(before, CLAUDE_EVENTS, event)
    {
      EventUndone(before, CLAUDE_EVENTS, command, event);
    }
    UninstalledTree(root, command, lineCommand);
  }

  /** An empty configuration does not come back: it is left with empty `hooks`. */
  lemma EmptyTreeDoesNotComeBack(command: string, lineCommand: string)
    requires Contains(command, MARKER) && IsManaged(StatusLine(lineCommand))
    ensures var (installed, saved) := Install(map[], None, command, lineCommand);
            Uninstall(installed, saved) != map[]
  {
    hide Contains, IsManaged, Install, Uninstall;
    UninstallUndoesInstall(map[], command, lineCommand);
  }

  /** The tree that install and uninstall leave, spelled out. */
  lemma UninstalledTree(root: Fields, command: string, lineCommand: string)
    requires Contains(command, MARKER) && IsManaged(StatusLine(lineCommand))
    ensures var (installed, saved) := Install(root, None, command, lineCommand);
            var after := root["hooks" := Object(RemoveEvents(MergeEvents(HooksOf(root), CLAUDE_EVENTS, command)))];
            Uninstall(installed, saved) == if HasManagedLine(root) then after - {"statusLine"} else after
  {
    hide Contains, IsManaged, StatusLine, MergeEvents, RemoveEvents;
    var (installed, saved) := Install(root, None, command, lineCommand);
    var after := root["hooks" := Object(RemoveEvents(MergeEvents(HooksOf(root), CLAUDE_EVENTS, command)))];
    assert HooksOf(installed) == MergeEvents(HooksOf(root), CLAUDE_EVENTS, command);
    var rest := Remove(installed);
    assert rest == after["statusLine" := StatusLine(lineCommand)];
    if "statusLine" in root && !HasManagedLine(root) {
      assert after["statusLine"] == root["statusLine"];
      assert rest["statusLine" := root["statusLine"]] == after;
    } else {
      assert rest - {"statusLine"} == after - {"statusLine"};
    }
  }
}
