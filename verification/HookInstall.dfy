/** Installing managed hook entries into a user's configuration tree, and taking
    them out again. */
module HookInstall {
  import opened Prelude
  import opened JsonTree

  type Fields = map<string, Json>

  const MARKER := "quota-monitor-managed-v1"

  const CODEX_EVENTS := ["UserPromptSubmit", "Stop", "SessionEnd", "SubagentStart", "SubagentStop", "PostToolUse"]

  const CLAUDE_EVENTS :=
    ["UserPromptSubmit", "Stop", "StopFailure", "SessionEnd", "SubagentStart", "SubagentStop", "PostToolUse"]

  // --- Managed values ---------------------------------------------------------

  predicate Contains(s: string, part: string) {
    exists i :: 0 <= i <= |s| && part <= s[i..]
  }

  /** The marker occurs in some text or key of the tree, which is the same as
      occurring in its JSON text. */
  predicate IsManaged(v: Json) {
    match v
    case Text(s) => Contains(s, MARKER)
    case Array(items) => exists i :: 0 <= i < |items| && IsManaged(items[i])
    case Object(fields) => exists k :: k in fields && (Contains(k, MARKER) || IsManaged(fields[k]))
    case _ => false
  }

  function ReplaceAll(s: string, c: char, escape: string): string {
    if s == "" then "" else (if s[0] == c then escape else [s[0]]) + ReplaceAll(s[1..], c, escape)
  }

  function ShellQuote(windows: bool, value: string): string {
    if windows then "\"" + ReplaceAll(value, '"', "\\\"") + "\""
    else "'" + ReplaceAll(value, '\'', "'\"'\"'") + "'"
  }

  function JoinQuoted(windows: bool, values: seq<string>): string {
    if values == [] then ""
    else if |values| == 1 then ShellQuote(windows, values[0])
    else ShellQuote(windows, values[0]) + " " + JoinQuoted(windows, values[1..])
  }

  /** The command line for an executable and its arguments, the last of which is the marker. */
  function ManagedCommand(windows: bool, executable: string, arguments: seq<string>): string {
    JoinQuoted(windows, [executable] + arguments + ["--managed-by", MARKER])
  }

  // --- Filtering groups -----------------------------------------------------------

  function KeepUnmanaged(commands: seq<Json>): seq<Json> {
    if commands == [] then []
    else (if IsManaged(commands[0]) then [] else [commands[0]]) + KeepUnmanaged(commands[1..])
  }

  predicate HasCommands(group: Json) {
    group.Object? && "hooks" in group.fields && group.fields["hooks"].Array?
  }

  function CommandsOf(group: Json): seq<Json>
    requires HasCommands(group)
  {
    group.fields["hooks"].items
  }

  /** A group without its managed commands; gone when no command is left. */
  function FilterGroup(group: Json): seq<Json> {
    if !HasCommands(group) then [group]
    else
      var commands := KeepUnmanaged(CommandsOf(group));
      if commands == [] then [] else [Object(group.fields["hooks" := Array(commands)])]
  }

  function FilterGroups(groups: seq<Json>): seq<Json> {
    if groups == [] then [] else FilterGroup(groups[0]) + FilterGroups(groups[1..])
  }

  predicate RemovesFrom(group: Json) {
    HasCommands(group) && exists i :: 0 <= i < |CommandsOf(group)| && IsManaged(CommandsOf(group)[i])
  }

  predicate Removes(groups: seq<Json>) {
    exists i :: 0 <= i < |groups| && RemovesFrom(groups[i])
  }

  // --- Merging and removing -----------------------------------------------------------

  function HooksOf(root: Fields): Fields {
    if "hooks" in root && root["hooks"].Object? then root["hooks"].fields else map[]
  }

  function GroupsOf(hooks: Fields, event: string): seq<Json> {
    if event in hooks && hooks[event].Array? then hooks[event].items else []
  }

  function ManagedGroup(command: string): Json {
    Object(map["hooks" := Array([Object(map["type" := Text("command"), "command" := Text(command),
                                            "timeout" := Integer(5)])])])
  }

  function MergeEvents(hooks: Fields, events: seq<string>, command: string): Fields {
    if events == [] then hooks
    else
      var before := MergeEvents(hooks, events[..|events| - 1], command);
      var event := events[|events| - 1];
      before[event := Array(FilterGroups(GroupsOf(before, event)) + [ManagedGroup(command)])]
  }

  function Merge(root: Fields, events: seq<string>, command: string): Fields {
    root["hooks" := Object(MergeEvents(HooksOf(root), events, command))]
  }

  /** Events keep their unmanaged groups; an event left without groups is gone. */
  function RemoveEvents(hooks: Fields): Fields {
    map event | event in hooks && !(Removes(GroupsOf(hooks, event)) && FilterGroups(GroupsOf(hooks, event)) == []) ::
      if Removes(GroupsOf(hooks, event)) then Array(FilterGroups(GroupsOf(hooks, event))) else hooks[event]
  }

  function Remove(root: Fields): Fields {
    if "hooks" in root && root["hooks"].Object? then root["hooks" := Object(RemoveEvents(HooksOf(root)))] else root
  }

  method MergeManagedHooks(root: Fields, events: seq<string>, command: string) returns (merged: Fields)
    ensures merged == Merge(root, events, command)
  {
    var hooks: Fields := map[];
    if "hooks" in root && root["hooks"].Object? {
      hooks := root["hooks"].fields;
    }
    for i := 0 to |events|
      invariant hooks == MergeEvents(HooksOf(root), events[..i], command)
    {
      var event := events[i];
      var groups := if event in hooks && hooks[event].Array? then hooks[event].items else [];
      groups := FilterGroups(groups) + [ManagedGroup(command)];
      assert events[..i + 1][..i] == events[..i];
      hooks := hooks[event := Array(groups)];
    }
    assert events[..|events|] == events;
    merged := root["hooks" := Object(hooks)];
  }

  lemma NothingToRemove()
    ensures !Removes([])
  {
  }

  method RemoveManagedHooks(root: Fields) returns (changed: bool, rest: Fields)
    ensures rest == Remove(root)
    ensures !changed ==> rest == root
  {
    hide Removes, FilterGroups;
    NothingToRemove();
    if !("hooks" in root && root["hooks"].Object?) { return false, root; }
    var before := root["hooks"].fields;
    var hooks := before;
    changed := false;
    var pending := before.Keys;
    while pending != {}
      invariant pending <= before.Keys
      invariant forall event :: event in pending ==> event in hooks && hooks[event] == before[event]
      invariant forall event ::
                  event in hooks <==> event in before && (event in pending || event in RemoveEvents(before))
      invariant forall event :: event in hooks && event !in pending ==> hooks[event] == RemoveEvents(before)[event]
      invariant !changed ==> hooks == before
    {
      var event :| event in pending;
      pending := pending - {event};
      if before[event].Array? {
        var groups := before[event].items;
        if Removes(groups) {
          var filtered := FilterGroups(groups);
          changed := true;
          if |filtered| == 0 {
            hooks := hooks - {event};
          } else {
            hooks := hooks[event := Array(filtered)];
          }
        }
      }
    }
    assert hooks == RemoveEvents(before);
    rest := root["hooks" := Object(hooks)];
  }

  // --- Install and uninstall ------------------------------------------------------------

  /** What installation remembers about the user's status line. */
  type SavedLine = Option<Json>

  function StatusLine(command: string): Json {
    Object(map["type" := Text("command"), "command" := Text(command), "refreshInterval" := Integer(15)])
  }

  predicate HasManagedLine(root: Fields) {
    "statusLine" in root && IsManaged(root["statusLine"])
  }

  function LineOf(root: Fields): Option<Json> {
    if "statusLine" in root then Some(root["statusLine"]) else None
  }

  function Install(root: Fields, saved: SavedLine, command: string, lineCommand: string): (Fields, SavedLine) {
    var merged := Merge(root, CLAUDE_EVENTS, command);
    (merged["statusLine" := StatusLine(lineCommand)],
     if HasManagedLine(merged) then saved else LineOf(merged))
  }

  function Uninstall(root: Fields, saved: SavedLine): Fields {
    var rest := Remove(root);
    if HasManagedLine(rest) then
      if saved.Some? then rest["statusLine" := saved.value] else rest - {"statusLine"}
    else rest
  }

  /** The installed configurations and what must survive between the calls. */
  class Installer {
    var codex: Fields
    var claude: Fields
    var saved: SavedLine

    constructor (codex: Fields, claude: Fields)
      ensures this.codex == codex && this.claude == claude && saved == None
    {
      this.codex, this.claude, saved := codex, claude, None;
    }

    method InstallHooks(codexCommand: string, claudeCommand: string, lineCommand: string)
      modifies this
      ensures codex == Merge(old(codex), CODEX_EVENTS, codexCommand)
      ensures (claude, saved) == Install(old(claude), old(saved), claudeCommand, lineCommand)
    {
      codex := MergeManagedHooks(codex, CODEX_EVENTS, codexCommand);
      claude := MergeManagedHooks(claude, CLAUDE_EVENTS, claudeCommand);
      if !HasManagedLine(claude) {
        saved := LineOf(claude);
      }
      claude := claude["statusLine" := StatusLine(lineCommand)];
    }

    method UninstallHooks()
      modifies this
      ensures codex == Remove(old(codex))
      ensures claude == Uninstall(old(claude), old(saved)) && saved == None
    {
      var changed: bool;
      changed, codex := RemoveManagedHooks(codex);
      changed, claude := RemoveManagedHooks(claude);
      if HasManagedLine(claude) {
        claude := if saved.Some? then claude["statusLine" := saved.value] else claude - {"statusLine"};
      }
      saved := None;
    }
  }
}
