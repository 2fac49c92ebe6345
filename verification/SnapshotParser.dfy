/** The display's snapshot parser and cache writer, on JSON trees. Percentages
    are real numbers; the text codec and its size limits are abstract. */
module SnapshotParser {
  import opened Prelude
  import opened JsonTree
  import opened Rfc3339

  type Fields = map<string, Json>

  datatype RateWindow = RateWindow(
    present: bool, hasReset: bool, used: real, remaining: real, resetsAt: string, resetsAtEpoch: int)

  datatype Provider = Provider(
    present: bool, observedAt: string, observedAtEpoch: int, freshness: string, loginRequired: bool,
    plan: string, fiveHour: RateWindow, sevenDay: RateWindow)

  datatype TaskCount = TaskCount(main: int, sub: int)

  datatype Snapshot = Snapshot(
    schemaVersion: int, generatedAt: string, generatedAtEpoch: int, codex: Provider, claude: Provider,
    codexTasks: TaskCount, claudeTasks: TaskCount, totalTasks: TaskCount,
    agentsOnline: int, agentsTotal: int, warnings: seq<string>)

  const NO_WINDOW := RateWindow(false, false, 0.0, 0.0, "", 0)
  const MAX_WARNINGS: nat := 8
  const MAX_PLAN: nat := 32

  // --- Reading values ---------------------------------------------------------

  predicate IsNumber(v: Json) {
    v.Integer? || v.Decimal?
  }

  function AsReal(v: Json): real
    requires IsNumber(v)
  {
    if v.Integer? then v.n as real else v.r
  }

  /** An integer that fits the device's int. */
  predicate IsInt(v: Json) {
    v.Integer? && -0x8000_0000 <= v.n < 0x8000_0000
  }

  predicate HasInt(fields: Fields, key: string) {
    key in fields && IsInt(fields[key])
  }

  predicate HasText(fields: Fields, key: string) {
    key in fields && fields[key].Text?
  }

  predicate HasObject(fields: Fields, key: string) {
    key in fields && fields[key].Object?
  }

  predicate Percent(p: real) {
    0.0 <= p <= 100.0
  }

  function ReadReset(v: Json, w: RateWindow): Option<RateWindow> {
    if v == Null then
      if Abs(w.used) > 0.01 || Abs(w.remaining - 100.0) > 0.01 then None else Some(w)
    else if !v.Text? || v.text == "" || EpochOf(v.text).None? then None
    else Some(w.(hasReset := true, resetsAt := v.text, resetsAtEpoch := EpochOf(v.text).value))
  }

  function ReadWindow(v: Json): Option<RateWindow> {
    if v == Null then Some(NO_WINDOW)
    else if !v.Object? then None
    else
      var o := v.fields;
      if !("usedPercent" in o && IsNumber(o["usedPercent"]) &&
           "remainingPercent" in o && IsNumber(o["remainingPercent"]))
      then None
      else
        var used, remaining := AsReal(o["usedPercent"]), AsReal(o["remainingPercent"]);
        if !Percent(used) || !Percent(remaining) || Abs(used + remaining - 100.0) > 0.01 then None
        else if "resetsAt" !in o then None
        else ReadReset(o["resetsAt"], RateWindow(true, false, used, remaining, "", 0))
  }

  predicate KnownFreshness(s: string) {
    s == "fresh" || s == "stale" || s == "unavailable"
  }

  /** Short printable ASCII. */
  predicate Displayable(plan: string) {
    |plan| <= MAX_PLAN && forall i :: 0 <= i < |plan| ==> 0x20 <= plan[i] as int <= 0x7e
  }

  /** Absent, or text of the given kind; absent reads as empty. */
  function ReadPlan(o: Fields): Option<string> {
    if "plan" !in o then Some("")
    else if o["plan"].Text? && Displayable(o["plan"].text) then Some(o["plan"].text)
    else None
  }

  function ReadLogin(o: Fields): Option<bool> {
    if "loginRequired" !in o then Some(false)
    else if o["loginRequired"].Boolean? then Some(o["loginRequired"].flag)
    else None
  }

  function ReadObserved(o: Fields, freshness: string): Option<(string, int)> {
    if "observedAt" in o then
      if o["observedAt"].Text? && EpochOf(o["observedAt"].text).Some?
      then Some((o["observedAt"].text, EpochOf(o["observedAt"].text).value))
      else None
    else if freshness != "unavailable" then None
    else Some(("", 0))
  }

  function ReadProvider(v: Json): Option<Provider> {
    if !v.Object? || !HasText(v.fields, "freshness") || !KnownFreshness(v.fields["freshness"].text) then None
    else
      var o, freshness := v.fields, v.fields["freshness"].text;
      var login, plan, observed := ReadLogin(o), ReadPlan(o), ReadObserved(o, freshness);
      if login.None? || plan.None? || observed.None? || !HasObject(o, "windows") then None
      else
        var windows := o["windows"].fields;
        if "fiveHour" !in windows || "sevenDay" !in windows then None
        else
          var five, seven := ReadWindow(windows["fiveHour"]), ReadWindow(windows["sevenDay"]);
          if five.None? || seven.None? then None
          else
            var (at, epoch) := observed.value;
            Some(Provider(true, at, epoch, freshness, login.value, plan.value, five.value, seven.value))
  }

  function ReadTasks(fields: Fields, key: string): Option<TaskCount> {
    if !HasObject(fields, key) || !HasInt(fields[key].fields, "main") || !HasInt(fields[key].fields, "sub") then None
    else
      var count := TaskCount(fields[key].fields["main"].n, fields[key].fields["sub"].n);
      if count.main < 0 || count.sub < 0 then None else Some(count)
  }

  function ReadCount(fields: Fields, key: string): Option<int> {
    if HasInt(fields, key) && fields[key].n >= 0 then Some(fields[key].n) else None
  }

  predicate AllTexts(items: seq<Json>) {
    forall i :: 0 <= i < |items| ==> items[i].Text?
  }

  /** The first warnings, as many as the display keeps. */
  function KeptWarnings(items: seq<Json>): (ws: seq<string>)
    requires AllTexts(items)
    ensures |ws| == Min(|items|, MAX_WARNINGS)
  {
    seq(Min(|items|, MAX_WARNINGS), i requires 0 <= i < |items| => items[i].text)
  }

  // --- Reading a snapshot: specification ------------------------------------------

  /** The parts of the tree that are read, each if it is there and well formed. */
  datatype Parts = Parts(
    epoch: Option<int>, codex: Option<Provider>, claude: Option<Provider>,
    codexTasks: Option<TaskCount>, claudeTasks: Option<TaskCount>, totalTasks: Option<TaskCount>,
    online: Option<int>, total: Option<int>)

  function TextOr(fields: Fields, key: string, fallback: string): string {
    if HasText(fields, key) then fields[key].text else fallback
  }

  function ObjectOr(fields: Fields, key: string): Fields {
    if HasObject(fields, key) then fields[key].fields else map[]
  }

  function ReadMember(fields: Fields, key: string): Option<Provider> {
    if key in fields then ReadProvider(fields[key]) else None
  }

  function PartsOf(root: Fields): Parts {
    var providers, tasks, agents := ObjectOr(root, "providers"), ObjectOr(root, "tasks"), ObjectOr(root, "agents");
    Parts(EpochOf(TextOr(root, "generatedAt", "")), ReadMember(providers, "codex"), ReadMember(providers, "claude"),
          ReadTasks(tasks, "codex"), ReadTasks(tasks, "claude"), ReadTasks(tasks, "total"),
          ReadCount(agents, "online"), ReadCount(agents, "total"))
  }

  predicate Complete(p: Parts) {
    p.epoch.Some? && p.codex.Some? && p.claude.Some? && p.codexTasks.Some? && p.claudeTasks.Some? &&
    p.totalTasks.Some? && p.online.Some? && p.total.Some? &&
    p.totalTasks.value.main == p.codexTasks.value.main + p.claudeTasks.value.main &&
    p.totalTasks.value.sub == p.codexTasks.value.sub + p.claudeTasks.value.sub &&
    p.online.value <= p.total.value
  }

  function Assemble(generatedAt: string, p: Parts, warnings: seq<string>): Snapshot
    requires Complete(p)
  {
    Snapshot(1, generatedAt, p.epoch.value, p.codex.value, p.claude.value, p.codexTasks.value, p.claudeTasks.value,
             p.totalTasks.value, p.online.value, p.total.value, warnings)
  }

  predicate RightVersion(root: Fields) {
    HasInt(root, "schemaVersion") && root["schemaVersion"].n == 1
  }

  function ParseTree(v: Json): Option<Snapshot> {
    if !v.Object? || !RightVersion(v.fields) || !Complete(PartsOf(v.fields)) then None
    else if !("warnings" in v.fields && v.fields["warnings"].Array? && AllTexts(v.fields["warnings"].items)) then None
    else Some(Assemble(TextOr(v.fields, "generatedAt", ""), PartsOf(v.fields),
                       KeptWarnings(v.fields["warnings"].items)))
  }

  // --- Reading a snapshot: the program ------------------------------------------------

  method ParseSnapshot(v: Json) returns (r: Option<Snapshot>)
    ensures r == ParseTree(v)
  {
    hide ReadProvider, ReadTasks, ReadCount, EpochOf;
    if !v.Object? || !HasInt(v.fields, "schemaVersion") || v.fields["schemaVersion"].n != 1 { return None; }
    var root := v.fields;
    var generatedAt := TextOr(root, "generatedAt", "");
    var ok, epoch := ParseRfc3339(generatedAt);
    if !ok { return None; }
    if !HasObject(root, "providers") { return None; }
    var providers := root["providers"].fields;
    if "codex" !in providers || "claude" !in providers { return None; }
    var codex := ReadProvider(providers["codex"]);
    if codex.None? { return None; }
    var claude := ReadProvider(providers["claude"]);
    if claude.None? { return None; }
    if !HasObject(root, "tasks") { NoTasks(map[]); return None; }
    var tasks := root["tasks"].fields;
    var codexTasks := ReadTasks(tasks, "codex");
    if codexTasks.None? { return None; }
    var claudeTasks := ReadTasks(tasks, "claude");
    if claudeTasks.None? { return None; }
    var totalTasks := ReadTasks(tasks, "total");
    if totalTasks.None? { return None; }
    if totalTasks.value.main != codexTasks.value.main + claudeTasks.value.main ||
       totalTasks.value.sub != codexTasks.value.sub + claudeTasks.value.sub {
      return None;
    }
    if !HasObject(root, "agents") { NoTasks(map[]); return None; }
    var agents := root["agents"].fields;
    var online := ReadCount(agents, "online");
    if online.None? { return None; }
    var total := ReadCount(agents, "total");
    if total.None? { return None; }
    if online.value > total.value { return None; }
    if !("warnings" in root && root["warnings"].Array?) { return None; }
    var items := root["warnings"].items;
    var warnings: seq<string> := [];
    for i := 0 to |items|
      invariant AllTexts(items[..i])
      invariant warnings == KeptWarnings(items[..i])
    {
      if !items[i].Text? { return None; }
      assert items[..i + 1] == items[..i] + [items[i]];
      if |warnings| < MAX_WARNINGS {
        warnings := warnings + [items[i].text];
      }
    }
    assert items[..|items|] == items;
    return Some(Snapshot(1, generatedAt, epoch, codex.value, claude.value, codexTasks.value, claudeTasks.value,
                         totalTasks.value, online.value, total.value, warnings));
  }

  /** Nothing is read from an absent object. */
  lemma NoTasks(empty: Fields)
    requires empty == map[]
    ensures forall key :: ReadTasks(empty, key).None? && ReadCount(empty, key).None? && ReadMember(empty, key).None?
  {
  }

  // --- Writing the cache -------------------------------------------------------------------

  function WriteWindow(w: RateWindow): Json {
    if !w.present then Null
    else Object(map["usedPercent" := Decimal(w.used), "remainingPercent" := Decimal(w.remaining),
                    "resetsAt" := if w.hasReset then Text(w.resetsAt) else Null])
  }

  function WriteProvider(p: Provider): Json {
    Object((if p.observedAt != "" then map["observedAt" := Text(p.observedAt)] else map[]) +
           map["freshness" := Text(p.freshness)] +
           (if p.loginRequired then map["loginRequired" := Boolean(true)] else map[]) +
           (if p.plan != "" then map["plan" := Text(p.plan)] else map[]) +
           map["windows" := Object(map["fiveHour" := WriteWindow(p.fiveHour), "sevenDay" := WriteWindow(p.sevenDay)])])
  }

  function WriteTasks(t: TaskCount): Json {
    Object(map["main" := Integer(t.main), "sub" := Integer(t.sub)])
  }

  /** Warnings and unknown fields are not kept. */
  function SerializeCache(s: Snapshot): Option<Json> {
    if s.schemaVersion != 1 || s.generatedAt == "" then None
    else Some(Object(map[
      "schemaVersion" := Integer(1),
      "generatedAt" := Text(s.generatedAt),
      "providers" := Object(map["codex" := WriteProvider(s.codex), "claude" := WriteProvider(s.claude)]),
      "tasks" := Object(map["codex" := WriteTasks(s.codexTasks), "claude" := WriteTasks(s.claudeTasks),
                            "total" := WriteTasks(s.totalTasks)]),
      "agents" := Object(map["online" := Integer(s.agentsOnline), "total" := Integer(s.agentsTotal)]),
      "warnings" := Array([])]))
  }
}
