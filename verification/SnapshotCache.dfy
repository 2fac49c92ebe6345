/** Writing the cache and reading it back. */
module SnapshotCache {
  import opened Prelude
  import opened JsonTree
  import opened Rfc3339
  import opened SnapshotParser

  // --- What accepted values look like -------------------------------------------

  predicate NormalWindow(w: RateWindow) {
    if !w.present then w == NO_WINDOW
    else
      Percent(w.used) && Percent(w.remaining) && Abs(w.used + w.remaining - 100.0) <= 0.01 &&
      if w.hasReset then w.resetsAt != "" && EpochOf(w.resetsAt) == Some(w.resetsAtEpoch)
      else w.resetsAt == "" && w.resetsAtEpoch == 0 && Abs(w.used) <= 0.01 && Abs(w.remaining - 100.0) <= 0.01
  }

  predicate NormalProvider(p: Provider) {
    p.present && KnownFreshness(p.freshness) && Displayable(p.plan) &&
    NormalWindow(p.fiveHour) && NormalWindow(p.sevenDay) &&
    if p.observedAt == "" then p.observedAtEpoch == 0 && p.freshness == "unavailable"
    else EpochOf(p.observedAt) == Some(p.observedAtEpoch)
  }

  predicate NormalCount(t: TaskCount) {
    0 <= t.main < 0x8000_0000 && 0 <= t.sub < 0x8000_0000
  }

  predicate Normal(s: Snapshot) {
    s.schemaVersion == 1 && EpochOf(s.generatedAt) == Some(s.generatedAtEpoch) && s.generatedAt != "" &&
    NormalProvider(s.codex) && NormalProvider(s.claude) &&
    NormalCount(s.codexTasks) && NormalCount(s.claudeTasks) && NormalCount(s.totalTasks) &&
    s.totalTasks.main == s.codexTasks.main + s.claudeTasks.main &&
    s.totalTasks.sub == s.codexTasks.sub + s.claudeTasks.sub &&
    0 <= s.agentsOnline <= s.agentsTotal < 0x8000_0000 && |s.warnings| <= MAX_WARNINGS
  }

  lemma EmptyIsNoTimestamp()
    ensures EpochOf("").None?
  {
  }

  lemma ReadWindowIsNormal(v: Json)
    ensures ReadWindow(v).Some? ==> NormalWindow(ReadWindow(v).value)
  {
    hide EpochOf;
  }

  lemma ReadProviderIsNormal(v: Json)
    ensures ReadProvider(v).Some? ==> NormalProvider(ReadProvider(v).value)
  {
    hide EpochOf, ReadWindow, NormalWindow, Displayable, KnownFreshness;
    EmptyIsNoTimestamp();
    EmptyPlanIsDisplayable();
    if ReadProvider(v).Some? {
      var windows := v.fields["windows"].fields;
      ReadWindowIsNormal(windows["fiveHour"]);
      ReadWindowIsNormal(windows["sevenDay"]);
    }
  }

  lemma EmptyPlanIsDisplayable()
    ensures Displayable("")
  {
  }

  /** Every accepted snapshot is normal. */
  lemma ParsedIsNormal(v: Json)
    requires ParseTree(v).Some?
    ensures Normal(ParseTree(v).value)
  {
    hide EpochOf, ReadProvider, NormalProvider;
    EmptyIsNoTimestamp();
    var providers := ObjectOr(v.fields, "providers");
    ReadProviderIsNormal(providers["codex"]);
    ReadProviderIsNormal(providers["claude"]);
  }

  /** Of any number of warnings the first eight are kept, word for word. */
  lemma FirstEightWarnings(v: Json)
    requires ParseTree(v).Some?
    ensures v.Object? && "warnings" in v.fields && v.fields["warnings"].Array?
    ensures var items, kept := v.fields["warnings"].items, ParseTree(v).value.warnings;
            |kept| == (if |items| < 8 then |items| else 8) &&
            forall i :: 0 <= i < |kept| ==> items[i] == Text(kept[i])
  {
    hide PartsOf;
    assert AllTexts(v.fields["warnings"].items);
  }

  // --- Reading back ------------------------------------------------------------------

  lemma WrittenWindowReads(w: RateWindow)
    requires NormalWindow(w)
    ensures ReadWindow(WriteWindow(w)) == Some(w)
  {
    hide EpochOf;
  }

  lemma WrittenProviderReads(p: Provider)
    requires NormalProvider(p)
    ensures ReadProvider(WriteProvider(p)) == Some(p)
  {
    hide EpochOf, ReadWindow, WriteWindow, NormalWindow, Displayable, KnownFreshness;
    WrittenWindowReads(p.fiveHour);
    WrittenWindowReads(p.sevenDay);
    var o := WriteProvider(p).fields;
    assert o["freshness"] == Text(p.freshness);
    assert "observedAt" in o <==> p.observedAt != "";
    assert "loginRequired" in o <==> p.loginRequired;
    assert "plan" in o <==> p.plan != "";
    assert o["windows"] == Object(map["fiveHour" := WriteWindow(p.fiveHour), "sevenDay" := WriteWindow(p.sevenDay)]);
  }

  lemma WrittenTasksRead(t: TaskCount, tasks: Fields, key: string)
    requires NormalCount(t) && key in tasks && tasks[key] == WriteTasks(t)
    ensures ReadTasks(tasks, key) == Some(t)
  {
  }

  /** Re-reading the cache yields the same snapshot with its warnings emptied,
      including omitted optional fields and null resets. */
  lemma CacheRoundTrip(s: Snapshot)
    requires Normal(s)
    ensures SerializeCache(s).Some?
    ensures ParseTree(SerializeCache(s).value) == Some(s.(warnings := []))
  {
    hide EpochOf, ReadProvider, WriteProvider, NormalProvider, ReadTasks, WriteTasks;
    WrittenProviderReads(s.codex);
    WrittenProviderReads(s.claude);
    var root := SerializeCache(s).value.fields;
    assert root["warnings"] == Array([]);
    assert root["generatedAt"] == Text(s.generatedAt);
    assert root["schemaVersion"] == Integer(1);
    var providers, tasks, agents := ObjectOr(root, "providers"), ObjectOr(root, "tasks"), ObjectOr(root, "agents");
    assert providers["codex"] == WriteProvider(s.codex) && providers["claude"] == WriteProvider(s.claude);
    assert agents["online"] == Integer(s.agentsOnline) && agents["total"] == Integer(s.agentsTotal);
    WrittenTasksRead(s.codexTasks, tasks, "codex");
    WrittenTasksRead(s.claudeTasks, tasks, "claude");
    WrittenTasksRead(s.totalTasks, tasks, "total");
  }

  /** For every accepted tree: cache what was parsed, read it again. */
  lemma ParsedSurvivesCaching(v: Json)
    requires ParseTree(v).Some?
    ensures var s := ParseTree(v).value;
            SerializeCache(s).Some? && ParseTree(SerializeCache(s).value) == Some(s.(warnings := []))
  {
    ParsedIsNormal(v);
    hide ParseTree, SerializeCache, Normal;
    CacheRoundTrip(ParseTree(v).value);
  }
}
