/**
 The settings document shared by every process: a JSON object that is resolved into settings,
 changed one item at a time, and written back with everything it does not understand intact.
 */
module Settings {
  import opened Wrappers
  import opened Strings
  import opened MachineIntegers
  import Budget
  import opened SortedNames

  // ----- Documents -----

  /** A JSON value; numbers that are not unsigned 64-bit integers keep only their text. */
  datatype Json =
    | Null
    | Bool(flag: bool)
    | Unsigned(number: nat)
    | OtherNumber(numeral: string)
    | Text(text: string)
    | Array(items: seq<Json>)
    | Object(fields: map<string, Json>)

  type Fields = map<string, Json>

  const SCHEMA_VERSION: string := "schema_version"
  const DISABLED_TOOLS: string := "disabled_tools"
  const LOG_LEVEL: string := "log_level"
  const BUDGET_SCALE_PERCENT: string := "budget_scale_percent"
  const ARTIFACT: string := "artifact"
  const HANDOFF: string := "handoff"
  const RENDER: string := "render"
  const SESSION: string := "session"
  const AGENT_PLUGIN: string := "agent_plugin"

  const TTL_SECONDS: string := "ttl_seconds"
  const MAX_COUNT: string := "max_count"
  const MAX_TOTAL_BYTES: string := "max_total_bytes"
  const DRAIN_TIMEOUT_MS: string := "drain_timeout_ms"
  const STALE_AFTER_SECONDS: string := "stale_after_seconds"
  const GENERATE: string := "generate"
  const CLAUDE: string := "claude"
  const AGENT_PLUGINS: string := "agent_plugins"
  const SKILL: string := "skill"

  const SETTINGS_SCHEMA_VERSION: nat := 1

  /** The top-level keys are pairwise different: their lengths and first letters tell them apart. */
  lemma KeysDiffer()
    ensures |SCHEMA_VERSION| == 14 && SCHEMA_VERSION[0] == 's'
    ensures |DISABLED_TOOLS| == 14 && DISABLED_TOOLS[0] == 'd'
    ensures |LOG_LEVEL| == 9 && |BUDGET_SCALE_PERCENT| == 20 && |ARTIFACT| == 8 && |RENDER| == 6 && |AGENT_PLUGIN| == 12
    ensures |HANDOFF| == 7 && HANDOFF[0] == 'h' && |SESSION| == 7 && SESSION[0] == 's'
  {
  }

  /** The keys within a group are pairwise different: their lengths tell them apart. */
  lemma GroupKeysDiffer()
    ensures |TTL_SECONDS| == 11 && |MAX_COUNT| == 9 && |MAX_TOTAL_BYTES| == 15
    ensures |GENERATE| == 8 && |CLAUDE| == 6 && |AGENT_PLUGINS| == 13 && |SKILL| == 5
  {
  }

  lemma SameEntries(a: Fields, b: Fields)
    requires forall key :: Entry(a, key) == Entry(b, key)
    ensures a == b
  {
    forall key ensures key in a <==> key in b {
      assert Entry(a, key) == Entry(b, key);
    }
    forall key | key in a ensures a[key] == b[key] {
      assert Entry(a, key) == Entry(b, key);
    }
  }

  /** The entry of a group's field, `null` and a group that is no object counting as absent. */
  function Requested(fields: Fields, group: Option<string>, field: string): Option<Json> {
    var entry :=
      match group
      case None => Entry(fields, field)
      case Some(group) =>
        match Entry<string, Json>(fields, group)
        case Some(Object(entries)) => Entry(entries, field)
        case _ => None;
    if entry == Some(Null) then None else entry
  }

  // ----- Resolution -----

  datatype Range = Range(default: nat, min: nat, max: nat)

  function Clamp(n: nat, range: Range): nat {
    if n < range.min then range.min else if n > range.max then range.max else n
  }

  function Max(a: nat, b: nat): nat {
    if a < b then b else a
  }

  const PERCENT_RANGE := Range(100, 10, 400)
  const ARTIFACT_TTL_RANGE := Range(600, 60, 3600)
  const ARTIFACT_COUNT_RANGE := Range(16, 1, 64)
  const ARTIFACT_BYTES_RANGE := Range(128 * 1024 * 1024, 32 * 1024 * 1024, 1024 * 1024 * 1024)
  const DRAIN_RANGE := Range(3000, 0, 30000)
  const STALE_RANGE := Range(3600, 600, 86400)

  /** The handoff range rests on the scaled render budget, cut to whole seconds. */
  function HandoffRange(budgets: Budget.ScaledBudgets): Range {
    var floor := Max(30, budgets.budgets.serverRenderRequest / 1000);
    Range(Max(120, floor), floor, Max(1800, floor))
  }

  function Number(value: Option<Json>, range: Range): nat {
    if value.Some? && value.value.Unsigned? then Clamp(value.value.number, range) else range.default
  }

  function Flag(value: Option<Json>, default: bool): bool {
    if value.Some? && value.value.Bool? then value.value.flag else default
  }

  function LogLevel(value: Option<Json>): Option<string> {
    if value.Some? && value.value.Text? && Trim(value.value.text) != "" then Some(value.value.text) else None
  }

  function TextsOf(items: seq<Json>): set<string> {
    set i | 0 <= i < |items| && items[i].Text? :: items[i].text
  }

  /** The names the document lists, known or not; entries that are not strings do not count. */
  function DisabledTools(value: Option<Json>): set<string> {
    if value.Some? && value.value.Array? then TextsOf(value.value.items) else {}
  }

  datatype AgentPlugin = AgentPlugin(generate: bool, claude: bool, agentPlugins: bool, skill: bool)

  /** Resolved settings; times are in seconds except the drain timeout, which is in milliseconds. */
  datatype Settings = Settings(
    logLevel: Option<string>,
    budgets: Budget.ScaledBudgets,
    disabledTools: set<string>,
    artifactTtl: nat,
    artifactMaxCount: nat,
    artifactMaxTotalBytes: nat,
    handoffTtl: nat,
    renderDrainTimeoutMs: nat,
    sessionStaleAfter: nat,
    agentPlugin: AgentPlugin
  )

  const DEFAULT_BUDGETS := Budget.Build(Budget.SHIPPED, 100)

  const DEFAULT := Settings(None, DEFAULT_BUDGETS, {}, 600, 16, 128 * 1024 * 1024, 120, 3000, 3600,
                            AgentPlugin(false, true, true, true))

  function Percent(fields: Fields): nat {
    Number(Requested(fields, None, BUDGET_SCALE_PERCENT), PERCENT_RANGE)
  }

  function ResolveBudgets(percent: nat, previous: Settings): Budget.ScaledBudgets {
    match Budget.Checked(Budget.SHIPPED, percent)
    case Ok(budgets) => budgets
    case Err(_) => previous.budgets
  }

  function Resolve(fields: Fields, previous: Settings): Settings {
    var budgets := ResolveBudgets(Percent(fields), previous);
    Settings(
      LogLevel(Entry(fields, LOG_LEVEL)),
      budgets,
      DisabledTools(Entry(fields, DISABLED_TOOLS)),
      Number(Requested(fields, Some(ARTIFACT), TTL_SECONDS), ARTIFACT_TTL_RANGE),
      Number(Requested(fields, Some(ARTIFACT), MAX_COUNT), ARTIFACT_COUNT_RANGE),
      Number(Requested(fields, Some(ARTIFACT), MAX_TOTAL_BYTES), ARTIFACT_BYTES_RANGE),
      Number(Requested(fields, Some(HANDOFF), TTL_SECONDS), HandoffRange(budgets)),
      Number(Requested(fields, Some(RENDER), DRAIN_TIMEOUT_MS), DRAIN_RANGE),
      Number(Requested(fields, Some(SESSION), STALE_AFTER_SECONDS), STALE_RANGE),
      ResolveAgentPlugin(fields))
  }

  function ResolveAgentPlugin(fields: Fields): AgentPlugin {
    AgentPlugin(
      Flag(Requested(fields, Some(AGENT_PLUGIN), GENERATE), false),
      Flag(Requested(fields, Some(AGENT_PLUGIN), CLAUDE), true),
      Flag(Requested(fields, Some(AGENT_PLUGIN), AGENT_PLUGINS), true),
      Flag(Requested(fields, Some(AGENT_PLUGIN), SKILL), true))
  }

  /** The clamped percentage never breaks an inequality, so the previous settings are never consulted. */
  lemma ResolveIgnoresPrevious(fields: Fields, a: Settings, b: Settings)
    ensures Resolve(fields, a) == Resolve(fields, b)
    ensures Resolve(fields, a).budgets == Budget.Build(Budget.SHIPPED, Percent(fields))
    ensures 10 <= Percent(fields) <= 400
  {
    hide Budget.Checked, Budget.Build;
    Budget.ShippedIsAccepted(Percent(fields));
  }

  /** Every document, however broken, resolves inside the documented ranges. */
  lemma ResolvedInRange(fields: Fields, previous: Settings)
    ensures var s := Resolve(fields, previous);
      && 10 <= s.budgets.percent <= 400
      && 60 <= s.artifactTtl <= 3600 && 1 <= s.artifactMaxCount <= 64
      && 32 * 1024 * 1024 <= s.artifactMaxTotalBytes <= 1024 * 1024 * 1024
      && 30 <= s.handoffTtl <= 1800 && s.renderDrainTimeoutMs <= 30000 && 600 <= s.sessionStaleAfter <= 86400
  {
    hide Requested, Flag, LogLevel, DisabledTools, Budget.Checked;
    ResolveIgnoresPrevious(fields, previous, previous);
    RenderBudget(Percent(fields));
  }

  /** A document that names no item resolves to the settings of a missing file. */
  lemma EmptyIsDefault(fields: Fields, previous: Settings)
    requires forall key :: key in KNOWN_KEYS ==> key !in fields
    ensures Resolve(fields, previous) == DEFAULT
  {
    hide Budget.Build, Budget.Checked, Trim;
    ResolveIgnoresPrevious(fields, previous, previous);
    RenderBudget(100);
    assert Percent(fields) == 100;
    assert DisabledTools(None) == {};
  }

  // ----- Item by item -----

  /** A field of a group, as the document holds it. */
  function At(fields: Fields, group: string, field: string): Option<Json> {
    if group in fields && fields[group].Object? && field in fields[group].fields then
      Some(fields[group].fields[field])
    else None
  }

  /** A number in its range is taken as written, one outside is moved to the bound, and anything else is the default. */
  predicate TakesNumber(written: Option<Json>, default: nat, min: nat, max: nat, resolved: nat) {
    match written
    case Some(Unsigned(n)) =>
      (min <= n <= max ==> resolved == n) && (n < min ==> resolved == min) && (n > max ==> resolved == max)
    case _ => resolved == default
  }

  predicate TakesFlag(written: Option<Json>, default: bool, resolved: bool) {
    match written
    case Some(Bool(flag)) => resolved == flag
    case _ => resolved == default
  }

  lemma NumberIsTaken(fields: Fields, group: Option<string>, field: string, range: Range)
    requires range.min <= range.max
    ensures var written := if group.Some? then At(fields, group.value, field) else Entry(fields, field);
      TakesNumber(written, range.default, range.min, range.max, Number(Requested(fields, group, field), range))
  {
  }

  lemma FlagIsTaken(fields: Fields, field: string, default: bool)
    ensures var requested := Requested(fields, Some(AGENT_PLUGIN), field);
      TakesFlag(At(fields, AGENT_PLUGIN, field), default, Flag(requested, default))
  {
  }

  /** Every numeric item under its own name, with its own default and bounds. */
  lemma NumbersResolved(fields: Fields, previous: Settings)
    ensures var s := Resolve(fields, previous);
      var floor := if s.budgets.percent > 100 then 300 * s.budgets.percent / 1000 else 30;
      && TakesNumber(Entry(fields, "budget_scale_percent"), 100, 10, 400, s.budgets.percent)
      && TakesNumber(At(fields, "artifact", "ttl_seconds"), 600, 60, 3600, s.artifactTtl)
      && TakesNumber(At(fields, "artifact", "max_count"), 16, 1, 64, s.artifactMaxCount)
      && TakesNumber(At(fields, "artifact", "max_total_bytes"), 134217728, 33554432, 1073741824,
                     s.artifactMaxTotalBytes)
      && TakesNumber(At(fields, "handoff", "ttl_seconds"), 120, floor, 1800, s.handoffTtl)
      && TakesNumber(At(fields, "render", "drain_timeout_ms"), 3000, 0, 30000, s.renderDrainTimeoutMs)
      && TakesNumber(At(fields, "session", "stale_after_seconds"), 3600, 600, 86400, s.sessionStaleAfter)
  {
    hide Budget.Build, Budget.Checked, Requested, Number, Flag, LogLevel, DisabledTools, TakesNumber;
    ResolveIgnoresPrevious(fields, previous, previous);
    BuildKeepsPercent(Percent(fields));
    RenderBudget(Percent(fields));
    NumberIsTaken(fields, None, BUDGET_SCALE_PERCENT, PERCENT_RANGE);
    NumberIsTaken(fields, Some(ARTIFACT), TTL_SECONDS, ARTIFACT_TTL_RANGE);
    NumberIsTaken(fields, Some(ARTIFACT), MAX_COUNT, ARTIFACT_COUNT_RANGE);
    NumberIsTaken(fields, Some(ARTIFACT), MAX_TOTAL_BYTES, ARTIFACT_BYTES_RANGE);
    NumberIsTaken(fields, Some(HANDOFF), TTL_SECONDS, HandoffRange(Resolve(fields, previous).budgets));
    NumberIsTaken(fields, Some(RENDER), DRAIN_TIMEOUT_MS, DRAIN_RANGE);
    NumberIsTaken(fields, Some(SESSION), STALE_AFTER_SECONDS, STALE_RANGE);
    hide At, Percent;
  }

  /** Every other item under its own name. */
  lemma OthersResolved(fields: Fields, previous: Settings)
    ensures var s := Resolve(fields, previous);
      && TakesFlag(At(fields, "agent_plugin", "generate"), false, s.agentPlugin.generate)
      && TakesFlag(At(fields, "agent_plugin", "claude"), true, s.agentPlugin.claude)
      && TakesFlag(At(fields, "agent_plugin", "agent_plugins"), true, s.agentPlugin.agentPlugins)
      && TakesFlag(At(fields, "agent_plugin", "skill"), true, s.agentPlugin.skill)
      && (forall level :: s.logLevel == Some(level) <==>
            Entry(fields, "log_level") == Some(Text(level)) && !Blank(level))
      && (forall name :: name in s.disabledTools <==> ListsTool(fields, name))
  {
    hide Budget.Build, Budget.Checked, Requested, Number, Flag, TakesFlag, Trim;
    FlagIsTaken(fields, GENERATE, false);
    FlagIsTaken(fields, CLAUDE, true);
    FlagIsTaken(fields, AGENT_PLUGINS, true);
    FlagIsTaken(fields, SKILL, true);
    forall level ensures Trim(level) == "" <==> Blank(level) {
      TrimmedAway(level);
    }
    hide At;
  }

  lemma TrimmedAway(s: string)
    ensures Trim(s) == "" <==> Blank(s)
  {
    var before, after := TrimParts(s);
    if Trim(s) == "" {
      assert s == before + after;
    } else {
      assert s[|before|] == Trim(s)[0];
    }
    hide Trim;
  }

  ghost predicate ListsTool(fields: Fields, name: string) {
    "disabled_tools" in fields && fields["disabled_tools"].Array? && Text(name) in fields["disabled_tools"].items
  }

  lemma RequestedDependsOnEntry(a: Fields, b: Fields, group: Option<string>, field: string)
    requires var key := if group.Some? then group.value else field; Entry(a, key) == Entry(b, key)
    ensures Requested(a, group, field) == Requested(b, group, field)
  {
  }

  /** Adding the schema version, as writing the document out does, changes nothing that is resolved. */
  lemma ResolveIgnoresSchemaVersion(fields: Fields, version: Json, previous: Settings)
    ensures Resolve(fields[SCHEMA_VERSION := version], previous) == Resolve(fields, previous)
  {
    hide Number, Flag, LogLevel, DisabledTools, ResolveBudgets, HandoffRange, Requested;
    KeysDiffer();
    var written := fields[SCHEMA_VERSION := version];
    forall group: Option<string>, field
      ensures (if group.Some? then group.value else field) != SCHEMA_VERSION ==>
        Requested(written, group, field) == Requested(fields, group, field)
    {
      if (if group.Some? then group.value else field) != SCHEMA_VERSION {
        RequestedDependsOnEntry(written, fields, group, field);
      }
    }
  }

  // ----- The handoff floor -----

  /** Scaled render budget, in milliseconds. */
  lemma RenderBudget(percent: nat)
    requires percent < U32_LIMIT
    ensures Budget.Build(Budget.SHIPPED, percent).budgets.serverRenderRequest == 300 * percent
  {
  }

  lemma CutToSeconds(percent: nat)
    ensures var floor := Max(30, 300 * percent / 1000);
      && (floor * 1000 >= 300 * percent <==> percent <= 100 || percent % 10 == 0)
      && (floor + 1) * 1000 > 300 * percent
  {
  }

  /**
   The document names a handoff time of its own, no longer than the whole seconds of a render budget
   that has a fraction of a second besides.
   */
  predicate HandoffCutShort(fields: Fields) {
    var requested := Requested(fields, Some(HANDOFF), TTL_SECONDS);
    && Percent(fields) > 100 && Percent(fields) % 10 != 0
    && requested.Some? && requested.value.Unsigned? && requested.value.number <= 300 * Percent(fields) / 1000
  }

  /**
   A handoff file is meant to outlive the render budget. Cutting the floor to whole seconds can leave
   it short, by less than a second, and does so for exactly the documents that name a time under the
   cut. A document that leaves the time to its default is never short.
   */
  lemma HandoffOutlivesRender(fields: Fields, previous: Settings)
    ensures var s := Resolve(fields, previous);
      && (s.handoffTtl * 1000 >= s.budgets.budgets.serverRenderRequest <==> !HandoffCutShort(fields))
      && s.handoffTtl * 1000 + 999 >= s.budgets.budgets.serverRenderRequest
  {
    hide Budget.Build, Budget.Checked, Flag, LogLevel, DisabledTools, Requested;
    ResolveIgnoresPrevious(fields, previous, previous);
    RenderBudget(Percent(fields));
    CutToSeconds(Percent(fields));
    hide Percent;
  }

  /** A document whose handoff files may be removed while a render is still within its budget. */
  lemma HandoffFallsShort() returns (fields: Fields)
    ensures var s := Resolve(fields, DEFAULT); s.handoffTtl * 1000 < s.budgets.budgets.serverRenderRequest
  {
    var handoff: map<string, Json> := map[TTL_SECONDS := Unsigned(30)];
    fields := map[BUDGET_SCALE_PERCENT := Unsigned(101), HANDOFF := Object(handoff)];
    KeysDiffer();
    assert Requested(fields, None, BUDGET_SCALE_PERCENT) == Some(Unsigned(101));
    assert Requested(fields, Some(HANDOFF), TTL_SECONDS) == Some(Unsigned(30));
    hide Budget.Build, Budget.Checked, Flag, LogLevel, DisabledTools, Requested;
    assert Percent(fields) == 101;
    ResolveIgnoresPrevious(fields, DEFAULT, DEFAULT);
    RenderBudget(101);
  }

  // ----- Changes -----

  datatype SettingsChange = SettingsChange(
    tools: map<string, bool>,
    logLevel: Option<string>,
    budgetScalePercent: Option<nat>,
    artifactTtlSeconds: Option<nat>,
    artifactMaxCount: Option<nat>,
    artifactMaxTotalBytes: Option<nat>,
    handoffTtlSeconds: Option<nat>,
    renderDrainTimeoutMs: Option<nat>,
    sessionStaleAfterSeconds: Option<nat>,
    agentPluginGenerate: Option<bool>,
    agentPluginClaude: Option<bool>,
    agentPluginAgentPlugins: Option<bool>,
    agentPluginSkill: Option<bool>
  )

  function AsNumber(n: Option<nat>): Option<Json> {
    if n.Some? then Some(Unsigned(n.value)) else None
  }

  function AsFlag(b: Option<bool>): Option<Json> {
    if b.Some? then Some(Bool(b.value)) else None
  }

  function AsText(s: Option<string>): Option<Json> {
    if s.Some? then Some(Text(s.value)) else None
  }

  function Singleton(field: string, value: Option<Json>): map<string, Json> {
    if value.Some? then map[field := value.value] else map[]
  }

  /** The fields a change writes into the group `key`. */
  function GroupUpdates(change: SettingsChange, key: string): map<string, Json> {
    if key == ARTIFACT then
      Singleton(TTL_SECONDS, AsNumber(change.artifactTtlSeconds))
      + Singleton(MAX_COUNT, AsNumber(change.artifactMaxCount))
      + Singleton(MAX_TOTAL_BYTES, AsNumber(change.artifactMaxTotalBytes))
    else if key == HANDOFF then Singleton(TTL_SECONDS, AsNumber(change.handoffTtlSeconds))
    else if key == RENDER then Singleton(DRAIN_TIMEOUT_MS, AsNumber(change.renderDrainTimeoutMs))
    else if key == SESSION then Singleton(STALE_AFTER_SECONDS, AsNumber(change.sessionStaleAfterSeconds))
    else if key == AGENT_PLUGIN then
      Singleton(GENERATE, AsFlag(change.agentPluginGenerate))
      + Singleton(CLAUDE, AsFlag(change.agentPluginClaude))
      + Singleton(AGENT_PLUGINS, AsFlag(change.agentPluginAgentPlugins))
      + Singleton(SKILL, AsFlag(change.agentPluginSkill))
    else map[]
  }

  function GroupObject(before: Option<Json>): map<string, Json> {
    if before.Some? && before.value.Object? then before.value.fields else map[]
  }

  /** A group with fields written into it; a group that is no object starts over. */
  function GroupEntry(before: Option<Json>, updates: map<string, Json>): Option<Json> {
    if updates == map[] then before else Some(Object(GroupObject(before) + updates))
  }

  function UpdatedTools(disabled: set<string>, tools: map<string, bool>): set<string> {
    set name | name in disabled + tools.Keys && (name in tools ==> !tools[name])
  }

  function NamesArray(names: set<string>): Json {
    var sorted := Sorted(names);
    Array(seq(|sorted|, i requires 0 <= i < |sorted| => Text(sorted[i])))
  }

  function ToolsEntry(before: Option<Json>, tools: map<string, bool>): Option<Json> {
    if tools == map[] then before else Some(NamesArray(UpdatedTools(DisabledTools(before), tools)))
  }

  function Or<T>(after: Option<T>, before: Option<T>): Option<T> {
    if after.Some? then after else before
  }

  /** What a change makes of one top-level entry. Every entry is decided by itself alone. */
  function NewEntry(before: Option<Json>, change: SettingsChange, key: string): Option<Json> {
    if key == DISABLED_TOOLS then ToolsEntry(before, change.tools)
    else if key == LOG_LEVEL then Or(AsText(change.logLevel), before)
    else if key == BUDGET_SCALE_PERCENT then Or(AsNumber(change.budgetScalePercent), before)
    else GroupEntry(before, GroupUpdates(change, key))
  }

  const UNGROUPED_KEYS: set<string> := {DISABLED_TOOLS, LOG_LEVEL, BUDGET_SCALE_PERCENT}

  const KNOWN_KEYS: set<string> :=
    {DISABLED_TOOLS, LOG_LEVEL, BUDGET_SCALE_PERCENT, ARTIFACT, HANDOFF, RENDER, SESSION, AGENT_PLUGIN}

  function Applied(fields: Fields, change: SettingsChange): Fields {
    map key | key in fields.Keys + KNOWN_KEYS && NewEntry(Entry(fields, key), change, key).Some?
      :: NewEntry(Entry(fields, key), change, key).value
  }

  lemma AppliedEntry(fields: Fields, change: SettingsChange, key: string)
    ensures Entry(Applied(fields, change), key) == NewEntry(Entry(fields, key), change, key)
  {
    hide ToolsEntry, GroupEntry, AsText, AsNumber;
    if key !in KNOWN_KEYS {
      UnknownKeyUntouched(Entry(fields, key), change, key);
    }
  }

  lemma UnknownKeyUntouched(before: Option<Json>, change: SettingsChange, key: string)
    requires key !in KNOWN_KEYS
    ensures NewEntry(before, change, key) == before
  {
  }

  function WithGroup(fields: Fields, group: string, updates: map<string, Json>): Fields {
    if updates == map[] then fields else fields[group := Object(GroupObject(Entry(fields, group)) + updates)]
  }

  /** The loop over the switched tools; the order of the names does not matter. */
  method SwitchTools(raw: set<string>, tools: map<string, bool>) returns (disabled: set<string>)
    ensures disabled == UpdatedTools(raw, tools)
  {
    disabled := raw;
    var ahead := tools.Keys;
    while ahead != {}
      invariant ahead <= tools.Keys
      invariant forall name :: name in disabled <==>
        if name in tools && name !in ahead then !tools[name] else name in raw
      decreases |ahead|
    {
      var name :| name in ahead;
      if tools[name] {
        disabled := disabled - {name};
      } else {
        disabled := disabled + {name};
      }
      ahead := ahead - {name};
    }
  }

  class SettingsDocument {
    var fields: Fields

    constructor (fields: Fields)
      ensures this.fields == fields
    {
      this.fields := fields;
    }

    /** Writes one field of a group, making the group an object if it is not one. */
    method SetGroupValue(group: string, field: string, value: Option<Json>)
      modifies this
      ensures fields == WithGroup(old(fields), group, Singleton(field, value))
    {
      if value.None? {
        return;
      }
      var entry := if group in fields then fields[group] else Object(map[]);
      if !entry.Object? {
        entry := Object(map[]);
      }
      fields := fields[group := Object(entry.fields[field := value.value])];
      assert field in Singleton(field, value);
      assert GroupObject(Entry(old(fields), group)) + map[field := value.value] == entry.fields[field := value.value];
    }

    method ApplyTools(tools: map<string, bool>)
      modifies this
      ensures forall key ::
        Entry(fields, key) ==
          if key == DISABLED_TOOLS then ToolsEntry(Entry(old(fields), key), tools) else Entry(old(fields), key)
    {
      if tools == map[] {
        return;
      }
      var disabled := SwitchTools(DisabledTools(Entry(fields, DISABLED_TOOLS)), tools);
      fields := fields[DISABLED_TOOLS := NamesArray(disabled)];
    }

    /** Lays a change over the document. */
    method Apply(change: SettingsChange)
      modifies this
      ensures fields == Applied(old(fields), change)
    {
      ghost var before := fields;
      ApplyTools(change.tools);
      if change.logLevel.Some? {
        fields := fields[LOG_LEVEL := Text(change.logLevel.value)];
      }
      if change.budgetScalePercent.Some? {
        fields := fields[BUDGET_SCALE_PERCENT := Unsigned(change.budgetScalePercent.value)];
      }
      ghost var ungrouped := fields;
      forall key ensures Entry(ungrouped, key)
        == if key in UNGROUPED_KEYS then NewEntry(Entry(before, key), change, key) else Entry(before, key)
      {
        KeysDiffer();
      }
      ApplyGroups(change);
      GroupsApplied(before, ungrouped, fields, change);
    }

    method ApplyGroups(change: SettingsChange)
      modifies this
      ensures fields == GroupsOf(old(fields), change)
    {
      ghost var f := fields;
      SetGroupValue(ARTIFACT, TTL_SECONDS, AsNumber(change.artifactTtlSeconds));
      SetGroupValue(ARTIFACT, MAX_COUNT, AsNumber(change.artifactMaxCount));
      SetGroupValue(ARTIFACT, MAX_TOTAL_BYTES, AsNumber(change.artifactMaxTotalBytes));
      SetGroupValue(HANDOFF, TTL_SECONDS, AsNumber(change.handoffTtlSeconds));
      SetGroupValue(RENDER, DRAIN_TIMEOUT_MS, AsNumber(change.renderDrainTimeoutMs));
      SetGroupValue(SESSION, STALE_AFTER_SECONDS, AsNumber(change.sessionStaleAfterSeconds));
      SetGroupValue(AGENT_PLUGIN, GENERATE, AsFlag(change.agentPluginGenerate));
      SetGroupValue(AGENT_PLUGIN, CLAUDE, AsFlag(change.agentPluginClaude));
      SetGroupValue(AGENT_PLUGIN, AGENT_PLUGINS, AsFlag(change.agentPluginAgentPlugins));
      SetGroupValue(AGENT_PLUGIN, SKILL, AsFlag(change.agentPluginSkill));
    }
  }

  /** The groups written one field at a time. */
  function GroupsOf(fields: Fields, change: SettingsChange): Fields {
    var artifact := ArtifactOf(fields, change);
    var handoff := WithGroup(artifact, HANDOFF, Singleton(TTL_SECONDS, AsNumber(change.handoffTtlSeconds)));
    var render := WithGroup(handoff, RENDER, Singleton(DRAIN_TIMEOUT_MS, AsNumber(change.renderDrainTimeoutMs)));
    var stale := Singleton(STALE_AFTER_SECONDS, AsNumber(change.sessionStaleAfterSeconds));
    var session := WithGroup(render, SESSION, stale);
    AgentPluginOf(session, change)
  }

  function ArtifactOf(fields: Fields, change: SettingsChange): Fields {
    var ttl := WithGroup(fields, ARTIFACT, Singleton(TTL_SECONDS, AsNumber(change.artifactTtlSeconds)));
    var count := WithGroup(ttl, ARTIFACT, Singleton(MAX_COUNT, AsNumber(change.artifactMaxCount)));
    WithGroup(count, ARTIFACT, Singleton(MAX_TOTAL_BYTES, AsNumber(change.artifactMaxTotalBytes)))
  }

  function AgentPluginOf(fields: Fields, change: SettingsChange): Fields {
    var generate := WithGroup(fields, AGENT_PLUGIN, Singleton(GENERATE, AsFlag(change.agentPluginGenerate)));
    var claude := WithGroup(generate, AGENT_PLUGIN, Singleton(CLAUDE, AsFlag(change.agentPluginClaude)));
    var plugins := WithGroup(claude, AGENT_PLUGIN, Singleton(AGENT_PLUGINS, AsFlag(change.agentPluginAgentPlugins)));
    WithGroup(plugins, AGENT_PLUGIN, Singleton(SKILL, AsFlag(change.agentPluginSkill)))
  }

  lemma WithGroupEntry(fields: Fields, group: string, updates: map<string, Json>, key: string)
    ensures Entry(WithGroup(fields, group, updates), key)
         == if key == group then GroupEntry(Entry(fields, key), updates) else Entry(fields, key)
  {
  }

  lemma GroupEntryTwice(before: Option<Json>, a: map<string, Json>, b: map<string, Json>)
    ensures GroupEntry(GroupEntry(before, a), b) == GroupEntry(before, a + b)
  {
    assert map[] + b == b && a + map[] == a;
    assert GroupObject(before) + a + b == GroupObject(before) + (a + b);
    if a + b == map[] {
      assert a == map[] && b == map[] by {
        assert forall key :: key in a || key in b ==> key in a + b;
      }
    }
  }

  lemma ArtifactEntry(fields: Fields, change: SettingsChange, key: string)
    ensures Entry(ArtifactOf(fields, change), key)
         == if key == ARTIFACT then GroupEntry(Entry(fields, key), GroupUpdates(change, ARTIFACT))
            else Entry(fields, key)
  {
    hide GroupEntry, Singleton;
    var ttl := Singleton(TTL_SECONDS, AsNumber(change.artifactTtlSeconds));
    var count := Singleton(MAX_COUNT, AsNumber(change.artifactMaxCount));
    var bytes := Singleton(MAX_TOTAL_BYTES, AsNumber(change.artifactMaxTotalBytes));
    WithGroupEntry(fields, ARTIFACT, ttl, key);
    WithGroupEntry(WithGroup(fields, ARTIFACT, ttl), ARTIFACT, count, key);
    WithGroupEntry(WithGroup(WithGroup(fields, ARTIFACT, ttl), ARTIFACT, count), ARTIFACT, bytes, key);
    GroupEntryTwice(Entry(fields, key), ttl, count);
    GroupEntryTwice(Entry(fields, key), ttl + count, bytes);
    hide WithGroup;
  }

  lemma AgentPluginEntry(fields: Fields, change: SettingsChange, key: string)
    ensures Entry(AgentPluginOf(fields, change), key)
         == if key == AGENT_PLUGIN then GroupEntry(Entry(fields, key), GroupUpdates(change, AGENT_PLUGIN))
            else Entry(fields, key)
  {
    hide GroupEntry, Singleton, WithGroup;
    KeysDiffer();
    var generate := Singleton(GENERATE, AsFlag(change.agentPluginGenerate));
    var claude := Singleton(CLAUDE, AsFlag(change.agentPluginClaude));
    var plugins := Singleton(AGENT_PLUGINS, AsFlag(change.agentPluginAgentPlugins));
    var skill := Singleton(SKILL, AsFlag(change.agentPluginSkill));
    var withGenerate := WithGroup(fields, AGENT_PLUGIN, generate);
    var withClaude := WithGroup(withGenerate, AGENT_PLUGIN, claude);
    WithGroupEntry(fields, AGENT_PLUGIN, generate, key);
    WithGroupEntry(withGenerate, AGENT_PLUGIN, claude, key);
    WithGroupEntry(withClaude, AGENT_PLUGIN, plugins, key);
    WithGroupEntry(WithGroup(withClaude, AGENT_PLUGIN, plugins), AGENT_PLUGIN, skill, key);
    GroupEntryTwice(Entry(fields, key), generate, claude);
    GroupEntryTwice(Entry(fields, key), generate + claude, plugins);
    GroupEntryTwice(Entry(fields, key), generate + claude + plugins, skill);
  }

  lemma GroupsEntry(fields: Fields, change: SettingsChange, key: string)
    ensures Entry(GroupsOf(fields, change), key) == GroupEntry(Entry(fields, key), GroupUpdates(change, key))
  {
    hide GroupEntry, Singleton, WithGroup, ArtifactOf, AgentPluginOf;
    var handoff := Singleton(TTL_SECONDS, AsNumber(change.handoffTtlSeconds));
    var render := Singleton(DRAIN_TIMEOUT_MS, AsNumber(change.renderDrainTimeoutMs));
    var session := Singleton(STALE_AFTER_SECONDS, AsNumber(change.sessionStaleAfterSeconds));
    var withArtifact := ArtifactOf(fields, change);
    var withHandoff := WithGroup(withArtifact, HANDOFF, handoff);
    var withRender := WithGroup(withHandoff, RENDER, render);
    ArtifactEntry(fields, change, key);
    WithGroupEntry(withArtifact, HANDOFF, handoff, key);
    WithGroupEntry(withHandoff, RENDER, render, key);
    WithGroupEntry(withRender, SESSION, session, key);
    AgentPluginEntry(WithGroup(withRender, SESSION, session), change, key);
    KeysDiffer();
    NoUpdates(Entry(fields, key));
  }

  lemma NoUpdates(before: Option<Json>)
    ensures GroupEntry(before, map[]) == before
  {
  }

  lemma GroupsApplied(before: Fields, ungrouped: Fields, after: Fields, change: SettingsChange)
    requires forall key ::
      Entry(ungrouped, key) ==
        if key in UNGROUPED_KEYS then NewEntry(Entry(before, key), change, key) else Entry(before, key)
    requires after == GroupsOf(ungrouped, change)
    ensures after == Applied(before, change)
  {
    hide GroupEntry, GroupsOf, Applied;
    forall key ensures Entry(after, key) == Entry(Applied(before, change), key) {
      GroupsEntry(ungrouped, change, key);
      AppliedEntry(before, change, key);
      KeysDiffer();
      NoUpdates(Entry(ungrouped, key));
      if key in UNGROUPED_KEYS {
        assert GroupUpdates(change, key) == map[];
      }
    }
    SameEntries(after, Applied(before, change));
  }

  // ----- The algebra of changes -----

  /** Both changes as one, the second deciding wherever both speak. */
  function Merge(first: SettingsChange, second: SettingsChange): SettingsChange {
    SettingsChange(
      first.tools + second.tools,
      Or(second.logLevel, first.logLevel),
      Or(second.budgetScalePercent, first.budgetScalePercent),
      Or(second.artifactTtlSeconds, first.artifactTtlSeconds),
      Or(second.artifactMaxCount, first.artifactMaxCount),
      Or(second.artifactMaxTotalBytes, first.artifactMaxTotalBytes),
      Or(second.handoffTtlSeconds, first.handoffTtlSeconds),
      Or(second.renderDrainTimeoutMs, first.renderDrainTimeoutMs),
      Or(second.sessionStaleAfterSeconds, first.sessionStaleAfterSeconds),
      Or(second.agentPluginGenerate, first.agentPluginGenerate),
      Or(second.agentPluginClaude, first.agentPluginClaude),
      Or(second.agentPluginAgentPlugins, first.agentPluginAgentPlugins),
      Or(second.agentPluginSkill, first.agentPluginSkill))
  }

  lemma NamesArrayRoundTrip(names: set<string>)
    ensures DisabledTools(Some(NamesArray(names))) == names
  {
    var sorted := Sorted(names);
    var items := NamesArray(names).items;
    forall name ensures name in TextsOf(items) <==> name in names {
      if name in names {
        var i :| 0 <= i < |sorted| && sorted[i] == name;
        assert items[i] == Text(name);
      }
    }
  }

  lemma ToolsEntryTwice(before: Option<Json>, a: map<string, bool>, b: map<string, bool>)
    ensures ToolsEntry(ToolsEntry(before, a), b) == ToolsEntry(before, a + b)
  {
    hide NamesArray;
    var raw := DisabledTools(before);
    NamesArrayRoundTrip(UpdatedTools(raw, a));
    assert UpdatedTools(UpdatedTools(raw, a), b) == UpdatedTools(raw, a + b);
    assert map[] + b == b && a + map[] == a;
    if a + b == map[] {
      assert forall name :: name in a || name in b ==> name in a + b;
      assert a == map[] && b == map[];
    }
  }

  lemma SingletonOr(field: string, a: Option<Json>, b: Option<Json>)
    ensures Singleton(field, a) + Singleton(field, b) == Singleton(field, Or(b, a))
  {
  }

  /** Sums of maps over separate keys can be added part by part. */
  lemma SumOfTwo<V>(a1: map<string, V>, b1: map<string, V>, a2: map<string, V>, b2: map<string, V>)
    requires a2.Keys !! b1.Keys
    ensures (a1 + b1) + (a2 + b2) == (a1 + a2) + (b1 + b2)
  {
  }

  lemma SingletonKeys(field: string, value: Option<Json>)
    ensures Singleton(field, value).Keys <= {field}
  {
  }

  lemma ArtifactUpdatesMerge(first: SettingsChange, second: SettingsChange)
    ensures GroupUpdates(first, ARTIFACT) + GroupUpdates(second, ARTIFACT)
         == GroupUpdates(Merge(first, second), ARTIFACT)
  {
    hide Singleton;
    GroupKeysDiffer();
    var a1, b1 := AsNumber(first.artifactTtlSeconds), AsNumber(first.artifactMaxCount);
    var c1 := AsNumber(first.artifactMaxTotalBytes);
    var a2, b2 := AsNumber(second.artifactTtlSeconds), AsNumber(second.artifactMaxCount);
    var c2 := AsNumber(second.artifactMaxTotalBytes);
    SingletonKeys(MAX_COUNT, b1);
    SingletonKeys(MAX_TOTAL_BYTES, c1);
    SingletonKeys(TTL_SECONDS, a2);
    SingletonKeys(MAX_COUNT, b2);
    SumOfTwo(Singleton(TTL_SECONDS, a1), Singleton(MAX_COUNT, b1),
             Singleton(TTL_SECONDS, a2), Singleton(MAX_COUNT, b2));
    SumOfTwo(Singleton(TTL_SECONDS, a1) + Singleton(MAX_COUNT, b1), Singleton(MAX_TOTAL_BYTES, c1),
             Singleton(TTL_SECONDS, a2) + Singleton(MAX_COUNT, b2), Singleton(MAX_TOTAL_BYTES, c2));
    SingletonOr(TTL_SECONDS, a1, a2);
    SingletonOr(MAX_COUNT, b1, b2);
    SingletonOr(MAX_TOTAL_BYTES, c1, c2);
  }

  lemma AgentPluginUpdatesMerge(first: SettingsChange, second: SettingsChange)
    ensures GroupUpdates(first, AGENT_PLUGIN) + GroupUpdates(second, AGENT_PLUGIN)
         == GroupUpdates(Merge(first, second), AGENT_PLUGIN)
  {
    hide Singleton;
    GroupKeysDiffer();
    KeysDiffer();
    var a1, b1 := AsFlag(first.agentPluginGenerate), AsFlag(first.agentPluginClaude);
    var c1, d1 := AsFlag(first.agentPluginAgentPlugins), AsFlag(first.agentPluginSkill);
    var a2, b2 := AsFlag(second.agentPluginGenerate), AsFlag(second.agentPluginClaude);
    var c2, d2 := AsFlag(second.agentPluginAgentPlugins), AsFlag(second.agentPluginSkill);
    SingletonKeys(CLAUDE, b1);
    SingletonKeys(AGENT_PLUGINS, c1);
    SingletonKeys(SKILL, d1);
    SingletonKeys(GENERATE, a2);
    SingletonKeys(CLAUDE, b2);
    SingletonKeys(AGENT_PLUGINS, c2);
    var ab1, ab2 := Singleton(GENERATE, a1) + Singleton(CLAUDE, b1), Singleton(GENERATE, a2) + Singleton(CLAUDE, b2);
    SumOfTwo(Singleton(GENERATE, a1), Singleton(CLAUDE, b1), Singleton(GENERATE, a2), Singleton(CLAUDE, b2));
    SumOfTwo(ab1, Singleton(AGENT_PLUGINS, c1), ab2, Singleton(AGENT_PLUGINS, c2));
    SumOfTwo(ab1 + Singleton(AGENT_PLUGINS, c1), Singleton(SKILL, d1),
             ab2 + Singleton(AGENT_PLUGINS, c2), Singleton(SKILL, d2));
    SingletonOr(GENERATE, a1, a2);
    SingletonOr(CLAUDE, b1, b2);
    SingletonOr(AGENT_PLUGINS, c1, c2);
    SingletonOr(SKILL, d1, d2);
  }

  lemma GroupUpdatesMerge(first: SettingsChange, second: SettingsChange, key: string)
    ensures GroupUpdates(first, key) + GroupUpdates(second, key) == GroupUpdates(Merge(first, second), key)
  {
    if key == ARTIFACT {
      ArtifactUpdatesMerge(first, second);
    } else if key == AGENT_PLUGIN {
      AgentPluginUpdatesMerge(first, second);
    } else {
      hide Singleton;
      KeysDiffer();
      SingletonOr(TTL_SECONDS, AsNumber(first.handoffTtlSeconds), AsNumber(second.handoffTtlSeconds));
      SingletonOr(DRAIN_TIMEOUT_MS, AsNumber(first.renderDrainTimeoutMs), AsNumber(second.renderDrainTimeoutMs));
      SingletonOr(STALE_AFTER_SECONDS, AsNumber(first.sessionStaleAfterSeconds),
                  AsNumber(second.sessionStaleAfterSeconds));
    }
  }

  lemma NewEntryTwice(before: Option<Json>, first: SettingsChange, second: SettingsChange, key: string)
    ensures NewEntry(NewEntry(before, first, key), second, key) == NewEntry(before, Merge(first, second), key)
  {
    hide GroupEntry, ToolsEntry, GroupUpdates;
    ToolsEntryTwice(before, first.tools, second.tools);
    GroupEntryTwice(before, GroupUpdates(first, key), GroupUpdates(second, key));
    GroupUpdatesMerge(first, second, key);
  }

  /** One change after another is their right-biased merge. */
  lemma ApplyTwice(fields: Fields, first: SettingsChange, second: SettingsChange)
    ensures Applied(Applied(fields, first), second) == Applied(fields, Merge(first, second))
  {
    hide Applied, NewEntry, Merge;
    forall key
      ensures Entry(Applied(Applied(fields, first), second), key) == Entry(Applied(fields, Merge(first, second)), key)
    {
      AppliedEntry(fields, first, key);
      AppliedEntry(Applied(fields, first), second, key);
      AppliedEntry(fields, Merge(first, second), key);
      NewEntryTwice(Entry(fields, key), first, second, key);
    }
    SameEntries(Applied(Applied(fields, first), second), Applied(fields, Merge(first, second)));
  }

  predicate Apart<T>(a: Option<T>, b: Option<T>) {
    a.None? || b.None?
  }

  /** The two changes speak of different tools and different items. */
  predicate Disjoint(a: SettingsChange, b: SettingsChange) {
    && a.tools.Keys !! b.tools.Keys
    && Apart(a.logLevel, b.logLevel) && Apart(a.budgetScalePercent, b.budgetScalePercent)
    && Apart(a.artifactTtlSeconds, b.artifactTtlSeconds) && Apart(a.artifactMaxCount, b.artifactMaxCount)
    && Apart(a.artifactMaxTotalBytes, b.artifactMaxTotalBytes) && Apart(a.handoffTtlSeconds, b.handoffTtlSeconds)
    && Apart(a.renderDrainTimeoutMs, b.renderDrainTimeoutMs)
    && Apart(a.sessionStaleAfterSeconds, b.sessionStaleAfterSeconds)
    && Apart(a.agentPluginGenerate, b.agentPluginGenerate) && Apart(a.agentPluginClaude, b.agentPluginClaude)
    && Apart(a.agentPluginAgentPlugins, b.agentPluginAgentPlugins) && Apart(a.agentPluginSkill, b.agentPluginSkill)
  }

  /** Changes from two dialogs that touch different items can be written in either order. */
  lemma DisjointChangesCommute(fields: Fields, a: SettingsChange, b: SettingsChange)
    requires Disjoint(a, b)
    ensures Applied(Applied(fields, a), b) == Applied(Applied(fields, b), a)
  {
    assert a.tools + b.tools == b.tools + a.tools;
    assert Merge(a, b) == Merge(b, a);
    ApplyTwice(fields, a, b);
    ApplyTwice(fields, b, a);
  }

  /** What the change does not name survives it: unknown fields, unknown fields of a group, and unknown tools. */
  lemma UnknownSurvives(fields: Fields, change: SettingsChange, key: string, field: string, tool: string)
    ensures key !in KNOWN_KEYS ==> Entry(Applied(fields, change), key) == Entry(fields, key)
    ensures key !in UNGROUPED_KEYS && field !in GroupUpdates(change, key) ==>
      Entry(GroupObject(Entry(Applied(fields, change), key)), field) == Entry(GroupObject(Entry(fields, key)), field)
    ensures tool !in change.tools ==>
      (tool in DisabledTools(Entry(Applied(fields, change), DISABLED_TOOLS))
       <==> tool in DisabledTools(Entry(fields, DISABLED_TOOLS)))
  {
    hide Applied, NamesArray, GroupUpdates;
    AppliedEntry(fields, change, key);
    AppliedEntry(fields, change, DISABLED_TOOLS);
    if key !in KNOWN_KEYS {
      UnknownKeyUntouched(Entry(fields, key), change, key);
    }
    NamesArrayRoundTrip(UpdatedTools(DisabledTools(Entry(fields, DISABLED_TOOLS)), change.tools));
  }

  /** A field of a group after a change: what the change wrote, or what was there. */
  lemma AtAfter(fields: Fields, change: SettingsChange, group: string, field: string)
    requires group !in UNGROUPED_KEYS
    ensures At(Applied(fields, change), group, field)
         == Or(Entry(GroupUpdates(change, group), field), At(fields, group, field))
  {
    hide Applied, GroupUpdates;
    AppliedEntry(fields, change, group);
  }

  /** Every numeric and textual item is written under its own name, and left alone where the change is silent. */
  lemma ChangeIsWritten(fields: Fields, change: SettingsChange)
    ensures var after := Applied(fields, change);
      && Entry(after, "log_level") == Or(AsText(change.logLevel), Entry(fields, "log_level"))
      && Entry(after, "budget_scale_percent")
         == Or(AsNumber(change.budgetScalePercent), Entry(fields, "budget_scale_percent"))
      && At(after, "artifact", "ttl_seconds")
         == Or(AsNumber(change.artifactTtlSeconds), At(fields, "artifact", "ttl_seconds"))
      && At(after, "artifact", "max_count")
         == Or(AsNumber(change.artifactMaxCount), At(fields, "artifact", "max_count"))
      && At(after, "artifact", "max_total_bytes")
         == Or(AsNumber(change.artifactMaxTotalBytes), At(fields, "artifact", "max_total_bytes"))
      && At(after, "handoff", "ttl_seconds")
         == Or(AsNumber(change.handoffTtlSeconds), At(fields, "handoff", "ttl_seconds"))
      && At(after, "render", "drain_timeout_ms")
         == Or(AsNumber(change.renderDrainTimeoutMs), At(fields, "render", "drain_timeout_ms"))
      && At(after, "session", "stale_after_seconds")
         == Or(AsNumber(change.sessionStaleAfterSeconds), At(fields, "session", "stale_after_seconds"))
  {
    hide Applied, GroupUpdates, ToolsEntry, Entry, At, Or, AsNumber, AsText;
    KeysDiffer();
    AppliedEntry(fields, change, LOG_LEVEL);
    AppliedEntry(fields, change, BUDGET_SCALE_PERCENT);
    UpdatesAre(change);
    AtAfter(fields, change, ARTIFACT, TTL_SECONDS);
    AtAfter(fields, change, ARTIFACT, MAX_COUNT);
    AtAfter(fields, change, ARTIFACT, MAX_TOTAL_BYTES);
    AtAfter(fields, change, HANDOFF, TTL_SECONDS);
    AtAfter(fields, change, RENDER, DRAIN_TIMEOUT_MS);
    AtAfter(fields, change, SESSION, STALE_AFTER_SECONDS);
  }

  /** So are the switches of the agent plugin and of the tools. */
  lemma SwitchesAreWritten(fields: Fields, change: SettingsChange)
    ensures var after := Applied(fields, change);
      && At(after, "agent_plugin", "generate")
         == Or(AsFlag(change.agentPluginGenerate), At(fields, "agent_plugin", "generate"))
      && At(after, "agent_plugin", "claude")
         == Or(AsFlag(change.agentPluginClaude), At(fields, "agent_plugin", "claude"))
      && At(after, "agent_plugin", "agent_plugins")
         == Or(AsFlag(change.agentPluginAgentPlugins), At(fields, "agent_plugin", "agent_plugins"))
      && At(after, "agent_plugin", "skill") == Or(AsFlag(change.agentPluginSkill), At(fields, "agent_plugin", "skill"))
      && (forall name :: ListsTool(after, name) <==>
            if name in change.tools then !change.tools[name] else ListsTool(fields, name))
  {
    hide Applied, GroupUpdates, NamesArray, At, Or, AsFlag;
    KeysDiffer();
    UpdatesAre(change);
    AtAfter(fields, change, AGENT_PLUGIN, GENERATE);
    AtAfter(fields, change, AGENT_PLUGIN, CLAUDE);
    AtAfter(fields, change, AGENT_PLUGIN, AGENT_PLUGINS);
    AtAfter(fields, change, AGENT_PLUGIN, SKILL);
    AppliedEntry(fields, change, DISABLED_TOOLS);
    var before := DisabledTools(Entry(fields, DISABLED_TOOLS));
    NamesArrayRoundTrip(UpdatedTools(before, change.tools));
    ToolsListed(fields);
    ToolsListed(Applied(fields, change));
  }

  lemma ToolsListed(fields: Fields)
    ensures forall name :: ListsTool(fields, name) <==> name in DisabledTools(Entry(fields, DISABLED_TOOLS))
  {
  }

  // ----- Changes and resolution -----

  /** The entry of a group field after a change: what the change wrote, or what was there. */
  lemma RequestedAfter(fields: Fields, change: SettingsChange, group: string, field: string)
    requires group !in UNGROUPED_KEYS
    requires field in GroupUpdates(change, group) ==> GroupUpdates(change, group)[field] != Null
    ensures Requested(Applied(fields, change), Some(group), field)
         == if field in GroupUpdates(change, group) then Some(GroupUpdates(change, group)[field])
            else Requested(fields, Some(group), field)
  {
    hide Applied, GroupUpdates;
    AppliedEntry(fields, change, group);
  }

  function ClampedOr(change: Option<nat>, range: Range, before: nat): nat {
    if change.Some? then Clamp(change.value, range) else before
  }

  function FlagOr(change: Option<bool>, before: bool): bool {
    if change.Some? then change.value else before
  }

  /** The settings a change asks for, given the ones before it; the document decides only an untouched handoff time. */
  function Expected(before: Settings, fields: Fields, change: SettingsChange): Settings {
    var percent := ClampedOr(change.budgetScalePercent, PERCENT_RANGE, before.budgets.percent);
    var budgets := Budget.Build(Budget.SHIPPED, percent);
    Settings(
      if change.logLevel.None? then before.logLevel
      else if Trim(change.logLevel.value) == "" then None else change.logLevel,
      budgets,
      UpdatedTools(before.disabledTools, change.tools),
      ClampedOr(change.artifactTtlSeconds, ARTIFACT_TTL_RANGE, before.artifactTtl),
      ClampedOr(change.artifactMaxCount, ARTIFACT_COUNT_RANGE, before.artifactMaxCount),
      ClampedOr(change.artifactMaxTotalBytes, ARTIFACT_BYTES_RANGE, before.artifactMaxTotalBytes),
      ClampedOr(change.handoffTtlSeconds, HandoffRange(budgets),
                Number(Requested(fields, Some(HANDOFF), TTL_SECONDS), HandoffRange(budgets))),
      ClampedOr(change.renderDrainTimeoutMs, DRAIN_RANGE, before.renderDrainTimeoutMs),
      ClampedOr(change.sessionStaleAfterSeconds, STALE_RANGE, before.sessionStaleAfter),
      AgentPlugin(
        FlagOr(change.agentPluginGenerate, before.agentPlugin.generate),
        FlagOr(change.agentPluginClaude, before.agentPlugin.claude),
        FlagOr(change.agentPluginAgentPlugins, before.agentPlugin.agentPlugins),
        FlagOr(change.agentPluginSkill, before.agentPlugin.skill)))
  }

  lemma TopLevelAfter(fields: Fields, change: SettingsChange)
    ensures LogLevel(Entry(Applied(fields, change), LOG_LEVEL))
         == if change.logLevel.None? then LogLevel(Entry(fields, LOG_LEVEL))
            else if Trim(change.logLevel.value) == "" then None else change.logLevel
    ensures Percent(Applied(fields, change)) == ClampedOr(change.budgetScalePercent, PERCENT_RANGE, Percent(fields))
    ensures DisabledTools(Entry(Applied(fields, change), DISABLED_TOOLS))
         == UpdatedTools(DisabledTools(Entry(fields, DISABLED_TOOLS)), change.tools)
  {
    hide Applied, NamesArray, Trim;
    KeysDiffer();
    AppliedEntry(fields, change, LOG_LEVEL);
    AppliedEntry(fields, change, BUDGET_SCALE_PERCENT);
    AppliedEntry(fields, change, DISABLED_TOOLS);
    NamesArrayRoundTrip(UpdatedTools(DisabledTools(Entry(fields, DISABLED_TOOLS)), change.tools));
    var before := DisabledTools(Entry(fields, DISABLED_TOOLS));
    assert UpdatedTools(before, map[]) == before;
  }

  /** The value a single-field group resolves to after a change. */
  lemma NumberAfter(fields: Fields, change: SettingsChange, group: string, field: string, value: Option<nat>,
                    range: Range)
    requires group !in UNGROUPED_KEYS
    requires Entry(GroupUpdates(change, group), field) == AsNumber(value)
    ensures Number(Requested(Applied(fields, change), Some(group), field), range)
         == ClampedOr(value, range, Number(Requested(fields, Some(group), field), range))
  {
    hide Applied, GroupUpdates, Requested;
    RequestedAfter(fields, change, group, field);
  }

  lemma FlagAfter(fields: Fields, change: SettingsChange, field: string, value: Option<bool>, default: bool)
    requires Entry(GroupUpdates(change, AGENT_PLUGIN), field) == AsFlag(value)
    ensures Flag(Requested(Applied(fields, change), Some(AGENT_PLUGIN), field), default)
         == FlagOr(value, Flag(Requested(fields, Some(AGENT_PLUGIN), field), default))
  {
    hide Applied, GroupUpdates, Requested;
    KeysDiffer();
    RequestedAfter(fields, change, AGENT_PLUGIN, field);
  }

  lemma SumEntry(a: map<string, Json>, b: map<string, Json>, key: string)
    ensures Entry(a + b, key) == Or(Entry(b, key), Entry(a, key))
  {
  }

  lemma SingletonEntry(field: string, value: Option<Json>, key: string)
    ensures Entry(Singleton(field, value), key) == if key == field then value else None
  {
  }

  lemma SumOfSingletons(a: (string, Option<Json>), b: (string, Option<Json>), c: (string, Option<Json>),
                        d: (string, Option<Json>))
    requires a.0 != b.0 && a.0 != c.0 && a.0 != d.0 && b.0 != c.0 && b.0 != d.0 && c.0 != d.0
    ensures var u := Singleton(a.0, a.1) + Singleton(b.0, b.1) + Singleton(c.0, c.1) + Singleton(d.0, d.1);
      Entry(u, a.0) == a.1 && Entry(u, b.0) == b.1 && Entry(u, c.0) == c.1 && Entry(u, d.0) == d.1
  {
    hide Singleton, Entry;
    forall key | key in {a.0, b.0, c.0, d.0}
      ensures Entry(Singleton(a.0, a.1) + Singleton(b.0, b.1) + Singleton(c.0, c.1) + Singleton(d.0, d.1), key)
           == Or(if key == d.0 then d.1 else None, Or(if key == c.0 then c.1 else None,
              Or(if key == b.0 then b.1 else None, if key == a.0 then a.1 else None)))
    {
      SumEntry(Singleton(a.0, a.1), Singleton(b.0, b.1), key);
      SumEntry(Singleton(a.0, a.1) + Singleton(b.0, b.1), Singleton(c.0, c.1), key);
      SumEntry(Singleton(a.0, a.1) + Singleton(b.0, b.1) + Singleton(c.0, c.1), Singleton(d.0, d.1), key);
      SingletonEntry(a.0, a.1, key);
      SingletonEntry(b.0, b.1, key);
      SingletonEntry(c.0, c.1, key);
      SingletonEntry(d.0, d.1, key);
    }
  }

  /** Each item of a change is written under its own group and field. */
  lemma UpdatesAre(change: SettingsChange)
    ensures var u := GroupUpdates(change, ARTIFACT);
      && Entry(u, TTL_SECONDS) == AsNumber(change.artifactTtlSeconds)
      && Entry(u, MAX_COUNT) == AsNumber(change.artifactMaxCount)
      && Entry(u, MAX_TOTAL_BYTES) == AsNumber(change.artifactMaxTotalBytes)
    ensures Entry(GroupUpdates(change, HANDOFF), TTL_SECONDS) == AsNumber(change.handoffTtlSeconds)
    ensures Entry(GroupUpdates(change, RENDER), DRAIN_TIMEOUT_MS) == AsNumber(change.renderDrainTimeoutMs)
    ensures Entry(GroupUpdates(change, SESSION), STALE_AFTER_SECONDS) == AsNumber(change.sessionStaleAfterSeconds)
    ensures var u := GroupUpdates(change, AGENT_PLUGIN);
      && Entry(u, GENERATE) == AsFlag(change.agentPluginGenerate)
      && Entry(u, CLAUDE) == AsFlag(change.agentPluginClaude)
      && Entry(u, AGENT_PLUGINS) == AsFlag(change.agentPluginAgentPlugins)
      && Entry(u, SKILL) == AsFlag(change.agentPluginSkill)
  {
    hide Singleton, Entry, AsNumber, AsFlag;
    KeysDiffer();
    GroupKeysDiffer();
    SumOfSingletons((TTL_SECONDS, AsNumber(change.artifactTtlSeconds)), (MAX_COUNT, AsNumber(change.artifactMaxCount)),
                    (MAX_TOTAL_BYTES, AsNumber(change.artifactMaxTotalBytes)), (SKILL, None));
    DropNone(GroupUpdates(change, ARTIFACT), SKILL);
    SumOfSingletons((GENERATE, AsFlag(change.agentPluginGenerate)), (CLAUDE, AsFlag(change.agentPluginClaude)),
                    (AGENT_PLUGINS, AsFlag(change.agentPluginAgentPlugins)), (SKILL, AsFlag(change.agentPluginSkill)));
    SingletonEntry(TTL_SECONDS, AsNumber(change.handoffTtlSeconds), TTL_SECONDS);
    SingletonEntry(DRAIN_TIMEOUT_MS, AsNumber(change.renderDrainTimeoutMs), DRAIN_TIMEOUT_MS);
    SingletonEntry(STALE_AFTER_SECONDS, AsNumber(change.sessionStaleAfterSeconds), STALE_AFTER_SECONDS);
  }

  lemma DropNone(updates: map<string, Json>, field: string)
    ensures updates + Singleton(field, None) == updates
  {
  }

  /**
   Resolving after a change gives the clamped new values and leaves every other item alone, except the
   handoff time, whose range may have moved with the budget scale.
   */
  lemma ResolveApplied(fields: Fields, change: SettingsChange, previous: Settings)
    ensures Resolve(Applied(fields, change), previous) == Expected(Resolve(fields, previous), fields, change)
  {
    hide Applied, GroupUpdates, Requested, Number, Flag, LogLevel, DisabledTools, Budget.Build, Budget.Checked,
         ClampedOr, FlagOr, UpdatedTools, HandoffRange, ResolveBudgets, AsNumber, AsFlag, Trim;
    var after := Applied(fields, change);
    KeysDiffer();
    TopLevelAfter(fields, change);
    ResolveIgnoresPrevious(fields, previous, previous);
    ResolveIgnoresPrevious(after, previous, previous);
    UpdatesAre(change);
    BuildKeepsPercent(Percent(fields));
    NumberAfter(fields, change, ARTIFACT, TTL_SECONDS, change.artifactTtlSeconds, ARTIFACT_TTL_RANGE);
    NumberAfter(fields, change, ARTIFACT, MAX_COUNT, change.artifactMaxCount, ARTIFACT_COUNT_RANGE);
    NumberAfter(fields, change, ARTIFACT, MAX_TOTAL_BYTES, change.artifactMaxTotalBytes, ARTIFACT_BYTES_RANGE);
    NumberAfter(fields, change, HANDOFF, TTL_SECONDS, change.handoffTtlSeconds,
                HandoffRange(Resolve(after, previous).budgets));
    NumberAfter(fields, change, RENDER, DRAIN_TIMEOUT_MS, change.renderDrainTimeoutMs, DRAIN_RANGE);
    NumberAfter(fields, change, SESSION, STALE_AFTER_SECONDS, change.sessionStaleAfterSeconds, STALE_RANGE);
    FlagAfter(fields, change, GENERATE, change.agentPluginGenerate, false);
    FlagAfter(fields, change, CLAUDE, change.agentPluginClaude, true);
    FlagAfter(fields, change, AGENT_PLUGINS, change.agentPluginAgentPlugins, true);
    FlagAfter(fields, change, SKILL, change.agentPluginSkill, true);
  }

  /** The handoff time moves only with its own item or the budget scale. */
  lemma HandoffKept(fields: Fields, change: SettingsChange, previous: Settings)
    requires change.handoffTtlSeconds.None? && change.budgetScalePercent.None?
    ensures Resolve(Applied(fields, change), previous).handoffTtl == Resolve(fields, previous).handoffTtl
  {
    ResolveApplied(fields, change, previous);
    ResolveIgnoresPrevious(fields, previous, previous);
    BuildKeepsPercent(Percent(fields));
    hide Applied, Number, Flag, LogLevel, DisabledTools, Budget.Build, Budget.Checked, UpdatedTools, HandoffRange, Trim;
  }

  lemma BuildKeepsPercent(percent: nat)
    ensures Budget.Build(Budget.SHIPPED, percent).percent == percent
  {
  }
}
