/** What resolution has to say about a document besides the settings: every item it did not take as written. */
module SettingsIssues {
  import opened Wrappers
  import opened Sequences
  import opened Strings
  import Budget
  import opened Settings

  datatype IssueReason =
    | TypeMismatch
    | Unparsable
    | Clamped(requested: nat, applied: nat)
    | BudgetInequalityViolated(violated: Budget.BudgetInequality)

  datatype Issue = Issue(field: string, reason: IssueReason)

  function Path(group: Option<string>, field: string): string {
    if group.Some? then group.value + "." + field else field
  }

  /** A group that is neither absent nor an object is reported when it is first read, and not again. */
  function AfterGroup(fields: Fields, group: Option<string>, issues: seq<Issue>): seq<Issue> {
    if group.None? || GroupReadable(fields, group.value) || Issue(group.value, TypeMismatch) in issues then issues
    else issues + [Issue(group.value, TypeMismatch)]
  }

  predicate GroupReadable(fields: Fields, group: string) {
    match Entry<string, Json>(fields, group)
    case None | Some(Null) | Some(Object(_)) => true
    case _ => false
  }

  function AfterNumber(fields: Fields, group: Option<string>, field: string, range: Range, issues: seq<Issue>)
    : seq<Issue>
  {
    var reported := AfterGroup(fields, group, issues);
    match Requested(fields, group, field)
    case None => reported
    case Some(Unsigned(n)) =>
      if Clamp(n, range) == n then reported
      else reported + [Issue(Path(group, field), Clamped(n, Clamp(n, range)))]
    case Some(_) => reported + [Issue(Path(group, field), TypeMismatch)]
  }

  function AfterFlag(fields: Fields, field: string, issues: seq<Issue>): seq<Issue> {
    var reported := AfterGroup(fields, Some(AGENT_PLUGIN), issues);
    match Requested(fields, Some(AGENT_PLUGIN), field)
    case None | Some(Bool(_)) => reported
    case Some(_) => reported + [Issue(Path(Some(AGENT_PLUGIN), field), TypeMismatch)]
  }

  function AfterLogLevel(fields: Fields, issues: seq<Issue>): seq<Issue> {
    match Entry<string, Json>(fields, LOG_LEVEL)
    case None | Some(Null) => issues
    case Some(Text(text)) => if Trim(text) != "" then issues else issues + [Issue(LOG_LEVEL, Unparsable)]
    case Some(_) => issues + [Issue(LOG_LEVEL, TypeMismatch)]
  }

  function AfterTools(fields: Fields, issues: seq<Issue>): seq<Issue> {
    match Entry<string, Json>(fields, DISABLED_TOOLS)
    case None | Some(Null) => issues
    case Some(Array(items)) =>
      if forall i :: 0 <= i < |items| ==> items[i].Text? then issues else issues + [Issue(DISABLED_TOOLS, TypeMismatch)]
    case Some(_) => issues + [Issue(DISABLED_TOOLS, TypeMismatch)]
  }

  function AfterBudgets(percent: nat, issues: seq<Issue>): seq<Issue> {
    match Budget.Checked(Budget.SHIPPED, percent)
    case Ok(_) => issues
    case Err(violated) => issues + [Issue(BUDGET_SCALE_PERCENT, BudgetInequalityViolated(violated))]
  }

  datatype NumberItem = NumberItem(group: Option<string>, field: string, range: Range)

  function AfterNumbers(fields: Fields, items: seq<NumberItem>, issues: seq<Issue>): seq<Issue> {
    if items == [] then issues
    else AfterNumbers(fields, items[1..], AfterNumber(fields, items[0].group, items[0].field, items[0].range, issues))
  }

  function AfterFlags(fields: Fields, flags: seq<string>, issues: seq<Issue>): seq<Issue> {
    if flags == [] then issues else AfterFlags(fields, flags[1..], AfterFlag(fields, flags[0], issues))
  }

  /** The numeric items after the percentage, in the order they are read. */
  function GroupItems(budgets: Budget.ScaledBudgets): seq<NumberItem> {
    [NumberItem(Some(ARTIFACT), TTL_SECONDS, ARTIFACT_TTL_RANGE),
     NumberItem(Some(ARTIFACT), MAX_COUNT, ARTIFACT_COUNT_RANGE),
     NumberItem(Some(ARTIFACT), MAX_TOTAL_BYTES, ARTIFACT_BYTES_RANGE),
     NumberItem(Some(HANDOFF), TTL_SECONDS, HandoffRange(budgets)),
     NumberItem(Some(RENDER), DRAIN_TIMEOUT_MS, DRAIN_RANGE),
     NumberItem(Some(SESSION), STALE_AFTER_SECONDS, STALE_RANGE)]
  }

  const FLAGS: seq<string> := [GENERATE, CLAUDE, AGENT_PLUGINS, SKILL]

  function Issues(fields: Fields, previous: Settings): seq<Issue> {
    var budgets := ResolveBudgets(Percent(fields), previous);
    var level := AfterLogLevel(fields, []);
    var percent := AfterNumber(fields, None, BUDGET_SCALE_PERCENT, PERCENT_RANGE, level);
    var checked := AfterBudgets(Percent(fields), percent);
    AfterFlags(fields, FLAGS, AfterTools(fields, AfterNumbers(fields, GroupItems(budgets), checked)))
  }

  // ----- Reading a document, item by item -----

  datatype GroupLookup = Group(entries: map<string, Json>) | Absent | NotAnObject

  method LookUpGroup(fields: Fields, group: string, issues: seq<Issue>)
    returns (lookup: GroupLookup, reported: seq<Issue>)
    ensures reported == AfterGroup(fields, Some(group), issues)
    ensures lookup.NotAnObject? <==> !GroupReadable(fields, group)
    ensures lookup.Group? <==> Entry(fields, group) == Some(Object(GroupObject(Entry(fields, group))))
    ensures lookup.Group? ==> lookup.entries == GroupObject(Entry(fields, group))
  {
    reported := issues;
    match Entry<string, Json>(fields, group) {
      case None | Some(Null) => lookup := Absent;
      case Some(Object(entries)) => lookup := Group(entries);
      case Some(_) =>
        var issue := Issue(group, TypeMismatch);
        if issue !in reported {
          reported := reported + [issue];
        }
        lookup := NotAnObject;
    }
  }

  /** One numeric item: its default, its own value or the nearest bound, and what there is to report. */
  method ReadNumber(fields: Fields, group: Option<string>, field: string, range: Range, issues: seq<Issue>)
    returns (applied: nat, reported: seq<Issue>)
    ensures applied == Number(Requested(fields, group, field), range)
    ensures reported == AfterNumber(fields, group, field, range, issues)
  {
    reported := issues;
    var value;
    if group.Some? {
      var lookup;
      lookup, reported := LookUpGroup(fields, group.value, reported);
      match lookup {
        case Group(entries) => value := Entry(entries, field);
        case Absent => value := None;
        case NotAnObject => return range.default, reported;
      }
    } else {
      value := Entry(fields, field);
    }
    match value {
      case None | Some(Null) =>
        return range.default, reported;
      case Some(Unsigned(requested)) =>
        applied := Clamp(requested, range);
        if applied != requested {
          reported := reported + [Issue(Path(group, field), Clamped(requested, applied))];
        }
      case Some(_) =>
        return range.default, reported + [Issue(Path(group, field), TypeMismatch)];
    }
  }

  method ReadFlag(fields: Fields, field: string, default: bool, issues: seq<Issue>)
    returns (flag: bool, reported: seq<Issue>)
    ensures flag == Flag(Requested(fields, Some(AGENT_PLUGIN), field), default)
    ensures reported == AfterFlag(fields, field, issues)
  {
    var lookup;
    lookup, reported := LookUpGroup(fields, AGENT_PLUGIN, issues);
    if !lookup.Group? {
      return default, reported;
    }
    match Entry<string, Json>(lookup.entries, field) {
      case None | Some(Null) => return default, reported;
      case Some(Bool(value)) => return value, reported;
      case Some(_) => return default, reported + [Issue(Path(Some(AGENT_PLUGIN), field), TypeMismatch)];
    }
  }

  method ReadAgentPlugin(fields: Fields, issues: seq<Issue>) returns (agentPlugin: AgentPlugin, reported: seq<Issue>)
    ensures agentPlugin == ResolveAgentPlugin(fields)
    ensures reported == AfterFlags(fields, FLAGS, issues)
  {
    hide Flag, Requested, AfterFlag, AfterFlags;
    FourFlags(fields, issues);
    var generate, claude, agentPlugins, skill;
    generate, reported := ReadFlag(fields, GENERATE, false, issues);
    claude, reported := ReadFlag(fields, CLAUDE, true, reported);
    agentPlugins, reported := ReadFlag(fields, AGENT_PLUGINS, true, reported);
    skill, reported := ReadFlag(fields, SKILL, true, reported);
    agentPlugin := AgentPlugin(generate, claude, agentPlugins, skill);
  }

  lemma FourFlags(fields: Fields, issues: seq<Issue>)
    ensures var claude := AfterFlag(fields, CLAUDE, AfterFlag(fields, GENERATE, issues));
      AfterFlags(fields, FLAGS, issues) == AfterFlag(fields, SKILL, AfterFlag(fields, AGENT_PLUGINS, claude))
  {
    hide AfterFlag;
    var generate := AfterFlag(fields, GENERATE, issues);
    var claude := AfterFlag(fields, CLAUDE, generate);
    var plugins := AfterFlag(fields, AGENT_PLUGINS, claude);
    FlagStep(fields, GENERATE, [CLAUDE, AGENT_PLUGINS, SKILL], issues);
    FlagStep(fields, CLAUDE, [AGENT_PLUGINS, SKILL], generate);
    FlagStep(fields, AGENT_PLUGINS, [SKILL], claude);
    FlagStep(fields, SKILL, [], plugins);
    assert FLAGS == [GENERATE] + [CLAUDE, AGENT_PLUGINS, SKILL];
    assert [CLAUDE, AGENT_PLUGINS, SKILL] == [CLAUDE] + [AGENT_PLUGINS, SKILL];
    assert [AGENT_PLUGINS, SKILL] == [AGENT_PLUGINS] + [SKILL] && [SKILL] == [SKILL] + [];
    hide AfterFlags;
  }

  lemma FlagStep(fields: Fields, flag: string, rest: seq<string>, issues: seq<Issue>)
    ensures AfterFlags(fields, [flag] + rest, issues) == AfterFlags(fields, rest, AfterFlag(fields, flag, issues))
  {
    hide AfterFlag;
    assert ([flag] + rest)[1..] == rest;
  }

  /** The whole document in the order the items are read, pushing onto one list of issues. */
  method ResolveDocument(fields: Fields, previous: Settings) returns (settings: Settings, issues: seq<Issue>)
    ensures settings == Resolve(fields, previous)
    ensures issues == Issues(fields, previous)
  {
    hide Number, Requested, AfterNumber, Flag, AfterFlags, ResolveAgentPlugin, LogLevel, DisabledTools, HandoffRange,
         Budget.Build, Budget.Checked, Trim;
    var logLevel := LogLevel(Entry(fields, LOG_LEVEL));
    issues := AfterLogLevel(fields, []);
    var percent, budgets;
    percent, issues := ReadNumber(fields, None, BUDGET_SCALE_PERCENT, PERCENT_RANGE, issues);
    match Budget.Checked(Budget.SHIPPED, percent) {
      case Ok(scaled) =>
        budgets := scaled;
      case Err(violated) =>
        issues := issues + [Issue(BUDGET_SCALE_PERCENT, BudgetInequalityViolated(violated))];
        budgets := previous.budgets;
    }
    ghost var checked := issues;
    var artifactTtl, artifactCount, artifactBytes, handoffTtl, drainTimeout, staleAfter;
    artifactTtl, issues := ReadNumber(fields, Some(ARTIFACT), TTL_SECONDS, ARTIFACT_TTL_RANGE, issues);
    artifactCount, issues := ReadNumber(fields, Some(ARTIFACT), MAX_COUNT, ARTIFACT_COUNT_RANGE, issues);
    artifactBytes, issues := ReadNumber(fields, Some(ARTIFACT), MAX_TOTAL_BYTES, ARTIFACT_BYTES_RANGE, issues);
    handoffTtl, issues := ReadNumber(fields, Some(HANDOFF), TTL_SECONDS, HandoffRange(budgets), issues);
    drainTimeout, issues := ReadNumber(fields, Some(RENDER), DRAIN_TIMEOUT_MS, DRAIN_RANGE, issues);
    staleAfter, issues := ReadNumber(fields, Some(SESSION), STALE_AFTER_SECONDS, STALE_RANGE, issues);
    SixItems(fields, budgets, checked);
    var disabledTools := DisabledTools(Entry(fields, DISABLED_TOOLS));
    issues := AfterTools(fields, issues);
    var agentPlugin;
    agentPlugin, issues := ReadAgentPlugin(fields, issues);
    settings := Settings(logLevel, budgets, disabledTools, artifactTtl, artifactCount, artifactBytes, handoffTtl,
                         drainTimeout, staleAfter, agentPlugin);
  }

  lemma SixItems(fields: Fields, budgets: Budget.ScaledBudgets, issues: seq<Issue>)
    ensures var ttl := AfterNumber(fields, Some(ARTIFACT), TTL_SECONDS, ARTIFACT_TTL_RANGE, issues);
      var count := AfterNumber(fields, Some(ARTIFACT), MAX_COUNT, ARTIFACT_COUNT_RANGE, ttl);
      var bytes := AfterNumber(fields, Some(ARTIFACT), MAX_TOTAL_BYTES, ARTIFACT_BYTES_RANGE, count);
      var handoff := AfterNumber(fields, Some(HANDOFF), TTL_SECONDS, HandoffRange(budgets), bytes);
      var drain := AfterNumber(fields, Some(RENDER), DRAIN_TIMEOUT_MS, DRAIN_RANGE, handoff);
      AfterNumbers(fields, GroupItems(budgets), issues)
      == AfterNumber(fields, Some(SESSION), STALE_AFTER_SECONDS, STALE_RANGE, drain)
  {
    hide AfterNumber, AfterNumbers, HandoffRange;
    var items := GroupItems(budgets);
    assert items[0..] == items;
    var ttl := NumbersStep(fields, items, 0, issues);
    var count := NumbersStep(fields, items, 1, ttl);
    var bytes := NumbersStep(fields, items, 2, count);
    var handoff := NumbersStep(fields, items, 3, bytes);
    var drain := NumbersStep(fields, items, 4, handoff);
    var stale := NumbersStep(fields, items, 5, drain);
    NothingLeft(fields, items[6..], stale);
  }

  lemma NothingLeft(fields: Fields, items: seq<NumberItem>, issues: seq<Issue>)
    requires items == []
    ensures AfterNumbers(fields, items, issues) == issues
  {
  }

  lemma NumbersStep(fields: Fields, items: seq<NumberItem>, k: nat, issues: seq<Issue>) returns (next: seq<Issue>)
    requires k < |items|
    ensures next == AfterNumber(fields, items[k].group, items[k].field, items[k].range, issues)
    ensures AfterNumbers(fields, items[k..], issues) == AfterNumbers(fields, items[k + 1..], next)
  {
    hide AfterNumber;
    next := AfterNumber(fields, items[k].group, items[k].field, items[k].range, issues);
    assert items[k..][1..] == items[k + 1..];
  }

  // ----- When there is nothing to say -----

  predicate CleanNumber(fields: Fields, item: NumberItem) {
    && (item.group.Some? ==> GroupReadable(fields, item.group.value))
    && match Requested(fields, item.group, item.field)
       case None => true
       case Some(Unsigned(n)) => item.range.min <= n <= item.range.max
       case Some(_) => false
  }

  predicate CleanFlag(fields: Fields, field: string) {
    && GroupReadable(fields, AGENT_PLUGIN)
    && (Requested(fields, Some(AGENT_PLUGIN), field).Some? ==> Requested(fields, Some(AGENT_PLUGIN), field).value.Bool?)
  }

  /** Every known item is absent, null, or of its type and inside its range. */
  predicate Clean(fields: Fields, previous: Settings) {
    && (match Entry<string, Json>(fields, LOG_LEVEL)
        case None | Some(Null) => true
        case Some(Text(text)) => Trim(text) != ""
        case _ => false)
    && (match Entry<string, Json>(fields, DISABLED_TOOLS)
        case None | Some(Null) => true
        case Some(Array(items)) => forall i :: 0 <= i < |items| ==> items[i].Text?
        case _ => false)
    && CleanNumber(fields, NumberItem(None, BUDGET_SCALE_PERCENT, PERCENT_RANGE))
    && (forall i :: 0 <= i < 6 ==> CleanNumber(fields, GroupItems(Resolve(fields, previous).budgets)[i]))
    && (forall i :: 0 <= i < 4 ==> CleanFlag(fields, FLAGS[i]))
  }

  lemma NumberIssue(fields: Fields, item: NumberItem, issues: seq<Issue>)
    requires item.range.min <= item.range.max
    ensures AfterNumber(fields, item.group, item.field, item.range, issues) == []
       <==> issues == [] && CleanNumber(fields, item)
  {
  }

  lemma {:induction false} NumberIssuesClean(fields: Fields, items: seq<NumberItem>, issues: seq<Issue>)
    requires forall i :: 0 <= i < |items| ==> items[i].range.min <= items[i].range.max
    ensures AfterNumbers(fields, items, issues) == []
       <==> issues == [] && forall i :: 0 <= i < |items| ==> CleanNumber(fields, items[i])
  {
    hide CleanNumber, AfterNumber;
    if items != [] {
      var first := items[0];
      NumberIssue(fields, first, issues);
      NumberIssuesClean(fields, items[1..], AfterNumber(fields, first.group, first.field, first.range, issues));
      assert forall i :: 0 < i < |items| ==> items[i] == items[1..][i - 1];
    }
  }

  lemma {:induction false} FlagIssuesClean(fields: Fields, flags: seq<string>, issues: seq<Issue>)
    ensures AfterFlags(fields, flags, issues) == []
       <==> issues == [] && forall i :: 0 <= i < |flags| ==> CleanFlag(fields, flags[i])
  {
    hide CleanFlag, AfterFlag;
    if flags != [] {
      FlagIssue(fields, flags[0], issues);
      FlagIssuesClean(fields, flags[1..], AfterFlag(fields, flags[0], issues));
      assert forall i :: 0 < i < |flags| ==> flags[i] == flags[1..][i - 1];
    }
  }

  lemma FlagIssue(fields: Fields, field: string, issues: seq<Issue>)
    ensures AfterFlag(fields, field, issues) == [] <==> issues == [] && CleanFlag(fields, field)
  {
  }

  lemma GroupItemsCount(budgets: Budget.ScaledBudgets)
    ensures |GroupItems(budgets)| == 6
    ensures forall i :: 0 <= i < 6 ==> GroupItems(budgets)[i].range.min <= GroupItems(budgets)[i].range.max
  {
  }

  /** Resolution is silent exactly when it takes every item as written. */
  lemma SilentIffClean(fields: Fields, previous: Settings)
    ensures Issues(fields, previous) == [] <==> Clean(fields, previous)
  {
    hide AfterNumbers, AfterFlags, AfterNumber, CleanNumber, CleanFlag, Percent, Budget.Checked, Budget.Build,
         GroupItems, Requested, HandoffRange, Number, Flag, LogLevel, DisabledTools, Trim;
    var budgets := ResolveBudgets(Percent(fields), previous);
    var level := AfterLogLevel(fields, []);
    var item := NumberItem(None, BUDGET_SCALE_PERCENT, PERCENT_RANGE);
    NumberIssue(fields, item, level);
    var percent := AfterNumber(fields, None, BUDGET_SCALE_PERCENT, PERCENT_RANGE, level);
    ResolveIgnoresPrevious(fields, previous, previous);
    Budget.ShippedIsAccepted(Percent(fields));
    GroupItemsCount(budgets);
    NumberIssuesClean(fields, GroupItems(budgets), percent);
    FlagIssuesClean(fields, FLAGS, AfterTools(fields, AfterNumbers(fields, GroupItems(budgets), percent)));
  }

  // ----- No report is made twice -----

  /** No issue stands in the list twice, and each is about one of the names `seen`. */
  ghost predicate Reported(issues: seq<Issue>, seen: set<string>) {
    NoDuplicates(issues) && forall i :: 0 <= i < |issues| ==> issues[i].field in seen
  }

  function GroupName(group: Option<string>): set<string> {
    if group.Some? then {group.value} else {}
  }

  lemma ReportedMore(issues: seq<Issue>, seen: set<string>, issue: Issue)
    requires Reported(issues, seen) && issue !in issues
    ensures Reported(issues + [issue], seen + {issue.field})
  {
  }

  lemma GroupReport(fields: Fields, group: Option<string>, issues: seq<Issue>, seen: set<string>)
    requires Reported(issues, seen)
    ensures Reported(AfterGroup(fields, group, issues), seen + GroupName(group))
  {
    if group.Some? && Issue(group.value, TypeMismatch) !in issues {
      ReportedMore(issues, seen, Issue(group.value, TypeMismatch));
    }
  }

  lemma PathIsNoGroup(group: Option<string>, field: string)
    ensures Path(group, field) !in GroupName(group)
  {
    if group.Some? {
      assert |Path(group, field)| > |group.value|;
    }
  }

  lemma NumberReport(fields: Fields, item: NumberItem, issues: seq<Issue>, seen: set<string>)
    requires Reported(issues, seen) && Path(item.group, item.field) !in seen
    ensures Reported(AfterNumber(fields, item.group, item.field, item.range, issues),
                     seen + GroupName(item.group) + {Path(item.group, item.field)})
  {
    hide Requested, AfterGroup, Path;
    var grouped := AfterGroup(fields, item.group, issues);
    GroupReport(fields, item.group, issues, seen);
    PathIsNoGroup(item.group, item.field);
    forall issue: Issue | issue.field == Path(item.group, item.field)
      ensures Reported(grouped + [issue], seen + GroupName(item.group) + {Path(item.group, item.field)})
    {
      ReportedMore(grouped, seen + GroupName(item.group), issue);
    }
  }

  /** The names reading `items` can report about. */
  function NamesOf(items: seq<NumberItem>): set<string> {
    if items == [] then {}
    else GroupName(items[0].group) + {Path(items[0].group, items[0].field)} + NamesOf(items[1..])
  }

  /** No item's path is the path or the group of another. */
  ghost predicate PathsApart(items: seq<NumberItem>) {
    forall i, j :: 0 <= i < |items| && 0 <= j < |items| && i != j ==>
      && Path(items[i].group, items[i].field) != Path(items[j].group, items[j].field)
      && Path(items[i].group, items[i].field) !in GroupName(items[j].group)
  }

  lemma {:induction false} NumbersReport(fields: Fields, items: seq<NumberItem>, issues: seq<Issue>, seen: set<string>)
    requires Reported(issues, seen) && PathsApart(items)
    requires forall i :: 0 <= i < |items| ==> Path(items[i].group, items[i].field) !in seen
    ensures Reported(AfterNumbers(fields, items, issues), seen + NamesOf(items))
  {
    hide AfterNumber, Reported, Path, GroupName;
    if items == [] {
      assert seen + NamesOf(items) == seen;
    } else {
      var first := items[0];
      var more := seen + GroupName(first.group) + {Path(first.group, first.field)};
      NumberReport(fields, first, issues, seen);
      NumbersReport(fields, items[1..], AfterNumber(fields, first.group, first.field, first.range, issues), more);
      assert more + NamesOf(items[1..]) == seen + NamesOf(items);
    }
  }

  /** Reading a flag reports as reading a number under the same path would. */
  lemma FlagReport(fields: Fields, flag: string, issues: seq<Issue>, seen: set<string>)
    requires Reported(issues, seen) && Path(Some(AGENT_PLUGIN), flag) !in seen
    ensures Reported(AfterFlag(fields, flag, issues), seen + {AGENT_PLUGIN} + {Path(Some(AGENT_PLUGIN), flag)})
  {
    hide Requested, AfterGroup, Path;
    var grouped := AfterGroup(fields, Some(AGENT_PLUGIN), issues);
    GroupReport(fields, Some(AGENT_PLUGIN), issues, seen);
    PathIsNoGroup(Some(AGENT_PLUGIN), flag);
    if Issue(Path(Some(AGENT_PLUGIN), flag), TypeMismatch) !in grouped {
      ReportedMore(grouped, seen + {AGENT_PLUGIN}, Issue(Path(Some(AGENT_PLUGIN), flag), TypeMismatch));
    }
  }

  lemma {:induction false} FlagsReport(fields: Fields, flags: seq<string>, issues: seq<Issue>, seen: set<string>)
    requires Reported(issues, seen) && NoDuplicates(flags)
    requires forall i :: 0 <= i < |flags| ==> Path(Some(AGENT_PLUGIN), flags[i]) !in seen
    ensures NoDuplicates(AfterFlags(fields, flags, issues))
  {
    hide AfterFlag;
    if flags != [] {
      var path := Path(Some(AGENT_PLUGIN), flags[0]);
      FlagReport(fields, flags[0], issues, seen);
      forall i | 1 <= i < |flags| ensures Path(Some(AGENT_PLUGIN), flags[i]) !in seen + {AGENT_PLUGIN} + {path} {
        PathInjective(AGENT_PLUGIN, flags[0], flags[i]);
        PathIsNoGroup(Some(AGENT_PLUGIN), flags[i]);
      }
      FlagsReport(fields, flags[1..], AfterFlag(fields, flags[0], issues), seen + {AGENT_PLUGIN} + {path});
    }
  }

  lemma PathInjective(group: string, a: string, b: string)
    ensures Path(Some(group), a) == Path(Some(group), b) ==> a == b
  {
    assert Path(Some(group), a)[|group| + 1..] == a && Path(Some(group), b)[|group| + 1..] == b;
  }

  /** Whether a name starts as the paths of the agent plugin do. */
  predicate StartsAsPlugin(name: string) {
    |name| > 12 && name[0] == 'a' && name[1] == 'g'
  }

  /** The six paths have six lengths, longer than any group, and none starts as the agent plugin's do. */
  lemma ItemPaths(budgets: Budget.ScaledBudgets)
    ensures var items := GroupItems(budgets);
      && |items| == 6
      && |Path(items[0].group, items[0].field)| == 20 && |Path(items[1].group, items[1].field)| == 18
      && |Path(items[2].group, items[2].field)| == 24 && |Path(items[3].group, items[3].field)| == 19
      && |Path(items[4].group, items[4].field)| == 23 && |Path(items[5].group, items[5].field)| == 27
      && forall i :: 0 <= i < 6 ==>
           && items[i].group.Some? && 6 <= |items[i].group.value| <= 8
           && !StartsAsPlugin(Path(items[i].group, items[i].field))
           && Path(items[i].group, items[i].field)[0] != 'b'
  {
    KeysDiffer();
    GroupKeysDiffer();
    assert |DRAIN_TIMEOUT_MS| == 16 && |STALE_AFTER_SECONDS| == 19;
    assert ARTIFACT[0] == 'a' && ARTIFACT[1] == 'r' && RENDER[0] == 'r';
    hide HandoffRange;
  }

  /** A report on the item may name its path or its group. */
  predicate MayName(item: NumberItem, name: string) {
    name in GroupName(item.group) || name == Path(item.group, item.field)
  }

  lemma {:induction false} NamesAre(items: seq<NumberItem>, name: string)
    requires name in NamesOf(items)
    ensures exists i :: 0 <= i < |items| && MayName(items[i], name)
  {
    hide GroupName, Path;
    if name in GroupName(items[0].group) + {Path(items[0].group, items[0].field)} {
      assert MayName(items[0], name);
    } else {
      NamesAre(items[1..], name);
      var i :| 0 <= i < |items| - 1 && MayName(items[1..][i], name);
      assert items[1..][i] == items[i + 1];
    }
  }

  lemma ItemsApart(budgets: Budget.ScaledBudgets)
    ensures var items := GroupItems(budgets);
      && PathsApart(items)
      && (forall i :: 0 <= i < |items| ==>
            Path(items[i].group, items[i].field) !in {LOG_LEVEL, BUDGET_SCALE_PERCENT, DISABLED_TOOLS})
      && (forall name :: name in NamesOf(items) ==> name != DISABLED_TOOLS && !StartsAsPlugin(name))
  {
    ItemPaths(budgets);
    KeysDiffer();
    assert BUDGET_SCALE_PERCENT[0] == 'b';
    var items := GroupItems(budgets);
    hide GroupItems, Path, NamesOf;
    forall name | name in NamesOf(items) ensures name != DISABLED_TOOLS && !StartsAsPlugin(name) {
      NamesAre(items, name);
    }
  }

  lemma FlagPathsApart()
    ensures NoDuplicates(FLAGS)
    ensures forall i :: 0 <= i < |FLAGS| ==> StartsAsPlugin(Path(Some(AGENT_PLUGIN), FLAGS[i]))
  {
  }

  /** Whatever the document, no issue is reported twice, even about a group of which several items are read. */
  lemma NoIssueTwice(fields: Fields, previous: Settings)
    ensures NoDuplicates(Issues(fields, previous))
  {
    hide AfterNumbers, AfterNumber, AfterFlags, NamesOf, Path, StartsAsPlugin, GroupItems, PathsApart, Percent,
         Budget.Checked, Trim;
    var budgets := ResolveBudgets(Percent(fields), previous);
    var level := AfterLogLevel(fields, []);
    var item := NumberItem(None, BUDGET_SCALE_PERCENT, PERCENT_RANGE);
    TopLevelPath(BUDGET_SCALE_PERCENT);
    KeysDiffer();
    NumberReport(fields, item, level, {LOG_LEVEL});
    var percent := AfterNumber(fields, None, BUDGET_SCALE_PERCENT, PERCENT_RANGE, level);
    ResolveIgnoresPrevious(fields, previous, previous);
    Budget.ShippedIsAccepted(Percent(fields));
    ItemsApart(budgets);
    FlagPathsApart();
    var top := {LOG_LEVEL, BUDGET_SCALE_PERCENT};
    assert {LOG_LEVEL} + GroupName(None) + {BUDGET_SCALE_PERCENT} == top;
    NumbersReport(fields, GroupItems(budgets), percent, top);
    var numbers := AfterNumbers(fields, GroupItems(budgets), percent);
    var seen := top + NamesOf(GroupItems(budgets));
    var tools := AfterTools(fields, numbers);
    ToolsReport(fields, numbers, seen);
    TopLevelNamesApart();
    FlagsReport(fields, FLAGS, tools, seen + {DISABLED_TOOLS});
  }

  lemma TopLevelPath(field: string)
    ensures Path(None, field) == field
  {
  }

  lemma TopLevelNamesApart()
    ensures !StartsAsPlugin(LOG_LEVEL) && !StartsAsPlugin(BUDGET_SCALE_PERCENT) && !StartsAsPlugin(DISABLED_TOOLS)
    ensures DISABLED_TOOLS !in {LOG_LEVEL, BUDGET_SCALE_PERCENT}
  {
  }

  lemma ToolsReport(fields: Fields, issues: seq<Issue>, seen: set<string>)
    requires Reported(issues, seen) && DISABLED_TOOLS !in seen
    ensures Reported(AfterTools(fields, issues), seen + {DISABLED_TOOLS})
  {
    ReportedMore(issues, seen, Issue(DISABLED_TOOLS, TypeMismatch));
  }

  // ----- What is reported -----

  /** A group that is there, is not null and is no object. */
  ghost predicate BadGroup(fields: Fields, group: string) {
    group in fields && !fields[group].Null? && !fields[group].Object?
  }

  /** What there is to say about a numeric item: of its group, of its type, or of its range. */
  ghost predicate NumberComplaint(fields: Fields, group: Option<string>, field: string, min: nat, max: nat,
                                  issue: Issue)
  {
    var path := if group.Some? then group.value + "." + field else field;
    || (group.Some? && BadGroup(fields, group.value) && issue == Issue(group.value, TypeMismatch))
    || match (if group.Some? then At(fields, group.value, field) else Entry(fields, field))
       case None | Some(Null) => false
       case Some(Unsigned(n)) =>
         (n < min && issue == Issue(path, Clamped(n, min))) || (n > max && issue == Issue(path, Clamped(n, max)))
       case Some(_) => issue == Issue(path, TypeMismatch)
  }

  ghost predicate FlagComplaint(fields: Fields, field: string, issue: Issue) {
    || (BadGroup(fields, "agent_plugin") && issue == Issue("agent_plugin", TypeMismatch))
    || match At(fields, "agent_plugin", field)
       case None | Some(Null) | Some(Bool(_)) => false
       case Some(_) => issue == Issue("agent_plugin." + field, TypeMismatch)
  }

  ghost predicate LevelComplaint(fields: Fields, issue: Issue) {
    match Entry<string, Json>(fields, "log_level")
    case None | Some(Null) => false
    case Some(Text(text)) => Blank(text) && issue == Issue("log_level", Unparsable)
    case Some(_) => issue == Issue("log_level", TypeMismatch)
  }

  ghost predicate ToolsComplaint(fields: Fields, issue: Issue) {
    match Entry<string, Json>(fields, "disabled_tools")
    case None | Some(Null) => false
    case Some(Array(items)) =>
      (exists i :: 0 <= i < |items| && !items[i].Text?) && issue == Issue("disabled_tools", TypeMismatch)
    case Some(_) => issue == Issue("disabled_tools", TypeMismatch)
  }

  ghost predicate Complaint(fields: Fields, floor: nat, issue: Issue) {
    || LevelComplaint(fields, issue)
    || ToolsComplaint(fields, issue)
    || NumberComplaint(fields, None, "budget_scale_percent", 10, 400, issue)
    || NumberComplaint(fields, Some("artifact"), "ttl_seconds", 60, 3600, issue)
    || NumberComplaint(fields, Some("artifact"), "max_count", 1, 64, issue)
    || NumberComplaint(fields, Some("artifact"), "max_total_bytes", 33554432, 1073741824, issue)
    || NumberComplaint(fields, Some("handoff"), "ttl_seconds", floor, 1800, issue)
    || NumberComplaint(fields, Some("render"), "drain_timeout_ms", 0, 30000, issue)
    || NumberComplaint(fields, Some("session"), "stale_after_seconds", 600, 86400, issue)
    || FlagComplaint(fields, "generate", issue) || FlagComplaint(fields, "claude", issue)
    || FlagComplaint(fields, "agent_plugins", issue) || FlagComplaint(fields, "skill", issue)
  }

  lemma GroupReports(fields: Fields, group: string, issues: seq<Issue>, issue: Issue)
    ensures issue in AfterGroup(fields, Some(group), issues) <==>
      issue in issues || (BadGroup(fields, group) && issue == Issue(group, TypeMismatch))
  {
  }

  lemma NumberReports(fields: Fields, item: NumberItem, issues: seq<Issue>, issue: Issue)
    requires item.range.min <= item.range.max
    ensures issue in AfterNumber(fields, item.group, item.field, item.range, issues) <==>
      issue in issues || NumberComplaint(fields, item.group, item.field, item.range.min, item.range.max, issue)
  {
    hide AfterGroup;
    if item.group.Some? {
      GroupReports(fields, item.group.value, issues, issue);
    } else {
      NoGroup(fields, issues);
    }
  }

  lemma NoGroup(fields: Fields, issues: seq<Issue>)
    ensures AfterGroup(fields, None, issues) == issues
  {
  }

  lemma {:induction false} NumbersReports(fields: Fields, items: seq<NumberItem>, issues: seq<Issue>, issue: Issue)
    requires forall i :: 0 <= i < |items| ==> items[i].range.min <= items[i].range.max
    ensures issue in AfterNumbers(fields, items, issues) <==>
      || issue in issues
      || exists i :: 0 <= i < |items| && ItemComplaint(fields, items[i], issue)
  {
    hide AfterNumber, ItemComplaint;
    if items != [] {
      var first := items[0];
      FirstReports(fields, first, issues, issue);
      NumbersReports(fields, items[1..], AfterNumber(fields, first.group, first.field, first.range, issues), issue);
      assert forall i :: 0 < i < |items| ==> items[i] == items[1..][i - 1];
    }
  }

  ghost predicate ItemComplaint(fields: Fields, item: NumberItem, issue: Issue) {
    NumberComplaint(fields, item.group, item.field, item.range.min, item.range.max, issue)
  }

  lemma FirstReports(fields: Fields, item: NumberItem, issues: seq<Issue>, issue: Issue)
    requires item.range.min <= item.range.max
    ensures issue in AfterNumber(fields, item.group, item.field, item.range, issues) <==>
      issue in issues || ItemComplaint(fields, item, issue)
  {
    NumberReports(fields, item, issues, issue);
    hide AfterNumber, NumberComplaint;
  }

  lemma FlagReports(fields: Fields, flag: string, issues: seq<Issue>, issue: Issue)
    ensures issue in AfterFlag(fields, flag, issues) <==> issue in issues || FlagComplaint(fields, flag, issue)
  {
    GroupReports(fields, AGENT_PLUGIN, issues, issue);
    assert AGENT_PLUGIN + "." + flag == "agent_plugin." + flag;
    hide AfterGroup;
  }

  lemma FourFlagReports(fields: Fields, issues: seq<Issue>, issue: Issue)
    ensures issue in AfterFlags(fields, FLAGS, issues) <==>
      || issue in issues
      || FlagComplaint(fields, "generate", issue) || FlagComplaint(fields, "claude", issue)
      || FlagComplaint(fields, "agent_plugins", issue) || FlagComplaint(fields, "skill", issue)
  {
    hide AfterFlag, FlagComplaint, AfterFlags;
    FourFlags(fields, issues);
    var generate := AfterFlag(fields, GENERATE, issues);
    var claude := AfterFlag(fields, CLAUDE, generate);
    var plugins := AfterFlag(fields, AGENT_PLUGINS, claude);
    FlagReports(fields, GENERATE, issues, issue);
    FlagReports(fields, CLAUDE, generate, issue);
    FlagReports(fields, AGENT_PLUGINS, claude, issue);
    FlagReports(fields, SKILL, plugins, issue);
  }

  lemma SixItemReports(fields: Fields, budgets: Budget.ScaledBudgets, issues: seq<Issue>, issue: Issue)
    ensures var range := HandoffRange(budgets);
      issue in AfterNumbers(fields, GroupItems(budgets), issues) <==>
      || issue in issues
      || NumberComplaint(fields, Some("artifact"), "ttl_seconds", 60, 3600, issue)
      || NumberComplaint(fields, Some("artifact"), "max_count", 1, 64, issue)
      || NumberComplaint(fields, Some("artifact"), "max_total_bytes", 33554432, 1073741824, issue)
      || NumberComplaint(fields, Some("handoff"), "ttl_seconds", range.min, range.max, issue)
      || NumberComplaint(fields, Some("render"), "drain_timeout_ms", 0, 30000, issue)
      || NumberComplaint(fields, Some("session"), "stale_after_seconds", 600, 86400, issue)
  {
    hide NumberComplaint, AfterNumbers, HandoffRange;
    GroupItemsCount(budgets);
    var items := GroupItems(budgets);
    NumbersReports(fields, items, issues, issue);
    assert (exists i :: 0 <= i < 6 && ItemComplaint(fields, items[i], issue)) <==>
      || ItemComplaint(fields, items[0], issue) || ItemComplaint(fields, items[1], issue)
      || ItemComplaint(fields, items[2], issue) || ItemComplaint(fields, items[3], issue)
      || ItemComplaint(fields, items[4], issue) || ItemComplaint(fields, items[5], issue);
  }

  /** An issue is reported exactly when the document gives cause for it, with the value asked for and the one taken. */
  lemma IssuesMeaning(fields: Fields, previous: Settings, issue: Issue)
    ensures var percent := Resolve(fields, previous).budgets.percent;
      var floor := if percent > 100 then 300 * percent / 1000 else 30;
      issue in Issues(fields, previous) <==> Complaint(fields, floor, issue)
  {
    hide AfterNumbers, AfterNumber, AfterFlags, NumberComplaint, FlagComplaint, LevelComplaint, ToolsComplaint, Percent,
         Budget.Checked, Budget.Build, GroupItems;
    ResolveIgnoresPrevious(fields, previous, previous);
    Budget.ShippedIsAccepted(Percent(fields));
    BuildKeepsPercent(Percent(fields));
    RenderBudget(Percent(fields));
    var budgets := ResolveBudgets(Percent(fields), previous);
    var level := AfterLogLevel(fields, []);
    var item := NumberItem(None, BUDGET_SCALE_PERCENT, PERCENT_RANGE);
    var percent := AfterNumber(fields, None, BUDGET_SCALE_PERCENT, PERCENT_RANGE, level);
    var numbers := AfterNumbers(fields, GroupItems(budgets), percent);
    LevelReports(fields, issue);
    NumberReports(fields, item, level, issue);
    SixItemReports(fields, budgets, percent, issue);
    ToolsReports(fields, numbers, issue);
    FourFlagReports(fields, AfterTools(fields, numbers), issue);
    hide AfterLogLevel, AfterTools;
  }

  lemma LevelReports(fields: Fields, issue: Issue)
    ensures issue in AfterLogLevel(fields, []) <==> LevelComplaint(fields, issue)
  {
    hide Trim, Blank;
    if LOG_LEVEL in fields && fields[LOG_LEVEL].Text? {
      TrimmedAway(fields[LOG_LEVEL].text);
    }
  }

  lemma ToolsReports(fields: Fields, issues: seq<Issue>, issue: Issue)
    ensures issue in AfterTools(fields, issues) <==> issue in issues || ToolsComplaint(fields, issue)
  {
  }
}
