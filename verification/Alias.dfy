/**
 Admitting the rows of an alias given as text. The tables of a parsed alias are walked with an
 explicit stack, so that their depth is not the depth of the call stack; the walk must report what
 a plain reading of the rows in order would.
 */
module Alias {
  import opened Wrappers
  import opened Sequences
  import opened Strings
  import opened Bytes
  import opened DataModel
  import opened Validation
  import opened Decimals
  import opened TrackLines
  import opened TrackValues

  /** A parsed table: its rows, and its subtables by name. */
  datatype Table = Table(values: seq<(string, string)>, subtables: Subtables)

  datatype Subtables = NoTables | Subtable(name: string, table: Table, rest: Subtables)

  type EffectItems = string -> Option<seq<AvailableEffectItem>>

  datatype AliasRowRejection = NotParsable | RejectedRow(heading: Option<string>, item: string, source: ItemWriteError)

  const EFFECT_NAME_KEY: string := "effect.name"
  const FRAME_KEY: string := "frame"

  function GetValue(values: seq<(string, string)>, key: string): Option<string> {
    if values == [] then None
    else if values[0].0 == key then Some(values[0].1)
    else GetValue(values[1..], key)
  }

  /** How many sections a table states: one fewer than the boundaries its frame row lists. */
  function SectionCount(table: Table): Option<nat> {
    match GetValue(table.values, FRAME_KEY)
    case None => None
    case Some(frame) =>
      var boundaries := |Split(frame, ',')|;
      if boundaries > 1 then Some(boundaries - 1) else None
  }

  /** A row is looked up by the first row of that key. */
  lemma {:induction false} FirstRowDecides(values: seq<(string, string)>, key: string, k: nat)
    requires k < |values| && values[k].0 == key && forall j :: 0 <= j < k ==> values[j].0 != key
    ensures GetValue(values, key) == Some(values[k].1)
  {
    if k > 0 {
      FirstRowDecides(values[1..], key, k - 1);
    }
  }

  lemma {:induction false} NoSuchRow(values: seq<(string, string)>, key: string)
    ensures GetValue(values, key) == None <==> forall j :: 0 <= j < |values| ==> values[j].0 != key
  {
    if values != [] {
      NoSuchRow(values[1..], key);
      assert forall j :: 0 < j < |values| ==> values[j] == values[1..][j - 1];
    }
  }

  /** A table whose first frame row is row `k`, listing these boundaries. */
  ghost predicate ListsBoundaries(table: Table, k: nat, boundaries: seq<string>) {
    && k < |table.values| && table.values[k].0 == "frame"
    && (forall j :: 0 <= j < k ==> table.values[j].0 != "frame")
    && boundaries != [] && Excludes(boundaries, ',') && table.values[k].1 == Join(boundaries, ',')
  }

  /** n + 1 boundaries enclose n sections; a single one encloses none, and then no count is stated. */
  lemma SectionsStated(table: Table, k: nat, boundaries: seq<string>)
    requires ListsBoundaries(table, k, boundaries)
    ensures SectionCount(table) == if |boundaries| >= 2 then Some(|boundaries| - 1) else None
  {
    FirstRowDecides(table.values, "frame", k);
    SplitJoin(boundaries, ',');
    hide GetValue, Split;
  }

  lemma NoSectionsStated(table: Table)
    requires forall j :: 0 <= j < |table.values| ==> table.values[j].0 != "frame"
    ensures SectionCount(table) == None
  {
    NoSuchRow(table.values, "frame");
  }

  function ChildHeading(parent: Option<string>, name: string): string {
    match parent
    case Some(parent) => parent + "." + name
    case None => name
  }

  // ----- Checking one row -----

  /** Later entries of the same name replace earlier ones. */
  function TypesByName(items: seq<AvailableEffectItem>): map<string, EffectItemType> {
    if items == [] then map[]
    else TypesByName(items[..|items| - 1])[items[|items| - 1].name := items[|items| - 1].itemType]
  }

  /** A name listed more than once has the type of its last entry. */
  lemma {:induction false} LastEntryDecides(items: seq<AvailableEffectItem>, name: string, k: nat)
    requires k < |items| && items[k].name == name && forall j :: k < j < |items| ==> items[j].name != name
    ensures name in TypesByName(items) && TypesByName(items)[name] == items[k].itemType
  {
    if k < |items| - 1 {
      LastEntryDecides(items[..|items| - 1], name, k);
    }
  }

  /** The table holds a type for exactly the names listed. */
  lemma {:induction false} NamesListed(items: seq<AvailableEffectItem>, name: string)
    ensures name in TypesByName(items) <==> exists k :: 0 <= k < |items| && items[k].name == name
  {
    if items != [] {
      var last := |items| - 1;
      NamesListed(items[..last], name);
      assert forall k :: 0 <= k < last ==> items[k] == items[..last][k];
    }
  }

  function TypesOf(lookup: EffectItems, effect: string): Option<map<string, EffectItemType>> {
    match lookup(effect)
    case None => None
    case Some(items) => Some(TypesByName(items))
  }

  function ItemTypeOf(lookup: EffectItems, effect: string, item: string): Option<EffectItemType> {
    match TypesOf(lookup, effect)
    case None => None
    case Some(types) => if item in types then Some(types[item]) else None
  }

  function TrackTarget(track: Track, sections: Option<nat>, movements: seq<Movement>): TrackWriteTarget {
    var fallback := if track.values == [] then 0 else |track.values| - 1;
    TrackWriteTarget(if sections.Some? then sections.value else fallback, movements)
  }

  function AdmitTrackRow(value: string, sections: Option<nat>, movements: seq<Movement>): Outcome<ItemWriteError> {
    match Decode(value)
    case Ok(track) => ValidateTrackValue(track, TrackTarget(track, sections, movements))
    case Err(NotAMovement) => Pass
    case Err(NotRepresentable(cause)) => Fail(TrackError(AsWriteError(cause)))
  }

  function AdmitText(value: string, itemType: Option<EffectItemType>): Outcome<ItemWriteError> {
    if itemType !in {Some(TextItem), Some(StringItem)} || PairedEscapes(value) then Pass
    else Fail(TextError(UnescapedBackslash))
  }

  /** A row with everything its table and the tables above it say about it. */
  datatype Row = Row(
    heading: Option<string>,
    item: string,
    value: string,
    sections: Option<nat>,
    effect: Option<string>
  )

  datatype Rules = Rules(movements: seq<Movement>, lookup: EffectItems)

  function CheckRow(row: Row, rules: Rules): Outcome<ItemWriteError> {
    var track := AdmitTrackRow(row.value, row.sections, rules.movements);
    if track.Fail? || row.effect.None? then track
    else AdmitText(row.value, ItemTypeOf(rules.lookup, row.effect.value, row.item))
  }

  /** A row fails as a movement before it fails as text, and as text only by its escapes. */
  lemma RowRefusals(row: Row, rules: Rules)
    ensures var movement := AdmitTrackRow(row.value, row.sections, rules.movements);
      var itemType := if row.effect.Some? then ItemTypeOf(rules.lookup, row.effect.value, row.item) else None;
      CheckRow(row, rules) ==
        if movement.Fail? then movement
        else if itemType in {Some(TextItem), Some(StringItem)} && !PairedEscapes(row.value) then
          Fail(TextError(UnescapedBackslash))
        else Pass
  {
    hide AdmitTrackRow, ItemTypeOf, PairedEscapes;
  }

  // ----- The rows in order -----

  function OwnRows(table: Table, heading: Option<string>, sections: Option<nat>): (rows: seq<Row>)
    ensures |rows| == |table.values|
  {
    seq(|table.values|, i requires 0 <= i < |table.values| =>
      Row(heading, table.values[i].0, table.values[i].1, sections, GetValue(table.values, EFFECT_NAME_KEY)))
  }

  function NearestSections(table: Table, inherited: Option<nat>): Option<nat> {
    if SectionCount(table).Some? then SectionCount(table) else inherited
  }

  /** A table's rows, then those of its subtables, each subtable whole before the next. */
  function Rows(table: Table, heading: Option<string>, inherited: Option<nat>): seq<Row>
    decreases table
  {
    var sections := NearestSections(table, inherited);
    OwnRows(table, heading, sections) + ChildRows(table.subtables, heading, sections)
  }

  function ChildRows(tables: Subtables, heading: Option<string>, sections: Option<nat>): seq<Row>
    decreases tables
  {
    match tables
    case NoTables => []
    case Subtable(name, table, rest) =>
      Rows(table, Some(ChildHeading(heading, name)), sections) + ChildRows(rest, heading, sections)
  }

  function Joined(a: Subtables, b: Subtables): Subtables {
    match a
    case NoTables => b
    case Subtable(name, table, rest) => Subtable(name, table, Joined(rest, b))
  }

  /** A table's own rows come first, as they are written, and then its subtables one after the other. */
  lemma ReadingOrder(table: Table, heading: Option<string>, inherited: Option<nat>, more: Subtables)
    ensures var rows, n := Rows(table, heading, inherited), |table.values|;
      && n <= |rows| && rows[n..] == ChildRows(table.subtables, heading, NearestSections(table, inherited))
      && forall i :: 0 <= i < n ==>
           && (rows[i].item, rows[i].value) == table.values[i] && rows[i].heading == heading
           && rows[i].effect == GetValue(table.values, "effect.name")
    ensures ChildRows(Joined(table.subtables, more), heading, inherited)
         == ChildRows(table.subtables, heading, inherited) + ChildRows(more, heading, inherited)
  {
    JoinedRows(table.subtables, more, heading, inherited);
    hide ChildRows, SectionCount, GetValue;
  }

  lemma {:induction false} JoinedRows(a: Subtables, b: Subtables, heading: Option<string>, sections: Option<nat>)
    ensures ChildRows(Joined(a, b), heading, sections)
         == ChildRows(a, heading, sections) + ChildRows(b, heading, sections)
  {
    hide Rows;
    match a
    case NoTables =>
    case Subtable(name, table, rest) =>
      JoinedRows(rest, b, heading, sections);
      Associates(Rows(table, Some(ChildHeading(heading, name)), sections), ChildRows(rest, heading, sections),
                 ChildRows(b, heading, sections));
  }

  /** The outcome of checking rows one after the other up to the first that fails. */
  function FirstRejection(rows: seq<Row>, rules: Rules): Outcome<AliasRowRejection> {
    if rows == [] then Pass
    else
      match CheckRow(rows[0], rules)
      case Fail(source) => Fail(RejectedRow(rows[0].heading, rows[0].item, source))
      case Pass => FirstRejection(rows[1..], rules)
  }

  lemma {:induction false} FirstRejectionConcat(a: seq<Row>, b: seq<Row>, rules: Rules)
    ensures FirstRejection(a + b, rules)
         == if FirstRejection(a, rules).Fail? then FirstRejection(a, rules) else FirstRejection(b, rules)
  {
    hide CheckRow;
    if a == [] {
      assert a + b == b;
    } else {
      assert (a + b)[1..] == a[1..] + b;
      FirstRejectionConcat(a[1..], b, rules);
    }
  }

  // ----- The memo over effect names -----

  class ItemTypes {
    const lookup: EffectItems
    var known: map<string, Option<map<string, EffectItemType>>>
    /** The names the lookup was asked for, in order. */
    ghost var queried: seq<string>

    ghost predicate Valid()
      reads this
    {
      && (forall effect :: effect in known ==> known[effect] == TypesOf(lookup, effect))
      && NoDuplicates(queried)
      && (forall effect :: effect in queried <==> effect in known)
    }

    constructor (lookup: EffectItems)
      ensures Valid() && this.lookup == lookup && queried == []
    {
      this.lookup := lookup;
      known := map[];
      queried := [];
    }

    /** Answers as the lookup would, asking it at most once for each effect. */
    method Of(effect: string, item: string) returns (itemType: Option<EffectItemType>)
      requires Valid()
      modifies this
      ensures Valid()
      ensures itemType == ItemTypeOf(lookup, effect, item)
      ensures queried == if effect in old(queried) then old(queried) else old(queried) + [effect]
    {
      if effect !in known {
        known := known[effect := TypesOf(lookup, effect)];
        queried := queried + [effect];
      }
      match known[effect] {
        case None => return None;
        case Some(types) => return if item in types then Some(types[item]) else None;
      }
    }
  }

  // ----- The walk -----

  /** What the walk brings to a table. */
  datatype Visit = Visit(heading: Option<string>, table: Table, inherited: Option<nat>)

  function VisitRows(visit: Visit): seq<Row> {
    Rows(visit.table, visit.heading, visit.inherited)
  }

  /** The rows still to come, the top of the stack being its last element. */
  function StackRows(stack: seq<Visit>): seq<Row> {
    if stack == [] then []
    else VisitRows(stack[|stack| - 1]) + StackRows(stack[..|stack| - 1])
  }

  function ChildVisits(tables: Subtables, heading: Option<string>, sections: Option<nat>): seq<Visit> {
    match tables
    case NoTables => []
    case Subtable(name, table, rest) =>
      [Visit(Some(ChildHeading(heading, name)), table, sections)] + ChildVisits(rest, heading, sections)
  }

  function Reversed<T>(s: seq<T>): seq<T> {
    if s == [] then [] else Reversed(s[1..]) + [s[0]]
  }

  /** How many tables are left to visit. */
  function NodeCount(table: Table): nat
    decreases table
  {
    1 + ChildCount(table.subtables)
  }

  function ChildCount(tables: Subtables): nat
    decreases tables
  {
    match tables
    case NoTables => 0
    case Subtable(_, table, rest) => NodeCount(table) + ChildCount(rest)
  }

  function StackCount(stack: seq<Visit>): nat {
    if stack == [] then 0 else NodeCount(stack[|stack| - 1].table) + StackCount(stack[..|stack| - 1])
  }

  /** Children pushed in reverse are visited in order, before whatever was below them. */
  lemma {:induction false} PushChildren(stack: seq<Visit>, tables: Subtables, heading: Option<string>,
                                        sections: Option<nat>)
    ensures var pushed := stack + Reversed(ChildVisits(tables, heading, sections));
      && StackRows(pushed) == ChildRows(tables, heading, sections) + StackRows(stack)
      && StackCount(pushed) == ChildCount(tables) + StackCount(stack)
    decreases tables
  {
    var pushed := stack + Reversed(ChildVisits(tables, heading, sections));
    match tables
    case NoTables =>
      assert pushed == stack;
    case Subtable(name, table, rest) =>
      var first := Visit(Some(ChildHeading(heading, name)), table, sections);
      var below := stack + Reversed(ChildVisits(rest, heading, sections));
      PushChildren(stack, rest, heading, sections);
      assert ChildVisits(tables, heading, sections)[1..] == ChildVisits(rest, heading, sections);
      assert pushed == below + [first];
      assert pushed[..|pushed| - 1] == below;
      Associates(VisitRows(first), ChildRows(rest, heading, sections), StackRows(stack));
  }

  /** The checks of one row, its type looked up through the memo and its escapes scanned. */
  method AdmitRow(row: Row, rules: Rules, types: ItemTypes) returns (r: Outcome<ItemWriteError>)
    requires types.Valid() && types.lookup == rules.lookup
    modifies types
    ensures types.Valid() && r == CheckRow(row, rules)
    ensures forall effect :: effect in types.queried ==> effect in old(types.queried) || row.effect == Some(effect)
  {
    r := AdmitTrackRow(row.value, row.sections, rules.movements);
    if r.Fail? || row.effect.None? {
      return;
    }
    var itemType := types.Of(row.effect.value, row.item);
    if itemType !in {Some(TextItem), Some(StringItem)} {
      return Pass;
    }
    var escapes := ValidateAliasTextEscapes(row.value);
    return if escapes.Fail? then Fail(TextError(escapes.error)) else Pass;
  }

  /** Whether every name the memo asked about is named by some row of the alias. */
  ghost predicate NamedByRows(names: seq<string>, rows: seq<Row>) {
    forall effect :: effect in names ==> exists i :: 0 <= i < |rows| && rows[i].effect == Some(effect)
  }

  /** The rows of one table, in order. */
  method AdmitTable(visit: Visit, rules: Rules, types: ItemTypes) returns (r: Outcome<AliasRowRejection>)
    requires types.Valid() && types.lookup == rules.lookup
    modifies types
    ensures types.Valid()
    ensures var sections := NearestSections(visit.table, visit.inherited);
      r == FirstRejection(OwnRows(visit.table, visit.heading, sections), rules)
    ensures forall effect :: effect in types.queried ==>
      effect in old(types.queried) || GetValue(visit.table.values, EFFECT_NAME_KEY) == Some(effect)
  {
    hide CheckRow, TypesOf, ItemTypeOf, SectionCount, NoDuplicates;
    var sections := NearestSections(visit.table, visit.inherited);
    var effect := GetValue(visit.table.values, EFFECT_NAME_KEY);
    ghost var rows := OwnRows(visit.table, visit.heading, sections);
    for next := 0 to |visit.table.values|
      invariant types.Valid()
      invariant FirstRejection(rows, rules) == FirstRejection(rows[next..], rules)
      invariant forall name :: name in types.queried ==> name in old(types.queried) || effect == Some(name)
    {
      var (item, value) := visit.table.values[next];
      var checked := AdmitRow(Row(visit.heading, item, value, sections, effect), rules, types);
      assert rows[next..][0] == rows[next] && rows[next..][1..] == rows[next + 1..];
      if checked.Fail? {
        return Fail(RejectedRow(visit.heading, item, checked.error));
      }
    }
    return Pass;
  }

  /**
   The stack walk reports exactly the first failing row of the alias read top to bottom, with its own
   heading, and asks about each effect name at most once.
   */
  method AdmitRows(parsed: Option<Table>, movements: seq<Movement>, lookup: EffectItems)
    returns (r: Outcome<AliasRowRejection>, ghost queried: seq<string>)
    ensures parsed.None? ==> r == Fail(NotParsable)
    ensures parsed.Some? ==> r == FirstRejection(Rows(parsed.value, None, None), Rules(movements, lookup))
    ensures NoDuplicates(queried)
    ensures parsed.Some? ==> NamedByRows(queried, Rows(parsed.value, None, None))
  {
    queried := [];
    if parsed.None? {
      return Fail(NotParsable), [];
    }
    var rules := Rules(movements, lookup);
    var types := new ItemTypes(lookup);
    var stack := [Visit(None, parsed.value, None)];
    ghost var all := Rows(parsed.value, None, None);
    ghost var done: seq<Row> := [];
    assert StackRows(stack) == all + StackRows([]) == all;
    while stack != []
      invariant types.Valid() && fresh(types) && types.lookup == lookup
      invariant done + StackRows(stack) == all
      invariant FirstRejection(StackRows(stack), rules) == FirstRejection(all, rules)
      invariant NamedByRows(types.queried, done)
      decreases StackCount(stack)
    {
      var visit := stack[|stack| - 1];
      stack := stack[..|stack| - 1];
      var sections := NearestSections(visit.table, visit.inherited);
      ghost var own := OwnRows(visit.table, visit.heading, sections);
      ghost var ahead := ChildRows(visit.table.subtables, visit.heading, sections) + StackRows(stack);
      Associates(own, ChildRows(visit.table.subtables, visit.heading, sections), StackRows(stack));
      FirstRejectionConcat(own, ahead, rules);
      var checked := AdmitTable(visit, rules, types);
      OwnRowsName(types.queried, done, visit, sections);
      if checked.Fail? {
        NamedByMore(types.queried, done + own, ahead);
        Associates(done, own, ahead);
        return checked, types.queried;
      }
      PushChildren(stack, visit.table.subtables, visit.heading, sections);
      stack := stack + Reversed(ChildVisits(visit.table.subtables, visit.heading, sections));
      Associates(done, own, ahead);
      done := done + own;
    }
    assert done + [] == done;
    return Pass, types.queried;
  }

  lemma OwnRowsName(names: seq<string>, done: seq<Row>, visit: Visit, sections: Option<nat>)
    requires forall effect :: effect in names ==>
      (exists i :: 0 <= i < |done| && done[i].effect == Some(effect))
      || GetValue(visit.table.values, EFFECT_NAME_KEY) == Some(effect)
    ensures NamedByRows(names, done + OwnRows(visit.table, visit.heading, sections))
  {
    var rows := done + OwnRows(visit.table, visit.heading, sections);
    forall effect | effect in names
      ensures exists i :: 0 <= i < |rows| && rows[i].effect == Some(effect)
    {
      if i :| 0 <= i < |done| && done[i].effect == Some(effect) {
        assert rows[i].effect == Some(effect);
      } else {
        assert rows[|done|].effect == Some(effect);
      }
    }
  }

  lemma NamedByMore(names: seq<string>, rows: seq<Row>, more: seq<Row>)
    requires NamedByRows(names, rows)
    ensures NamedByRows(names, rows + more)
  {
    forall effect | effect in names
      ensures exists i :: 0 <= i < |rows + more| && (rows + more)[i].effect == Some(effect)
    {
      var i :| 0 <= i < |rows| && rows[i].effect == Some(effect);
      assert (rows + more)[i].effect == Some(effect);
    }
  }

  // ----- Where a row comes from -----

  /** A step from a table into one of its subtables. */
  datatype Step = Step(name: string, table: Table)

  predicate HasSubtable(tables: Subtables, step: Step) {
    match tables
    case NoTables => false
    case Subtable(name, table, rest) => (name == step.name && table == step.table) || HasSubtable(rest, step)
  }

  /** A chain of steps down from `table`. */
  predicate Chain(table: Table, path: seq<Step>)
    decreases |path|
  {
    path == [] || (HasSubtable(table.subtables, path[0]) && Chain(path[0].table, path[1..]))
  }

  function Bottom(table: Table, path: seq<Step>): Table {
    if path == [] then table else path[|path| - 1].table
  }

  /** The names along a chain, joined by dots. */
  function PathHeading(path: seq<Step>): Option<string> {
    if path == [] then None else Some(Join(StepNames(path), '.'))
  }

  function StepNames(path: seq<Step>): (names: seq<string>)
    ensures |names| == |path|
  {
    if path == [] then [] else [path[0].name] + StepNames(path[1..])
  }

  /** The section count of the lowest table of a chain that states one. */
  function LowestSections(table: Table, path: seq<Step>): Option<nat> {
    if path == [] then SectionCount(table)
    else if SectionCount(Bottom(table, path)).Some? then SectionCount(Bottom(table, path))
    else LowestSections(table, path[..|path| - 1])
  }

  function Prefixed(heading: Option<string>, path: seq<Step>): Option<string> {
    match (heading, PathHeading(path))
    case (None, below) => below
    case (_, None) => heading
    case (Some(above), Some(below)) => Some(above + "." + below)
  }

  /** `row` is a row of the table at the end of `path`, headed by the path and governed by its lowest section count. */
  ghost predicate ComesFrom(row: Row, table: Table, path: seq<Step>, heading: Option<string>, inherited: Option<nat>) {
    && Chain(table, path)
    && (row.item, row.value) in Bottom(table, path).values
    && row.effect == GetValue(Bottom(table, path).values, EFFECT_NAME_KEY)
    && row.heading == Prefixed(heading, path)
    && row.sections == (if LowestSections(table, path).Some? then LowestSections(table, path) else inherited)
  }

  lemma LowestSectionsBelow(table: Table, path: seq<Step>)
    requires path != []
    ensures LowestSections(table, path)
         == if LowestSections(path[0].table, path[1..]).Some? then LowestSections(path[0].table, path[1..])
            else SectionCount(table)
  {
    hide SectionCount;
    if |path| > 1 {
      LowestSectionsBelow(table, path[..|path| - 1]);
      assert path[..|path| - 1][1..] == path[1..][..|path| - 2];
    } else {
      assert path[..0] == [];
    }
  }

  lemma PrefixedBelow(heading: Option<string>, path: seq<Step>)
    requires path != []
    ensures Prefixed(Some(ChildHeading(heading, path[0].name)), path[1..]) == Prefixed(heading, path)
  {
    if |path| > 1 {
      assert StepNames(path)[1..] == StepNames(path[1..]);
      var below := Join(StepNames(path[1..]), '.');
      if heading.Some? {
        assert heading.value + "." + path[0].name + "." + below == heading.value + "." + (path[0].name + "." + below);
      }
    }
  }

  /** Every row of the reading comes from a table of the alias, with that table's heading and nearest section count. */
  lemma {:induction false} RowOrigin(table: Table, heading: Option<string>, inherited: Option<nat>, k: nat)
    returns (path: seq<Step>)
    requires k < |Rows(table, heading, inherited)|
    ensures ComesFrom(Rows(table, heading, inherited)[k], table, path, heading, inherited)
    decreases table
  {
    hide SectionCount, GetValue;
    var sections := NearestSections(table, inherited);
    if k < |table.values| {
      path := [];
    } else {
      path := ChildRowOrigin(table.subtables, heading, sections, k - |table.values|);
      LowestSectionsBelow(table, path);
    }
  }

  lemma {:induction false} ChildRowOrigin(tables: Subtables, heading: Option<string>, sections: Option<nat>, k: nat)
    returns (path: seq<Step>)
    requires k < |ChildRows(tables, heading, sections)|
    ensures path != [] && HasSubtable(tables, path[0])
    ensures Chain(path[0].table, path[1..])
    ensures var row := ChildRows(tables, heading, sections)[k];
      var bottom := Bottom(path[0].table, path[1..]);
      && bottom == path[|path| - 1].table
      && (row.item, row.value) in bottom.values && row.effect == GetValue(bottom.values, EFFECT_NAME_KEY)
      && row.heading == Prefixed(heading, path)
      && var lowest := LowestSections(path[0].table, path[1..]);
         row.sections == if lowest.Some? then lowest else sections
    decreases tables
  {
    hide SectionCount, GetValue, LowestSections, Prefixed;
    var rows := Rows(tables.table, Some(ChildHeading(heading, tables.name)), sections);
    if k < |rows| {
      var below := RowOrigin(tables.table, Some(ChildHeading(heading, tables.name)), sections, k);
      path := [Step(tables.name, tables.table)] + below;
      assert path[1..] == below;
      PrefixedBelow(heading, path);
    } else {
      path := ChildRowOrigin(tables.rest, heading, sections, k - |rows|);
    }
  }

  /** The row a table at the end of a chain contributes. */
  function RowAt(table: Table, path: seq<Step>, heading: Option<string>, inherited: Option<nat>, j: nat): Row
    requires j < |Bottom(table, path).values|
  {
    var bottom := Bottom(table, path);
    Row(Prefixed(heading, path), bottom.values[j].0, bottom.values[j].1,
        if LowestSections(table, path).Some? then LowestSections(table, path) else inherited,
        GetValue(bottom.values, EFFECT_NAME_KEY))
  }

  /** No row of any table of the alias is left out of the reading. */
  lemma {:induction false} RowReached(table: Table, heading: Option<string>, inherited: Option<nat>, path: seq<Step>,
                                      j: nat)
    returns (k: nat)
    requires Chain(table, path) && j < |Bottom(table, path).values|
    ensures k < |Rows(table, heading, inherited)|
    ensures Rows(table, heading, inherited)[k] == RowAt(table, path, heading, inherited, j)
    decreases |path|
  {
    hide SectionCount, GetValue, ChildRows;
    if path == [] {
      k := j;
    } else {
      var sections := NearestSections(table, inherited);
      var below := RowReached(path[0].table, Some(ChildHeading(heading, path[0].name)), sections, path[1..], j);
      k := ChildRowReached(table.subtables, heading, sections, path[0], below);
      LowestSectionsBelow(table, path);
      PrefixedBelow(heading, path);
      hide LowestSections, Prefixed;
      k := k + |table.values|;
    }
  }

  lemma {:induction false} ChildRowReached(tables: Subtables, heading: Option<string>, sections: Option<nat>,
                                           step: Step, below: nat)
    returns (k: nat)
    requires HasSubtable(tables, step)
    requires below < |Rows(step.table, Some(ChildHeading(heading, step.name)), sections)|
    ensures k < |ChildRows(tables, heading, sections)|
    ensures ChildRows(tables, heading, sections)[k]
         == Rows(step.table, Some(ChildHeading(heading, step.name)), sections)[below]
    decreases tables
  {
    hide Rows;
    if step == Step(tables.name, tables.table) {
      k := below;
    } else {
      k := ChildRowReached(tables.rest, heading, sections, step, below);
      k := k + |Rows(tables.table, Some(ChildHeading(heading, tables.name)), sections)|;
    }
  }

  // ----- What admission means -----

  /** The row does not read as a movement, or reads as one its target can take. */
  ghost predicate MovementAdmissible(value: string, sections: Option<nat>, movements: seq<Movement>) {
    && !SpellsNoExpression(value) && !SpellsTooFewValues(value)
    && forall track: Track :: track.mode.Some? && Spells(value, track) ==> TrackAdmissible(track, sections, movements)
  }

  predicate TrackAdmissible(track: Track, sections: Option<nat>, movements: seq<Movement>)
    requires track.mode.Some?
  {
    && WithinItemBytes(track.mode) && WithinItemBytes(track.expression)
    && (sections.Some? ==> |track.values| == sections.value + 1)
    && FindMovement(movements, track.mode.value).Some?
    && FindMovement(movements, track.mode.value).value.writable
  }

  ghost predicate RowAdmissible(row: Row, rules: Rules) {
    && MovementAdmissible(row.value, row.sections, rules.movements)
    && (row.effect.Some? && ItemTypeOf(rules.lookup, row.effect.value, row.item) in {Some(TextItem), Some(StringItem)}
        ==> PairedEscapes(row.value))
  }

  lemma TrackRowMeaning(value: string, sections: Option<nat>, movements: seq<Movement>)
    ensures AdmitTrackRow(value, sections, movements).Pass? <==> MovementAdmissible(value, sections, movements)
  {
    hide Decode, ValidateTrackSyntax, WithinItemBytes, Render, Spells, SpellsNoExpression, SpellsTooFewValues;
    DecodeMeaning(value);
    match Decode(value) {
      case Ok(track) =>
        var target := TrackTarget(track, sections, movements);
        DecodedMeetsSyntax(value, track);
        DecodedIsWritable(value, track, target);
        EncodeSucceeds(track, target);
        if track.mode.None? {
          DecodedKinds(value);
          StaticMeetsSyntax(track.values[0]);
        }
        assert Spells(value, track);
        forall other | Spells(value, other) ensures other == track {
          assert Decode(value) == Ok(other);
        }
      case Err(NotAMovement) =>
      case Err(NotRepresentable(NoExpression)) =>
      case Err(NotRepresentable(TooFewValues)) =>
    }
  }

  /** A row that reads as a movement but cannot be one is refused under the name of what it lacks. */
  lemma UnrepresentableRows(value: string, sections: Option<nat>, movements: seq<Movement>)
    ensures var admitted := AdmitTrackRow(value, sections, movements);
      && (SpellsNoExpression(value) ==> admitted == Fail(TrackError(ExpressionMissing)))
      && (SpellsTooFewValues(value) ==> admitted == Fail(TrackError(ValueCount(2, 1))))
  {
    hide Decode;
    DecodeNoExpression(value);
    DecodeTooFewValues(value);
  }

  /**
   In an alias whose only table lists n + 1 boundaries, a row that spells a writable movement is
   admitted exactly when it has n + 1 values.
   */
  lemma ValuesMatchBoundaries(boundaries: seq<string>, item: string, value: string, track: Track, rules: Rules)
    requires |boundaries| >= 2 && Excludes(boundaries, ',')
    requires !ReadsAsMovement(Join(boundaries, ','))
    requires item !in {"frame", "effect.name"} && track.mode.Some? && Spells(value, track)
    requires TrackAdmissible(track, None, rules.movements)
    ensures var root := Table([("frame", Join(boundaries, ',')), (item, value)], NoTables);
      FirstRejection(Rows(root, None, None), rules).Pass? <==> |track.values| == |boundaries|
  {
    hide Decode, Spells, SpellsNoExpression, SpellsTooFewValues;
    var frame := ("frame", Join(boundaries, ','));
    var values := [frame, (item, value)];
    var root := Table(values, NoTables);
    SectionsStated(root, 0, boundaries);
    NoSuchRow(values, "effect.name");
    var sections := Some(|boundaries| - 1);
    var rows := [Row(None, "frame", frame.1, sections, None), Row(None, item, value, sections, None)];
    assert Rows(root, None, None) == OwnRows(root, None, sections) + [] == rows;
    AdmissionMeaning(rows, rules);
    OnlyTrack(value, track);
    assert RowAdmissible(rows[0], rules);
    assert RowAdmissible(rows[1], rules) <==> |track.values| == |boundaries|;
  }

  /** The text spells a movement, whole or not. */
  ghost predicate ReadsAsMovement(value: string) {
    || SpellsNoExpression(value) || SpellsTooFewValues(value)
    || exists track: Track :: track.mode.Some? && Spells(value, track)
  }

  lemma OnlyTrack(value: string, track: Track)
    requires Spells(value, track)
    ensures !SpellsNoExpression(value) && !SpellsTooFewValues(value)
    ensures forall other :: Spells(value, other) ==> other == track
  {
    hide Decode, Spells, SpellsNoExpression, SpellsTooFewValues;
    DecodeMeaning(value);
    assert Decode(value) == Ok(track);
    forall other | Spells(value, other) ensures other == track {
      assert Decode(value) == Ok(other);
    }
  }

  /** An admitted movement is one this target could be written with, up to the length of its line. */
  lemma AdmittedIsWritable(value: string, sections: Option<nat>, movements: seq<Movement>)
    requires AdmitTrackRow(value, sections, movements).Pass? && Decode(value).Ok?
    ensures var track := Decode(value).value;
      && track.values != []
      && (Encode(track, TrackTarget(track, sections, movements)).Ok? <==> |Utf8(Render(track))| <= MAX_ITEM_VALUE_BYTES)
  {
    hide Decode, ValidateTrackSyntax, Render, FitsTarget;
    var track := Decode(value).value;
    var target := TrackTarget(track, sections, movements);
    DecodedIsWritable(value, track, target);
    EncodeSucceeds(track, target);
  }

  /** An alias is admitted exactly when every one of its rows is. */
  lemma {:induction false} AdmissionMeaning(rows: seq<Row>, rules: Rules)
    ensures FirstRejection(rows, rules).Pass? <==> forall i :: 0 <= i < |rows| ==> RowAdmissible(rows[i], rules)
  {
    hide RowAdmissible, CheckRow;
    if rows != [] {
      CheckedRowMeaning(rows[0], rules);
      AdmissionMeaning(rows[1..], rules);
      assert forall i :: 0 < i < |rows| ==> rows[i] == rows[1..][i - 1];
    }
  }

  lemma CheckedRowMeaning(row: Row, rules: Rules)
    ensures CheckRow(row, rules).Pass? <==> RowAdmissible(row, rules)
  {
    hide AdmitTrackRow, MovementAdmissible, ItemTypeOf, PairedEscapes;
    TrackRowMeaning(row.value, row.sections, rules.movements);
  }

  /**
   The same on the tree: every row of every table at the end of a chain of subtables is admissible
   under the section count of the lowest table on the chain that states one.
   */
  lemma AliasAdmission(root: Table, rules: Rules)
    ensures FirstRejection(Rows(root, None, None), rules).Pass? <==>
      forall row, path :: ComesFrom(row, root, path, None, None) ==> RowAdmissible(row, rules)
  {
    hide RowAdmissible, FirstRejection, Rows, SectionCount, GetValue, LowestSections, Prefixed, Chain;
    var rows := Rows(root, None, None);
    AdmissionMeaning(rows, rules);
    forall row, path | ComesFrom(row, root, path, None, None) ensures row in rows {
      var j :| 0 <= j < |Bottom(root, path).values| && Bottom(root, path).values[j] == (row.item, row.value);
      var k := RowReached(root, None, None, path, j);
      assert rows[k] == row;
    }
    forall k | 0 <= k < |rows| ensures exists path :: ComesFrom(rows[k], root, path, None, None) {
      var path := RowOrigin(root, None, None, k);
    }
  }

  /** A rejection names the first inadmissible row, with the failure of its own check. */
  lemma {:induction false} RejectionIsFirst(rows: seq<Row>, rules: Rules) returns (k: nat)
    requires FirstRejection(rows, rules).Fail?
    ensures k < |rows| && forall i :: 0 <= i < k ==> RowAdmissible(rows[i], rules)
    ensures CheckRow(rows[k], rules).Fail? && !RowAdmissible(rows[k], rules)
    ensures FirstRejection(rows, rules).error
         == RejectedRow(rows[k].heading, rows[k].item, CheckRow(rows[k], rules).error)
  {
    hide RowAdmissible, CheckRow;
    CheckedRowMeaning(rows[0], rules);
    if CheckRow(rows[0], rules).Fail? {
      k := 0;
    } else {
      k := RejectionIsFirst(rows[1..], rules);
      k := k + 1;
      assert forall i :: 0 < i < |rows| ==> rows[i] == rows[1..][i - 1];
    }
  }

  // ----- Effect names in order of appearance -----

  function Effects(table: Table): seq<string>
    decreases table
  {
    (match GetValue(table.values, EFFECT_NAME_KEY) case Some(name) => [name] case None => [])
    + ChildEffects(table.subtables)
  }

  function ChildEffects(tables: Subtables): seq<string>
    decreases tables
  {
    match tables
    case NoTables => []
    case Subtable(_, table, rest) => Effects(table) + ChildEffects(rest)
  }

  /** A table's own effect comes first, under the key it is named by, and then those of its subtables in order. */
  lemma EffectsInOrder(values: seq<(string, string)>, a: Subtables, b: Subtables)
    ensures var own := GetValue(values, "effect.name");
      Effects(Table(values, Joined(a, b)))
      == (if own.Some? then [own.value] else []) + (ChildEffects(a) + ChildEffects(b))
  {
    hide GetValue;
    JoinedEffects(a, b);
  }

  lemma {:induction false} JoinedEffects(a: Subtables, b: Subtables)
    ensures ChildEffects(Joined(a, b)) == ChildEffects(a) + ChildEffects(b)
  {
    hide Effects;
    match a
    case NoTables =>
    case Subtable(_, table, rest) =>
      JoinedEffects(rest, b);
      Associates(Effects(table), ChildEffects(rest), ChildEffects(b));
  }

  function Tables(tables: Subtables): seq<Table> {
    match tables
    case NoTables => []
    case Subtable(_, table, rest) => [table] + Tables(rest)
  }

  function StackEffects(stack: seq<Table>): seq<string> {
    if stack == [] then [] else Effects(stack[|stack| - 1]) + StackEffects(stack[..|stack| - 1])
  }

  function TableCount(stack: seq<Table>): nat {
    if stack == [] then 0 else NodeCount(stack[|stack| - 1]) + TableCount(stack[..|stack| - 1])
  }

  lemma {:induction false} PushTables(stack: seq<Table>, tables: Subtables)
    ensures var pushed := stack + Reversed(Tables(tables));
      && StackEffects(pushed) == ChildEffects(tables) + StackEffects(stack)
      && TableCount(pushed) == ChildCount(tables) + TableCount(stack)
    decreases tables
  {
    var pushed := stack + Reversed(Tables(tables));
    match tables
    case NoTables =>
      assert pushed == stack;
    case Subtable(_, table, rest) =>
      var below := stack + Reversed(Tables(rest));
      PushTables(stack, rest);
      assert Tables(tables)[1..] == Tables(rest);
      assert pushed == below + [table];
      assert pushed[..|pushed| - 1] == below;
      Associates(Effects(table), ChildEffects(rest), StackEffects(stack));
  }

  /** The stack walk collects the effect names in the order a recursive reading meets them. */
  method CollectEffects(root: Table) returns (effects: seq<string>)
    ensures effects == Effects(root)
  {
    effects := [];
    var stack := [root];
    assert StackEffects(stack) == Effects(root) + StackEffects([]) == Effects(root);
    while stack != []
      invariant effects + StackEffects(stack) == Effects(root)
      decreases TableCount(stack)
    {
      var table := stack[|stack| - 1];
      stack := stack[..|stack| - 1];
      ghost var own := match GetValue(table.values, EFFECT_NAME_KEY) { case Some(name) => [name] case None => [] };
      Associates(effects, own, ChildEffects(table.subtables) + StackEffects(stack));
      Associates(own, ChildEffects(table.subtables), StackEffects(stack));
      match GetValue(table.values, EFFECT_NAME_KEY) {
        case Some(name) => effects := effects + [name];
        case None => assert effects + [] == effects;
      }
      PushTables(stack, table.subtables);
      stack := stack + Reversed(Tables(table.subtables));
    }
  }
}
