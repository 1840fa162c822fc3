/**
 Choices and value ranges of effect items, gathered from a built-in table and sidecar files laid over
 it. A table may leave a facet alone, erase it, or state it; the last table to mention a facet wins.
 */
module ItemFacets {
  import opened Wrappers
  import opened Decimals
  import opened Sequences

  /** What a table says about one facet: nothing, that there is none, or what it is. */
  datatype Facet<+T> = Unmentioned | Erased | Stated(value: T)

  datatype RangeDocument = RangeDocument(min: Option<Number>, max: Option<Number>, decimals: Option<nat>)

  datatype FacetsDocument = FacetsDocument(choices: Facet<seq<string>>, range: Facet<RangeDocument>)

  type Entries = map<string, map<string, FacetsDocument>>

  datatype TableSource = BuiltinTable | Sidecar

  datatype ItemChoices = ItemChoices(values: seq<string>, source: TableSource)

  datatype ItemRange = ItemRange(min: Option<Number>, max: Option<Number>, decimals: Option<nat>, source: TableSource)

  datatype ItemFacets = ItemFacets(choices: Option<ItemChoices>, range: Option<ItemRange>)

  type Effects = map<string, map<string, ItemFacets>>

  const NO_FACETS := ItemFacets(None, None)

  datatype FacetKind = Choices | Range

  type Mention = (string, string, FacetKind)

  datatype OverlayReport = OverlayReport(applied: nat, replaced: seq<Mention>)

  // ----- What laying a table over another means -----

  function NewChoices(before: Option<ItemChoices>, facet: Facet<seq<string>>, source: TableSource)
    : Option<ItemChoices>
  {
    match facet
    case Unmentioned => before
    case Erased => None
    case Stated(values) => Some(ItemChoices(values, source))
  }

  function NewRange(before: Option<ItemRange>, facet: Facet<RangeDocument>, source: TableSource): Option<ItemRange> {
    match facet
    case Unmentioned => before
    case Erased => None
    case Stated(range) => Some(ItemRange(range.min, range.max, range.decimals, source))
  }

  /** The document of one item, saying nothing when the table does not list the item. */
  function DocumentOf(entries: Entries, effect: string, item: string): FacetsDocument {
    if effect in entries && item in entries[effect] then entries[effect][item]
    else FacetsDocument(Unmentioned, Unmentioned)
  }

  function FacetsOf(effects: Effects, effect: string, item: string): ItemFacets {
    if effect in effects && item in effects[effect] then effects[effect][item] else NO_FACETS
  }

  function OverlayItem(before: ItemFacets, document: FacetsDocument, source: TableSource): ItemFacets {
    ItemFacets(NewChoices(before.choices, document.choices, source), NewRange(before.range, document.range, source))
  }

  function ItemsOf<T>(table: map<string, map<string, T>>, effect: string): map<string, T> {
    if effect in table then table[effect] else map[]
  }

  function OverlayItems(before: map<string, ItemFacets>, items: map<string, FacetsDocument>, source: TableSource)
    : map<string, ItemFacets>
  {
    map item | item in before.Keys + items.Keys ::
      if item in items then
        OverlayItem(if item in before then before[item] else NO_FACETS, items[item], source)
      else before[item]
  }

  /** Facet by facet, with no order among effects or items. */
  function Overlay(before: Effects, entries: Entries, source: TableSource): Effects {
    map effect | effect in before.Keys + entries.Keys ::
      if effect in entries then OverlayItems(ItemsOf(before, effect), entries[effect], source) else before[effect]
  }

  predicate Mentions(document: FacetsDocument, kind: FacetKind) {
    match kind
    case Choices => !document.choices.Unmentioned?
    case Range => !document.range.Unmentioned?
  }

  predicate Occupied(facets: ItemFacets, kind: FacetKind) {
    match kind
    case Choices => facets.choices.Some?
    case Range => facets.range.Some?
  }

  predicate MentionedBy(entries: Entries, m: Mention) {
    Mentions(DocumentOf(entries, m.0, m.1), m.2)
  }

  predicate OccupiedIn(effects: Effects, m: Mention) {
    Occupied(FacetsOf(effects, m.0, m.1), m.2)
  }

  /** The report counts every facet mentioned, erased ones too, and lists those that were there before. */
  ghost predicate Reports(report: OverlayReport, mentioned: set<Mention>, before: Effects) {
    && report.applied == |mentioned|
    && NoDuplicates(report.replaced)
    && forall m :: m in report.replaced <==> m in mentioned && OccupiedIn(before, m)
  }

  // ----- The overlay loops -----

  /** Records one mention that has not been recorded yet. */
  method Record(report: OverlayReport, m: Mention, occupied: bool, ghost mentioned: set<Mention>, ghost before: Effects)
    returns (next: OverlayReport)
    requires Reports(report, mentioned, before) && m !in mentioned && occupied == OccupiedIn(before, m)
    ensures Reports(next, mentioned + {m}, before)
  {
    hide OccupiedIn;
    next := OverlayReport(report.applied + 1, if occupied then report.replaced + [m] else report.replaced);
  }

  ghost function MentionsOf(effect: string, item: string, document: FacetsDocument): set<Mention> {
    (if Mentions(document, Choices) then {(effect, item, Choices)} else {})
    + (if Mentions(document, Range) then {(effect, item, Range)} else {})
  }

  method OverlayFacets(effect: string, item: string, facets: ItemFacets, document: FacetsDocument, source: TableSource,
                       report: OverlayReport, ghost mentioned: set<Mention>, ghost before: Effects)
    returns (next: ItemFacets, nextReport: OverlayReport)
    requires Reports(report, mentioned, before)
    requires facets == FacetsOf(before, effect, item)
    requires forall kind :: (effect, item, kind) !in mentioned
    ensures next == OverlayItem(facets, document, source)
    ensures Reports(nextReport, mentioned + MentionsOf(effect, item, document), before)
  {
    hide Reports, FacetsOf;
    next, nextReport := facets, report;
    ghost var seen := mentioned;
    if !document.choices.Unmentioned? {
      nextReport := Record(nextReport, (effect, item, Choices), next.choices.Some?, seen, before);
      seen := seen + {(effect, item, Choices)};
      next := next.(choices :=
        if document.choices.Erased? then None else Some(ItemChoices(document.choices.value, source)));
    }
    if !document.range.Unmentioned? {
      nextReport := Record(nextReport, (effect, item, Range), next.range.Some?, seen, before);
      seen := seen + {(effect, item, Range)};
      next := next.(range :=
        if document.range.Erased? then None
        else
          var range := document.range.value;
          Some(ItemRange(range.min, range.max, range.decimals, source)));
    }
    assert seen == mentioned + MentionsOf(effect, item, document);
  }

  /** The mentions of an effect's items that are not ahead any more. */
  ghost function EffectMentions(effect: string, items: map<string, FacetsDocument>, done: set<string>): set<Mention> {
    set item, kind | item in items && item in done && kind in {Choices, Range} && Mentions(items[item], kind)
      :: (effect, item, kind)
  }

  ghost function TableMentions(entries: Entries, done: set<string>): set<Mention> {
    set effect, item, kind |
      effect in entries && effect in done && item in entries[effect] && kind in {Choices, Range}
      && Mentions(entries[effect][item], kind)
      :: (effect, item, kind)
  }

  lemma NextItemMentions(effect: string, items: map<string, FacetsDocument>, done: set<string>, item: string)
    requires item in items && item !in done
    ensures EffectMentions(effect, items, done + {item})
         == EffectMentions(effect, items, done) + MentionsOf(effect, item, items[item])
  {
  }

  lemma NextEffectMentions(entries: Entries, done: set<string>, effect: string)
    requires effect in entries && effect !in done
    ensures TableMentions(entries, done + {effect})
         == TableMentions(entries, done) + EffectMentions(effect, entries[effect], entries[effect].Keys)
  {
  }

  /** Everything a table mentions, as its documents say it. */
  ghost function MentionsIn(entries: Entries): (mentioned: set<Mention>)
    ensures forall m :: m in mentioned <==> MentionedBy(entries, m)
  {
    TableMentions(entries, entries.Keys)
  }

  method OverlayEffect(effect: string, facets: map<string, ItemFacets>, items: map<string, FacetsDocument>,
                       source: TableSource, report: OverlayReport, ghost mentioned: set<Mention>, ghost before: Effects)
    returns (next: map<string, ItemFacets>, nextReport: OverlayReport)
    requires Reports(report, mentioned, before)
    requires facets == ItemsOf(before, effect)
    requires forall m :: m in mentioned ==> m.0 != effect
    ensures next == OverlayItems(facets, items, source)
    ensures Reports(nextReport, mentioned + EffectMentions(effect, items, items.Keys), before)
  {
    hide Reports, OverlayItem, OverlayItems, MentionsOf, EffectMentions;
    next, nextReport := facets, report;
    var ahead := items.Keys;
    ghost var done: set<string> := {};
    NoItemsYet(effect, facets, items, source, mentioned);
    while ahead != {}
      invariant ahead !! done && ahead + done == items.Keys
      invariant next == OverlayItems(facets, Restrict(items, done), source)
      invariant Reports(nextReport, mentioned + EffectMentions(effect, items, done), before)
      decreases |ahead|
    {
      var item :| item in ahead;
      NextItem(effect, facets, items, done, item, source, mentioned);
      var current := if item in next then next[item] else NO_FACETS;
      var updated;
      updated, nextReport := OverlayFacets(effect, item, current, items[item], source, nextReport,
                                           mentioned + EffectMentions(effect, items, done), before);
      next := next[item := updated];
      done := done + {item};
      ahead := ahead - {item};
    }
    AllItems(items, done);
  }

  function Restrict<T>(m: map<string, T>, keys: set<string>): map<string, T> {
    map key | key in m && key in keys :: m[key]
  }

  lemma AllItems<T>(items: map<string, T>, done: set<string>)
    requires done == items.Keys
    ensures Restrict(items, done) == items
  {
  }

  lemma NoItemsYet(effect: string, facets: map<string, ItemFacets>, items: map<string, FacetsDocument>,
                   source: TableSource, mentioned: set<Mention>)
    ensures facets == OverlayItems(facets, Restrict(items, {}), source)
    ensures mentioned + EffectMentions(effect, items, {}) == mentioned
  {
  }

  lemma OverlayOneMore(facets: map<string, ItemFacets>, items: map<string, FacetsDocument>, done: set<string>,
                       item: string, source: TableSource)
    requires item in items && item !in done
    ensures var next := OverlayItems(facets, Restrict(items, done), source);
      var current := if item in next then next[item] else NO_FACETS;
      && current == (if item in facets then facets[item] else NO_FACETS)
      && OverlayItems(facets, Restrict(items, done + {item}), source)
         == next[item := OverlayItem(current, items[item], source)]
  {
    hide OverlayItem;
  }

  /** One more item of an effect: where its facets are found, what changes, and what is mentioned. */
  lemma NextItem(effect: string, facets: map<string, ItemFacets>, items: map<string, FacetsDocument>, done: set<string>,
                 item: string, source: TableSource, mentioned: set<Mention>)
    requires item in items && item !in done
    requires forall m :: m in mentioned ==> m.0 != effect
    ensures var next := OverlayItems(facets, Restrict(items, done), source);
      var current := if item in next then next[item] else NO_FACETS;
      && current == (if item in facets then facets[item] else NO_FACETS)
      && OverlayItems(facets, Restrict(items, done + {item}), source)
         == next[item := OverlayItem(current, items[item], source)]
    ensures var seen := mentioned + EffectMentions(effect, items, done);
      && (forall kind :: (effect, item, kind) !in seen)
      && seen + MentionsOf(effect, item, items[item]) == mentioned + EffectMentions(effect, items, done + {item})
  {
    hide OverlayItem, OverlayItems;
    OverlayOneMore(facets, items, done, item, source);
    NextItemMentions(effect, items, done, item);
    assert forall m :: m in EffectMentions(effect, items, done) ==> m.1 in done;
    hide EffectMentions, MentionsOf;
  }

  class FacetTable {
    var effects: Effects

    constructor ()
      ensures effects == map[]
    {
      effects := map[];
    }

    /** Lays a table over this one, whatever order its maps are walked in. */
    method OverlayTable(entries: Entries, source: TableSource) returns (report: OverlayReport)
      modifies this
      ensures effects == Overlay(old(effects), entries, source)
      ensures Reports(report, MentionsIn(entries), old(effects))
    {
      hide Reports, OverlayItems, Overlay, EffectMentions, TableMentions;
      report := OverlayReport(0, []);
      ghost var before := effects;
      var ahead := entries.Keys;
      ghost var done: set<string> := {};
      NoEffectsYet(entries, before, source);
      while ahead != {}
        invariant ahead !! done && ahead + done == entries.Keys
        invariant effects == Overlay(before, Restrict(entries, done), source)
        invariant Reports(report, TableMentions(entries, done), before)
        decreases |ahead|
      {
        var effect :| effect in ahead;
        NextEffect(before, entries, done, effect, source);
        var updated;
        updated, report := OverlayEffect(effect, ItemsOf(effects, effect), entries[effect], source, report,
                                         TableMentions(entries, done), before);
        effects := effects[effect := updated];
        done := done + {effect};
        ahead := ahead - {effect};
      }
      AllItems(entries, done);
    }
  }

  lemma NoEffectsYet(entries: Entries, before: Effects, source: TableSource)
    ensures before == Overlay(before, Restrict(entries, {}), source)
    ensures Reports(OverlayReport(0, []), TableMentions(entries, {}), before)
  {
    assert TableMentions(entries, {}) == {};
  }

  lemma OverlayOneMoreEffect(before: Effects, entries: Entries, done: set<string>, effect: string, source: TableSource)
    requires effect in entries && effect !in done
    ensures var next := Overlay(before, Restrict(entries, done), source);
      && ItemsOf(next, effect) == ItemsOf(before, effect)
      && Overlay(before, Restrict(entries, done + {effect}), source)
         == next[effect := OverlayItems(ItemsOf(before, effect), entries[effect], source)]
  {
    hide OverlayItems;
  }

  /** One more effect of a table: where its items are found, what changes, and what is mentioned. */
  lemma NextEffect(before: Effects, entries: Entries, done: set<string>, effect: string, source: TableSource)
    requires effect in entries && effect !in done
    ensures var next := Overlay(before, Restrict(entries, done), source);
      && ItemsOf(next, effect) == ItemsOf(before, effect)
      && Overlay(before, Restrict(entries, done + {effect}), source)
         == next[effect := OverlayItems(ItemsOf(before, effect), entries[effect], source)]
    ensures forall m :: m in TableMentions(entries, done) ==> m.0 != effect
    ensures TableMentions(entries, done + {effect})
         == TableMentions(entries, done) + EffectMentions(effect, entries[effect], entries[effect].Keys)
  {
    hide OverlayItems, Overlay;
    OverlayOneMoreEffect(before, entries, done, effect, source);
    NextEffectMentions(entries, done, effect);
    assert forall m :: m in TableMentions(entries, done) ==> m.0 in done;
    hide TableMentions, EffectMentions;
  }

  /** What a report lists, facet by facet: what the table mentions and what was there before it. */
  lemma ReportMeaning(report: OverlayReport, entries: Entries, before: Effects, effect: string, item: string)
    requires Reports(report, MentionsIn(entries), before)
    ensures var document, facets := DocumentOf(entries, effect, item), FacetsOf(before, effect, item);
      && ((effect, item, Choices) in report.replaced <==> !document.choices.Unmentioned? && facets.choices.Some?)
      && ((effect, item, Range) in report.replaced <==> !document.range.Unmentioned? && facets.range.Some?)
  {
    hide DocumentOf, FacetsOf, MentionsIn;
  }

  // ----- Loading -----

  const MAX_SIDECAR_FILES: nat := 64

  datatype SidecarRejection = UnreadableFile | TooLarge | NotParsable

  /** The sidecar files in order, parsed or not usable. */
  type Documents = seq<Result<Entries, SidecarRejection>>

  datatype Layer = Layer(entries: Entries, source: TableSource)

  /** The tables that end up laid over each other: the built-in one, then the usable sidecars in order. */
  function Usable(documents: Documents): seq<Layer> {
    if documents == [] then []
    else
      var last := documents[|documents| - 1];
      Usable(documents[..|documents| - 1]) + if last.Ok? then [Layer(last.value, Sidecar)] else []
  }

  function FirstFiles(documents: Documents): Documents {
    if |documents| > MAX_SIDECAR_FILES then documents[..MAX_SIDECAR_FILES] else documents
  }

  function Stack(layers: seq<Layer>): Effects {
    if layers == [] then map[]
    else Overlay(Stack(layers[..|layers| - 1]), layers[|layers| - 1].entries, layers[|layers| - 1].source)
  }

  /** How many facets the layers after the first mention, and how many of those mentions replaced something. */
  ghost function MentionTotal(layers: seq<Layer>): nat {
    if |layers| <= 1 then 0
    else
      var entries := layers[|layers| - 1].entries;
      MentionTotal(layers[..|layers| - 1]) + |MentionsIn(entries)|
  }

  ghost function ReplacedBy(before: Effects, entries: Entries): set<Mention> {
    set m | m in MentionsIn(entries) && OccupiedIn(before, m)
  }

  ghost function ReplacedTotal(layers: seq<Layer>): nat {
    if |layers| <= 1 then 0
    else
      var below := layers[..|layers| - 1];
      ReplacedTotal(below) + |ReplacedBy(Stack(below), layers[|layers| - 1].entries)|
  }

  lemma ReplacedCount(report: OverlayReport, entries: Entries, before: Effects)
    requires Reports(report, MentionsIn(entries), before)
    ensures |report.replaced| == |ReplacedBy(before, entries)|
  {
    hide OccupiedIn;
    DistinctCount(report.replaced, ReplacedBy(before, entries));
  }

  lemma {:induction false} DistinctCount<T>(s: seq<T>, elements: set<T>)
    requires NoDuplicates(s) && forall x :: x in s <==> x in elements
    ensures |s| == |elements|
  {
    if s == [] {
      assert elements == {};
    } else {
      var last := s[|s| - 1];
      var rest := s[..|s| - 1];
      forall x ensures x in rest <==> x in elements - {last} {
        if x in elements - {last} {
          var i :| 0 <= i < |s| && s[i] == x;
          assert rest[i] == x;
        }
      }
      DistinctCount(rest, elements - {last});
    }
  }

  /** Reads the sidecars in order; the first 64 count, and one that cannot be used is skipped. */
  method LoadTable(builtin: Entries, documents: Documents)
    returns (table: FacetTable, files: nat, applied: nat, replaced: nat)
    ensures fresh(table)
    ensures var layers := [Layer(builtin, BuiltinTable)] + Usable(FirstFiles(documents));
      && table.effects == Stack(layers)
      && files == |layers| - 1 && applied == MentionTotal(layers) && replaced == ReplacedTotal(layers)
    ensures var first := if |documents| > 64 then documents[..64] else documents;
      && LoadedFrom(table.effects, builtin, first)
      && files == |set k | 0 <= k < |first| && first[k].Ok?|
  {
    hide Overlay, MentionsIn, MentionedBy, OccupiedIn, Reports, LoadedFrom;
    table := new FacetTable();
    var report := table.OverlayTable(builtin, BuiltinTable);
    var paths := if |documents| > MAX_SIDECAR_FILES then documents[..MAX_SIDECAR_FILES] else documents;
    files, applied, replaced := 0, 0, 0;
    ghost var layers := [Layer(builtin, BuiltinTable)];
    assert layers[..0] == [];
    for next := 0 to |paths|
      invariant fresh(table)
      invariant layers == [Layer(builtin, BuiltinTable)] + Usable(paths[..next])
      invariant table.effects == Stack(layers)
      invariant files == |layers| - 1 && applied == MentionTotal(layers) && replaced == ReplacedTotal(layers)
    {
      assert paths[..next + 1][..next] == paths[..next];
      if paths[next].Err? {
        continue;
      }
      files := files + 1;
      ghost var below := layers;
      report := table.OverlayTable(paths[next].value, Sidecar);
      ReportedTotals(report, paths[next].value, Stack(below));
      applied := applied + report.applied;
      replaced := replaced + |report.replaced|;
      layers := layers + [Layer(paths[next].value, Sidecar)];
      assert layers[..|layers| - 1] == below;
    }
    assert paths[..|paths|] == paths;
    UsableCount(paths);
    AllFacetsLoaded(builtin, paths);
  }

  lemma AllFacetsLoaded(builtin: Entries, documents: Documents)
    ensures LoadedFrom(Stack([Layer(builtin, BuiltinTable)] + Usable(documents)), builtin, documents)
  {
    hide FacetLoaded, Stack;
    var effects := Stack([Layer(builtin, BuiltinTable)] + Usable(documents));
    forall effect, item, kind ensures FacetLoaded(effects, builtin, documents, effect, item, kind) {
      StackIsLoaded(builtin, documents, effect, item, kind);
    }
  }

  lemma ReportedTotals(report: OverlayReport, entries: Entries, before: Effects)
    requires Reports(report, MentionsIn(entries), before)
    ensures report.applied == |MentionsIn(entries)|
    ensures |report.replaced| == |ReplacedBy(before, entries)|
  {
    ReplacedCount(report, entries, before);
  }

  // ----- The last mention wins -----

  lemma OverlayFacetsOf(before: Effects, entries: Entries, source: TableSource, effect: string, item: string)
    ensures FacetsOf(Overlay(before, entries, source), effect, item)
         == OverlayItem(FacetsOf(before, effect, item), DocumentOf(entries, effect, item), source)
  {
  }

  /** The facets of an item after any stack of tables, facet by facet, are those of the last table to mention them. */
  lemma {:induction false} LastMentionWins(layers: seq<Layer>, effect: string, item: string, kind: FacetKind, k: nat)
    requires k < |layers| && Mentions(DocumentOf(layers[k].entries, effect, item), kind)
    requires forall j :: k < j < |layers| ==> !Mentions(DocumentOf(layers[j].entries, effect, item), kind)
    ensures var document := DocumentOf(layers[k].entries, effect, item);
      var facets := FacetsOf(Stack(layers), effect, item);
      match kind
      case Choices =>
        facets.choices ==
          if document.choices.Erased? then None else Some(ItemChoices(document.choices.value, layers[k].source))
      case Range =>
        facets.range ==
          if document.range.Erased? then None
          else
            var range := document.range.value;
            Some(ItemRange(range.min, range.max, range.decimals, layers[k].source))
    decreases |layers|
  {
    hide FacetsOf, DocumentOf, Overlay;
    var n := |layers| - 1;
    OverlayFacetsOf(Stack(layers[..n]), layers[n].entries, layers[n].source, effect, item);
    if k < n {
      LastMentionWins(layers[..n], effect, item, kind, k);
      assert !Mentions(DocumentOf(layers[n].entries, effect, item), kind);
    }
  }

  /** A facet no table mentions is not there. */
  lemma {:induction false} NeverMentioned(layers: seq<Layer>, effect: string, item: string, kind: FacetKind)
    requires forall j :: 0 <= j < |layers| ==> !Mentions(DocumentOf(layers[j].entries, effect, item), kind)
    ensures !Occupied(FacetsOf(Stack(layers), effect, item), kind)
    decreases |layers|
  {
    hide DocumentOf, Overlay;
    if layers != [] {
      var n := |layers| - 1;
      OverlayFacetsOf(Stack(layers[..n]), layers[n].entries, layers[n].source, effect, item);
      NeverMentioned(layers[..n], effect, item, kind);
      assert !Mentions(DocumentOf(layers[n].entries, effect, item), kind);
    }
  }

  // ----- What is loaded, document by document -----

  /** The document can be used and mentions the facet, be it to erase it. */
  ghost predicate Speaks(documents: Documents, k: int, effect: string, item: string, kind: FacetKind) {
    && 0 <= k < |documents| && documents[k].Ok?
    && var document := DocumentOf(documents[k].value, effect, item);
       if kind.Choices? then !document.choices.Unmentioned? else !document.range.Unmentioned?
  }

  /** The facet is the one a document states, under that source, or absent if the document erases it. */
  ghost predicate FacetIs(facets: ItemFacets, kind: FacetKind, document: FacetsDocument, source: TableSource) {
    match kind
    case Choices =>
      && (document.choices.Erased? ==> facets.choices == None)
      && (document.choices.Stated? ==> facets.choices == Some(ItemChoices(document.choices.value, source)))
    case Range =>
      && (document.range.Erased? ==> facets.range == None)
      && (document.range.Stated? ==>
            var range := document.range.value;
            facets.range == Some(ItemRange(range.min, range.max, range.decimals, source)))
  }

  ghost predicate SpeaksLast(documents: Documents, k: int, effect: string, item: string, kind: FacetKind) {
    && Speaks(documents, k, effect, item, kind)
    && forall j :: k < j < |documents| ==> !Speaks(documents, j, effect, item, kind)
  }

  ghost predicate Silent(documents: Documents, effect: string, item: string, kind: FacetKind) {
    forall j :: 0 <= j < |documents| ==> !Speaks(documents, j, effect, item, kind)
  }

  ghost predicate Absent(facets: ItemFacets, kind: FacetKind) {
    if kind.Choices? then facets.choices == None else facets.range == None
  }

  /** The last sidecar that speaks of a facet decides it; where none does, the built-in table does. */
  ghost predicate FacetLoaded(effects: Effects, builtin: Entries, documents: Documents, effect: string, item: string,
                              kind: FacetKind)
  {
    var facets := FacetsOf(effects, effect, item);
    && (forall k :: SpeaksLast(documents, k, effect, item, kind) ==>
          FacetIs(facets, kind, DocumentOf(documents[k].value, effect, item), Sidecar))
    && (Silent(documents, effect, item, kind) ==>
          if Speaks([Ok(builtin)], 0, effect, item, kind) then
            FacetIs(facets, kind, DocumentOf(builtin, effect, item), BuiltinTable)
          else Absent(facets, kind))
  }

  ghost predicate LoadedFrom(effects: Effects, builtin: Entries, documents: Documents) {
    forall effect, item, kind :: FacetLoaded(effects, builtin, documents, effect, item, kind)
  }

  lemma {:induction false} StackIsLoaded(builtin: Entries, documents: Documents, effect: string, item: string,
                                         kind: FacetKind)
    ensures var layers := [Layer(builtin, BuiltinTable)] + Usable(documents);
      FacetLoaded(Stack(layers), builtin, documents, effect, item, kind)
    decreases |documents|
  {
    hide FacetsOf, DocumentOf, Overlay, Stack, FacetLoaded;
    var layers := [Layer(builtin, BuiltinTable)] + Usable(documents);
    if documents == [] {
      OnlyBuiltin(builtin, effect, item);
      NothingLaid(Stack(layers), builtin, effect, item, kind);
    } else {
      var n := |documents| - 1;
      var below := [Layer(builtin, BuiltinTable)] + Usable(documents[..n]);
      StackIsLoaded(builtin, documents[..n], effect, item, kind);
      if documents[n].Ok? {
        assert layers == below + [Layer(documents[n].value, Sidecar)];
        StackOneMore(below, documents[n].value, effect, item);
      } else {
        assert layers == below;
      }
      OneMoreDocument(Stack(below), Stack(layers), builtin, documents, effect, item, kind);
    }
  }

  lemma StackOneMore(below: seq<Layer>, entries: Entries, effect: string, item: string)
    ensures FacetsOf(Stack(below + [Layer(entries, Sidecar)]), effect, item)
         == OverlayItem(FacetsOf(Stack(below), effect, item), DocumentOf(entries, effect, item), Sidecar)
  {
    assert (below + [Layer(entries, Sidecar)])[..|below|] == below;
    OverlayFacetsOf(Stack(below), entries, Sidecar, effect, item);
    hide Overlay, FacetsOf, DocumentOf;
  }

  /** A further document decides the facets it speaks of and leaves the others as they were. */
  lemma OneMoreDocument(before: Effects, after: Effects, builtin: Entries, documents: Documents, effect: string,
                        item: string, kind: FacetKind)
    requires documents != []
    requires var n := |documents| - 1;
      && FacetLoaded(before, builtin, documents[..n], effect, item, kind)
      && FacetsOf(after, effect, item) ==
           if documents[n].Ok? then
             OverlayItem(FacetsOf(before, effect, item), DocumentOf(documents[n].value, effect, item), Sidecar)
           else FacetsOf(before, effect, item)
    ensures FacetLoaded(after, builtin, documents, effect, item, kind)
  {
    hide FacetsOf, DocumentOf;
    var n := |documents| - 1;
    var below := documents[..n];
    var facets := FacetsOf(after, effect, item);
    forall j | 0 <= j < n ensures Speaks(documents, j, effect, item, kind) <==> Speaks(below, j, effect, item, kind) {
      assert documents[j] == below[j];
    }
    if Speaks(documents, n, effect, item, kind) {
      assert FacetIs(facets, kind, DocumentOf(documents[n].value, effect, item), Sidecar);
      assert !Silent(documents, effect, item, kind);
      forall k | SpeaksLast(documents, k, effect, item, kind) ensures k == n {
      }
    } else {
      hide OverlayItem, NewChoices, NewRange;
      KeptFacet(FacetsOf(before, effect, item), facets, documents[n], effect, item, kind);
      forall k | SpeaksLast(documents, k, effect, item, kind) ensures SpeaksLast(below, k, effect, item, kind) {
        assert k < n;
      }
      assert Silent(documents, effect, item, kind) ==> Silent(below, effect, item, kind);
      hide Speaks;
    }
  }

  lemma KeptFacet(before: ItemFacets, after: ItemFacets, document: Result<Entries, SidecarRejection>, effect: string,
                  item: string, kind: FacetKind)
    requires !Speaks([document], 0, effect, item, kind)
    requires after ==
      if document.Ok? then OverlayItem(before, DocumentOf(document.value, effect, item), Sidecar) else before
    ensures if kind.Choices? then after.choices == before.choices else after.range == before.range
  {
    hide DocumentOf;
  }

  lemma NothingLaid(effects: Effects, builtin: Entries, effect: string, item: string, kind: FacetKind)
    requires FacetsOf(effects, effect, item) == OverlayItem(NO_FACETS, DocumentOf(builtin, effect, item), BuiltinTable)
    ensures FacetLoaded(effects, builtin, [], effect, item, kind)
  {
    hide FacetsOf, DocumentOf;
  }

  lemma OnlyBuiltin(builtin: Entries, effect: string, item: string)
    ensures FacetsOf(Stack([Layer(builtin, BuiltinTable)] + Usable([])), effect, item)
         == OverlayItem(NO_FACETS, DocumentOf(builtin, effect, item), BuiltinTable)
  {
    var layers := [Layer(builtin, BuiltinTable)] + Usable([]);
    assert layers == [Layer(builtin, BuiltinTable)] && layers[..0] == [];
    OverlayFacetsOf(map[], builtin, BuiltinTable, effect, item);
    hide Overlay, DocumentOf;
  }

  lemma {:induction false} UsableCount(documents: Documents)
    ensures |Usable(documents)| == |set k | 0 <= k < |documents| && documents[k].Ok?|
    decreases |documents|
  {
    if documents != [] {
      var n := |documents| - 1;
      UsableCount(documents[..n]);
      var before := set k | 0 <= k < n && documents[..n][k].Ok?;
      var all := set k | 0 <= k < |documents| && documents[k].Ok?;
      assert all == if documents[n].Ok? then before + {n} else before;
    }
  }
}
