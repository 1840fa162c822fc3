/**
 The host's help file: `[Tips.<effect>]` sections of `key=value` lines. One pass over the lines must
 yield what the sections say when each is read on its own.
 */
module EffectHelp {
  import opened Wrappers
  import opened Sequences
  import opened Strings

  const SECTION_PREFIX: string := "[Tips."
  const COMMENT_PREFIX: char := ';'
  const EFFECT_DESCRIPTION_KEY: string := "effect.name"

  datatype Help = Help(description: Option<string>, items: map<string, string>)

  const NO_HELP := Help(None, map[])

  /** `str::lines`: what follows the last line feed is a line only if it is not empty. */
  function Lines(text: string): seq<string>
    decreases |text|
  {
    if text == "" then []
    else
      match SplitOnce(text, '\n')
      case None => [text]
      case Some(cut) => [StripReturn(cut.0)] + Lines(cut.1)
  }

  function StripReturn(line: string): string {
    if line != "" && line[|line| - 1] == '\r' then line[..|line| - 1] else line
  }

  predicate IsHeading(line: string) {
    Trim(line) != "" && Trim(line)[0] == '['
  }

  /** The effect a heading names, if it is the heading of a help section. */
  function HeadingName(line: string): Option<string> {
    var heading := Trim(line);
    if SECTION_PREFIX <= heading then
      var rest := heading[|SECTION_PREFIX|..];
      if |rest| > 1 && rest[|rest| - 1] == ']' then Some(rest[..|rest| - 1]) else None
    else None
  }

  function KeyValue(raw: string): Option<(string, string)> {
    var line := Trim(raw);
    if line != "" && line[0] == COMMENT_PREFIX then None else SplitOnce(line, '=')
  }

  /** A backslash and an `n` are a line feed; any other backslash stays, with the character after it. */
  function Unescape(value: string): string {
    if value == "" then ""
    else if value[0] != '\\' || |value| == 1 then [value[0]] + Unescape(value[1..])
    else (if value[1] == 'n' then "\n" else value[..2]) + Unescape(value[2..])
  }

  method UnescapeNewlines(value: string) returns (decoded: string)
    ensures decoded == Unescape(value)
  {
    decoded := "";
    var next := 0;
    while next < |value|
      invariant 0 <= next <= |value|
      invariant decoded + Unescape(value[next..]) == Unescape(value)
    {
      ghost var rest := value[next..];
      var c := value[next];
      next := next + 1;
      if c != '\\' || next == |value| {
        assert rest[1..] == value[next..];
        Associates(decoded, [c], Unescape(value[next..]));
        decoded := decoded + [c];
      } else {
        var escape := if value[next] == 'n' then "\n" else ['\\', value[next]];
        assert rest[..2] == ['\\', value[next]] && rest[2..] == value[next + 1..];
        Associates(decoded, escape, Unescape(value[next + 1..]));
        decoded := decoded + escape;
        next := next + 1;
      }
    }
    assert value[next..] == "";
  }

  // ----- The sections read on their own -----

  datatype Section = Section(name: string, body: seq<string>)

  /** The lines up to the next heading of any kind. */
  function Body(lines: seq<string>): seq<string> {
    if lines == [] || IsHeading(lines[0]) then [] else [lines[0]] + Body(lines[1..])
  }

  /** The help sections of a file in order, each with its own lines. */
  function Sections(lines: seq<string>): seq<Section> {
    if lines == [] then []
    else if IsHeading(lines[0]) && HeadingName(lines[0]).Some? then
      [Section(HeadingName(lines[0]).value, Body(lines[1..]))] + Sections(lines[1..])
    else Sections(lines[1..])
  }

  /** The first value a section gives a key. */
  function FirstValue(body: seq<string>, key: string): Option<string> {
    if body == [] then None
    else
      match KeyValue(body[0])
      case Some(entry) => if entry.0 == key then Some(Unescape(entry.1)) else FirstValue(body[1..], key)
      case None => FirstValue(body[1..], key)
  }

  /** The help is what the section says: of the effect under its own key, of its items under all others. */
  ghost predicate Says(help: Help, body: seq<string>) {
    && help.description == FirstValue(body, EFFECT_DESCRIPTION_KEY)
    && forall key :: Entry(help.items, key) == if key == EFFECT_DESCRIPTION_KEY then None else FirstValue(body, key)
  }

  /** A section that gives no key a value says nothing. */
  ghost predicate SaysNothing(body: seq<string>) {
    forall key :: FirstValue(body, key) == None
  }

  /** The first section of that name that says anything. */
  ghost function FirstSection(sections: seq<Section>, name: string): Option<seq<string>> {
    if sections == [] then None
    else if sections[0].name == name && !SaysNothing(sections[0].body) then Some(sections[0].body)
    else FirstSection(sections[1..], name)
  }

  /** The table holds, for every name, exactly the help of the first section under it that says anything. */
  ghost predicate Reads(table: map<string, Help>, sections: seq<Section>) {
    forall name :: ReadsName(table, name, FirstSection(sections, name))
  }

  ghost predicate ReadsName(table: map<string, Help>, name: string, body: Option<seq<string>>) {
    match body
    case None => name !in table
    case Some(body) => name in table && Says(table[name], body)
  }

  // ----- What the pieces of a file are -----

  /** A line ends at a line feed, with or without a return before it; the last needs none, if it is not empty. */
  lemma LineByLine(line: string, rest: string)
    requires '\n' !in line && (line != "" ==> line[|line| - 1] != '\r')
    ensures Lines(line + "\n" + rest) == [line] + Lines(rest)
    ensures Lines(line + "\r\n" + rest) == [line] + Lines(rest)
  {
    hide SplitOnce;
    SplitOnceAt(line, rest, '\n');
    var ended := line + "\r";
    SplitOnceAt(ended, rest, '\n');
    assert line + "\r\n" + rest == ended + ['\n'] + rest;
    assert ended[..|ended| - 1] == line;
  }

  lemma LastLine(line: string)
    requires '\n' !in line
    ensures Lines(line) == if line == "" then [] else [line]
  {
  }

  /** A help section is headed by the name of its effect between `[Tips.` and `]`. */
  lemma HeadingMeaning(line: string, name: string)
    ensures HeadingName(line) == Some(name) <==> name != "" && Trim(line) == "[Tips." + name + "]"
    ensures HeadingName(line).Some? ==> IsHeading(line)
    ensures IsHeading(line) <==> "[" <= Trim(line)
  {
    hide Trim;
    var heading := Trim(line);
    if heading == "[Tips." + name + "]" {
      assert heading[6..] == name + "]";
      assert (name + "]")[..|name|] == name;
    }
    if HeadingName(line) == Some(name) {
      assert heading == "[Tips." + heading[6..];
      assert heading[6..] == name + "]";
    }
  }

  /** A line gives the value after its first equals sign to the key before it, unless it is a comment. */
  lemma KeyValueMeaning(line: string, key: string, value: string)
    ensures KeyValue(line) == Some((key, value)) <==>
      !(";" <= Trim(line)) && '=' !in key && Trim(line) == key + "=" + value
  {
    hide Trim, SplitOnce;
    if '=' !in key && Trim(line) == key + "=" + value {
      SplitOnceAt(key, value, '=');
    }
  }

  /** A backslash and an `n` become a line feed; every other character, and every other pair, stays. */
  lemma UnescapeMeaning(rest: string, c: char)
    ensures Unescape("") == "" && Unescape("\\") == "\\"
    ensures Unescape("\\n" + rest) == "\n" + Unescape(rest)
    ensures c != 'n' ==> Unescape("\\" + [c] + rest) == "\\" + [c] + Unescape(rest)
    ensures c != '\\' ==> Unescape([c] + rest) == [c] + Unescape(rest)
  {
    assert ("\\n" + rest)[2..] == rest;
    var pair := "\\" + [c] + rest;
    assert pair[2..] == rest && pair[..2] == "\\" + [c];
    assert ([c] + rest)[1..] == rest;
    assert "\\"[1..] == "" && ['\\'] + "" == "\\";
  }

  /** What an effect is described by and what its items are. */
  lemma SaysMeaning(help: Help, body: seq<string>)
    ensures Says(help, body) <==>
      && help.description == FirstValue(body, "effect.name")
      && "effect.name" !in help.items
      && forall key :: key != "effect.name" ==> Entry(help.items, key) == FirstValue(body, key)
  {
    hide FirstValue;
  }

  /** The first line of a section that names a key gives its value. */
  lemma {:induction false} FirstValueMeaning(body: seq<string>, key: string, value: string)
    ensures FirstValue(body, key) == Some(value) <==>
      exists k ::
        0 <= k < |body| && GivesValue(body[k], key, value) && forall j :: 0 <= j < k ==> !GivesKey(body[j], key)
  {
    hide KeyValue, Unescape;
    if body != [] {
      FirstValueMeaning(body[1..], key, value);
      assert forall j :: 0 < j < |body| ==> body[j] == body[1..][j - 1];
      if GivesKey(body[0], key) {
        assert FirstValue(body, key) == Some(value) ==> GivesValue(body[0], key, value);
      } else if FirstValue(body, key) == Some(value) {
        var k :| 0 <= k < |body| - 1 && GivesValue(body[1..][k], key, value)
          && forall j :: 0 <= j < k ==> !GivesKey(body[1..][j], key);
        assert GivesValue(body[k + 1], key, value);
      } else {
        forall k | 0 <= k < |body| && GivesValue(body[k], key, value)
          ensures exists j :: 0 <= j < k && GivesKey(body[j], key)
        {
          assert k > 0 && GivesValue(body[1..][k - 1], key, value);
          var j :| 0 <= j < k - 1 && GivesKey(body[1..][j], key);
          assert GivesKey(body[j + 1], key);
        }
      }
    }
  }

  predicate GivesKey(line: string, key: string) {
    KeyValue(line).Some? && KeyValue(line).value.0 == key
  }

  predicate GivesValue(line: string, key: string, value: string) {
    GivesKey(line, key) && Unescape(KeyValue(line).value.1) == value
  }

  /** The first section of a name that says anything is the one that is heard. */
  lemma {:induction false} FirstSectionMeaning(sections: seq<Section>, name: string, k: nat)
    requires k < |sections| && sections[k].name == name && !SaysNothing(sections[k].body)
    requires forall j :: 0 <= j < k ==> sections[j].name != name || SaysNothing(sections[j].body)
    ensures FirstSection(sections, name) == Some(sections[k].body)
  {
    hide SaysNothing;
    if k > 0 {
      FirstSectionMeaning(sections[1..], name, k - 1);
    }
  }

  lemma {:induction false} NoSection(sections: seq<Section>, name: string)
    ensures FirstSection(sections, name) == None <==>
      forall j :: 0 <= j < |sections| ==> sections[j].name != name || SaysNothing(sections[j].body)
  {
    hide SaysNothing;
    if sections != [] {
      NoSection(sections[1..], name);
      assert forall j :: 0 < j < |sections| ==> sections[j] == sections[1..][j - 1];
    }
  }

  /** A heading with the lines under it, up to the next heading. */
  datatype Block = Block(heading: string, body: seq<string>)

  ghost predicate WellHeaded(blocks: seq<Block>) {
    forall i :: 0 <= i < |blocks| ==> IsHeading(blocks[i].heading) && NoHeading(blocks[i].body)
  }

  ghost predicate NoHeading(lines: seq<string>) {
    forall i :: 0 <= i < |lines| ==> !IsHeading(lines[i])
  }

  /** All lines of a file: those ahead of the first heading, then each block. */
  function FileLines(preamble: seq<string>, blocks: seq<Block>): seq<string>
    decreases |blocks|
  {
    if blocks == [] then preamble
    else preamble + ([blocks[0].heading] + FileLines(blocks[0].body, blocks[1..]))
  }

  /** The blocks that are headed as help, under the name of their effect. */
  function HelpBlocks(blocks: seq<Block>): seq<Section>
    decreases |blocks|
  {
    if blocks == [] then []
    else if HeadingName(blocks[0].heading).Some? then
      [Section(HeadingName(blocks[0].heading).value, blocks[0].body)] + HelpBlocks(blocks[1..])
    else HelpBlocks(blocks[1..])
  }

  /** The sections of a file are its help blocks, each with exactly its own lines. */
  lemma {:induction false} SectionsOfFile(preamble: seq<string>, blocks: seq<Block>)
    requires NoHeading(preamble) && WellHeaded(blocks)
    ensures Sections(FileLines(preamble, blocks)) == HelpBlocks(blocks)
    ensures Body(FileLines(preamble, blocks)) == preamble
    decreases |blocks|, |preamble|
  {
    hide IsHeading, HeadingName;
    var lines := FileLines(preamble, blocks);
    if preamble != [] {
      SectionsOfFile(preamble[1..], blocks);
      assert lines[1..] == FileLines(preamble[1..], blocks);
      assert preamble == [preamble[0]] + preamble[1..];
      PlainLine(lines[0]);
    } else if blocks != [] {
      SectionsOfFile(blocks[0].body, blocks[1..]);
      assert lines[1..] == FileLines(blocks[0].body, blocks[1..]);
    }
  }

  lemma PlainLine(line: string)
    requires !IsHeading(line)
    ensures HeadingName(line).None?
  {
  }

  // ----- The one-pass parser -----

  datatype Open = Open(name: string, help: Help)

  predicate IsEmpty(help: Help) {
    help.description.None? && help.items == map[]
  }

  method FlushSection(table: map<string, Help>, section: Option<Open>) returns (next: map<string, Help>)
    ensures forall name :: name in table ==> name in next && next[name] == table[name]
    ensures section.None? || IsEmpty(section.value.help) ==> next.Keys == table.Keys
    ensures section.Some? && !IsEmpty(section.value.help) ==>
      var name := section.value.name;
      next.Keys == table.Keys + {name} && (name !in table ==> next[name] == section.value.help)
  {
    if section.None? || IsEmpty(section.value.help) {
      return table;
    }
    return if section.value.name in table then table else table[section.value.name := section.value.help];
  }

  method ReadLine(line: string, help: Help, ghost body: seq<string>) returns (next: Help)
    requires Says(help, body)
    ensures Says(next, body + [line])
  {
    ExtendBody(body, line);
    hide FirstValue;
    next := help;
    if Trim(line) != "" && Trim(line)[0] == COMMENT_PREFIX {
      return;
    }
    var entry := SplitOnce(Trim(line), '=');
    if entry.None? {
      return;
    }
    var (key, value) := entry.value;
    var text := UnescapeNewlines(value);
    if key == EFFECT_DESCRIPTION_KEY {
      if next.description.None? {
        next := next.(description := Some(text));
      }
    } else if key !in next.items {
      next := next.(items := next.items[key := text]);
    }
    forall other ensures Entry(next.items, other)
      == if other == EFFECT_DESCRIPTION_KEY then None else FirstValue(body + [line], other)
    {
      assert Entry(help.items, other) == if other == EFFECT_DESCRIPTION_KEY then None else FirstValue(body, other);
      assert Entry(help.items, key) == if key == EFFECT_DESCRIPTION_KEY then None else FirstValue(body, key);
    }
  }

  /** A further line only adds a value for a key that had none. */
  lemma {:induction false} ExtendBody(body: seq<string>, line: string)
    ensures forall key ::
      FirstValue(body + [line], key) ==
        if FirstValue(body, key).Some? then FirstValue(body, key)
        else if KeyValue(line).Some? && KeyValue(line).value.0 == key then Some(Unescape(KeyValue(line).value.1))
        else None
  {
    hide KeyValue, Unescape;
    if body == [] {
      assert body + [line] == [line] && [line][1..] == [];
    } else {
      assert (body + [line])[1..] == body[1..] + [line];
      ExtendBody(body[1..], line);
    }
  }

  lemma EmptySaysNothing(help: Help, body: seq<string>)
    requires Says(help, body)
    ensures IsEmpty(help) <==> SaysNothing(body)
  {
    hide FirstValue;
    if IsEmpty(help) {
      forall key ensures FirstValue(body, key) == None {
        assert Entry(help.items, key) == None;
      }
    }
    if SaysNothing(body) {
      forall key ensures key !in help.items {
        assert Entry(help.items, key) == if key == EFFECT_DESCRIPTION_KEY then None else FirstValue(body, key);
      }
      assert help.items == map[];
    }
  }

  /** Every name's final help is already in the table or will come from the sections ahead. */
  ghost predicate Ahead(table: map<string, Help>, ahead: seq<Section>, all: seq<Section>) {
    forall name :: AheadName(table, name, FirstSection(ahead, name), FirstSection(all, name))
  }

  ghost predicate AheadName(table: map<string, Help>, name: string, ahead: Option<seq<string>>,
                            body: Option<seq<string>>)
  {
    if name in table then body.Some? && Says(table[name], body.value) else body == ahead
  }

  /** The section being read, with the lines still to come, then the sections after it. */
  ghost function OpenSections(section: Option<Open>, body: seq<string>, lines: seq<string>): seq<Section> {
    (if section.None? then [] else [Section(section.value.name, body + Body(lines))]) + Sections(lines)
  }

  /** Flushing moves the first section ahead into the table. */
  lemma Flushed(table: map<string, Help>, next: map<string, Help>, open: Open, body: seq<string>, after: seq<Section>,
                all: seq<Section>)
    requires Ahead(table, [Section(open.name, body)] + after, all) && Says(open.help, body)
    requires forall name :: name in table ==> name in next && next[name] == table[name]
    requires next.Keys == (if IsEmpty(open.help) then table.Keys else table.Keys + {open.name})
    requires !IsEmpty(open.help) && open.name !in table ==> next[open.name] == open.help
    ensures Ahead(next, after, all)
  {
    hide Says, SaysNothing;
    var ahead := [Section(open.name, body)] + after;
    EmptySaysNothing(open.help, body);
    assert ahead[1..] == after;
    forall name ensures AheadName(next, name, FirstSection(after, name), FirstSection(all, name)) {
      assert AheadName(table, name, FirstSection(ahead, name), FirstSection(all, name));
    }
  }

  /** One pass, taking each line as it comes. */
  method ParseHelp(text: string) returns (table: map<string, Help>)
    ensures Reads(table, Sections(Lines(text)))
  {
    hide Says, FirstSection, Lines, Sections, Body;
    var lines := Lines(text);
    ghost var all := Sections(lines);
    table := map[];
    var section: Option<Open> := None;
    ghost var body: seq<string> := [];
    Start(lines);
    for next := 0 to |lines|
      invariant section.Some? ==> Says(section.value.help, body)
      invariant Ahead(table, OpenSections(section, body, lines[next..]), all)
    {
      var line := Trim(lines[next]);
      if line != "" && line[0] == '[' {
        HeadingStep(lines, next, section, body);
        var flushed := FlushSection(table, section);
        if section.Some? {
          Flushed(table, flushed, section.value, body, Sections(lines[next..]), all);
        }
        assert section.None? ==> flushed == table;
        table := flushed;
        var name := HeadingName(lines[next]);
        section := if name.None? then None else Some(Open(name.value, NO_HELP));
        body := [];
        NothingRead();
      } else {
        var help := NO_HELP;
        if section.Some? {
          help := ReadLine(lines[next], section.value.help, body);
        }
        LineStep(lines, next, section, body, help);
        if section.Some? {
          section := Some(section.value.(help := help));
          body := body + [lines[next]];
        }
      }
    }
    Finish(lines, section, body);
    var flushed := FlushSection(table, section);
    if section.Some? {
      Flushed(table, flushed, section.value, body, [], all);
    }
    assert section.None? ==> flushed == table;
    table := flushed;
    Done(table, all);
  }

  lemma Start(lines: seq<string>)
    ensures Ahead(map[], OpenSections(None, [], lines[0..]), Sections(lines))
  {
    assert lines[0..] == lines && OpenSections(None, [], lines) == Sections(lines);
    hide Sections, FirstSection;
  }

  lemma NothingRead()
    ensures Says(NO_HELP, [])
  {
  }

  /** At a heading the open section ends and the heading's own section opens. */
  lemma HeadingStep(lines: seq<string>, next: nat, section: Option<Open>, body: seq<string>)
    requires next < |lines| && IsHeading(lines[next])
    ensures OpenSections(section, body, lines[next..])
         == if section.None? then Sections(lines[next..])
            else [Section(section.value.name, body)] + Sections(lines[next..])
    ensures var name := HeadingName(lines[next]);
      var heads := if name.None? then None else Some(Open(name.value, NO_HELP));
      OpenSections(heads, [], lines[next + 1..]) == Sections(lines[next..])
  {
    hide IsHeading, HeadingName;
    assert lines[next..][1..] == lines[next + 1..];
    assert body + Body(lines[next..]) == body;
    assert [] + Body(lines[next + 1..]) == Body(lines[next + 1..]);
  }

  /** Any other line belongs to the open section, if there is one, and to nothing else. */
  lemma LineStep(lines: seq<string>, next: nat, section: Option<Open>, body: seq<string>, help: Help)
    requires next < |lines| && !IsHeading(lines[next])
    ensures section.Some? ==>
      OpenSections(section, body, lines[next..])
      == OpenSections(Some(section.value.(help := help)), body + [lines[next]], lines[next + 1..])
    ensures section.None? ==>
      OpenSections(section, body, lines[next..]) == OpenSections(section, body, lines[next + 1..])
  {
    hide IsHeading, HeadingName;
    assert lines[next..][1..] == lines[next + 1..];
    assert body + Body(lines[next..]) == body + [lines[next]] + Body(lines[next + 1..]);
  }

  lemma Finish(lines: seq<string>, section: Option<Open>, body: seq<string>)
    ensures OpenSections(section, body, lines[|lines|..])
         == (if section.None? then [] else [Section(section.value.name, body)]) + []
  {
    assert lines[|lines|..] == [];
    assert body + Body([]) == body;
  }

  lemma Done(table: map<string, Help>, all: seq<Section>)
    requires Ahead(table, [], all)
    ensures Reads(table, all)
  {
    hide Says;
    forall name ensures ReadsName(table, name, FirstSection(all, name)) {
      assert AheadName(table, name, FirstSection([], name), FirstSection(all, name));
    }
  }
}
