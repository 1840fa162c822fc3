/**
 The caching reader of the settings file. It reparses only when the stamp of the content changes,
 and must never be told apart from a reader that reparses every time.
 */
module SettingsReader {
  import opened Wrappers
  import Settings
  import SettingsIssues

  /**
   The text form of documents and the stamp of a text, which the library supplies: a printer and a
   parser of JSON objects, and a digest.
   */
  datatype Library = Library(
    printJson: Settings.Fields -> string,
    parseJson: string -> Option<Settings.Fields>,
    stampOf: string -> string
  )

  /** Parsing undoes printing, and equal stamps mean equal texts. */
  ghost predicate Faithful(lib: Library) {
    && (forall fields :: lib.parseJson(lib.printJson(fields)) == Some(fields))
    && (forall a, b :: lib.stampOf(a) == lib.stampOf(b) ==> a == b)
  }

  /** The written form always carries the schema version. */
  function WithSchemaVersion(fields: Settings.Fields): Settings.Fields {
    if Settings.SCHEMA_VERSION in fields then fields
    else fields[Settings.SCHEMA_VERSION := Settings.Unsigned(Settings.SETTINGS_SCHEMA_VERSION)]
  }

  function ToJson(lib: Library, fields: Settings.Fields): string {
    lib.printJson(WithSchemaVersion(fields))
  }

  /** What reading the file found: its text, no file, or a failure. */
  datatype FileRead = Content(text: string) | Missing | Unreadable

  datatype ReadError = IoError | ParseError

  datatype Refresh = Unchanged | Reloaded(issues: seq<SettingsIssues.Issue>) | Failed(error: ReadError)

  datatype State = State(stamp: Option<string>, settings: Settings.Settings, loads: nat)

  const INITIAL := State(None, Settings.DEFAULT, 0)

  /** The settings a loaded text leads to; a text that does not parse keeps the ones there were. */
  function Loaded(lib: Library, text: string, previous: Settings.Settings): Settings.Settings {
    match lib.parseJson(text)
    case None => previous
    case Some(fields) => Settings.Resolve(fields, previous)
  }

  class Reader {
    const lib: Library
    var stamp: Option<string>
    var settings: Settings.Settings
    var loads: nat

    ghost function View(): State
      reads this
    {
      State(stamp, settings, loads)
    }

    constructor (lib: Library)
      ensures View() == INITIAL && this.lib == lib
    {
      this.lib := lib;
      stamp := None;
      settings := Settings.DEFAULT;
      loads := 0;
    }

    method RefreshFrom(file: FileRead) returns (r: Refresh)
      modifies this
      ensures View() == Step(lib, old(View()), RefreshOp(file))
      ensures r.Unchanged? <==> !file.Unreadable? && View() == old(View())
      ensures r == Failed(IoError) <==> file.Unreadable?
      ensures r == Failed(ParseError) <==> View() != old(View()) && file.Content? && lib.parseJson(file.text).None?
      ensures r.Reloaded? && file.Content? ==>
        && lib.parseJson(file.text).Some?
        && r.issues == SettingsIssues.Issues(lib.parseJson(file.text).value, old(settings))
    {
      hide Settings.Resolve, SettingsIssues.Issues;
      if file.Unreadable? {
        return Failed(IoError);
      }
      var read := if file.Content? then Some(lib.stampOf(file.text)) else None;
      if stamp == read && loads > 0 {
        return Unchanged;
      }
      if file.Missing? {
        stamp := None;
        loads := loads + 1;
        settings := Settings.DEFAULT;
        return Reloaded([]);
      }
      stamp := read;
      loads := loads + 1;
      match lib.parseJson(file.text) {
        case None =>
          return Failed(ParseError);
        case Some(fields) =>
          var resolved, issues := SettingsIssues.ResolveDocument(fields, settings);
          settings := resolved;
          r := Reloaded(issues);
      }
    }

    /** Takes over a document this process has just written, without reading the file. */
    method Adopt(fields: Settings.Fields) returns (issues: seq<SettingsIssues.Issue>)
      modifies this
      ensures View() == Step(lib, old(View()), AdoptOp(fields))
      ensures issues == SettingsIssues.Issues(fields, old(settings))
    {
      hide Settings.Resolve, SettingsIssues.Issues, WithSchemaVersion;
      var resolved;
      resolved, issues := SettingsIssues.ResolveDocument(fields, settings);
      settings := resolved;
      stamp := Some(lib.stampOf(ToJson(lib, fields)));
      loads := loads + 1;
    }
  }

  // ----- Runs -----

  datatype Op = RefreshOp(file: FileRead) | AdoptOp(fields: Settings.Fields)

  /** One operation of the caching reader. */
  function Step(lib: Library, s: State, op: Op): State {
    match op
    case RefreshOp(Unreadable) => s
    case RefreshOp(Missing) => if s.stamp == None && s.loads > 0 then s else State(None, Settings.DEFAULT, s.loads + 1)
    case RefreshOp(Content(text)) =>
      if s.stamp == Some(lib.stampOf(text)) && s.loads > 0 then s
      else State(Some(lib.stampOf(text)), Loaded(lib, text, s.settings), s.loads + 1)
    case AdoptOp(fields) =>
      State(Some(lib.stampOf(ToJson(lib, fields))), Settings.Resolve(fields, s.settings), s.loads + 1)
  }

  function Run(lib: Library, ops: seq<Op>): State {
    if ops == [] then INITIAL else Step(lib, Run(lib, ops[..|ops| - 1]), ops[|ops| - 1])
  }

  /** The same operation of a reader that keeps nothing but its settings and parses whatever it reads. */
  function StepUncached(lib: Library, settings: Settings.Settings, op: Op): Settings.Settings {
    match op
    case RefreshOp(Unreadable) => settings
    case RefreshOp(Missing) => Settings.DEFAULT
    case RefreshOp(Content(text)) => Loaded(lib, text, settings)
    case AdoptOp(fields) => Settings.Resolve(fields, settings)
  }

  function RunUncached(lib: Library, ops: seq<Op>): Settings.Settings {
    if ops == [] then Settings.DEFAULT
    else StepUncached(lib, RunUncached(lib, ops[..|ops| - 1]), ops[|ops| - 1])
  }

  /** The settings held are the ones the stamped text leads to, or the defaults when no file was stamped. */
  ghost predicate Coherent(lib: Library, s: State) {
    && (s.stamp.None? ==> s.settings == Settings.DEFAULT)
    && (s.stamp.Some? ==>
          forall text :: lib.stampOf(text) == s.stamp.value ==> Loaded(lib, text, s.settings) == s.settings)
  }

  /** Loading a text twice is loading it once. */
  lemma LoadedIdempotent(lib: Library, text: string, previous: Settings.Settings)
    ensures Loaded(lib, text, Loaded(lib, text, previous)) == Loaded(lib, text, previous)
  {
    if lib.parseJson(text).Some? {
      var fields := lib.parseJson(text).value;
      Settings.ResolveIgnoresPrevious(fields, previous, Settings.Resolve(fields, previous));
    }
  }

  /** A written document reads back as the same settings, schema version or not. */
  lemma WrittenReadsBack(lib: Library, fields: Settings.Fields, previous: Settings.Settings)
    requires Faithful(lib)
    ensures Loaded(lib, ToJson(lib, fields), previous) == Settings.Resolve(fields, previous)
  {
    Settings.ResolveIgnoresSchemaVersion(fields, Settings.Unsigned(Settings.SETTINGS_SCHEMA_VERSION), previous);
  }

  /**
   The written form holds every field of the document as it stands, known or not, and the schema
   version besides, which it fills in only where the document has none.
   */
  lemma WrittenForm(lib: Library, fields: Settings.Fields, key: string)
    requires Faithful(lib)
    ensures var parsed := lib.parseJson(ToJson(lib, fields));
      && parsed.Some?
      && Entry(parsed.value, key) ==
           if key == "schema_version" && key !in fields then Some(Settings.Unsigned(1)) else Entry(fields, key)
  {
    Settings.KeysDiffer();
  }

  /** What a change does not name is still there when the changed document is written and loaded again. */
  lemma UnknownSurvivesWriting(lib: Library, fields: Settings.Fields, change: Settings.SettingsChange, key: string)
    requires Faithful(lib) && key !in Settings.KNOWN_KEYS && key in fields
    ensures var parsed := lib.parseJson(ToJson(lib, Settings.Applied(fields, change)));
      parsed.Some? && Entry(parsed.value, key) == Entry(fields, key)
  {
    hide Settings.Applied;
    Settings.UnknownSurvives(fields, change, key, "", "");
    WrittenForm(lib, Settings.Applied(fields, change), key);
    hide ToJson, Settings.DisabledTools, Settings.GroupObject, Settings.GroupUpdates;
  }

  /** The operation brings settings: the defaults of a missing file, or those of a document. */
  ghost predicate Brings(lib: Library, op: Op) {
    || op == RefreshOp(Missing)
    || op.AdoptOp?
    || (op.RefreshOp? && op.file.Content? && lib.parseJson(op.file.text).Some?)
  }

  ghost function Brought(lib: Library, op: Op): Settings.Settings
    requires Brings(lib, op)
  {
    match op
    case RefreshOp(Missing) => Settings.DEFAULT
    case RefreshOp(Content(text)) => Settings.Resolve(lib.parseJson(text).value, Settings.DEFAULT)
    case AdoptOp(fields) => Settings.Resolve(fields, Settings.DEFAULT)
  }

  /**
   After any run the settings are what the last missing file, parsed file or adopted document gives on
   its own; unreadable and broken files leave no trace.
   */
  lemma {:induction false} LastDocumentDecides(lib: Library, ops: seq<Op>, k: nat)
    requires Faithful(lib) && k < |ops| && Brings(lib, ops[k])
    requires forall j :: k < j < |ops| ==> !Brings(lib, ops[j])
    ensures Run(lib, ops).settings == Brought(lib, ops[k])
  {
    hide Settings.Resolve;
    var last := |ops| - 1;
    CacheIsInvisible(lib, ops);
    CacheIsInvisible(lib, ops[..last]);
    var before := RunUncached(lib, ops[..last]);
    if k < last {
      LastDocumentDecides(lib, ops[..last], k);
      assert !Brings(lib, ops[last]);
    } else {
      match ops[last] {
        case RefreshOp(Content(text)) =>
          Settings.ResolveIgnoresPrevious(lib.parseJson(text).value, before, Settings.DEFAULT);
        case AdoptOp(fields) => Settings.ResolveIgnoresPrevious(fields, before, Settings.DEFAULT);
        case _ =>
      }
    }
    hide Run;
  }

  lemma {:induction false} NothingBrought(lib: Library, ops: seq<Op>)
    requires Faithful(lib) && forall j :: 0 <= j < |ops| ==> !Brings(lib, ops[j])
    ensures Run(lib, ops).settings == Settings.DEFAULT
  {
    hide Settings.Resolve;
    CacheIsInvisible(lib, ops);
    if ops != [] {
      var last := |ops| - 1;
      NothingBrought(lib, ops[..last]);
      CacheIsInvisible(lib, ops[..last]);
      assert !Brings(lib, ops[last]);
    }
    hide Run;
  }

  lemma StepCoherent(lib: Library, s: State, op: Op)
    requires Faithful(lib) && Coherent(lib, s)
    ensures Coherent(lib, Step(lib, s, op))
    ensures Step(lib, s, op).settings == StepUncached(lib, s.settings, op)
  {
    hide Settings.Resolve;
    match op {
      case RefreshOp(Content(text)) =>
        LoadedIdempotent(lib, text, s.settings);
      case AdoptOp(fields) =>
        var resolved := Settings.Resolve(fields, s.settings);
        WrittenReadsBack(lib, fields, resolved);
        Settings.ResolveIgnoresPrevious(fields, resolved, s.settings);
      case _ =>
    }
  }

  /** Over every run of reads, failures, broken files and writes, the cache is invisible. */
  lemma {:induction false} CacheIsInvisible(lib: Library, ops: seq<Op>)
    requires Faithful(lib)
    ensures Coherent(lib, Run(lib, ops))
    ensures Run(lib, ops).settings == RunUncached(lib, ops)
  {
    hide Coherent, Step, StepUncached;
    if ops == [] {
      InitialIsCoherent(lib);
    } else {
      CacheIsInvisible(lib, ops[..|ops| - 1]);
      StepCoherent(lib, Run(lib, ops[..|ops| - 1]), ops[|ops| - 1]);
    }
  }

  lemma InitialIsCoherent(lib: Library)
    ensures Coherent(lib, INITIAL)
  {
  }

  /** Reading the same content again parses nothing, and neither does reading what was just adopted. */
  lemma NoSecondLoad(lib: Library, s: State, op: Op, file: FileRead)
    requires (op == RefreshOp(file) && !file.Unreadable?) || (op.AdoptOp? && file == Content(ToJson(lib, op.fields)))
    ensures var next := Step(lib, s, op); Step(lib, next, RefreshOp(file)) == next
  {
    hide Settings.Resolve;
  }
}
