/**
 Track movements and the one line of text the host stores them in:
 `v0,…,vN,mode,flags[|expression][|params]`, or a single number when nothing moves.
 */
module TrackValues {
  import opened Wrappers
  import opened Strings
  import opened Bytes
  import opened MachineIntegers
  import opened Numerals
  import opened Decimals
  import opened DataModel
  import opened Validation

  type Track = TrackValue<Number>

  const FIELD_SEPARATOR: char := ','
  const PARAM_SEPARATOR: char := '|'

  const FLAG_ACCELERATE: nat := 1
  const FLAG_DECELERATE: nat := 2
  const FLAG_TWOPOINT: nat := 4
  const FLAG_EXPRESSION: nat := 8

  /** The named flags and the expression flag fill the low four bits. */
  const UNNAMED_UNIT: nat := 16

  const MIN_MOVING_VALUES: nat := 2
  const MIN_MOVING_FIELDS: nat := 3

  datatype UnrepresentableMovement = NoExpression | TooFewValues

  datatype TrackDecodeError = NotAMovement | NotRepresentable(cause: UnrepresentableMovement)

  function AsWriteError(cause: UnrepresentableMovement): TrackValueError {
    match cause
    case NoExpression => ExpressionMissing
    case TooFewValues => ValueCount(MIN_MOVING_VALUES, 1)
  }

  // ----- Flags -----

  predicate HasFlag(flags: nat, mask: nat)
    requires mask > 0
  {
    flags / mask % 2 == 1
  }

  /** One bit of a bitwise or. */
  function OrBit(enabled: bool, flags: nat, mask: nat): nat
    requires mask > 0
  {
    if enabled || HasFlag(flags, mask) then mask else 0
  }

  /** The named bits laid over the reserved ones with a bitwise or. */
  function FlagBits(value: Track): U32 {
    value.reservedFlags / UNNAMED_UNIT * UNNAMED_UNIT
    + OrBit(value.accelerate, value.reservedFlags, FLAG_ACCELERATE)
    + OrBit(value.decelerate, value.reservedFlags, FLAG_DECELERATE)
    + OrBit(value.twopoint, value.reservedFlags, FLAG_TWOPOINT)
    + OrBit(value.expression.Some?, value.reservedFlags, FLAG_EXPRESSION)
  }

  /** The reserved field keeps clear of the bits that have a field of their own. */
  predicate ReservedIsUnnamed(value: Track) {
    value.reservedFlags % UNNAMED_UNIT == 0
  }

  // ----- Validation -----

  predicate ReadsAsNumber(mode: string) {
    ParseFinite(mode).Some?
  }

  function CheckExpression(expression: string): Outcome<TextSyntaxError> {
    var text := ValidateItemText(expression);
    if text.Fail? then text
    else if expression == "" then Fail(EmptyText)
    else if PARAM_SEPARATOR in expression then Fail(ForbiddenCharacter)
    else Pass
  }

  function CheckModeText(mode: string): Outcome<TextSyntaxError> {
    var text := ValidateItemText(mode);
    if text.Fail? then text
    else if mode == "" then Fail(EmptyText)
    else if FIELD_SEPARATOR in mode || PARAM_SEPARATOR in mode then Fail(ForbiddenCharacter)
    else Pass
  }

  function ValidateTrackSyntax(value: Track): Outcome<ItemWriteError> {
    match value.mode
    case None =>
      if |value.values| != 1 then Fail(TrackError(ValueCount(1, |value.values|)))
      else if value.params != [] || FlagBits(value) != 0 then Fail(TrackError(MovementWithoutMode))
      else Pass
    case Some(mode) =>
      if !ReservedIsUnnamed(value) then Fail(TrackError(FlagsNotRepresentable))
      else
        var expression := if value.expression.Some? then CheckExpression(value.expression.value) else Pass;
        var modeText := CheckModeText(mode);
        if expression.Fail? then Fail(TextError(expression.error))
        else if modeText.Fail? then Fail(TextError(modeText.error))
        else if ReadsAsNumber(mode) then Fail(TrackError(ModeReadsAsNumber))
        else if |value.values| < MIN_MOVING_VALUES then
          Fail(TrackError(ValueCount(MIN_MOVING_VALUES, |value.values|)))
        else Pass
  }

  function FindMovement(movements: seq<Movement>, name: string): Option<Movement> {
    if movements == [] then None
    else if movements[0].name == name then Some(movements[0])
    else FindMovement(movements[1..], name)
  }

  /** The first movement of that name decides. */
  lemma {:induction false} FindMovementMeaning(movements: seq<Movement>, name: string, k: nat)
    requires k < |movements| && movements[k].name == name && forall j :: 0 <= j < k ==> movements[j].name != name
    ensures FindMovement(movements, name) == Some(movements[k])
  {
    if k > 0 {
      FindMovementMeaning(movements[1..], name, k - 1);
    }
  }

  lemma {:induction false} FindMovementNone(movements: seq<Movement>, name: string)
    ensures FindMovement(movements, name) == None <==> forall k :: 0 <= k < |movements| ==> movements[k].name != name
  {
    if movements != [] {
      FindMovementNone(movements[1..], name);
      assert forall k :: 0 < k < |movements| ==> movements[k] == movements[1..][k - 1];
    }
  }

  function ValidateTrackValue(value: Track, target: TrackWriteTarget): Outcome<ItemWriteError> {
    var syntax := ValidateTrackSyntax(value);
    if syntax.Fail? || value.mode.None? then syntax
    else if |value.values| != target.sectionCount + 1 then
      Fail(TrackError(ValueCount(target.sectionCount + 1, |value.values|)))
    else
      match FindMovement(target.movements, value.mode.value)
      case None => Fail(TrackError(UnknownMode(target.movements)))
      case Some(movement) => if movement.writable then Pass else Fail(TrackError(ModeNotWritable))
  }

  // ----- Encoding -----

  function Texts(numbers: seq<Number>): (texts: seq<string>)
    ensures |texts| == |numbers|
    ensures forall i :: 0 <= i < |texts| ==> texts[i] == Print(numbers[i])
  {
    seq(|numbers|, i requires 0 <= i < |numbers| => Print(numbers[i]))
  }

  function Section(text: Option<string>): string {
    if text.Some? then [PARAM_SEPARATOR] + text.value else ""
  }

  /** What follows the first separator: the expression and its parameters, or the parameters alone. */
  function Tail(expression: Option<string>, paramsText: Option<string>): Option<string> {
    if expression.Some? then Some(expression.value + Section(paramsText)) else paramsText
  }

  function Render(value: Track): string
    requires value.values != []
  {
    match value.mode
    case None => Print(value.values[0])
    case Some(mode) =>
      Join(Texts(value.values) + [mode, PrintNat(FlagBits(value))], FIELD_SEPARATOR)
      + Section(Tail(value.expression, ParamsText(value)))
  }

  function ParamsText(value: Track): Option<string> {
    if value.params == [] then None else Some(Join(Texts(value.params), FIELD_SEPARATOR))
  }

  function Encode(value: Track, target: TrackWriteTarget): Result<string, ItemWriteError> {
    match ValidateTrackValue(value, target)
    case Fail(error) => Err(error)
    case Pass =>
      match LimitItemValueBytes(Render(value))
      case Fail(error) => Err(TextError(error))
      case Pass => Ok(Render(value))
  }

  lemma {:induction false} JoinExtend(fields: seq<string>, last: string, sep: char)
    requires fields != []
    ensures Join(fields + [last], sep) == Join(fields, sep) + [sep] + last
  {
    if |fields| > 1 {
      JoinExtend(fields[1..], last, sep);
      assert (fields + [last])[1..] == fields[1..] + [last];
    } else {
      assert (fields + [last])[1..] == [last];
    }
  }

  lemma JoinPrefix(texts: seq<string>, next: nat, sep: char)
    requires next < |texts|
    ensures Join(texts[..next + 1], sep)
         == (if next == 0 then "" else Join(texts[..next], sep) + [sep]) + texts[next]
  {
    assert texts[..next + 1] == texts[..next] + [texts[next]];
    if next > 0 {
      JoinExtend(texts[..next], texts[next], sep);
    }
  }

  /** Pushing the two sections one after the other is pushing the tail. */
  lemma SectionsAppended(head: string, expression: Option<string>, paramsText: Option<string>)
    ensures head + Section(Tail(expression, paramsText)) == head + Section(expression) + Section(paramsText)
  {
  }

  lemma SectionPushed(before: string, text: Option<string>)
    ensures before + Section(text)
         == if text.None? then before else before + [PARAM_SEPARATOR] + text.value
  {
  }

  /** The line pushed together piece by piece, producing exactly the specified line or refusal. */
  method EncodeTrackValue(value: Track, target: TrackWriteTarget) returns (r: Result<string, ItemWriteError>)
    ensures r == Encode(value, target)
  {
    var valid := ValidateTrackValue(value, target);
    if valid.Fail? {
      return Err(valid.error);
    }
    var encoded;
    if value.mode.None? {
      encoded := Print(value.values[0]);
    } else {
      encoded := EncodeMoving(value);
    }
    var limit := LimitItemValueBytes(encoded);
    if limit.Fail? {
      return Err(TextError(limit.error));
    }
    return Ok(encoded);
  }

  method EncodeMoving(value: Track) returns (encoded: string)
    requires ValidateTrackSyntax(value).Pass? && value.mode.Some?
    ensures encoded == Render(value)
  {
    encoded := "";
    ghost var texts := Texts(value.values);
    for next := 0 to |value.values|
      invariant encoded == if next == 0 then "" else Join(texts[..next], FIELD_SEPARATOR) + [FIELD_SEPARATOR]
    {
      encoded := encoded + Print(value.values[next]);
      encoded := encoded + [FIELD_SEPARATOR];
      JoinPrefix(texts, next, FIELD_SEPARATOR);
    }
    var flags := PrintNat(FlagBits(value));
    encoded := encoded + value.mode.value;
    encoded := encoded + [FIELD_SEPARATOR];
    encoded := encoded + flags;
    ghost var head := Join(texts + [value.mode.value, flags], FIELD_SEPARATOR);
    assert encoded == head by {
      assert texts[..|texts|] == texts;
      JoinExtend(texts, value.mode.value, FIELD_SEPARATOR);
      JoinExtend(texts + [value.mode.value], flags, FIELD_SEPARATOR);
      assert texts + [value.mode.value] + [flags] == texts + [value.mode.value, flags];
    }
    if value.expression.Some? {
      encoded := encoded + [PARAM_SEPARATOR];
      encoded := encoded + value.expression.value;
    }
    if value.params != [] {
      encoded := encoded + [PARAM_SEPARATOR];
      encoded := PushParams(value.params, encoded);
    }
    SectionPushed(head, value.expression);
    SectionPushed(head + Section(value.expression), ParamsText(value));
    SectionsAppended(head, value.expression, ParamsText(value));
  }

  /** The loop over the parameters, appending to what is already encoded. */
  method PushParams(params: seq<Number>, before: string) returns (encoded: string)
    ensures encoded == before + Join(Texts(params), FIELD_SEPARATOR)
  {
    encoded := before;
    ghost var texts := Texts(params);
    for next := 0 to |params|
      invariant encoded == before + Join(texts[..next], FIELD_SEPARATOR)
    {
      JoinPrefix(texts, next, FIELD_SEPARATOR);
      if next > 0 {
        encoded := encoded + [FIELD_SEPARATOR];
      }
      encoded := encoded + Print(params[next]);
    }
    assert texts[..|params|] == texts;
  }

  // ----- Decoding -----

  function ParseAll(fields: seq<string>): (r: Option<seq<Number>>)
    ensures r.Some? ==> |r.value| == |fields|
  {
    if fields == [] then Some([])
    else
      match (ParseFinite(fields[0]), ParseAll(fields[1..]))
      case (Some(number), Some(rest)) => Some([number] + rest)
      case _ => None
  }

  /** The fields are read one by one, and all of them must read. */
  lemma {:induction false} ParseAllMeaning(fields: seq<string>, numbers: seq<Number>)
    ensures ParseAll(fields) == Some(numbers) <==>
      |fields| == |numbers| && forall i :: 0 <= i < |fields| ==> ParseFinite(fields[i]) == Some(numbers[i])
  {
    hide ParseFinite;
    if fields != [] {
      var rest := if numbers == [] then [] else numbers[1..];
      ParseAllMeaning(fields[1..], rest);
      if |fields| == |numbers| {
        assert numbers == [numbers[0]] + rest;
        assert forall i :: 0 < i < |fields| ==> fields[i] == fields[1..][i - 1] && numbers[i] == rest[i - 1];
      }
    }
  }

  function SplitExpression(flags: nat, tail: Option<string>)
    : Result<(Option<string>, Option<string>), TrackDecodeError>
  {
    if !HasFlag(flags, FLAG_EXPRESSION) then Ok((None, tail))
    else if tail.None? then Err(NotRepresentable(NoExpression))
    else
      var cut := SplitOnce(tail.value, PARAM_SEPARATOR);
      var expression := if cut.Some? then cut.value.0 else tail.value;
      var params := if cut.Some? then Some(cut.value.1) else None;
      if expression == "" || ValidateControlFree(expression).Fail? then Err(NotRepresentable(NoExpression))
      else Ok((Some(expression), params))
  }

  function ParseParams(text: Option<string>): Option<seq<Number>> {
    if text.None? || text.value == "" then Some([]) else ParseAll(Split(text.value, FIELD_SEPARATOR))
  }

  /** Parameters are comma-separated numbers, and an empty or missing section is none of them. */
  lemma ParseParamsMeaning(texts: seq<string>)
    requires texts != [] && Excludes(texts, ',')
    ensures ParseParams(None) == Some([]) && ParseParams(Some("")) == Some([])
    ensures Join(texts, ',') != "" ==> ParseParams(Some(Join(texts, ','))) == ParseAll(texts)
  {
    hide ParseAll;
    SplitJoin(texts, ',');
  }

  predicate ReadableMode(mode: string) {
    mode != "" && !ReadsAsNumber(mode) && ValidateControlFree(mode).Pass?
  }

  function StaticTrack(value: Number): Track {
    TrackValue([value], None, [], false, false, false, 0, None)
  }

  function MovingTrack(values: seq<Number>, mode: string, params: seq<Number>, flags: U32,
                       expression: Option<string>): Track
  {
    TrackValue(values, Some(mode), params,
               HasFlag(flags, FLAG_ACCELERATE), HasFlag(flags, FLAG_DECELERATE), HasFlag(flags, FLAG_TWOPOINT),
               flags / UNNAMED_UNIT * UNNAMED_UNIT, expression)
  }

  function Decode(raw: string): Result<Track, TrackDecodeError> {
    match SplitOnce(raw, PARAM_SEPARATOR)
    case None => DecodeParts(Split(raw, FIELD_SEPARATOR), None)
    case Some(cut) => DecodeParts(Split(cut.0, FIELD_SEPARATOR), Some(cut.1))
  }

  function DecodeParts(fields: seq<string>, tail: Option<string>): Result<Track, TrackDecodeError>
    requires |fields| >= 1
  {
    if |fields| == 1 then
      if tail.Some? then Err(NotAMovement)
      else
        match ParseFinite(fields[0])
        case None => Err(NotAMovement)
        case Some(value) => Ok(StaticTrack(value))
    else if |fields| < MIN_MOVING_FIELDS then Err(NotAMovement)
    else
      match ParseU32(Trim(fields[|fields| - 1]))
      case None => Err(NotAMovement)
      case Some(flags) => DecodeMoving(fields[..|fields| - 2], fields[|fields| - 2], flags, tail)
  }

  function DecodeMoving(fields: seq<string>, mode: string, flags: U32, tail: Option<string>)
    : Result<Track, TrackDecodeError>
  {
    if !ReadableMode(mode) then Err(NotAMovement)
    else
      match SplitExpression(flags, tail)
      case Err(error) => Err(error)
      case Ok(sections) =>
        match ParseAll(fields)
        case None => Err(NotAMovement)
        case Some(values) =>
          if |values| < MIN_MOVING_VALUES then Err(NotRepresentable(TooFewValues))
          else
            match ParseParams(sections.1)
            case None => Err(NotAMovement)
            case Some(params) => Ok(MovingTrack(values, mode, params, flags, sections.0))
  }

  // ----- What a line spells -----

  /** The free choices in spelling a movement: how each number is written, and whether an empty parameter section is. */
  datatype Spelling = Spelling(valueTexts: seq<string>, flagText: string, paramsText: Option<string>)

  /** The fields and sections of a movement, each a spelling of its part of `value`. */
  ghost predicate PartsSpell(value: Track, s: Spelling) {
    && value.mode.Some? && ReadableMode(value.mode.value)
    && ParseAll(s.valueTexts) == Some(value.values) && |value.values| >= MIN_MOVING_VALUES
    && ParseU32(Trim(s.flagText)) == Some(FlagBits(value)) && ReservedIsUnnamed(value)
    && (value.expression.Some? ==> SectionText(value.expression.value))
    && ParseParams(s.paramsText) == Some(value.params)
  }

  function Fields(value: Track, s: Spelling): seq<string>
    requires value.mode.Some?
  {
    s.valueTexts + [value.mode.value, s.flagText]
  }

  /**
   The format read as a grammar, with no reference to how a parser walks it: `raw` is the fields of
   `value` joined by commas, followed by its sections.
   */
  ghost predicate SpelledBy(raw: string, value: Track, s: Spelling) {
    && PartsSpell(value, s)
    && Excludes(Fields(value, s), FIELD_SEPARATOR) && Excludes(Fields(value, s), PARAM_SEPARATOR)
    && raw == Join(Fields(value, s), FIELD_SEPARATOR) + Section(Tail(value.expression, s.paramsText))
  }

  predicate SectionText(expression: string) {
    expression != "" && PARAM_SEPARATOR !in expression && ValidateControlFree(expression).Pass?
  }

  /** The low four bits of a number, and the rest of it. */
  lemma LowBits(a: nat, d: nat, t: nat, e: nat, high: nat)
    requires a < 2 && d < 2 && t < 2 && e < 2
    ensures var n := high * UNNAMED_UNIT + a + 2 * d + 4 * t + 8 * e;
            n % 2 == a && n / 2 % 2 == d && n / 4 % 2 == t && n / 8 % 2 == e && n / UNNAMED_UNIT == high
  {
    var n := high * UNNAMED_UNIT + a + 2 * d + 4 * t + 8 * e;
    assert n / 2 == high * 8 + d + 2 * t + 4 * e;
    assert n / 4 == high * 4 + t + 2 * e;
    assert n / 8 == high * 2 + e;
  }

  lemma BitsOf(n: nat)
    ensures n == n / UNNAMED_UNIT * UNNAMED_UNIT + n % 2 + 2 * (n / 2 % 2) + 4 * (n / 4 % 2) + 8 * (n / 8 % 2)
  {
    assert n / 4 == n / 2 / 2 && n / 8 == n / 4 / 2 && n / UNNAMED_UNIT == n / 8 / 2;
  }

  function BitValue(b: bool): nat {
    if b then 1 else 0
  }

  /** With the reserved field clear of named bits, the or is a sum. */
  lemma FlagBitsSum(value: Track)
    requires ReservedIsUnnamed(value)
    ensures FlagBits(value) == value.reservedFlags / UNNAMED_UNIT * UNNAMED_UNIT + BitValue(value.accelerate)
            + 2 * BitValue(value.decelerate) + 4 * BitValue(value.twopoint) + 8 * BitValue(value.expression.Some?)
  {
    LowBits(0, 0, 0, 0, value.reservedFlags / UNNAMED_UNIT);
  }

  /** The flag integer and the named fields determine each other. */
  lemma FlagsRoundTrip(value: Track)
    requires ReservedIsUnnamed(value)
    ensures var flags := FlagBits(value);
            && HasFlag(flags, FLAG_ACCELERATE) == value.accelerate
            && HasFlag(flags, FLAG_DECELERATE) == value.decelerate
            && HasFlag(flags, FLAG_TWOPOINT) == value.twopoint
            && HasFlag(flags, FLAG_EXPRESSION) == value.expression.Some?
            && flags / UNNAMED_UNIT * UNNAMED_UNIT == value.reservedFlags
  {
    FlagBitsSum(value);
    LowBits(BitValue(value.accelerate), BitValue(value.decelerate), BitValue(value.twopoint),
            BitValue(value.expression.Some?), value.reservedFlags / UNNAMED_UNIT);
  }

  lemma MovingTrackFlags(values: seq<Number>, mode: string, params: seq<Number>, flags: U32, expression: Option<string>)
    requires HasFlag(flags, FLAG_EXPRESSION) == expression.Some?
    ensures var value := MovingTrack(values, mode, params, flags, expression);
            ReservedIsUnnamed(value) && FlagBits(value) == flags
  {
    var value := MovingTrack(values, mode, params, flags, expression);
    FlagBitsSum(value);
    BitsOf(flags);
  }

  /** A section starts at the first separator when what precedes it holds none. */
  lemma CutSection(head: string, text: Option<string>)
    requires PARAM_SEPARATOR !in head
    ensures SplitOnce(head + Section(text), PARAM_SEPARATOR)
         == if text.None? then None else Some((head, text.value))
  {
    hide SplitOnce;
    SectionPushed(head, text);
    if text.Some? {
      SplitOnceAt(head, text.value, PARAM_SEPARATOR);
    }
  }

  lemma SplitTail(flags: nat, expression: Option<string>, paramsText: Option<string>)
    requires HasFlag(flags, FLAG_EXPRESSION) == expression.Some?
    requires expression.Some? ==> SectionText(expression.value)
    ensures SplitExpression(flags, Tail(expression, paramsText)) == Ok((expression, paramsText))
  {
    if expression.Some? {
      CutSection(expression.value, paramsText);
      assert expression.value + Section(None) == expression.value;
    }
  }

  lemma DecodeSpelledParts(value: Track, s: Spelling)
    requires PartsSpell(value, s)
    ensures DecodeParts(Fields(value, s), Tail(value.expression, s.paramsText)) == Ok(value)
  {
    var fields := Fields(value, s);
    assert fields[..|fields| - 2] == s.valueTexts;
    FlagsRoundTrip(value);
    SplitTail(FlagBits(value), value.expression, s.paramsText);
  }

  /** Joined fields and a tail are cut back into the same fields and tail. */
  lemma DecodeJoined(fields: seq<string>, tail: Option<string>)
    requires fields != [] && Excludes(fields, FIELD_SEPARATOR) && Excludes(fields, PARAM_SEPARATOR)
    ensures Decode(Join(fields, FIELD_SEPARATOR) + Section(tail)) == DecodeParts(fields, tail)
  {
    JoinExcludes(fields, FIELD_SEPARATOR, PARAM_SEPARATOR);
    SplitJoin(fields, FIELD_SEPARATOR);
    SectionPushed(Join(fields, FIELD_SEPARATOR), tail);
    CutSection(Join(fields, FIELD_SEPARATOR), tail);
  }

  /** The decoder reads every spelling of a movement as that movement. */
  lemma DecodeSpelled(raw: string, value: Track, s: Spelling)
    requires SpelledBy(raw, value, s)
    ensures Decode(raw) == Ok(value)
  {
    DecodeJoined(Fields(value, s), Tail(value.expression, s.paramsText));
    DecodeSpelledParts(value, s);
  }

  /** What a successfully split tail was made of. */
  lemma TailParts(flags: nat, tail: Option<string>)
    requires SplitExpression(flags, tail).Ok?
    ensures var parts := SplitExpression(flags, tail).value;
            && HasFlag(flags, FLAG_EXPRESSION) == parts.0.Some?
            && (parts.0.Some? ==> SectionText(parts.0.value))
            && tail == Tail(parts.0, parts.1)
  {
    var parts := SplitExpression(flags, tail).value;
    if parts.0.Some? {
      SectionPushed(parts.0.value, parts.1);
    }
  }

  lemma LastTwo(fields: seq<string>)
    requires |fields| >= 2
    ensures fields == fields[..|fields| - 2] + [fields[|fields| - 2], fields[|fields| - 1]]
  {
  }

  lemma DecodedPartsAreSpelled(fields: seq<string>, tail: Option<string>) returns (s: Spelling)
    requires |fields| >= 1
    requires DecodeParts(fields, tail).Ok? && DecodeParts(fields, tail).value.mode.Some?
    ensures var value := DecodeParts(fields, tail).value;
            PartsSpell(value, s) && fields == Fields(value, s) && tail == Tail(value.expression, s.paramsText)
  {
    var flags := ParseU32(Trim(fields[|fields| - 1])).value;
    s := DecodedMovingIsSpelled(fields[..|fields| - 2], fields[|fields| - 2], flags, tail, fields[|fields| - 1]);
    LastTwo(fields);
  }

  lemma DecodedMovingIsSpelled(fields: seq<string>, mode: string, flags: U32, tail: Option<string>, flagText: string)
    returns (s: Spelling)
    requires DecodeMoving(fields, mode, flags, tail).Ok?
    requires ParseU32(Trim(flagText)) == Some(flags)
    ensures var value := DecodeMoving(fields, mode, flags, tail).value;
            && PartsSpell(value, s) && s.valueTexts == fields && s.flagText == flagText
            && value.mode == Some(mode) && tail == Tail(value.expression, s.paramsText)
  {
    var value := DecodeMoving(fields, mode, flags, tail).value;
    TailParts(flags, tail);
    s := Spelling(fields, flagText, SplitExpression(flags, tail).value.1);
    MovingTrackFlags(value.values, mode, value.params, flags, value.expression);
  }

  /** The decoder reads nothing but spellings of the movement it returns. */
  lemma DecodedIsSpelled(raw: string) returns (s: Spelling)
    requires Decode(raw).Ok? && Decode(raw).value.mode.Some?
    ensures SpelledBy(raw, Decode(raw).value, s)
  {
    var cut := SplitOnce(raw, PARAM_SEPARATOR);
    var head := if cut.Some? then cut.value.0 else raw;
    var fields := Split(head, FIELD_SEPARATOR);
    JoinSplit(head, FIELD_SEPARATOR);
    SplitExcludes(head, FIELD_SEPARATOR, PARAM_SEPARATOR);
    SectionPushed(head, if cut.Some? then Some(cut.value.1) else None);
    s := DecodedPartsAreSpelled(fields, if cut.Some? then Some(cut.value.1) else None);
  }

  /** The decoder and the grammar agree on every line and every movement. */
  lemma DecodeIffSpelled(raw: string, value: Track)
    requires value.mode.Some?
    ensures Decode(raw) == Ok(value) <==> exists s :: SpelledBy(raw, value, s)
  {
    if Decode(raw) == Ok(value) {
      var s := DecodedIsSpelled(raw);
    }
    forall s | SpelledBy(raw, value, s) ensures Decode(raw) == Ok(value) {
      DecodeSpelled(raw, value, s);
    }
  }

  // ----- The encoder and the decoder undo each other -----

  lemma {:induction false} ParseTexts(numbers: seq<Number>)
    ensures ParseAll(Texts(numbers)) == Some(numbers)
  {
    if numbers == [] {
      assert Texts(numbers) == [];
    } else {
      ParseTexts(numbers[1..]);
      ParsePrinted(numbers[0]);
      assert Texts(numbers)[1..] == Texts(numbers[1..]);
      assert numbers == [numbers[0]] + numbers[1..];
    }
  }

  lemma TextsExclude(numbers: seq<Number>, c: char)
    requires !NumberChar(c)
    ensures Excludes(Texts(numbers), c)
  {
    forall i | 0 <= i < |numbers| ensures c !in Texts(numbers)[i] {
      PrintChars(numbers[i]);
    }
  }

  lemma ParamsTextParses(value: Track)
    ensures ParseParams(ParamsText(value)) == Some(value.params)
  {
    var texts := Texts(value.params);
    if value.params != [] {
      TextsExclude(value.params, FIELD_SEPARATOR);
      SplitJoin(texts, FIELD_SEPARATOR);
      ParseTexts(value.params);
      PrintChars(value.params[0]);
      JoinNonEmpty(texts, FIELD_SEPARATOR);
    }
  }

  lemma JoinNonEmpty(fields: seq<string>, sep: char)
    requires fields != [] && fields[0] != ""
    ensures Join(fields, sep) != ""
  {
  }

  function PrintedSpelling(value: Track): Spelling {
    Spelling(Texts(value.values), PrintNat(FlagBits(value)), ParamsText(value))
  }

  /** What the syntax rules promise of a movement. */
  lemma MovingSyntax(value: Track)
    requires ValidateTrackSyntax(value).Pass? && value.mode.Some?
    ensures ReservedIsUnnamed(value) && |value.values| >= MIN_MOVING_VALUES
    ensures ReadableMode(value.mode.value)
    ensures FIELD_SEPARATOR !in value.mode.value && PARAM_SEPARATOR !in value.mode.value
    ensures value.expression.Some? ==> SectionText(value.expression.value)
  {
  }

  lemma RenderedPartsSpell(value: Track)
    requires ValidateTrackSyntax(value).Pass? && value.mode.Some?
    ensures PartsSpell(value, PrintedSpelling(value))
  {
    MovingSyntax(value);
    ParseTexts(value.values);
    ParsePrintedU32(FlagBits(value));
    ParamsTextParses(value);
    hide ValidateTrackSyntax, FlagBits;
  }

  lemma FieldsExclude(texts: seq<string>, mode: string, flags: string, c: char)
    requires Excludes(texts, c) && c !in mode && AllDigits(flags) && !IsDigit(c)
    ensures Excludes(texts + [mode, flags], c)
  {
    var fields := texts + [mode, flags];
    forall i | 0 <= i < |fields| ensures c !in fields[i] {
      if i < |texts| {
        assert fields[i] == texts[i];
      }
    }
  }

  lemma RenderedIsSpelled(value: Track)
    requires ValidateTrackSyntax(value).Pass? && value.mode.Some?
    ensures SpelledBy(Render(value), value, PrintedSpelling(value))
  {
    RenderedPartsSpell(value);
    MovingSyntax(value);
    TextsExclude(value.values, FIELD_SEPARATOR);
    TextsExclude(value.values, PARAM_SEPARATOR);
    var flags := PrintNat(FlagBits(value));
    FieldsExclude(Texts(value.values), value.mode.value, flags, FIELD_SEPARATOR);
    FieldsExclude(Texts(value.values), value.mode.value, flags, PARAM_SEPARATOR);
    hide ValidateTrackSyntax, FlagBits, PartsSpell;
  }

  /** What is written is read back whole: values, mode, parameters, every flag and the expression text. */
  lemma DecodeEncoded(value: Track, target: TrackWriteTarget, encoded: string)
    requires Encode(value, target) == Ok(encoded)
    ensures Decode(encoded) == Ok(value)
  {
    if value.mode.None? {
      DecodePrinted(value.values[0]);
      StaticIsPlain(value);
    } else {
      RenderedIsSpelled(value);
      DecodeSpelled(encoded, value, PrintedSpelling(value));
    }
  }

  lemma PrintedIsOneField(number: Number)
    ensures SplitOnce(Print(number), PARAM_SEPARATOR) == None
    ensures Split(Print(number), FIELD_SEPARATOR) == [Print(number)]
  {
    PrintChars(number);
    SplitSingle(Print(number), FIELD_SEPARATOR);
  }

  /** A printed number is a track that does not move. */
  lemma DecodePrinted(number: Number)
    ensures Decode(Print(number)) == Ok(StaticTrack(number))
  {
    PrintedIsOneField(number);
    ParsePrinted(number);
  }

  lemma StaticIsPlain(value: Track)
    requires ValidateTrackSyntax(value).Pass? && value.mode.None?
    ensures value == StaticTrack(value.values[0])
  {
    assert value.values == [value.values[0]];
    assert value.reservedFlags == 0 by {
      BitsOf(value.reservedFlags);
    }
  }

  /** Two writable values that print alike are the same value. */
  lemma EncodeInjective(a: Track, b: Track, targetA: TrackWriteTarget, targetB: TrackWriteTarget)
    requires Encode(a, targetA).Ok? && Encode(a, targetA) == Encode(b, targetB)
    ensures a == b
  {
    DecodeEncoded(a, targetA, Encode(a, targetA).value);
    DecodeEncoded(b, targetB, Encode(b, targetB).value);
  }

  // ----- What the decoder returns can be written back -----

  predicate WithinItemBytes(text: Option<string>) {
    text.Some? ==> |Utf8(text.value)| <= MAX_ITEM_VALUE_BYTES
  }

  /** The value meets every syntax rule, except possibly the byte limits on its two texts. */
  predicate SyntaxUpToBytes(value: Track) {
    match ValidateTrackSyntax(value)
    case Pass => WithinItemBytes(value.mode) && WithinItemBytes(value.expression)
    case Fail(error) =>
      && !(WithinItemBytes(value.mode) && WithinItemBytes(value.expression))
      && error.TextError? && error.text.TooLongBytes?
  }

  /** A decoded value meets every syntax rule except possibly the byte limits on its two texts. */
  lemma DecodedMeetsSyntax(raw: string, value: Track)
    requires Decode(raw) == Ok(value)
    ensures SyntaxUpToBytes(value)
  {
    if value.mode.Some? {
      var s := DecodedIsSpelled(raw);
      var fields := Fields(value, s);
      assert fields[|fields| - 2] == value.mode.value;
      SpelledMeetsSyntax(value);
      hide *;
    } else {
      DecodedStatic(raw);
      StaticMeetsSyntax(value.values[0]);
      hide *;
    }
  }

  lemma DecodedStatic(raw: string)
    requires Decode(raw).Ok? && Decode(raw).value.mode.None?
    ensures Decode(raw).value.values != [] && Decode(raw).value == StaticTrack(Decode(raw).value.values[0])
  {
  }

  lemma StaticMeetsSyntax(number: Number)
    ensures ValidateTrackSyntax(StaticTrack(number)).Pass?
  {
  }

  lemma SpelledMeetsSyntax(value: Track)
    requires value.mode.Some? && ReadableMode(value.mode.value)
    requires FIELD_SEPARATOR !in value.mode.value && PARAM_SEPARATOR !in value.mode.value
    requires value.expression.Some? ==> SectionText(value.expression.value)
    requires ReservedIsUnnamed(value) && |value.values| >= MIN_MOVING_VALUES
    ensures SyntaxUpToBytes(value)
  {
    hide ReadsAsNumber, FlagBits, Utf8;
  }

  /** The text of the flag integer in a line: the last of the fields ahead of the sections. */
  function FlagField(raw: string): string {
    var cut := SplitOnce(raw, PARAM_SEPARATOR);
    var fields := Split(if cut.Some? then cut.value.0 else raw, FIELD_SEPARATOR);
    fields[|fields| - 1]
  }

  /** The flag integer a line carries is the one the decoded value would print. */
  lemma DecodedKeepsFlagInteger(raw: string, value: Track)
    requires Decode(raw) == Ok(value) && value.mode.Some?
    ensures ParseU32(Trim(FlagField(raw))) == Some(FlagBits(value))
  {
    hide Split, Trim, ParseU32, ParseParams, ParseAll, FlagBits;
    var cut := SplitOnce(raw, PARAM_SEPARATOR);
    var tail := if cut.Some? then Some(cut.value.1) else None;
    var fields := Split(if cut.Some? then cut.value.0 else raw, FIELD_SEPARATOR);
    var flags := ParseU32(Trim(FlagField(raw))).value;
    TailParts(flags, tail);
    MovingTrackFlags(value.values, value.mode.value, value.params, flags, value.expression);
  }

  /** What the target must allow, beyond the syntax of the value. */
  predicate FitsTarget(value: Track, target: TrackWriteTarget) {
    value.mode.Some? ==>
      && |value.values| == target.sectionCount + 1
      && FindMovement(target.movements, value.mode.value).Some?
      && FindMovement(target.movements, value.mode.value).value.writable
  }

  /** The texts of a value are part of the line that carries it. */
  lemma RenderedHoldsTexts(value: Track)
    requires value.values != []
    ensures value.mode.Some? ==> |Utf8(value.mode.value)| <= |Utf8(Render(value))|
    ensures value.mode.Some? && value.expression.Some? ==> |Utf8(value.expression.value)| <= |Utf8(Render(value))|
  {
    if value.mode.Some? {
      var texts, flags := Texts(value.values), PrintNat(FlagBits(value));
      var tail := Tail(value.expression, ParamsText(value));
      var head := Join(texts + [value.mode.value, flags], FIELD_SEPARATOR);
      HeadHoldsMode(texts, value.mode.value, flags);
      Utf8Concat(head, Section(tail));
      if value.expression.Some? {
        Utf8Concat([PARAM_SEPARATOR], tail.value);
        Utf8Concat(value.expression.value, Section(ParamsText(value)));
      }
      hide FlagBits, Utf8;
    }
  }

  lemma HeadHoldsMode(texts: seq<string>, mode: string, flags: string)
    requires texts != []
    ensures |Utf8(mode)| <= |Utf8(Join(texts + [mode, flags], FIELD_SEPARATOR))|
  {
    assert texts + [mode] + [flags] == texts + [mode, flags];
    JoinExtend(texts, mode, FIELD_SEPARATOR);
    JoinExtend(texts + [mode], flags, FIELD_SEPARATOR);
    var before := Join(texts, FIELD_SEPARATOR) + [FIELD_SEPARATOR];
    Utf8Concat(before, mode);
    Utf8Concat(before + mode + [FIELD_SEPARATOR], flags);
    Utf8Concat(before + mode, [FIELD_SEPARATOR]);
  }

  /** The three things a write needs: the syntax, the target, and the length of the line. */
  lemma EncodeSucceeds(value: Track, target: TrackWriteTarget)
    requires value.values != []
    ensures ValidateTrackValue(value, target).Pass? <==> ValidateTrackSyntax(value).Pass? && FitsTarget(value, target)
    ensures Encode(value, target).Ok? <==>
      ValidateTrackValue(value, target).Pass? && |Utf8(Render(value))| <= MAX_ITEM_VALUE_BYTES
  {
    hide ValidateTrackSyntax, Render, Utf8;
  }

  /** A decoded value can be written exactly when the target accepts it and its line is short enough. */
  lemma DecodedIsWritable(raw: string, value: Track, target: TrackWriteTarget)
    requires Decode(raw) == Ok(value)
    ensures value.values != []
    ensures Encode(value, target).Ok? <==> FitsTarget(value, target) && |Utf8(Render(value))| <= MAX_ITEM_VALUE_BYTES
  {
    DecodedMeetsSyntax(raw, value);
    if value.mode.Some? {
      var s := DecodedIsSpelled(raw);
    } else {
      DecodedStatic(raw);
    }
    hide Decode, Render, ValidateTrackSyntax, ValidateTrackValue, FitsTarget, Encode, Utf8, SpelledBy;
    RenderedHoldsTexts(value);
    EncodeSucceeds(value, target);
  }

  // ----- Reading back -----

  /** Whether what the host reports is the movement that was written. */
  predicate ReadBackMatches(written: Track, observed: Track) {
    && SameNumbers(written.values, observed.values)
    && written.mode == observed.mode
    && FlagBits(written) == FlagBits(observed)
    && (written.params == [] || SameNumbers(written.params, observed.params))
  }

  /**
   The comparison sees everything but the text of the expression: of that, only its presence, which
   is one bit of the flag integer.
   */
  lemma ReadBackMeaning(written: Track, observed: Track)
    requires ReservedIsUnnamed(written) && ReservedIsUnnamed(observed)
    ensures ReadBackMatches(written, observed) <==>
      && SameNumbers(written.values, observed.values)
      && written.mode == observed.mode
      && written.accelerate == observed.accelerate
      && written.decelerate == observed.decelerate
      && written.twopoint == observed.twopoint
      && written.reservedFlags == observed.reservedFlags
      && written.expression.Some? == observed.expression.Some?
      && (written.params == [] || SameNumbers(written.params, observed.params))
  {
    FlagsRoundTrip(written);
    FlagsRoundTrip(observed);
    FlagBitsSum(written);
    FlagBitsSum(observed);
    hide FlagBits, HasFlag, SameNumbers;
  }

  /** Changing the text of an expression is a change the comparison does not see. */
  lemma ReadBackIgnoresExpressionText(written: Track, other: string)
    requires written.expression.Some?
    ensures ReadBackMatches(written, written.(expression := Some(other)))
  {
  }

  /** The comparison vouches for the expression of exactly those movements that were written without one. */
  lemma ReadBackTrusted(written: Track)
    requires ReservedIsUnnamed(written)
    ensures written.expression.None? <==>
      forall observed: Track :: ReservedIsUnnamed(observed) && ReadBackMatches(written, observed) ==>
        observed.expression == written.expression
  {
    hide ReadBackMatches;
    if written.expression.None? {
      forall observed: Track | ReservedIsUnnamed(observed) && ReadBackMatches(written, observed)
        ensures observed.expression == written.expression
      {
        ReadBackMeaning(written, observed);
      }
    } else {
      var observed := written.(expression := Some(written.expression.value + "x"));
      ReadBackIgnoresExpressionText(written, written.expression.value + "x");
      assert ReservedIsUnnamed(observed) && ReadBackMatches(written, observed);
    }
  }

  /** A name that starts like no number is not one. */
  lemma NameIsNotNumber(name: string)
    requires name != "" && !IsDigit(name[0]) && name[0] !in {'+', '-', '.'}
    requires forall i :: 0 <= i < |name| ==> !IsWhitespace(name[i])
    ensures !ReadsAsNumber(name)
  {
    TrimIdentity(name);
    assert LeadingDigits(name) == "";
  }

  /** Two lines carrying different movements that the comparison takes for the same one. */
  lemma ReadBackMissesExpressionText() returns (written: string, observed: string)
    ensures Decode(written).Ok? && Decode(observed).Ok?
    ensures Decode(written).value != Decode(observed).value
    ensures ReadBackMatches(Decode(written).value, Decode(observed).value)
  {
    var x: Track := TrackValue([ZERO, ZERO], Some("m"), [], false, false, false, 0, Some("x"));
    var y: Track := x.(expression := Some("y"));
    NameIsNotNumber("m");
    SmallTrack(x);
    SmallTrack(y);
    ReadBackIgnoresExpressionText(x, "y");
    written, observed := Render(x), Render(y);
  }

  lemma SmallTrackIsWritable(value: Track)
    requires value.mode == Some("m") && value.expression.Some? && value.expression.value in {"x", "y"}
    requires |value.values| == MIN_MOVING_VALUES && value.reservedFlags == 0 && !ReadsAsNumber("m")
    ensures ValidateTrackSyntax(value).Pass?
  {
    hide ReadsAsNumber;
    var mode, expression := "m", value.expression.value;
    assert Utf8(mode[1..]) == [] && Utf8(expression[1..]) == [];
  }

  lemma SmallTrack(value: Track)
    requires value.mode == Some("m") && value.expression.Some? && value.expression.value in {"x", "y"}
    requires |value.values| == MIN_MOVING_VALUES && value.reservedFlags == 0 && !ReadsAsNumber("m")
    ensures Decode(Render(value)) == Ok(value)
  {
    var mode, expression := "m", value.expression.value;
    assert Utf8(mode[1..]) == [] && Utf8(expression[1..]) == [];
    SmallTrackIsWritable(value);
    RenderedIsSpelled(value);
    DecodeSpelled(Render(value), value, PrintedSpelling(value));
  }

  /**
   Writing a decoded value normalises its line: the new line carries the same value, is its own
   normal form, and reads back as what was written.
   */
  lemma EncodeIsNormalForm(raw: string, value: Track, target: TrackWriteTarget, line: string)
    requires Decode(raw) == Ok(value) && Encode(value, target) == Ok(line)
    ensures Decode(line) == Decode(raw)
    ensures Encode(Decode(line).value, target) == Ok(line)
    ensures ReadBackMatches(value, Decode(line).value)
  {
    DecodeEncoded(value, target, line);
  }
}
