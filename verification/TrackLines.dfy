/**
 What the track decoder makes of any line at all: the number or movement it spells, or the reason it
 is refused. A line that reads as a movement but cannot be represented is told apart from one that is
 no movement, because the one is protected and the other is let through.
 */
module TrackLines {
  import opened Decimals
  import opened Bytes
  import opened DataModel
  import opened MachineIntegers
  import opened Numerals
  import opened Strings
  import opened TrackValues
  import opened Validation
  import opened Wrappers

  /** `raw` is these fields joined by commas, and the sections after the first bar. */
  ghost predicate LaidOut(raw: string, fields: seq<string>, tail: Option<string>) {
    && fields != [] && Excludes(fields, ',') && Excludes(fields, '|')
    && raw == Join(fields, ',') + (if tail.None? then "" else "|" + tail.value)
  }

  lemma LaidOutDecodes(raw: string, fields: seq<string>, tail: Option<string>)
    requires LaidOut(raw, fields, tail)
    ensures Decode(raw) == DecodeParts(fields, tail)
  {
    hide Decode, DecodeParts;
    DecodeJoined(fields, tail);
    SectionPushed(Join(fields, ','), tail);
    SectionPushed("", tail);
    assert tail.Some? ==> Section(tail) == "|" + tail.value;
    assert tail.None? ==> raw == Join(fields, ',');
  }

  /** Every line is laid out in one way. */
  lemma Layout(raw: string) returns (fields: seq<string>, tail: Option<string>)
    ensures LaidOut(raw, fields, tail)
  {
    var cut := SplitOnce(raw, '|');
    var head := if cut.Some? then cut.value.0 else raw;
    fields := Split(head, ',');
    tail := if cut.Some? then Some(cut.value.1) else None;
    JoinSplit(head, ',');
    SplitExcludes(head, ',', '|');
    assert tail.Some? ==> head + [PARAM_SEPARATOR] + tail.value == head + ("|" + tail.value);
    assert tail.None? ==> head + "" == head;
  }

  // ----- Numbers -----

  /** A line is read as a still track exactly when it is the text of that number and nothing else. */
  lemma DecodeStill(raw: string, number: Number)
    ensures Decode(raw) == Ok(StaticTrack(number)) <==>
      ',' !in raw && '|' !in raw && ParseFinite(raw) == Some(number)
  {
    hide ParseFinite, Decode;
    var fields, tail := Layout(raw);
    LaidOutDecodes(raw, fields, tail);
    if ',' !in raw && '|' !in raw {
      assert [raw][0] == raw && Join([raw], ',') + "" == raw;
      assert LaidOut(raw, [raw], None);
      LaidOutDecodes(raw, [raw], None);
    }
    if |fields| == 1 && tail.None? {
      assert raw == fields[0];
    }
    hide DecodeMoving;
  }

  /** Everything the decoder returns is a still track or a movement. */
  lemma DecodedKinds(raw: string)
    requires Decode(raw).Ok?
    ensures var track := Decode(raw).value;
      track.mode.None? ==> track.values != [] && track == StaticTrack(track.values[0])
  {
    if Decode(raw).value.mode.None? {
      DecodedStatic(raw);
    }
    hide Decode;
  }

  // ----- Movements that cannot be represented -----

  /** The first section of a tail, when there is one, is text an expression can be. */
  ghost predicate HasExpression(tail: Option<string>) {
    exists expression, rest: Option<string> :: StartsWithSection(tail, expression, rest) && ExpressionText(expression)
  }

  ghost predicate StartsWithSection(tail: Option<string>, first: string, rest: Option<string>) {
    '|' !in first && tail == Some(first + if rest.None? then "" else "|" + rest.value)
  }

  predicate ExpressionText(text: string) {
    text != "" && !HoldsControl(text)
  }

  predicate HoldsControl(text: string) {
    exists i :: 0 <= i < |text| && IsControl(text[i])
  }

  /** The name of a movement can be read: it is there, holds no control character and is no number. */
  predicate ModeName(mode: string) {
    mode != "" && !HoldsControl(mode) && ParseFinite(mode) == None
  }

  ghost predicate FlagNumber(text: string, flags: nat) {
    ParseU32(Trim(text)) == Some(flags)
  }

  predicate AsksForExpression(flags: nat) {
    flags / 8 % 2 == 1
  }

  /** A movement with a name and flags, and all the sections its flags ask for, but only one value. */
  ghost predicate SpellsTooFewValues(raw: string) {
    exists value, mode, flagText, flags, tail :: TooFewValuesIn(raw, value, mode, flagText, flags, tail)
  }

  ghost predicate TooFewValuesIn(raw: string, value: string, mode: string, flagText: string, flags: nat,
                                 tail: Option<string>)
  {
    && LaidOut(raw, [value, mode, flagText], tail)
    && ModeName(mode) && FlagNumber(flagText, flags) && (AsksForExpression(flags) ==> HasExpression(tail))
    && ParseFinite(value).Some?
  }

  /** A movement whose flags ask for an expression where none stands, whatever its values are. */
  ghost predicate SpellsNoExpression(raw: string) {
    exists values, mode, flagText, flags, tail :: NoExpressionIn(raw, values, mode, flagText, flags, tail)
  }

  ghost predicate NoExpressionIn(raw: string, values: seq<string>, mode: string, flagText: string, flags: nat,
                                 tail: Option<string>)
  {
    && values != [] && LaidOut(raw, values + [mode, flagText], tail)
    && ModeName(mode) && FlagNumber(flagText, flags) && AsksForExpression(flags) && !HasExpression(tail)
  }

  lemma ControlFreeMeaning(text: string)
    ensures ValidateControlFree(text).Pass? <==> !HoldsControl(text)
  {
  }

  lemma ModeNameIsReadable(mode: string)
    ensures ReadableMode(mode) <==> ModeName(mode)
  {
    ControlFreeMeaning(mode);
    hide ParseFinite, ValidateControlFree;
  }

  lemma ExpressionIsCut(tail: Option<string>, flags: nat)
    requires AsksForExpression(flags)
    ensures SplitExpression(flags, tail).Ok? <==> HasExpression(tail)
    ensures SplitExpression(flags, tail).Err? ==> SplitExpression(flags, tail).error == NotRepresentable(NoExpression)
  {
    hide ValidateControlFree, IsControl;
    if tail.Some? {
      var cut := SplitOnce(tail.value, '|');
      var first := if cut.Some? then cut.value.0 else tail.value;
      var rest := if cut.Some? then Some(cut.value.1) else None;
      ControlFreeMeaning(first);
      assert cut.Some? ==> first + ("|" + rest.value) == first + [PARAM_SEPARATOR] + rest.value;
      assert cut.None? ==> first + "" == first;
      assert StartsWithSection(tail, first, rest);
      forall other, after | StartsWithSection(tail, other, after) ensures other == first {
        FirstSectionIs(tail, other, after);
      }
    }
  }

  lemma FirstSectionIs(tail: Option<string>, first: string, rest: Option<string>)
    requires StartsWithSection(tail, first, rest)
    ensures var cut := SplitOnce(tail.value, '|'); first == if cut.Some? then cut.value.0 else tail.value
  {
    hide SplitOnce;
    if rest.Some? {
      SplitOnceAt(first, rest.value, '|');
      assert first + ("|" + rest.value) == first + ['|'] + rest.value;
    }
  }

  /** Why a movement row is refused, read off its fields. */
  lemma PartsRefused(fields: seq<string>, tail: Option<string>)
    requires |fields| >= 3 && ParseU32(Trim(fields[|fields| - 1])).Some? && ModeName(fields[|fields| - 2])
    ensures var flags := ParseU32(Trim(fields[|fields| - 1])).value;
      && (DecodeParts(fields, tail) == Err(NotRepresentable(NoExpression))
          <==> AsksForExpression(flags) && !HasExpression(tail))
      && (DecodeParts(fields, tail) == Err(NotRepresentable(TooFewValues))
          <==> (AsksForExpression(flags) ==> HasExpression(tail)) && |fields| == 3 && ParseFinite(fields[0]).Some?)
  {
    hide ParseFinite, ParseU32, Trim, HasExpression, ModeName, ReadableMode;
    ModeNameIsReadable(fields[|fields| - 2]);
    var flags := ParseU32(Trim(fields[|fields| - 1])).value;
    if AsksForExpression(flags) {
      ExpressionIsCut(tail, flags);
    }
    hide SplitExpression, ParseParams, MovingTrack;
    var values := fields[..|fields| - 2];
    OneValue(values);
  }

  lemma OneValue(texts: seq<string>)
    requires texts != []
    ensures ParseAll(texts).Some? && |ParseAll(texts).value| < 2 <==> |texts| == 1 && ParseFinite(texts[0]).Some?
  {
    hide ParseFinite;
    if |texts| == 1 {
      assert texts[1..] == [];
    }
  }

  lemma RefusedHasHead(fields: seq<string>, tail: Option<string>)
    requires fields != [] && DecodeParts(fields, tail).Err? && DecodeParts(fields, tail).error != NotAMovement
    ensures |fields| >= 3 && ParseU32(Trim(fields[|fields| - 1])).Some? && ModeName(fields[|fields| - 2])
  {
    hide ParseFinite, ParseU32, Trim, ModeName, ReadableMode, SplitExpression, ParseAll, ParseParams;
    if |fields| >= 2 {
      ModeNameIsReadable(fields[|fields| - 2]);
    }
  }

  /** A line is refused for want of an expression exactly when it spells a movement that lacks one. */
  lemma DecodeNoExpression(raw: string)
    ensures Decode(raw) == Err(NotRepresentable(NoExpression)) <==> SpellsNoExpression(raw)
  {
    hide Decode, DecodeParts, ParseU32, Trim, HasExpression, ModeName, LaidOut, AsksForExpression, ParseFinite;
    if Decode(raw) == Err(NotRepresentable(NoExpression)) {
      var fields, tail := Layout(raw);
      LaidOutDecodes(raw, fields, tail);
      NonEmptyLayout(raw, fields, tail);
      RefusedHasHead(fields, tail);
      PartsRefused(fields, tail);
      LastTwo(fields);
      var n := |fields| - 2;
      var flags := ParseU32(Trim(fields[n + 1])).value;
      assert NoExpressionIn(raw, fields[..n], fields[n], fields[n + 1], flags, tail);
    }
    forall values, mode, flagText, flags, tail | NoExpressionIn(raw, values, mode, flagText, flags, tail)
      ensures Decode(raw) == Err(NotRepresentable(NoExpression))
    {
      LaidOutDecodes(raw, values + [mode, flagText], tail);
      PartsRefused(values + [mode, flagText], tail);
    }
  }

  lemma NonEmptyLayout(raw: string, fields: seq<string>, tail: Option<string>)
    requires LaidOut(raw, fields, tail)
    ensures fields != []
  {
  }

  /** A line is refused for want of values exactly when it spells a movement that has one alone. */
  lemma DecodeTooFewValues(raw: string)
    ensures Decode(raw) == Err(NotRepresentable(TooFewValues)) <==> SpellsTooFewValues(raw)
  {
    hide Decode, DecodeParts, ParseU32, Trim, HasExpression, ModeName, LaidOut, AsksForExpression, ParseFinite;
    if Decode(raw) == Err(NotRepresentable(TooFewValues)) {
      var fields, tail := Layout(raw);
      LaidOutDecodes(raw, fields, tail);
      NonEmptyLayout(raw, fields, tail);
      RefusedHasHead(fields, tail);
      PartsRefused(fields, tail);
      var flags := ParseU32(Trim(fields[2])).value;
      assert fields == [fields[0], fields[1], fields[2]];
      assert TooFewValuesIn(raw, fields[0], fields[1], fields[2], flags, tail);
    }
    forall value, mode, flagText, flags, tail | TooFewValuesIn(raw, value, mode, flagText, flags, tail)
      ensures Decode(raw) == Err(NotRepresentable(TooFewValues))
    {
      LaidOutDecodes(raw, [value, mode, flagText], tail);
      PartsRefused([value, mode, flagText], tail);
    }
  }

  // ----- What the writer accepts -----

  /** A text an item can hold: no control character, and at most 8192 bytes. */
  predicate ItemText(text: string) {
    !HoldsControl(text) && |Utf8(text)| <= 8192
  }

  predicate StillTrack(track: Track) {
    && |track.values| == 1 && track.params == [] && track.expression.None?
    && !track.accelerate && !track.decelerate && !track.twopoint && track.reservedFlags == 0
  }

  predicate WritableMovement(track: Track) {
    && track.mode.Some? && ModeName(track.mode.value) && ItemText(track.mode.value)
    && ',' !in track.mode.value && '|' !in track.mode.value
    && (track.expression.Some? ==>
          && track.expression.value != "" && ItemText(track.expression.value) && '|' !in track.expression.value)
    && track.reservedFlags % 16 == 0 && |track.values| >= 2
  }

  lemma ItemTextMeaning(text: string)
    ensures ValidateItemText(text).Pass? <==> ItemText(text)
  {
    ControlFreeMeaning(text);
    hide Utf8, HoldsControl, ValidateControlFree;
  }

  /** The rules on a track alone accept exactly the still tracks and the movements that can be written. */
  lemma SyntaxMeaning(track: Track)
    ensures ValidateTrackSyntax(track).Pass? <==>
      if track.mode.None? then StillTrack(track) else WritableMovement(track)
  {
    hide ItemText, ValidateItemText, ParseFinite, ValidateControlFree, HoldsControl;
    if track.mode.Some? {
      ItemTextMeaning(track.mode.value);
      if ItemText(track.mode.value) {
        ModeNameInItem(track.mode.value);
      }
      if track.expression.Some? {
        ItemTextMeaning(track.expression.value);
      }
      hide FlagBits;
    } else {
      NoFlags(track);
      hide FlagBits;
    }
  }

  lemma ModeNameInItem(mode: string)
    requires ItemText(mode)
    ensures ModeName(mode) <==> mode != "" && !ReadsAsNumber(mode)
  {
    hide ParseFinite;
  }

  lemma NoFlags(track: Track)
    ensures FlagBits(track) == 0 <==>
      && track.expression.None? && !track.accelerate && !track.decelerate && !track.twopoint
      && track.reservedFlags == 0
  {
    BitsOf(track.reservedFlags);
  }

  /** What is wrong with a text that must hold none of the barred characters, if anything is. */
  function TextFault(text: string, barred: set<char>): Option<TextSyntaxError> {
    if '\0' in text then Some(ContainsNul)
    else if HoldsControl(text) then Some(ContainsControl)
    else if |Utf8(text)| > 8192 then Some(TooLongBytes(|Utf8(text)|, 8192))
    else if text == "" then Some(EmptyText)
    else if exists i :: 0 <= i < |text| && text[i] in barred then Some(ForbiddenCharacter)
    else None
  }

  lemma FaultsFound(text: string)
    ensures CheckExpression(text) ==
      (if TextFault(text, {'|'}).None? then Pass else Fail(TextFault(text, {'|'}).value))
    ensures CheckModeText(text) ==
      (if TextFault(text, {',', '|'}).None? then Pass else Fail(TextFault(text, {',', '|'}).value))
  {
    hide Utf8, IsControl;
  }

  /** The first rule a movement breaks is the one it is refused for. */
  lemma SyntaxRefusals(track: Track)
    requires track.mode.Some?
    ensures var checked := ValidateTrackSyntax(track);
      var mode := track.mode.value;
      var expressionFault := if track.expression.None? then None else TextFault(track.expression.value, {'|'});
      if track.reservedFlags % 16 != 0 then checked == Fail(TrackError(FlagsNotRepresentable))
      else if expressionFault.Some? then checked == Fail(TextError(expressionFault.value))
      else if TextFault(mode, {',', '|'}).Some? then checked == Fail(TextError(TextFault(mode, {',', '|'}).value))
      else if ParseFinite(mode).Some? then checked == Fail(TrackError(ModeReadsAsNumber))
      else if |track.values| < 2 then checked == Fail(TrackError(ValueCount(2, |track.values|)))
      else checked == Pass
  {
    hide TextFault, CheckExpression, CheckModeText, ParseFinite, FlagBits;
    FaultsFound(track.mode.value);
    if track.expression.Some? {
      FaultsFound(track.expression.value);
    }
  }

  /** The same for a track that does not move. */
  lemma StillRefusals(track: Track)
    requires track.mode.None?
    ensures ValidateTrackSyntax(track) ==
      if |track.values| != 1 then Fail(TrackError(ValueCount(1, |track.values|)))
      else if !StillTrack(track) then Fail(TrackError(MovementWithoutMode))
      else Pass
  {
    NoFlags(track);
    hide FlagBits;
  }

  /** What the target adds, and the reason it refuses for. */
  lemma TargetRefusals(track: Track, target: TrackWriteTarget)
    requires track.mode.Some? && ValidateTrackSyntax(track).Pass?
    ensures var checked := ValidateTrackValue(track, target);
      var count, movements, mode := target.sectionCount + 1, target.movements, track.mode.value;
      if |track.values| != count then checked == Fail(TrackError(ValueCount(count, |track.values|)))
      else if FindMovement(movements, mode) == None then checked == Fail(TrackError(UnknownMode(movements)))
      else if !FindMovement(movements, mode).value.writable then checked == Fail(TrackError(ModeNotWritable))
      else checked == Pass
  {
    hide ValidateTrackSyntax;
  }

  /** A track is refused for what is wrong with it, and after that only for the length of its line. */
  lemma EncodeRefusals(track: Track, target: TrackWriteTarget)
    requires track.values != []
    ensures var checked, bytes := ValidateTrackValue(track, target), |Utf8(Render(track))|;
      Encode(track, target) ==
        if checked.Fail? then Err(checked.error)
        else if bytes > 8192 then Err(TextError(TooLongBytes(bytes, 8192)))
        else Ok(Render(track))
  {
    hide ValidateTrackValue, Render, Utf8;
  }

  // ----- Every line -----

  /** The line spells this track, as a number or as a movement. */
  ghost predicate Spells(raw: string, track: Track) {
    if track.mode.Some? then exists s :: SpelledBy(raw, track, s)
    else exists number :: track == StaticTrack(number) && ',' !in raw && '|' !in raw && ParseFinite(raw) == Some(number)
  }

  /** The decoder answers by what the line spells, and with `NotAMovement` where it spells nothing. */
  lemma DecodeMeaning(raw: string)
    ensures forall track :: Decode(raw) == Ok(track) <==> Spells(raw, track)
    ensures Decode(raw) == Err(NotRepresentable(NoExpression)) <==> SpellsNoExpression(raw)
    ensures Decode(raw) == Err(NotRepresentable(TooFewValues)) <==> SpellsTooFewValues(raw)
    ensures Decode(raw) == Err(NotAMovement) <==>
      !SpellsNoExpression(raw) && !SpellsTooFewValues(raw) && forall track :: !Spells(raw, track)
  {
    hide Decode, SpelledBy, SpellsNoExpression, SpellsTooFewValues, ParseFinite;
    DecodeNoExpression(raw);
    DecodeTooFewValues(raw);
    forall track ensures Decode(raw) == Ok(track) <==> Spells(raw, track) {
      if track.mode.Some? {
        DecodeIffSpelled(raw, track);
      } else {
        StillMeaning(raw, track);
      }
    }
    hide Spells;
    match Decode(raw) {
      case Ok(track) => assert Spells(raw, track);
      case Err(NotAMovement) =>
        forall track ensures !Spells(raw, track) {
          assert Decode(raw) != Ok(track);
        }
      case Err(NotRepresentable(NoExpression)) =>
      case Err(NotRepresentable(TooFewValues)) =>
    }
  }

  lemma StillMeaning(raw: string, track: Track)
    requires track.mode.None?
    ensures Decode(raw) == Ok(track) <==> Spells(raw, track)
  {
    hide Decode, ParseFinite;
    if Decode(raw) == Ok(track) {
      DecodedKinds(raw);
      DecodeStill(raw, track.values[0]);
    }
    forall number | track == StaticTrack(number) && ',' !in raw && '|' !in raw && ParseFinite(raw) == Some(number)
      ensures Decode(raw) == Ok(track)
    {
      DecodeStill(raw, number);
    }
  }
}
