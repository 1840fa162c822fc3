/**
 Writing an item: which values an item accepts, the text that reaches the host, and how what the
 host reports afterwards is compared with it.
 */
module ItemValues {
  import opened Wrappers
  import opened Strings
  import opened Bytes
  import opened MachineIntegers
  import opened Numerals
  import opened Decimals
  import opened DataModel
  import opened Validation
  import TextCodec
  import opened NumberSpellings
  import opened TrackLines
  import opened TrackValues

  type Value = ItemValue<Number>

  predicate IsWritable(itemType: EffectItemType) {
    !itemType.DataItem? && !itemType.UnknownItem?
  }

  predicate Accepts(itemType: EffectItemType, value: Value) {
    match value
    case TrackBarValue(_) => EvaluatedKind(itemType) == Some(EvaluatedTrack)
    case IntegerValue(_) => itemType in {IntegerItem, SceneItem, RangeItem}
    case NumberValue(_) => itemType == NumberItem
    case BoolValue(_) => itemType == CheckItem
    case TextValue(_) => itemType in {TextItem, StringItem}
    case FileValue(_) => itemType == FileItem
    case FolderValue(_) => itemType == FolderItem
    case FontValue(_) => itemType == FontItem
    case ColorValue(_) => itemType == ColorItem
    case ChoiceValue(_) => itemType in {SelectItem, ComboItem, MaskItem, FigureItem}
    case UnknownValue(_) => false
  }

  // ----- The text that is written -----

  function EncodeText(value: string): Result<string, ItemWriteError> {
    match ValidateItemText(value)
    case Fail(error) => Err(TextError(error))
    case Pass => Ok(value)
  }

  function EncodePath(path: string): Result<string, ItemWriteError> {
    match ValidatePath(path)
    case Fail(error) => Err(PathError(error))
    case Pass => EncodeText(path)
  }

  function EncodeValue(value: Value, target: TrackWriteTarget): Result<string, ItemWriteError> {
    match value
    case UnknownValue(_) => Err(UnknownValueRefused)
    case IntegerValue(integer) => Ok(PrintInt(integer))
    case NumberValue(number) => Ok(Print(number))
    case BoolValue(flag) => Ok(if flag then "1" else "0")
    case TextValue(text) => TextCodec.EncodeMultilineText(text)
    case TrackBarValue(track) => TrackValues.Encode(track, target)
    case ColorValue(color) => EncodeText(color)
    case ChoiceValue(choice) => EncodeText(choice)
    case FontValue(font) => EncodeText(font)
    case FileValue(file) => EncodePath(file)
    case FolderValue(folder) => EncodePath(folder)
  }

  function EncodeItemValue(itemType: EffectItemType, value: Value, target: TrackWriteTarget)
    : Result<string, ItemWriteError>
  {
    if value.UnknownValue? then Err(UnknownValueRefused)
    else if !IsWritable(itemType) then Err(UnsupportedItemType(itemType))
    else if !Accepts(itemType, value) then Err(ValueKindMismatch(itemType, KindOf(value)))
    else EncodeValue(value, target)
  }

  // ----- Reading back -----

  datatype ReadBackComparison = Exact | Numeric | Boolean | IgnoreAsciiCase | AsTrack

  datatype ReadBackCheck = Compare(comparison: ReadBackComparison) | Declared

  datatype ItemWrite = ItemWrite(value: string, readBack: ReadBackCheck)

  function ReadBackCheckOf(itemType: EffectItemType, value: Value): ReadBackCheck {
    if value.TrackBarValue? then Compare(AsTrack)
    else
      match itemType
      case IntegerItem | NumberItem | SceneItem | RangeItem => Compare(Numeric)
      case CheckItem => Compare(Boolean)
      case ColorItem => Compare(IgnoreAsciiCase)
      case FontItem | TextItem | StringItem | FileItem | FolderItem
        | SelectItem | ComboItem | MaskItem | FigureItem => Compare(Exact)
      case DataItem | UnknownItem(_) => Declared
  }

  function ParseCheckValue(raw: string): Option<bool> {
    var text := Trim(raw);
    if text in {"0", "false"} then Some(false)
    else if text in {"1", "true"} then Some(true)
    else None
  }

  function AsciiLower(c: char): char {
    if 'A' <= c <= 'Z' then 'a' + (c - 'A') else c
  }

  predicate EqIgnoreAsciiCase(a: string, b: string) {
    |a| == |b| && forall i :: 0 <= i < |a| ==> AsciiLower(a[i]) == AsciiLower(b[i])
  }

  predicate Matches(comparison: ReadBackComparison, written: string, observed: string) {
    match comparison
    case Exact => written == observed
    case IgnoreAsciiCase => EqIgnoreAsciiCase(written, observed)
    case Numeric =>
      var w, o := ParseFinite(written), ParseFinite(observed);
      w.Some? && o.Some? && SameNumber(w.value, o.value)
    case Boolean =>
      var w, o := ParseCheckValue(written), ParseCheckValue(observed);
      w.Some? && o.Some? && w == o
    case AsTrack =>
      var w, o := TrackValues.Decode(written), TrackValues.Decode(observed);
      w.Ok? && o.Ok? && ReadBackMatches(w.value, o.value)
  }

  function FindItem(items: seq<AvailableEffectItem>, name: string): Option<AvailableEffectItem> {
    if items == [] then None
    else if items[0].name == name then Some(items[0])
    else FindItem(items[1..], name)
  }

  function PrepareItemWrite(items: seq<AvailableEffectItem>, item: string, value: Value, target: TrackWriteTarget)
    : Result<ItemWrite, ItemWriteError>
  {
    if value.UnknownValue? then Err(UnknownValueRefused)
    else
      match FindItem(items, item)
      case None => Err(ItemNotFound(item))
      case Some(entry) =>
        match EncodeItemValue(entry.itemType, value, target)
        case Err(error) => Err(error)
        case Ok(text) => Ok(ItemWrite(text, ReadBackCheckOf(entry.itemType, value)))
  }

  // ----- Which writes are prepared -----

  /** The first item of that name. */
  lemma {:induction false} FindItemMeaning(items: seq<AvailableEffectItem>, name: string, k: nat)
    requires k < |items| && items[k].name == name && forall j :: 0 <= j < k ==> items[j].name != name
    ensures FindItem(items, name) == Some(items[k])
  {
    if k > 0 {
      FindItemMeaning(items[1..], name, k - 1);
    }
  }

  lemma {:induction false} FindItemNone(items: seq<AvailableEffectItem>, name: string)
    ensures FindItem(items, name) == None <==> forall k :: 0 <= k < |items| ==> items[k].name != name
  {
    if items != [] {
      FindItemNone(items[1..], name);
      assert forall k :: 0 < k < |items| ==> items[k] == items[1..][k - 1];
    }
  }

  /** What an item of each type takes. */
  predicate Takes(itemType: EffectItemType, value: Value) {
    match itemType
    case IntegerItem => value.IntegerValue? || value.TrackBarValue?
    case NumberItem => value.NumberValue? || value.TrackBarValue?
    case SceneItem | RangeItem => value.IntegerValue?
    case CheckItem => value.BoolValue?
    case TextItem | StringItem => value.TextValue?
    case FileItem => value.FileValue?
    case FolderItem => value.FolderValue?
    case FontItem => value.FontValue?
    case ColorItem => value.ColorValue?
    case SelectItem | ComboItem | MaskItem | FigureItem => value.ChoiceValue?
    case DataItem | UnknownItem(_) => false
  }

  /** Read value by value or item by item, the rules on which value goes where are the same. */
  lemma TakesMeaning(itemType: EffectItemType, value: Value)
    ensures IsWritable(itemType) && Accepts(itemType, value) <==> Takes(itemType, value)
  {
  }

  /** The reason a write is refused for, in the order the reasons are looked at. */
  lemma PrepareRefusals(items: seq<AvailableEffectItem>, item: string, value: Value, target: TrackWriteTarget)
    ensures var prepared := PrepareItemWrite(items, item, value, target);
      if value.UnknownValue? then prepared == Err(UnknownValueRefused)
      else if FindItem(items, item) == None then prepared == Err(ItemNotFound(item))
      else
        var itemType := FindItem(items, item).value.itemType;
        if itemType.DataItem? || itemType.UnknownItem? then prepared == Err(UnsupportedItemType(itemType))
        else if !Takes(itemType, value) then prepared == Err(ValueKindMismatch(itemType, KindOf(value)))
        else
          match EncodeValue(value, target)
          case Ok(text) => prepared.Ok? && prepared.value.value == text
          case Err(error) => prepared == Err(error)
  {
    hide EncodeValue, KindOf;
    if FindItem(items, item).Some? {
      TakesMeaning(FindItem(items, item).value.itemType, value);
    }
  }

  /** Paths are refused as paths first; every text is refused for what an item's text must not hold. */
  lemma TextRefusals(text: string, target: TrackWriteTarget)
    ensures var checked := ValidateItemText(text);
      var written := if checked.Fail? then Err(TextError(checked.error)) else Ok(text);
      && EncodeValue(ColorValue(text), target) == EncodeValue(ChoiceValue(text), target)
         == EncodeValue(FontValue(text), target) == written
      && EncodeValue(FileValue(text), target) == EncodeValue(FolderValue(text), target)
         == (if ValidatePath(text).Fail? then Err(PathError(ValidatePath(text).error)) else written)
  {
    hide ValidatePath, ValidateItemText;
  }

  lemma ItemTextRefusals(text: string)
    ensures ValidateItemText(text) ==
      if '\0' in text then Fail(ContainsNul)
      else if HoldsControl(text) then Fail(ContainsControl)
      else if |Utf8(text)| > 8192 then Fail(TooLongBytes(|Utf8(text)|, 8192))
      else Pass
  {
    hide Utf8, IsControl;
  }

  // ----- The check of a request on its own -----

  const NO_TRACK_TARGET := TrackWriteTarget(0, [])

  predicate FitsI32(integer: I64) {
    -0x8000_0000 <= integer < 0x8000_0000
  }

  /** What can be refused of a value before the item it is written to is looked up. */
  function ValidateItemValue(value: Value): Outcome<ItemWriteError> {
    match value
    case TrackBarValue(track) => ValidateTrackSyntax(track)
    case IntegerValue(integer) => if FitsI32(integer) then Pass else Fail(IntegerNotRepresentable)
    case _ =>
      match EncodeValue(value, NO_TRACK_TARGET)
      case Ok(_) => Pass
      case Err(error) => Fail(error)
  }

  /**
   A value that passes on its own can fail to be prepared only over the item, or over the target and
   the line of a movement; and what can be prepared passes on its own, except that only this check
   knows the width of integers.
   */
  lemma EarlyCheckAgrees(items: seq<AvailableEffectItem>, item: string, value: Value, target: TrackWriteTarget)
    ensures var found := FindItem(items, item);
      PrepareItemWrite(items, item, value, target).Ok? <==>
        && found.Some? && IsWritable(found.value.itemType) && Accepts(found.value.itemType, value)
        && (ValidateItemValue(value).Pass? || (value.IntegerValue? && !FitsI32(value.integer)))
        && (value.TrackBarValue? ==>
              && value.track.values != [] && FitsTarget(value.track, target)
              && |Utf8(Render(value.track))| <= MAX_ITEM_VALUE_BYTES)
  {
    hide ValidateTrackSyntax, FitsTarget, Render, Utf8, Print, PrintInt, ValidateItemText, ValidatePath,
         TextCodec.EncodeMultilineText;
    if value.TrackBarValue? {
      if value.track.values == [] {
        NoValuesRefused(value.track);
      } else {
        EncodeSucceeds(value.track, target);
      }
    }
  }

  lemma NoValuesRefused(track: Track)
    requires track.values == []
    ensures ValidateTrackSyntax(track).Fail?
  {
  }

  // ----- What the comparison means -----

  /** The text is a spelling of a finite number whose value is `value`. */
  ghost predicate Denotes(text: string, value: real) {
    exists t :: SpellsFinite(text, t) && SpelledValue(t) == value
  }

  ghost predicate SpellsFinite(text: string, t: NumberText) {
    WellFormed(t) && Spelled(t) == text && SpelledSize(t) < OVERFLOW as real
  }

  /** A text denotes a value exactly when the parser reads it as a number of that value. */
  lemma DenotesMeaning(text: string, value: real)
    ensures Denotes(text, value) <==> ParseFinite(text).Some? && RealValue(ParseFinite(text).value) == value
  {
    hide ParseFinite, WellFormed, Spelled, SpelledSize, Magnitude;
    if ParseFinite(text).Some? {
      var t := ReadIsSpelling(text);
      SpellingIsRead(t);
      assert SpellsFinite(text, t);
    }
    forall t | SpellsFinite(text, t) && SpelledValue(t) == value
      ensures ParseFinite(text).Some? && RealValue(ParseFinite(text).value) == value
    {
      SpellingIsRead(t);
    }
  }

  /** Two texts match as numbers exactly when they denote one value, however each is spelled. */
  lemma NumericMeaning(written: string, observed: string)
    ensures Matches(Numeric, written, observed) <==> exists value :: Denotes(written, value) && Denotes(observed, value)
  {
    hide ParseFinite, Denotes, SameNumber, RealValue;
    var w, o := ParseFinite(written), ParseFinite(observed);
    if w.Some? && o.Some? {
      SameNumberMeaning(w.value, o.value);
      DenotesMeaning(written, RealValue(w.value));
      DenotesMeaning(observed, RealValue(w.value));
    }
    forall value | Denotes(written, value) && Denotes(observed, value)
      ensures w.Some? && o.Some? && RealValue(w.value) == value && RealValue(o.value) == value
    {
      DenotesMeaning(written, value);
      DenotesMeaning(observed, value);
    }
  }

  /** A text reads as a flag in exactly two spellings each, whitespace around them aside. */
  ghost predicate FlagText(text: string, flag: bool) {
    exists before, word, after :: text == before + word + after && Blank(before) && Blank(after)
      && word in (if flag then {"1", "true"} else {"0", "false"})
  }

  lemma CheckMeaning(text: string, flag: bool)
    ensures ParseCheckValue(text) == Some(flag) <==> FlagText(text, flag)
  {
    hide Trim;
    var before, after := TrimParts(text);
    forall before, word, after | text == before + word + after && Blank(before) && Blank(after)
        && word in {"0", "1", "true", "false"}
      ensures Trim(text) == word
    {
      TrimBetween(before, word, after);
    }
  }

  /** Two texts differ at most in the case of ASCII letters. */
  predicate SameUpToCase(a: string, b: string) {
    && |a| == |b|
    && forall i :: 0 <= i < |a| ==>
         || a[i] == b[i]
         || ('A' <= a[i] <= 'Z' && b[i] as int == a[i] as int + 32)
         || ('a' <= a[i] <= 'z' && b[i] as int == a[i] as int - 32)
  }

  lemma IgnoreCaseMeaning(a: string, b: string)
    ensures EqIgnoreAsciiCase(a, b) <==> SameUpToCase(a, b)
  {
  }

  /**
   Whether an observed text stands for the requested value. This speaks of the value alone, never of
   the text that was written for it.
   */
  ghost predicate StandsFor(observed: string, value: Value) {
    match value
    case NumberValue(number) => Denotes(observed, RealValue(number))
    case IntegerValue(integer) => Denotes(observed, integer as real)
    case BoolValue(flag) => FlagText(observed, flag)
    case ColorValue(color) => SameUpToCase(color, observed)
    case ChoiceValue(choice) => observed == choice
    case FontValue(font) => observed == font
    case FileValue(file) => observed == file
    case FolderValue(folder) => observed == folder
    case TextValue(text) =>
      '\n' !in observed && PairedEscapes(observed) && TextCodec.Decode(observed) == TextCodec.UnifyLineEnds(text)
    case TrackBarValue(track) => exists read :: Spells(observed, read) && ReadBackMatches(track, read)
    case UnknownValue(_) => false
  }

  function IntegerNumber(n: I64): Number {
    Decimal(n < 0, PrintNat(if n < 0 then 0 - n else n), "")
  }

  lemma IntegerText(n: I64)
    ensures ParseFinite(PrintInt(n)) == Some(IntegerNumber(n))
  {
    var d := PrintedIntIsNumber(n);
    ParsePrinted(d);
  }

  lemma IntegerSize(n: I64)
    ensures RealValue(IntegerNumber(n)) == n as real
  {
    var digits := PrintNat(if n < 0 then 0 - n else n);
    assert digits + "" == digits;
    assert Power(0) == 1.0;
  }

  /** An observed track matches exactly when the text spells some track that does. */
  lemma TrackObserved(track: Track, observed: string)
    ensures TrackValues.Decode(observed).Ok? && ReadBackMatches(track, TrackValues.Decode(observed).value)
      <==> exists read :: Spells(observed, read) && ReadBackMatches(track, read)
  {
    hide TrackValues.Decode, ReadBackMatches, Spells;
    DecodeMeaning(observed);
    match TrackValues.Decode(observed) {
      case Ok(read) => assert Spells(observed, read);
      case Err(error) =>
        forall read ensures !Spells(observed, read) {
          assert TrackValues.Decode(observed) != Ok(read);
        }
    }
  }

  lemma CheckText(flag: bool)
    ensures ParseCheckValue(if flag then "1" else "0") == Some(flag)
  {
    TrimIdentity(if flag then "1" else "0");
  }

  /** One text is the written line of a multi-line value exactly when it stands for it. */
  lemma TextStandsFor(text: string, written: string, observed: string)
    requires TextCodec.EncodeMultilineText(text) == Ok(written)
    ensures written == observed <==> StandsFor(observed, TextValue(text))
  {
    TextCodec.MultilinePipeline(text, written);
    if StandsFor(observed, TextValue(text)) {
      TextCodec.EncodeDecode(observed);
    }
  }

  /**
   Every successful write is compared, and the comparison accepts exactly the texts that stand for the
   value that was asked for, whatever digits, case or spelling the host chose for it.
   */
  lemma ReadBackAccepts(items: seq<AvailableEffectItem>, item: string, value: Value, target: TrackWriteTarget,
                        write: ItemWrite, observed: string)
    requires PrepareItemWrite(items, item, value, target) == Ok(write)
    ensures write.readBack.Compare?
    ensures Matches(write.readBack.comparison, write.value, observed) <==> StandsFor(observed, value)
  {
    hide ParseFinite, SameNumber, TrackValues.Decode, TrackValues.Encode, ReadBackMatches, EqIgnoreAsciiCase,
         ParseCheckValue, TextCodec.EncodeMultilineText, ValidateItemText, ValidatePath, PrintInt, Print, Denotes,
         Spells, FlagText, SameUpToCase, RealValue;
    match value {
      case NumberValue(number) =>
        ParsePrinted(number);
        NumberObserved(number, observed);
      case IntegerValue(integer) =>
        IntegerText(integer);
        IntegerSize(integer);
        NumberObserved(IntegerNumber(integer), observed);
      case BoolValue(flag) =>
        CheckText(flag);
        CheckMeaning(observed, flag);
      case TextValue(text) => TextStandsFor(text, write.value, observed);
      case TrackBarValue(track) =>
        DecodeEncoded(track, target, write.value);
        TrackObserved(track, observed);
      case ColorValue(color) => IgnoreCaseMeaning(color, observed);
      case _ =>
    }
  }

  lemma NumberObserved(number: Number, observed: string)
    ensures ParseFinite(observed).Some? && SameNumber(number, ParseFinite(observed).value)
      <==> Denotes(observed, RealValue(number))
  {
    hide ParseFinite, Denotes, SameNumber, RealValue;
    DenotesMeaning(observed, RealValue(number));
    if ParseFinite(observed).Some? {
      SameNumberMeaning(number, ParseFinite(observed).value);
    }
  }

  /** The written text stands for its own value, so an echo of it is never reported as a failed write. */
  lemma EchoIsAccepted(items: seq<AvailableEffectItem>, item: string, value: Value, target: TrackWriteTarget,
                       write: ItemWrite)
    requires PrepareItemWrite(items, item, value, target) == Ok(write)
    ensures write.readBack.Compare? && Matches(write.readBack.comparison, write.value, write.value)
  {
    hide ParseFinite, SameNumber, TrackValues.Decode, TrackValues.Encode, ReadBackMatches, EqIgnoreAsciiCase,
         ParseCheckValue, TextCodec.EncodeMultilineText, ValidateItemText, ValidatePath, PrintInt, Print;
    match value {
      case NumberValue(number) =>
        ParsePrinted(number);
        SameNumberReflexive(number);
      case IntegerValue(integer) =>
        IntegerText(integer);
        SameNumberReflexive(IntegerNumber(integer));
      case BoolValue(flag) => CheckText(flag);
      case TrackBarValue(track) =>
        DecodeEncoded(track, target, write.value);
        MatchesItself(track);
      case ColorValue(color) => SameCase(color);
      case _ =>
    }
  }

  lemma SameNumberReflexive(number: Number)
    ensures SameNumber(number, number)
  {
  }

  lemma MatchesItself(track: Track)
    ensures ReadBackMatches(track, track)
  {
    hide FlagBits;
  }

  lemma SameCase(s: string)
    ensures EqIgnoreAsciiCase(s, s)
  {
  }

  // ----- Writes that would drop a movement -----

  predicate MovementCheckReadsCurrentValue(itemType: EffectItemType, value: Value) {
    EvaluatedKind(itemType) == Some(EvaluatedTrack) && !value.TrackBarValue?
  }

  predicate WriteDropsExistingMovement(itemType: EffectItemType, value: Value, current: string) {
    && MovementCheckReadsCurrentValue(itemType, value)
    && match TrackValues.Decode(current)
       case Ok(track) => track.mode.Some?
       case Err(NotRepresentable(_)) => true
       case Err(NotAMovement) => false
  }

  /**
   What a scalar write over a track bar would lose: a movement, and also a line that reads as one but
   cannot be represented. A number, and any other text, is nothing to lose.
   */
  lemma DropsMeaning(itemType: EffectItemType, value: Value, current: string)
    ensures WriteDropsExistingMovement(itemType, value, current) <==>
      && itemType in {IntegerItem, NumberItem} && !value.TrackBarValue?
      && (|| SpellsTooFewValues(current) || SpellsNoExpression(current)
          || exists track: Track :: track.mode.Some? && Spells(current, track))
  {
    hide TrackValues.Decode, Spells, SpellsTooFewValues, SpellsNoExpression;
    DecodeMeaning(current);
    match TrackValues.Decode(current) {
      case Ok(track) =>
        assert Spells(current, track);
        forall other | Spells(current, other) ensures other == track {
          assert TrackValues.Decode(current) == Ok(other);
        }
      case Err(error) =>
        forall track ensures !Spells(current, track) {
          assert TrackValues.Decode(current) != Ok(track);
        }
        match error {
          case NotAMovement =>
          case NotRepresentable(NoExpression) =>
          case NotRepresentable(TooFewValues) =>
        }
    }
  }

  /** Over a track that was written here, a scalar write drops a movement exactly when the track moved. */
  lemma DropsExactlyMovements(itemType: EffectItemType, value: Value, track: Track, target: TrackWriteTarget,
                              current: string)
    requires TrackValues.Encode(track, target) == Ok(current)
    ensures WriteDropsExistingMovement(itemType, value, current) <==>
      MovementCheckReadsCurrentValue(itemType, value) && track.mode.Some?
  {
    DecodeEncoded(track, target, current);
  }

  /** A scalar over a scalar of the same item never looks like a dropped movement. */
  lemma ScalarsDropNothing(items: seq<AvailableEffectItem>, item: string, before: Value, after: Value,
                           target: TrackWriteTarget, write: ItemWrite)
    requires PrepareItemWrite(items, item, before, target) == Ok(write)
    requires before.NumberValue? || before.IntegerValue?
    ensures !WriteDropsExistingMovement(FindItem(items, item).value.itemType, after, write.value)
  {
    hide TrackValues.Decode, Print, PrintInt;
    match before {
      case NumberValue(number) => DecodePrinted(number);
      case IntegerValue(integer) => var number := PrintedIntIsNumber(integer); DecodePrinted(number);
    }
  }
}
