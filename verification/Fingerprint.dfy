/**
 The canonical bytes an object or an effect is fingerprinted by, up to the point where they are
 hashed. Every field carries the lengths of its name and of its value, so a stream of bytes is
 cut into fields in one way only, and a list of fields describes one input only.
 */
module Fingerprint {
  import opened Wrappers
  import opened MachineIntegers
  import opened Numerals
  import opened Sequences
  import opened Bytes
  import opened DataModel

  // ----- Floating-point numbers as bit patterns -----

  const SIGN_BIT: nat := 0x8000_0000_0000_0000
  const EXPONENT_UNIT: nat := 0x10_0000_0000_0000
  const EXPONENTS: nat := 2048

  /** The bits of a finite double: the exponent field is not all ones. */
  type F64 = bits: nat | bits < U64_LIMIT && bits / EXPONENT_UNIT % EXPONENTS != EXPONENTS - 1 witness 0

  predicate IsZero(x: F64) {
    x == 0 || x == SIGN_BIT
  }

  /** IEEE equality on finite numbers: the same bits, or two zeros. */
  predicate SameNumber(x: F64, y: F64) {
    x == y || (IsZero(x) && IsZero(y))
  }

  predicate SameNumbers(xs: seq<F64>, ys: seq<F64>) {
    |xs| == |ys| && forall i :: 0 <= i < |xs| ==> SameNumber(xs[i], ys[i])
  }

  function Normalized(x: F64): nat {
    if IsZero(x) then 0 else x
  }

  // ----- Inputs -----

  datatype TrackInfo = TrackInfo(
    mode: string,
    params: seq<F64>,
    accelerate: bool,
    decelerate: bool,
    twopoint: bool,
    timecontrol: bool,
    groupNum: nat,
    groupIndex: nat,
    groupName: Option<string>
  )

  datatype EffectItem = EffectItem(
    name: string,
    itemType: EffectItemType,
    value: ItemValue<F64>,
    track: Option<TrackInfo>
  )

  datatype EffectInput = EffectInput(
    effectName: string,
    effectIndex: nat,
    position: nat,
    effectCount: nat,
    enabled: bool,
    locked: bool,
    items: seq<EffectItem>
  )

  datatype ObjectInput = ObjectInput(
    sceneId: I32,
    layer: nat,
    frameStart: nat,
    frameEnd: nat,
    name: Option<string>,
    alias: string
  )

  /** The equality these types derive: equal in every field, numbers compared as numbers. */
  predicate SameTrackValue(a: TrackValue<F64>, b: TrackValue<F64>) {
    && SameNumbers(a.values, b.values) && a.mode == b.mode && SameNumbers(a.params, b.params)
    && a.accelerate == b.accelerate && a.decelerate == b.decelerate && a.twopoint == b.twopoint
    && a.reservedFlags == b.reservedFlags && a.expression == b.expression
  }

  predicate SameItemValue(a: ItemValue<F64>, b: ItemValue<F64>) {
    match (a, b)
    case (NumberValue(x), NumberValue(y)) => SameNumber(x, y)
    case (TrackBarValue(x), TrackBarValue(y)) => SameTrackValue(x, y)
    case _ => a == b && !a.NumberValue? && !a.TrackBarValue?
  }

  predicate SameTrackInfo(a: Option<TrackInfo>, b: Option<TrackInfo>) {
    match (a, b)
    case (Some(x), Some(y)) => SameNumbers(x.params, y.params) && x == y.(params := x.params)
    case (None, None) => true
    case _ => false
  }

  predicate SameItem(a: EffectItem, b: EffectItem) {
    a.name == b.name && a.itemType == b.itemType && SameItemValue(a.value, b.value) && SameTrackInfo(a.track, b.track)
  }

  predicate SameItems(a: seq<EffectItem>, b: seq<EffectItem>) {
    |a| == |b| && forall i :: 0 <= i < |a| ==> SameItem(a[i], b[i])
  }

  predicate SameEffect(a: EffectInput, b: EffectInput) {
    SameItems(a.items, b.items) && a == b.(items := a.items)
  }

  // ----- Fields -----

  datatype Field = Field(name: string, value: seq<byte>)

  function FieldBytes(f: Field): seq<byte> {
    LittleEndian(|Utf8(f.name)|, 8) + Utf8(f.name) + LittleEndian(|f.value|, 8) + f.value
  }

  function Serialize(fields: seq<Field>): seq<byte> {
    if fields == [] then [] else FieldBytes(fields[0]) + Serialize(fields[1..])
  }

  /** Every length fits its 64-bit prefix, as the length of anything in memory does. */
  predicate Addressable(fields: seq<Field>) {
    forall i :: 0 <= i < |fields| ==> |Utf8(fields[i].name)| < U64_LIMIT && |fields[i].value| < U64_LIMIT
  }

  function TextField(name: string, value: string): Field {
    Field(name, Utf8(value))
  }

  function IntegerField(name: string, value: int): Field {
    TextField(name, PrintInt(value))
  }

  function CountField(name: string, value: nat): Field {
    TextField(name, PrintNat(value))
  }

  function BooleanField(name: string, value: bool): Field {
    TextField(name, if value then "true" else "false")
  }

  function NumberField(name: string, value: F64): Field {
    Field(name, LittleEndian(Normalized(value), 8))
  }

  function NumberFields(name: string, values: seq<F64>): (fields: seq<Field>)
    ensures |fields| == |values|
  {
    seq(|values|, i requires 0 <= i < |values| => NumberField(name, values[i]))
  }

  function CountedNumbers(countName: string, name: string, values: seq<F64>): seq<Field> {
    [CountField(countName, |values|)] + NumberFields(name, values)
  }

  /** A presence flag, then the text if there is one: no text and an empty text differ. */
  function OptionalText(name: string, value: Option<string>): seq<Field> {
    [BooleanField(name + ".present", value.Some?)] + if value.Some? then [TextField(name, value.value)] else []
  }

  function TrackFlagFields(track: TrackValue<F64>): seq<Field> {
    [BooleanField("item_value.track.accelerate", track.accelerate),
     BooleanField("item_value.track.decelerate", track.decelerate),
     BooleanField("item_value.track.twopoint", track.twopoint),
     IntegerField("item_value.track.reserved_flags", track.reservedFlags)]
  }

  function TrackFields(track: TrackValue<F64>): seq<Field> {
    CountedNumbers("item_value.track.value_count", "item_value.track.value", track.values)
    + OptionalText("item_value.track.mode", track.mode)
    + CountedNumbers("item_value.track.param_count", "item_value.track.param", track.params)
    + TrackFlagFields(track)
    + OptionalText("item_value.track.expression", track.expression)
  }

  function PayloadFields(value: ItemValue<F64>): seq<Field> {
    match value
    case NumberValue(number) => [NumberField("item_value.number", number)]
    case IntegerValue(integer) => [IntegerField("item_value.integer", integer)]
    case BoolValue(flag) => [BooleanField("item_value.bool", flag)]
    case ColorValue(color) => [TextField("item_value.color", color)]
    case ChoiceValue(choice) => [TextField("item_value.choice", choice)]
    case FileValue(file) => [TextField("item_value.file", file)]
    case FolderValue(folder) => [TextField("item_value.folder", folder)]
    case FontValue(font) => [TextField("item_value.font", font)]
    case TextValue(text) => [TextField("item_value.text", text)]
    case TrackBarValue(track) => TrackFields(track)
    case UnknownValue(raw) => [TextField("item_value.unknown", raw)]
  }

  function ItemValueFields(value: ItemValue<F64>): seq<Field> {
    [TextField("item_value.kind", KindOf(value))] + PayloadFields(value)
  }

  function TrackInfoFlagFields(track: TrackInfo): seq<Field> {
    [BooleanField("track.accelerate", track.accelerate),
     BooleanField("track.decelerate", track.decelerate),
     BooleanField("track.twopoint", track.twopoint),
     BooleanField("track.timecontrol", track.timecontrol),
     CountField("track.group_num", track.groupNum),
     CountField("track.group_index", track.groupIndex)]
  }

  function TrackInfoFields(track: Option<TrackInfo>): seq<Field> {
    [BooleanField("track.present", track.Some?)]
    + if track.None? then []
      else
        [TextField("track.mode", track.value.mode)]
        + CountedNumbers("track.param_count", "track.param", track.value.params)
        + TrackInfoFlagFields(track.value)
        + OptionalText("track.group_name", track.value.groupName)
  }

  /** The name of a kind. Unknown kinds carry their number in parentheses, which no known name has. */
  function KindName(itemType: EffectItemType): string {
    match itemType
    case IntegerItem => "integer"
    case NumberItem => "number"
    case CheckItem => "check"
    case TextItem => "text"
    case StringItem => "string"
    case FileItem => "file"
    case ColorItem => "color"
    case SelectItem => "select"
    case SceneItem => "scene"
    case RangeItem => "range"
    case ComboItem => "combo"
    case MaskItem => "mask"
    case FontItem => "font"
    case FigureItem => "figure"
    case DataItem => "data"
    case FolderItem => "folder"
    case UnknownItem(raw) => "unknown(" + PrintInt(raw) + ")"
  }

  function ItemFields(item: EffectItem): seq<Field> {
    [TextField("item_name", item.name), TextField("item_type", KindName(item.itemType))]
    + ItemValueFields(item.value)
    + TrackInfoFields(item.track)
  }

  function ItemsFields(items: seq<EffectItem>): seq<Field> {
    if items == [] then [] else ItemFields(items[0]) + ItemsFields(items[1..])
  }

  const ALGORITHM: string := "sha256-raw-v1"

  function EffectFields(input: EffectInput): seq<Field> {
    HeaderFields(input) + ItemsFields(input.items)
  }

  function HeaderFields(input: EffectInput): seq<Field> {
    [TextField("algorithm", ALGORITHM),
     TextField("effect_name", input.effectName),
     CountField("effect_index", input.effectIndex),
     CountField("position", input.position),
     CountField("effect_count", input.effectCount),
     BooleanField("enabled", input.enabled),
     BooleanField("locked", input.locked),
     CountField("item_count", |input.items|)]
  }

  function ObjectFields(input: ObjectInput): seq<Field> {
    [TextField("algorithm", ALGORITHM),
     IntegerField("scene_id", input.sceneId),
     CountField("layer", input.layer),
     CountField("frame_start", input.frameStart),
     CountField("frame_end", input.frameEnd)]
    + OptionalText("name", input.name)
    + [TextField("alias", input.alias)]
  }

  // ----- The writer -----

  class FingerprintInput {
    var buffer: seq<byte>
    /** The fields written so far; the buffer is their bytes. */
    ghost var fields: seq<Field>

    ghost predicate Valid()
      reads this
    {
      buffer == Serialize(fields)
    }

    constructor ()
      ensures Valid() && fields == []
    {
      buffer := [];
      fields := [];
    }

    method WriteField(name: string, value: seq<byte>)
      requires Valid()
      modifies this
      ensures Valid() && fields == old(fields) + [Field(name, value)]
    {
      SerializeAppend(fields, Field(name, value));
      Associates5(buffer, LittleEndian(|Utf8(name)|, 8), Utf8(name), LittleEndian(|value|, 8), value);
      buffer := buffer + LittleEndian(|Utf8(name)|, 8);
      buffer := buffer + Utf8(name);
      buffer := buffer + LittleEndian(|value|, 8);
      buffer := buffer + value;
      fields := fields + [Field(name, value)];
    }

    method WriteText(name: string, value: string)
      requires Valid()
      modifies this
      ensures Valid() && fields == old(fields) + [TextField(name, value)]
    {
      WriteField(name, Utf8(value));
    }

    method WriteInteger(name: string, value: int)
      requires Valid()
      modifies this
      ensures Valid() && fields == old(fields) + [IntegerField(name, value)]
    {
      WriteText(name, PrintInt(value));
    }

    method WriteCount(name: string, value: nat)
      requires Valid()
      modifies this
      ensures Valid() && fields == old(fields) + [CountField(name, value)]
    {
      WriteText(name, PrintNat(value));
    }

    method WriteBoolean(name: string, value: bool)
      requires Valid()
      modifies this
      ensures Valid() && fields == old(fields) + [BooleanField(name, value)]
    {
      WriteText(name, if value then "true" else "false");
    }

    method WriteNumber(name: string, value: F64)
      requires Valid()
      modifies this
      ensures Valid() && fields == old(fields) + [NumberField(name, value)]
    {
      var normalized: nat := if value == 0 || value == SIGN_BIT then 0 else value;
      WriteField(name, LittleEndian(normalized, 8));
    }

    method WriteCountedNumbers(countName: string, name: string, values: seq<F64>)
      requires Valid()
      modifies this
      ensures Valid() && fields == old(fields) + CountedNumbers(countName, name, values)
    {
      WriteCount(countName, |values|);
      ghost var before := fields;
      for next := 0 to |values|
        invariant Valid() && fields == before + NumberFields(name, values)[..next]
      {
        WriteNumber(name, values[next]);
      }
    }

    method WriteOptionalText(name: string, value: Option<string>)
      requires Valid()
      modifies this
      ensures Valid() && fields == old(fields) + OptionalText(name, value)
    {
      WriteBoolean(name + ".present", value.Some?);
      if value.Some? {
        WriteText(name, value.value);
      }
    }

    method WriteTrackValue(track: TrackValue<F64>)
      requires Valid()
      modifies this
      ensures Valid() && fields == old(fields) + TrackFields(track)
    {
      hide CountedNumbers, OptionalText, BooleanField, IntegerField;
      ghost var before := fields;
      WriteCountedNumbers("item_value.track.value_count", "item_value.track.value", track.values);
      WriteOptionalText("item_value.track.mode", track.mode);
      WriteCountedNumbers("item_value.track.param_count", "item_value.track.param", track.params);
      WriteBoolean("item_value.track.accelerate", track.accelerate);
      WriteBoolean("item_value.track.decelerate", track.decelerate);
      WriteBoolean("item_value.track.twopoint", track.twopoint);
      WriteInteger("item_value.track.reserved_flags", track.reservedFlags);
      WriteOptionalText("item_value.track.expression", track.expression);
      var flags := TrackFlagFields(track);
      var values := CountedNumbers("item_value.track.value_count", "item_value.track.value", track.values);
      var mode := OptionalText("item_value.track.mode", track.mode);
      var params := CountedNumbers("item_value.track.param_count", "item_value.track.param", track.params);
      Push4(before + values + mode + params, flags[0], flags[1], flags[2], flags[3]);
      Associates6(before, values, mode, params, flags, OptionalText("item_value.track.expression", track.expression));
    }

    method WriteItemValue(value: ItemValue<F64>)
      requires Valid()
      modifies this
      ensures Valid() && fields == old(fields) + ItemValueFields(value)
    {
      hide KindOf, TrackFields, TextField, BooleanField, IntegerField, NumberField;
      Associates(fields, [TextField("item_value.kind", KindOf(value))], PayloadFields(value));
      WriteText("item_value.kind", KindOf(value));
      match value {
        case NumberValue(number) => WriteNumber("item_value.number", number);
        case IntegerValue(integer) => WriteInteger("item_value.integer", integer);
        case BoolValue(flag) => WriteBoolean("item_value.bool", flag);
        case ColorValue(color) => WriteText("item_value.color", color);
        case ChoiceValue(choice) => WriteText("item_value.choice", choice);
        case FileValue(file) => WriteText("item_value.file", file);
        case FolderValue(folder) => WriteText("item_value.folder", folder);
        case FontValue(font) => WriteText("item_value.font", font);
        case TextValue(text) => WriteText("item_value.text", text);
        case TrackBarValue(track) => WriteTrackValue(track);
        case UnknownValue(raw) => WriteText("item_value.unknown", raw);
      }
    }

    method WriteTrackInfo(track: Option<TrackInfo>)
      requires Valid()
      modifies this
      ensures Valid() && fields == old(fields) + TrackInfoFields(track)
    {
      hide CountedNumbers, OptionalText, BooleanField, CountField, TextField;
      WriteBoolean("track.present", track.Some?);
      if track.None? {
        return;
      }
      var info := track.value;
      WriteText("track.mode", info.mode);
      WriteCountedNumbers("track.param_count", "track.param", info.params);
      WriteBoolean("track.accelerate", info.accelerate);
      WriteBoolean("track.decelerate", info.decelerate);
      WriteBoolean("track.twopoint", info.twopoint);
      WriteBoolean("track.timecontrol", info.timecontrol);
      WriteCount("track.group_num", info.groupNum);
      WriteCount("track.group_index", info.groupIndex);
      WriteOptionalText("track.group_name", info.groupName);
      PushTrackInfo(old(fields), info);
    }
  }

  lemma PushTrackInfo(x: seq<Field>, info: TrackInfo)
    ensures var flags := TrackInfoFlagFields(info);
      x + [BooleanField("track.present", true)] + [TextField("track.mode", info.mode)]
      + CountedNumbers("track.param_count", "track.param", info.params)
      + [flags[0]] + [flags[1]] + [flags[2]] + [flags[3]] + [flags[4]] + [flags[5]]
      + OptionalText("track.group_name", info.groupName)
      == x + TrackInfoFields(Some(info))
  {
    hide CountedNumbers, OptionalText, BooleanField, CountField, TextField;
    var present, mode := [BooleanField("track.present", true)], [TextField("track.mode", info.mode)];
    var flags := TrackInfoFlagFields(info);
    var params := CountedNumbers("track.param_count", "track.param", info.params);
    var name := OptionalText("track.group_name", info.groupName);
    Push6(x + present + mode + params, flags[0], flags[1], flags[2], flags[3], flags[4], flags[5]);
    Associates5(x + present, mode, params, flags, name);
    Associates(x, present, mode + params + flags + name);
  }

  /** The body of the loop over the items. */
  method WriteItem(stream: FingerprintInput, item: EffectItem)
    requires stream.Valid()
    modifies stream
    ensures stream.Valid() && stream.fields == old(stream.fields) + ItemFields(item)
  {
    stream.WriteText("item_name", item.name);
    stream.WriteText("item_type", KindName(item.itemType));
    stream.WriteItemValue(item.value);
    stream.WriteTrackInfo(item.track);
    hide TextField, KindName, ItemValueFields, TrackInfoFields;
    var name, kind := TextField("item_name", item.name), TextField("item_type", KindName(item.itemType));
    Push2(old(stream.fields), name, kind);
    Associates4(old(stream.fields), [name, kind], ItemValueFields(item.value), TrackInfoFields(item.track));
  }

  /** The fields ahead of the items. */
  method WriteHeader(stream: FingerprintInput, input: EffectInput)
    requires stream.Valid() && stream.fields == []
    modifies stream
    ensures stream.Valid() && stream.fields == HeaderFields(input)
  {
    hide TextField, CountField, BooleanField;
    stream.WriteText("algorithm", ALGORITHM);
    stream.WriteText("effect_name", input.effectName);
    stream.WriteCount("effect_index", input.effectIndex);
    stream.WriteCount("position", input.position);
    stream.WriteCount("effect_count", input.effectCount);
    stream.WriteBoolean("enabled", input.enabled);
    stream.WriteBoolean("locked", input.locked);
    stream.WriteCount("item_count", |input.items|);
  }

  lemma ItemsStep(x: seq<Field>, items: seq<EffectItem>, next: nat)
    requires next <= |items|
    ensures next < |items| ==>
      x + ItemsFields(items[next..]) == x + ItemFields(items[next]) + ItemsFields(items[next + 1..])
    ensures next == |items| ==> x + ItemsFields(items[next..]) == x
  {
    hide ItemFields;
    if next < |items| {
      assert items[next..][1..] == items[next + 1..];
      Associates(x, ItemFields(items[next]), ItemsFields(items[next + 1..]));
    }
  }

  method EffectFingerprintBytes(input: EffectInput) returns (bytes: seq<byte>)
    ensures bytes == Serialize(EffectFields(input))
  {
    var stream := new FingerprintInput();
    WriteHeader(stream, input);
    hide HeaderFields, ItemFields, ItemsFields, Serialize;
    assert input.items[0..] == input.items;
    for next := 0 to |input.items|
      invariant stream.Valid() && fresh(stream)
      invariant stream.fields + ItemsFields(input.items[next..]) == EffectFields(input)
    {
      ItemsStep(stream.fields, input.items, next);
      WriteItem(stream, input.items[next]);
    }
    ItemsStep(stream.fields, input.items, |input.items|);
    bytes := stream.buffer;
  }

  method ObjectFingerprintBytes(input: ObjectInput) returns (bytes: seq<byte>)
    ensures bytes == Serialize(ObjectFields(input))
  {
    hide TextField, CountField, IntegerField, OptionalText;
    var stream := new FingerprintInput();
    stream.WriteText("algorithm", ALGORITHM);
    stream.WriteInteger("scene_id", input.sceneId);
    stream.WriteCount("layer", input.layer);
    stream.WriteCount("frame_start", input.frameStart);
    stream.WriteCount("frame_end", input.frameEnd);
    stream.WriteOptionalText("name", input.name);
    stream.WriteText("alias", input.alias);
    assert stream.fields == ObjectFields(input);
    bytes := stream.buffer;
  }

  lemma {:induction false} SerializeAppend(fields: seq<Field>, f: Field)
    ensures Serialize(fields + [f]) == Serialize(fields) + FieldBytes(f)
  {
    hide FieldBytes;
    if fields == [] {
      assert fields + [f] == [f] && [f][1..] == [];
      assert Serialize([f]) == FieldBytes(f) + Serialize([]) == FieldBytes(f);
    } else {
      SerializeAppend(fields[1..], f);
      assert (fields + [f])[1..] == fields[1..] + [f];
      Associates(FieldBytes(fields[0]), Serialize(fields[1..]), FieldBytes(f));
    }
  }

  // ----- Reading the stream back -----

  /** A field in front of a stream is read back from it. */
  lemma FieldPrefix(f: Field, g: Field, restF: seq<byte>, restG: seq<byte>)
    requires Addressable([f, g])
    requires FieldBytes(f) + restF == FieldBytes(g) + restG
    ensures f == g && restF == restG
  {
    assert Addressable([f, g]) ==> [f, g][0] == f && [f, g][1] == g;
    LengthPrefixed(Utf8(f.name), Utf8(g.name),
                   LittleEndian(|f.value|, 8) + (f.value + restF), LittleEndian(|g.value|, 8) + (g.value + restG)) by {
      FieldStream(f, restF);
      FieldStream(g, restG);
    }
    LengthPrefixed(f.value, g.value, restF, restG);
    Utf8Injective(f.name, g.name);
  }

  lemma FieldStream(f: Field, rest: seq<byte>)
    ensures FieldBytes(f) + rest
         == LittleEndian(|Utf8(f.name)|, 8) + (Utf8(f.name) + (LittleEndian(|f.value|, 8) + (f.value + rest)))
  {
    hide LittleEndian, Utf8;
  }

  lemma LengthPrefixed(a: seq<byte>, b: seq<byte>, restA: seq<byte>, restB: seq<byte>)
    requires |a| < U64_LIMIT && |b| < U64_LIMIT
    requires LittleEndian(|a|, 8) + (a + restA) == LittleEndian(|b|, 8) + (b + restB)
    ensures a == b && restA == restB
  {
    LittleEndian64Prefix(|a|, |b|, a + restA, b + restB);
    assert (a + restA)[..|a|] == a && (b + restB)[..|b|] == b;
    assert (a + restA)[|a|..] == restA && (b + restB)[|b|..] == restB;
  }

  /** Bytes are cut into fields in one way only. */
  lemma {:induction false} SerializeInjective(fs: seq<Field>, gs: seq<Field>)
    requires Addressable(fs) && Addressable(gs)
    requires Serialize(fs) == Serialize(gs)
    ensures fs == gs
  {
    if fs == [] || gs == [] {
      assert fs == [] && gs == [];
    } else {
      FieldPrefix(fs[0], gs[0], Serialize(fs[1..]), Serialize(gs[1..]));
      SerializeInjective(fs[1..], gs[1..]);
      assert fs == [fs[0]] + fs[1..] && gs == [gs[0]] + gs[1..];
    }
  }

  // ----- One list of fields, one input -----

  lemma TextFieldInjective(name: string, a: string, b: string)
    requires TextField(name, a) == TextField(name, b)
    ensures a == b
  {
    Utf8Injective(a, b);
  }

  lemma BooleanFieldInjective(name: string, a: bool, b: bool)
    requires BooleanField(name, a) == BooleanField(name, b)
    ensures a == b
  {
    TextFieldInjective(name, if a then "true" else "false", if b then "true" else "false");
    assert "true"[0] != "false"[0];
  }

  lemma IntegerFieldInjective(name: string, a: int, b: int)
    requires IntegerField(name, a) == IntegerField(name, b)
    ensures a == b
  {
    TextFieldInjective(name, PrintInt(a), PrintInt(b));
    PrintIntInjective(a, b);
  }

  lemma CountFieldInjective(name: string, a: nat, b: nat)
    requires CountField(name, a) == CountField(name, b)
    ensures a == b
  {
    IntegerFieldInjective(name, a, b);
  }

  lemma NumberFieldMeaning(name: string, a: F64, b: F64)
    ensures NumberField(name, a) == NumberField(name, b) <==> SameNumber(a, b)
  {
    if NumberField(name, a) == NumberField(name, b) {
      LittleEndian64Prefix(Normalized(a), Normalized(b), [], []);
    }
  }

  lemma NumberFieldsMeaning(name: string, a: seq<F64>, b: seq<F64>)
    ensures NumberFields(name, a) == NumberFields(name, b) <==> SameNumbers(a, b)
  {
    hide NumberField, SameNumber;
    var fa, fb := NumberFields(name, a), NumberFields(name, b);
    forall i | 0 <= i < |a| && |a| == |b|
      ensures fa[i] == fb[i] <==> SameNumber(a[i], b[i])
    {
      NumberFieldMeaning(name, a[i], b[i]);
    }
  }

  /** A count tells where the numbers it announces end. */
  lemma CountedNumbersPrefix(countName: string, name: string, a: seq<F64>, b: seq<F64>, restA: seq<Field>,
                             restB: seq<Field>)
    requires CountedNumbers(countName, name, a) + restA == CountedNumbers(countName, name, b) + restB
    ensures SameNumbers(a, b) && restA == restB
  {
    hide CountField, NumberFields, SameNumbers;
    assert (CountedNumbers(countName, name, a) + restA)[0] == CountField(countName, |a|);
    assert (CountedNumbers(countName, name, b) + restB)[0] == CountField(countName, |b|);
    CountFieldInjective(countName, |a|, |b|);
    Peel(CountedNumbers(countName, name, a), CountedNumbers(countName, name, b), restA, restB);
    Peel([CountField(countName, |a|)], [CountField(countName, |b|)], NumberFields(name, a), NumberFields(name, b));
    NumberFieldsMeaning(name, a, b);
  }

  /** A presence flag tells whether its text follows. */
  lemma OptionalTextPrefix(name: string, a: Option<string>, b: Option<string>, restA: seq<Field>, restB: seq<Field>)
    requires OptionalText(name, a) + restA == OptionalText(name, b) + restB
    ensures a == b && restA == restB
  {
    hide BooleanField, TextField;
    var present := name + ".present";
    assert (OptionalText(name, a) + restA)[0] == BooleanField(present, a.Some?);
    assert (OptionalText(name, b) + restB)[0] == BooleanField(present, b.Some?);
    BooleanFieldInjective(present, a.Some?, b.Some?);
    Peel(OptionalText(name, a), OptionalText(name, b), restA, restB);
    if a.Some? {
      assert OptionalText(name, a)[1] == TextField(name, a.value);
      assert OptionalText(name, b)[1] == TextField(name, b.value);
      TextFieldInjective(name, a.value, b.value);
    }
  }

  lemma TrackFlagsInjective(a: TrackValue<F64>, b: TrackValue<F64>)
    requires TrackFlagFields(a) == TrackFlagFields(b)
    ensures a.accelerate == b.accelerate && a.decelerate == b.decelerate && a.twopoint == b.twopoint
    ensures a.reservedFlags == b.reservedFlags
  {
    hide BooleanField, IntegerField;
    var fa, fb := TrackFlagFields(a), TrackFlagFields(b);
    assert fa[0] == fb[0] && fa[1] == fb[1] && fa[2] == fb[2] && fa[3] == fb[3];
    BooleanFieldInjective("item_value.track.accelerate", a.accelerate, b.accelerate);
    BooleanFieldInjective("item_value.track.decelerate", a.decelerate, b.decelerate);
    BooleanFieldInjective("item_value.track.twopoint", a.twopoint, b.twopoint);
    IntegerFieldInjective("item_value.track.reserved_flags", a.reservedFlags, b.reservedFlags);
  }

  lemma TrackPrefix(a: TrackValue<F64>, b: TrackValue<F64>, restA: seq<Field>, restB: seq<Field>)
    requires TrackFields(a) + restA == TrackFields(b) + restB
    ensures SameTrackValue(a, b) && restA == restB
  {
    hide CountedNumbers, OptionalText, TrackFlagFields, SameNumbers;
    var valuesA := CountedNumbers("item_value.track.value_count", "item_value.track.value", a.values);
    var valuesB := CountedNumbers("item_value.track.value_count", "item_value.track.value", b.values);
    var modeA, modeB := OptionalText("item_value.track.mode", a.mode), OptionalText("item_value.track.mode", b.mode);
    var paramsA := CountedNumbers("item_value.track.param_count", "item_value.track.param", a.params);
    var paramsB := CountedNumbers("item_value.track.param_count", "item_value.track.param", b.params);
    var flagsA, flagsB := TrackFlagFields(a), TrackFlagFields(b);
    var expressionA := OptionalText("item_value.track.expression", a.expression);
    var expressionB := OptionalText("item_value.track.expression", b.expression);
    Associates6(valuesA, modeA, paramsA, flagsA, expressionA, restA);
    Associates6(valuesB, modeB, paramsB, flagsB, expressionB, restB);
    var tailA, tailB := flagsA + (expressionA + restA), flagsB + (expressionB + restB);
    CountedNumbersPrefix("item_value.track.value_count", "item_value.track.value", a.values, b.values,
                         modeA + (paramsA + tailA), modeB + (paramsB + tailB));
    OptionalTextPrefix("item_value.track.mode", a.mode, b.mode, paramsA + tailA, paramsB + tailB);
    CountedNumbersPrefix("item_value.track.param_count", "item_value.track.param", a.params, b.params, tailA, tailB);
    TrackFlagCount(a);
    TrackFlagCount(b);
    Peel(flagsA, flagsB, expressionA + restA, expressionB + restB);
    TrackFlagsInjective(a, b);
    OptionalTextPrefix("item_value.track.expression", a.expression, b.expression, restA, restB);
  }

  lemma TrackFlagCount(track: TrackValue<F64>)
    ensures |TrackFlagFields(track)| == 4
  {
  }

  /** The name of a kind of value names one constructor. */
  lemma KindDetermines(a: ItemValue<F64>, b: ItemValue<F64>)
    requires KindOf(a) == KindOf(b)
    ensures KindCode(a) == KindCode(b)
  {
    CodeOfKind(a);
    CodeOfKind(b);
  }

  function KindCode(value: ItemValue<F64>): nat {
    match value
    case NumberValue(_) => 0
    case IntegerValue(_) => 1
    case BoolValue(_) => 2
    case ColorValue(_) => 3
    case ChoiceValue(_) => 4
    case FileValue(_) => 5
    case FolderValue(_) => 6
    case FontValue(_) => 7
    case TextValue(_) => 8
    case TrackBarValue(_) => 9
    case UnknownValue(_) => 10
  }

  /** Reads the constructor off the length and the first two characters of the name. */
  function CodeFromKind(kind: string): nat
    requires |kind| >= 2
  {
    if kind[0] == 'n' then 0
    else if kind[0] == 'i' then 1
    else if kind[0] == 'b' then 2
    else if kind[0] == 'c' then (if kind[1] == 'o' then 3 else 4)
    else if kind[0] == 'f' then (if kind[1] == 'i' then 5 else if |kind| == 6 then 6 else 7)
    else if kind[0] == 't' then (if kind[1] == 'e' then 8 else 9)
    else 10
  }

  lemma CodeOfKind(value: ItemValue<F64>)
    ensures |KindOf(value)| >= 2 && CodeFromKind(KindOf(value)) == KindCode(value)
  {
  }

  lemma ItemValuePrefix(a: ItemValue<F64>, b: ItemValue<F64>, restA: seq<Field>, restB: seq<Field>)
    requires ItemValueFields(a) + restA == ItemValueFields(b) + restB
    ensures SameItemValue(a, b) && restA == restB
  {
    hide KindOf, TextField, PayloadFields, SameItemValue;
    var kindA, kindB := [TextField("item_value.kind", KindOf(a))], [TextField("item_value.kind", KindOf(b))];
    Associates(kindA, PayloadFields(a), restA);
    Associates(kindB, PayloadFields(b), restB);
    Peel(kindA, kindB, PayloadFields(a) + restA, PayloadFields(b) + restB);
    TextFieldInjective("item_value.kind", KindOf(a), KindOf(b));
    KindDetermines(a, b);
    PayloadPrefix(a, b, restA, restB);
  }

  lemma PayloadPrefix(a: ItemValue<F64>, b: ItemValue<F64>, restA: seq<Field>, restB: seq<Field>)
    requires KindCode(a) == KindCode(b)
    requires PayloadFields(a) + restA == PayloadFields(b) + restB
    ensures SameItemValue(a, b) && restA == restB
  {
    hide TextField, BooleanField, IntegerField, NumberField, TrackFields, SameTrackValue, SameNumber;
    if a.TrackBarValue? {
      TrackPrefix(a.track, b.track, restA, restB);
    } else {
      Peel(PayloadFields(a), PayloadFields(b), restA, restB);
      SingleFieldInjective(a, b);
    }
  }

  lemma SingleFieldInjective(a: ItemValue<F64>, b: ItemValue<F64>)
    requires KindCode(a) == KindCode(b) && !a.TrackBarValue?
    requires PayloadFields(a) == PayloadFields(b)
    ensures SameItemValue(a, b)
  {
    hide TextField, BooleanField, IntegerField, NumberField, TrackFields, SameTrackValue, SameNumber;
    assert PayloadFields(a)[0] == PayloadFields(b)[0];
    match a {
      case NumberValue(x) => NumberFieldMeaning("item_value.number", x, b.number);
      case IntegerValue(x) => IntegerFieldInjective("item_value.integer", x, b.integer);
      case BoolValue(x) => BooleanFieldInjective("item_value.bool", x, b.flag);
      case ColorValue(x) => TextFieldInjective("item_value.color", x, b.color);
      case ChoiceValue(x) => TextFieldInjective("item_value.choice", x, b.choice);
      case FileValue(x) => TextFieldInjective("item_value.file", x, b.file);
      case FolderValue(x) => TextFieldInjective("item_value.folder", x, b.folder);
      case FontValue(x) => TextFieldInjective("item_value.font", x, b.font);
      case TextValue(x) => TextFieldInjective("item_value.text", x, b.text);
      case UnknownValue(x) => TextFieldInjective("item_value.unknown", x, b.raw);
    }
  }

  lemma TrackInfoFlagsInjective(a: TrackInfo, b: TrackInfo)
    requires TrackInfoFlagFields(a) == TrackInfoFlagFields(b)
    ensures a.accelerate == b.accelerate && a.decelerate == b.decelerate && a.twopoint == b.twopoint
    ensures a.timecontrol == b.timecontrol && a.groupNum == b.groupNum && a.groupIndex == b.groupIndex
  {
    hide BooleanField, CountField;
    var fa, fb := TrackInfoFlagFields(a), TrackInfoFlagFields(b);
    assert fa[0] == fb[0] && fa[1] == fb[1] && fa[2] == fb[2] && fa[3] == fb[3] && fa[4] == fb[4] && fa[5] == fb[5];
    BooleanFieldInjective("track.accelerate", a.accelerate, b.accelerate);
    BooleanFieldInjective("track.decelerate", a.decelerate, b.decelerate);
    BooleanFieldInjective("track.twopoint", a.twopoint, b.twopoint);
    BooleanFieldInjective("track.timecontrol", a.timecontrol, b.timecontrol);
    CountFieldInjective("track.group_num", a.groupNum, b.groupNum);
    CountFieldInjective("track.group_index", a.groupIndex, b.groupIndex);
  }

  lemma TrackInfoPrefix(a: Option<TrackInfo>, b: Option<TrackInfo>, restA: seq<Field>, restB: seq<Field>)
    requires TrackInfoFields(a) + restA == TrackInfoFields(b) + restB
    ensures SameTrackInfo(a, b) && restA == restB
  {
    hide BooleanField, TextField, CountedNumbers, OptionalText, TrackInfoFlagFields, SameNumbers;
    assert (TrackInfoFields(a) + restA)[0] == BooleanField("track.present", a.Some?);
    assert (TrackInfoFields(b) + restB)[0] == BooleanField("track.present", b.Some?);
    BooleanFieldInjective("track.present", a.Some?, b.Some?);
    if a.None? {
      Peel(TrackInfoFields(a), TrackInfoFields(b), restA, restB);
    } else {
      PresentTrackInfoPrefix(a.value, b.value, restA, restB);
    }
  }

  lemma PresentTrackInfoPrefix(x: TrackInfo, y: TrackInfo, restA: seq<Field>, restB: seq<Field>)
    requires TrackInfoFields(Some(x)) + restA == TrackInfoFields(Some(y)) + restB
    ensures SameTrackInfo(Some(x), Some(y)) && restA == restB
  {
    hide BooleanField, TextField, CountedNumbers, OptionalText, TrackInfoFlagFields, SameNumbers;
    var present := [BooleanField("track.present", true)];
    var modeX, modeY := [TextField("track.mode", x.mode)], [TextField("track.mode", y.mode)];
    var paramsX := CountedNumbers("track.param_count", "track.param", x.params);
    var paramsY := CountedNumbers("track.param_count", "track.param", y.params);
    var flagsX, flagsY := TrackInfoFlagFields(x), TrackInfoFlagFields(y);
    var nameX, nameY := OptionalText("track.group_name", x.groupName), OptionalText("track.group_name", y.groupName);
    NestTrackInfo(present, modeX, paramsX, flagsX, nameX, restA);
    NestTrackInfo(present, modeY, paramsY, flagsY, nameY, restB);
    var tailX, tailY := flagsX + (nameX + restA), flagsY + (nameY + restB);
    Peel(present, present, modeX + (paramsX + tailX), modeY + (paramsY + tailY));
    Peel(modeX, modeY, paramsX + tailX, paramsY + tailY);
    TextFieldInjective("track.mode", x.mode, y.mode);
    CountedNumbersPrefix("track.param_count", "track.param", x.params, y.params, tailX, tailY);
    TrackInfoFlagCount(x);
    TrackInfoFlagCount(y);
    Peel(flagsX, flagsY, nameX + restA, nameY + restB);
    TrackInfoFlagsInjective(x, y);
    OptionalTextPrefix("track.group_name", x.groupName, y.groupName, restA, restB);
  }

  lemma TrackInfoFlagCount(track: TrackInfo)
    ensures |TrackInfoFlagFields(track)| == 6
  {
  }

  lemma NestTrackInfo<T>(a: seq<T>, b: seq<T>, c: seq<T>, d: seq<T>, e: seq<T>, rest: seq<T>)
    ensures a + (b + c + d + e) + rest == a + (b + (c + (d + (e + rest))))
  {
  }

  // ----- Kinds of items -----

  function ItemTypeCode(itemType: EffectItemType): nat {
    match itemType
    case IntegerItem => 1 case NumberItem => 2 case CheckItem => 3 case TextItem => 4
    case StringItem => 5 case FileItem => 6 case ColorItem => 7 case SelectItem => 8
    case SceneItem => 9 case RangeItem => 10 case ComboItem => 11 case MaskItem => 12
    case FontItem => 13 case FigureItem => 14 case DataItem => 15 case FolderItem => 16
    case UnknownItem(_) => 17
  }

  /** Reads the kind off its name's length and first three characters. */
  function CodeFromName(name: string): nat
    requires |name| >= 4
  {
    match name[0]
    case 'i' => 1
    case 'n' => 2
    case 't' => 4
    case 's' => if |name| == 5 then 9 else if name[1] == 't' then 5 else 8
    case 'r' => 10
    case 'm' => 12
    case 'd' => 15
    case 'c' => if name[1] == 'h' then 3 else if name[2] == 'l' then 7 else 11
    case 'f' => if name[1] == 'i' then (if |name| == 4 then 6 else 14) else if |name| == 4 then 13 else 16
    case _ => 17
  }

  lemma CodeOfName(itemType: EffectItemType)
    ensures |KindName(itemType)| >= 4 && CodeFromName(KindName(itemType)) == ItemTypeCode(itemType)
  {
    hide PrintInt;
  }

  /** Even an unknown kind with the number of a known one has a name of its own. */
  lemma KindNameInjective(a: EffectItemType, b: EffectItemType)
    requires KindName(a) == KindName(b)
    ensures a == b
  {
    CodeOfName(a);
    CodeOfName(b);
    if a.UnknownItem? && b.UnknownItem? {
      var prefix := "unknown(";
      Associates(prefix, PrintInt(a.raw), ")");
      Associates(prefix, PrintInt(b.raw), ")");
      Peel(prefix, prefix, PrintInt(a.raw) + ")", PrintInt(b.raw) + ")");
      Peel(PrintInt(a.raw), PrintInt(b.raw), ")", ")");
      PrintIntInjective(a.raw, b.raw);
    }
  }

  // ----- Injectivity -----

  lemma ItemPrefix(a: EffectItem, b: EffectItem, restA: seq<Field>, restB: seq<Field>)
    requires ItemFields(a) + restA == ItemFields(b) + restB
    ensures SameItem(a, b) && restA == restB
  {
    hide TextField, KindName, ItemValueFields, TrackInfoFields, SameItemValue, SameTrackInfo;
    var headA := [TextField("item_name", a.name), TextField("item_type", KindName(a.itemType))];
    var headB := [TextField("item_name", b.name), TextField("item_type", KindName(b.itemType))];
    Associates4(headA, ItemValueFields(a.value), TrackInfoFields(a.track), restA);
    Associates4(headB, ItemValueFields(b.value), TrackInfoFields(b.track), restB);
    Peel(headA, headB, ItemValueFields(a.value) + (TrackInfoFields(a.track) + restA),
         ItemValueFields(b.value) + (TrackInfoFields(b.track) + restB));
    assert headA[0] == headB[0] && headA[1] == headB[1];
    TextFieldInjective("item_name", a.name, b.name);
    TextFieldInjective("item_type", KindName(a.itemType), KindName(b.itemType));
    KindNameInjective(a.itemType, b.itemType);
    ItemValuePrefix(a.value, b.value, TrackInfoFields(a.track) + restA, TrackInfoFields(b.track) + restB);
    TrackInfoPrefix(a.track, b.track, restA, restB);
  }

  lemma {:induction false} ItemsInjective(a: seq<EffectItem>, b: seq<EffectItem>)
    requires |a| == |b| && ItemsFields(a) == ItemsFields(b)
    ensures SameItems(a, b)
  {
    hide ItemFields, SameItem;
    if a != [] {
      ItemPrefix(a[0], b[0], ItemsFields(a[1..]), ItemsFields(b[1..]));
      ItemsInjective(a[1..], b[1..]);
      forall i | 0 <= i < |a| ensures SameItem(a[i], b[i]) {
        if i > 0 {
          assert SameItem(a[1..][i - 1], b[1..][i - 1]);
        }
      }
    }
  }

  lemma HeaderInjective(a: EffectInput, b: EffectInput)
    requires HeaderFields(a) == HeaderFields(b)
    ensures |a.items| == |b.items| && a == b.(items := a.items)
  {
    hide TextField, CountField, BooleanField;
    var ha, hb := HeaderFields(a), HeaderFields(b);
    assert ha[1] == hb[1] && ha[2] == hb[2] && ha[3] == hb[3] && ha[4] == hb[4];
    assert ha[5] == hb[5] && ha[6] == hb[6] && ha[7] == hb[7];
    TextFieldInjective("effect_name", a.effectName, b.effectName);
    CountFieldInjective("effect_index", a.effectIndex, b.effectIndex);
    CountFieldInjective("position", a.position, b.position);
    CountFieldInjective("effect_count", a.effectCount, b.effectCount);
    BooleanFieldInjective("enabled", a.enabled, b.enabled);
    BooleanFieldInjective("locked", a.locked, b.locked);
    CountFieldInjective("item_count", |a.items|, |b.items|);
  }

  lemma HeaderCount(input: EffectInput)
    ensures |HeaderFields(input)| == 8
  {
  }

  /** Equal items write equal fields. */
  lemma SameItemFields(a: EffectItem, b: EffectItem)
    requires SameItem(a, b)
    ensures ItemFields(a) == ItemFields(b)
  {
    hide NumberFields, NumberField;
    SameValueFields(a.value, b.value);
    if a.track.Some? {
      NumberFieldsMeaning("track.param", a.track.value.params, b.track.value.params);
    }
  }

  lemma SameValueFields(a: ItemValue<F64>, b: ItemValue<F64>)
    requires SameItemValue(a, b)
    ensures ItemValueFields(a) == ItemValueFields(b)
  {
    hide NumberFields, NumberField;
    match (a, b) {
      case (NumberValue(x), NumberValue(y)) =>
        NumberFieldMeaning("item_value.number", x, y);
      case (TrackBarValue(x), TrackBarValue(y)) =>
        NumberFieldsMeaning("item_value.track.value", x.values, y.values);
        NumberFieldsMeaning("item_value.track.param", x.params, y.params);
      case _ =>
    }
  }

  lemma {:induction false} SameItemsFields(a: seq<EffectItem>, b: seq<EffectItem>)
    requires SameItems(a, b)
    ensures ItemsFields(a) == ItemsFields(b)
  {
    hide ItemFields, SameItem;
    if a != [] {
      SameItemFields(a[0], b[0]);
      SameItemsFields(a[1..], b[1..]);
    }
  }

  /** Two effects have the same canonical bytes exactly when they are equal, the two zeros being one number. */
  lemma EffectBytesInjective(a: EffectInput, b: EffectInput)
    requires Addressable(EffectFields(a)) && Addressable(EffectFields(b))
    ensures Serialize(EffectFields(a)) == Serialize(EffectFields(b)) <==> SameEffect(a, b)
  {
    hide HeaderFields, ItemsFields, Serialize, SameItems, Addressable;
    if Serialize(EffectFields(a)) == Serialize(EffectFields(b)) {
      SerializeInjective(EffectFields(a), EffectFields(b));
      HeaderCount(a);
      HeaderCount(b);
      Peel(HeaderFields(a), HeaderFields(b), ItemsFields(a.items), ItemsFields(b.items));
      HeaderInjective(a, b);
      ItemsInjective(a.items, b.items);
    }
    if SameEffect(a, b) {
      SameItemsFields(a.items, b.items);
      SameHeaders(a, b);
    }
  }

  lemma SameHeaders(a: EffectInput, b: EffectInput)
    requires SameEffect(a, b)
    ensures HeaderFields(a) == HeaderFields(b)
  {
    hide SameItem;
  }

  /** Two objects have the same canonical bytes exactly when they are equal. */
  lemma ObjectBytesInjective(a: ObjectInput, b: ObjectInput)
    requires Addressable(ObjectFields(a)) && Addressable(ObjectFields(b))
    ensures Serialize(ObjectFields(a)) == Serialize(ObjectFields(b)) <==> a == b
  {
    hide TextField, CountField, IntegerField, OptionalText, Serialize, Addressable;
    if Serialize(ObjectFields(a)) == Serialize(ObjectFields(b)) {
      SerializeInjective(ObjectFields(a), ObjectFields(b));
      var fa, fb := ObjectFields(a), ObjectFields(b);
      assert fa[1] == fb[1] && fa[2] == fb[2] && fa[3] == fb[3] && fa[4] == fb[4];
      IntegerFieldInjective("scene_id", a.sceneId, b.sceneId);
      CountFieldInjective("layer", a.layer, b.layer);
      CountFieldInjective("frame_start", a.frameStart, b.frameStart);
      CountFieldInjective("frame_end", a.frameEnd, b.frameEnd);
      assert fa[5..] == OptionalText("name", a.name) + [TextField("alias", a.alias)];
      assert fb[5..] == OptionalText("name", b.name) + [TextField("alias", b.alias)];
      OptionalTextPrefix("name", a.name, b.name, [TextField("alias", a.alias)], [TextField("alias", b.alias)]);
      assert [TextField("alias", a.alias)][0] == [TextField("alias", b.alias)][0];
      TextFieldInjective("alias", a.alias, b.alias);
    }
  }

  /** The bytes of an object are never the bytes of an effect. */
  lemma ObjectIsNeverEffect(obj: ObjectInput, effect: EffectInput)
    requires Addressable(ObjectFields(obj)) && Addressable(EffectFields(effect))
    ensures Serialize(ObjectFields(obj)) != Serialize(EffectFields(effect))
  {
    hide Serialize, Addressable, ItemsFields, ObjectFields, HeaderFields;
    SecondFields(obj, effect);
    assert EffectFields(effect)[1] == HeaderFields(effect)[1];
    if Serialize(ObjectFields(obj)) == Serialize(EffectFields(effect)) {
      SerializeInjective(ObjectFields(obj), EffectFields(effect));
    }
  }

  lemma SecondFields(obj: ObjectInput, effect: EffectInput)
    ensures |ObjectFields(obj)| >= 2 && |HeaderFields(effect)| >= 2
    ensures ObjectFields(obj)[1] != HeaderFields(effect)[1]
  {
    hide Utf8, PrintInt, PrintNat, OptionalText;
    var o, e := ObjectFields(obj)[1].name, HeaderFields(effect)[1].name;
    assert o == "scene_id" && e == "effect_name";
    assert |o| != |e|;
  }
}
