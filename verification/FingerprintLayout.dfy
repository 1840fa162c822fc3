/**
 The canonical bytes read from the outside: a reader that cuts a stream back into its fields, and
 where in the stream of an object or an effect each part of it stands, under which name.
 */
module FingerprintLayout {
  import opened Bytes
  import opened DataModel
  import opened Fingerprint
  import opened MachineIntegers
  import opened Numerals
  import opened Sequences
  import opened Wrappers

  // ----- Cutting a stream into fields -----

  datatype RawField = RawField(name: seq<byte>, value: seq<byte>)

  /** A length of eight bytes and as many bytes as it says, then what follows them. */
  function CutPart(bytes: seq<byte>): (cut: Option<(seq<byte>, seq<byte>)>)
    ensures cut.Some? ==> |cut.value.1| < |bytes|
  {
    if |bytes| < 8 then None
    else
      var length := FromLittleEndian(bytes[..8]);
      if |bytes| < 8 + length then None else Some((bytes[8..8 + length], bytes[8 + length..]))
  }

  function CutFields(bytes: seq<byte>): Option<seq<RawField>>
    decreases |bytes|
  {
    if bytes == [] then Some([])
    else
      match CutPart(bytes)
      case None => None
      case Some(name) =>
        match CutPart(name.1)
        case None => None
        case Some(value) =>
          match CutFields(value.1)
          case None => None
          case Some(rest) => Some([RawField(name.0, value.0)] + rest)
  }

  function RawFields(fields: seq<Field>): seq<RawField> {
    if fields == [] then [] else [RawField(Utf8(fields[0].name), fields[0].value)] + RawFields(fields[1..])
  }

  lemma PartIsCut(part: seq<byte>, rest: seq<byte>)
    requires |part| < U64_LIMIT
    ensures CutPart(LittleEndian(|part|, 8) + (part + rest)) == Some((part, rest))
  {
    hide LittleEndian, FromLittleEndian, FitsIn;
    var prefix := LittleEndian(|part|, 8);
    var bytes := prefix + (part + rest);
    assert FromLittleEndian(prefix) == |part| by {
      FitsIn64(|part|);
      LittleEndianInverse(|part|, 8);
    }
    assert bytes[..8] == prefix && bytes[8..8 + |part|] == part && bytes[8 + |part|..] == rest by {
      Slices3(prefix, part, rest);
    }
    CutAt(bytes, |part|);
  }

  lemma CutAt(bytes: seq<byte>, length: nat)
    requires |bytes| >= 8 + length && FromLittleEndian(bytes[..8]) == length
    ensures CutPart(bytes) == Some((bytes[8..8 + length], bytes[8 + length..]))
  {
    hide FromLittleEndian;
  }

  /** A reader that knows only the lengths gets back every field, name and value, in order. */
  lemma {:induction false} CutSerialized(fields: seq<Field>)
    requires Addressable(fields)
    ensures CutFields(Serialize(fields)) == Some(RawFields(fields))
  {
    if fields != [] {
      var name, value, rest := Utf8(fields[0].name), fields[0].value, Serialize(fields[1..]);
      CutSerialized(fields[1..]);
      FieldStream(fields[0], rest);
      PartIsCut(name, LittleEndian(|value|, 8) + (value + rest));
      PartIsCut(value, rest);
      hide CutPart, LittleEndian, Utf8, FieldBytes;
    }
  }

  // ----- What the fields hold -----

  /** The field has this name and its value is this text. */
  predicate Holds(f: Field, name: string, text: string) {
    f.name == name && f.value == Utf8(text)
  }

  function Truth(b: bool): string {
    if b then "true" else "false"
  }

  /** The field has this name and its value is the eight bytes of the number, the zeros being one. */
  predicate HoldsNumber(f: Field, name: string, number: F64) {
    f.name == name && f.value == LittleEndian(if number == 0x8000_0000_0000_0000 then 0 else number, 8)
  }

  predicate HoldsNumbers(fields: seq<Field>, name: string, numbers: seq<F64>) {
    |fields| == |numbers| && forall i :: 0 <= i < |numbers| ==> HoldsNumber(fields[i], name, numbers[i])
  }

  /** A presence flag, and behind it the text if there is one. */
  predicate HoldsOptional(fields: seq<Field>, name: string, text: Option<string>) {
    && |fields| == (if text.Some? then 2 else 1)
    && Holds(fields[0], name + ".present", Truth(text.Some?))
    && (text.Some? ==> Holds(fields[1], name, text.value))
  }

  lemma OptionalLayout(name: string, text: Option<string>)
    ensures HoldsOptional(OptionalText(name, text), name, text)
  {
    hide Utf8;
  }

  lemma NumbersLayout(name: string, numbers: seq<F64>)
    ensures HoldsNumbers(NumberFields(name, numbers), name, numbers)
  {
    hide LittleEndian;
  }

  /** The stream of an object, field by field. */
  lemma ObjectLayout(input: ObjectInput)
    ensures var f := ObjectFields(input);
      var last := |f| - 1;
      && last == (if input.name.Some? then 7 else 6)
      && Holds(f[0], "algorithm", "sha256-raw-v1") && Holds(f[1], "scene_id", PrintInt(input.sceneId))
      && Holds(f[2], "layer", PrintNat(input.layer)) && Holds(f[3], "frame_start", PrintNat(input.frameStart))
      && Holds(f[4], "frame_end", PrintNat(input.frameEnd)) && HoldsOptional(f[5..last], "name", input.name)
      && Holds(f[last], "alias", input.alias)
  {
    hide Utf8, PrintInt, PrintNat, HoldsOptional;
    OptionalLayout("name", input.name);
    var f := ObjectFields(input);
    assert |OptionalText("name", input.name)| == |f| - 6;
    assert f[5..|f| - 1] == OptionalText("name", input.name);
  }

  /** The eight fields an effect's stream starts with. */
  lemma HeaderLayout(input: EffectInput)
    ensures var f := EffectFields(input);
      && |f| >= 8
      && Holds(f[0], "algorithm", "sha256-raw-v1") && Holds(f[1], "effect_name", input.effectName)
      && Holds(f[2], "effect_index", PrintNat(input.effectIndex)) && Holds(f[3], "position", PrintNat(input.position))
      && Holds(f[4], "effect_count", PrintNat(input.effectCount)) && Holds(f[5], "enabled", Truth(input.enabled))
      && Holds(f[6], "locked", Truth(input.locked)) && Holds(f[7], "item_count", PrintNat(|input.items|))
      && f[8..] == ItemsFields(input.items)
  {
    hide Utf8, PrintNat, ItemsFields;
    HeaderCount(input);
    assert EffectFields(input)[..8] == HeaderFields(input);
  }

  /** Items stand one behind the other, in their order. */
  lemma {:induction false} ItemsLayout(items: seq<EffectItem>, more: seq<EffectItem>)
    ensures ItemsFields(items + more) == ItemsFields(items) + ItemsFields(more)
    ensures forall item :: ItemsFields([item]) == ItemFields(item)
  {
    hide ItemFields;
    if items == [] {
      assert items + more == more;
    } else {
      assert (items + more)[1..] == items[1..] + more;
      ItemsLayout(items[1..], more);
    }
    forall item ensures ItemsFields([item]) == ItemFields(item) {
      assert [item][1..] == [] && ItemFields(item) + [] == ItemFields(item);
    }
  }

  /** The fields of one item: its name, its type, the kind of its value, the value, and the track information. */
  lemma ItemLayout(item: EffectItem)
    ensures var f := ItemFields(item);
      var end := |PayloadFields(item.value)| + 3;
      && end <= |f|
      && Holds(f[0], "item_name", item.name) && Holds(f[1], "item_type", KindName(item.itemType))
      && Holds(f[2], "item_value.kind", KindOf(item.value))
      && f[3..end] == PayloadFields(item.value) && f[end..] == TrackInfoFields(item.track)
  {
    hide Utf8, KindName, KindOf, PayloadFields, TrackInfoFields;
    var head := [TextField("item_name", item.name), TextField("item_type", KindName(item.itemType))];
    var kind := [TextField("item_value.kind", KindOf(item.value))];
    var f := ItemFields(item);
    assert f == head + (kind + PayloadFields(item.value)) + TrackInfoFields(item.track);
    assert f[2] == kind[0];
  }

  /** The value of an item that is no track is one field. */
  lemma ScalarLayout(value: ItemValue<F64>)
    requires !value.TrackBarValue?
    ensures var f := PayloadFields(value);
      && |f| == 1
      && match value
         case NumberValue(number) => HoldsNumber(f[0], "item_value.number", number)
         case IntegerValue(integer) => Holds(f[0], "item_value.integer", PrintInt(integer))
         case BoolValue(flag) => Holds(f[0], "item_value.bool", Truth(flag))
         case ColorValue(color) => Holds(f[0], "item_value.color", color)
         case ChoiceValue(choice) => Holds(f[0], "item_value.choice", choice)
         case FileValue(file) => Holds(f[0], "item_value.file", file)
         case FolderValue(folder) => Holds(f[0], "item_value.folder", folder)
         case FontValue(font) => Holds(f[0], "item_value.font", font)
         case TextValue(text) => Holds(f[0], "item_value.text", text)
         case UnknownValue(raw) => Holds(f[0], "item_value.unknown", raw)
  {
    hide Utf8, PrintInt, LittleEndian;
  }

  /** The kind written ahead of a value is the name its fields go by. */
  lemma KindNamesPayload(value: ItemValue<F64>)
    ensures if value.TrackBarValue? then "item_value." + KindOf(value) + ".value_count" == PayloadFields(value)[0].name
            else "item_value." + KindOf(value) == PayloadFields(value)[0].name
  {
    hide Utf8, PrintInt, PrintNat, LittleEndian, NumberFields, OptionalText, TrackFlagFields;
    match value {
      case NumberValue(_) => assert "item_value." + "number" == "item_value.number";
      case IntegerValue(_) => assert "item_value." + "integer" == "item_value.integer";
      case BoolValue(_) => assert "item_value." + "bool" == "item_value.bool";
      case ColorValue(_) => assert "item_value." + "color" == "item_value.color";
      case ChoiceValue(_) => assert "item_value." + "choice" == "item_value.choice";
      case FileValue(_) => assert "item_value." + "file" == "item_value.file";
      case FolderValue(_) => assert "item_value." + "folder" == "item_value.folder";
      case FontValue(_) => assert "item_value." + "font" == "item_value.font";
      case TextValue(_) => assert "item_value." + "text" == "item_value.text";
      case TrackBarValue(_) => assert "item_value." + "track" + ".value_count" == "item_value.track.value_count";
      case UnknownValue(_) => assert "item_value." + "unknown" == "item_value.unknown";
    }
  }

  /** The fields of a track: values, mode, parameters, four flags and the expression. */
  lemma TrackLayout(track: TrackValue<F64>)
    ensures var f := TrackFields(track);
      var mode := |track.values| + 1;
      var params := mode + if track.mode.Some? then 2 else 1;
      var flags := params + |track.params| + 1;
      && |f| == flags + 4 + (if track.expression.Some? then 2 else 1)
      && Holds(f[0], "item_value.track.value_count", PrintNat(|track.values|))
      && HoldsNumbers(f[1..mode], "item_value.track.value", track.values)
      && HoldsOptional(f[mode..params], "item_value.track.mode", track.mode)
      && Holds(f[params], "item_value.track.param_count", PrintNat(|track.params|))
      && HoldsNumbers(f[params + 1..flags], "item_value.track.param", track.params)
      && Holds(f[flags], "item_value.track.accelerate", Truth(track.accelerate))
      && Holds(f[flags + 1], "item_value.track.decelerate", Truth(track.decelerate))
      && Holds(f[flags + 2], "item_value.track.twopoint", Truth(track.twopoint))
      && Holds(f[flags + 3], "item_value.track.reserved_flags", PrintInt(track.reservedFlags))
      && HoldsOptional(f[flags + 4..], "item_value.track.expression", track.expression)
  {
    hide Utf8, PrintInt, PrintNat, HoldsOptional, HoldsNumbers, NumberFields, OptionalText, TrackFlagFields;
    var values := NumberFields("item_value.track.value", track.values);
    var modeText := OptionalText("item_value.track.mode", track.mode);
    var numbers := NumberFields("item_value.track.param", track.params);
    var flagFields := TrackFlagFields(track);
    var expression := OptionalText("item_value.track.expression", track.expression);
    NumbersLayout("item_value.track.value", track.values);
    OptionalLayout("item_value.track.mode", track.mode);
    NumbersLayout("item_value.track.param", track.params);
    OptionalLayout("item_value.track.expression", track.expression);
    OptionalCount("item_value.track.mode", track.mode);
    OptionalCount("item_value.track.expression", track.expression);
    FlagsLayout(track);
    var first := CountField("item_value.track.value_count", |values|);
    var second := CountField("item_value.track.param_count", |numbers|);
    Slices(first, values, modeText, second, numbers, flagFields, expression);
    assert TrackFields(track) == ([first] + values) + modeText + ([second] + numbers) + flagFields + expression;
  }

  lemma OptionalCount(name: string, text: Option<string>)
    ensures |OptionalText(name, text)| == if text.Some? then 2 else 1
  {
  }

  lemma FlagsLayout(track: TrackValue<F64>)
    ensures var f := TrackFlagFields(track);
      && |f| == 4
      && Holds(f[0], "item_value.track.accelerate", Truth(track.accelerate))
      && Holds(f[1], "item_value.track.decelerate", Truth(track.decelerate))
      && Holds(f[2], "item_value.track.twopoint", Truth(track.twopoint))
      && Holds(f[3], "item_value.track.reserved_flags", PrintInt(track.reservedFlags))
  {
    hide Utf8, PrintInt;
  }

  /** Where the parts of such a sum stand. */
  lemma Slices<T>(a: T, b: seq<T>, c: seq<T>, d: T, e: seq<T>, f: seq<T>, g: seq<T>)
    ensures var s := ([a] + b) + c + ([d] + e) + f + g;
      var i := |b| + 1;
      var j := i + |c|;
      var k := j + |e| + 1;
      && |s| == k + |f| + |g|
      && s[0] == a && s[1..i] == b && s[i..j] == c && s[j] == d && s[j + 1..k] == e
      && s[k..k + |f|] == f && s[k + |f|..] == g && (forall n :: 0 <= n < |f| ==> s[k + n] == f[n])
  {
  }

  /** The fields of the track information: nothing but a flag when there is none. */
  lemma TrackInfoLayout(track: Option<TrackInfo>)
    ensures var f := TrackInfoFields(track);
      && f != [] && Holds(f[0], "track.present", Truth(track.Some?))
      && (track.None? ==> |f| == 1)
      && (track.Some? ==>
            var info := track.value;
            var flags := |info.params| + 3;
            && |f| == flags + 6 + (if info.groupName.Some? then 2 else 1)
            && Holds(f[1], "track.mode", info.mode)
            && Holds(f[2], "track.param_count", PrintNat(|info.params|))
            && HoldsNumbers(f[3..flags], "track.param", info.params)
            && Holds(f[flags], "track.accelerate", Truth(info.accelerate))
            && Holds(f[flags + 1], "track.decelerate", Truth(info.decelerate))
            && Holds(f[flags + 2], "track.twopoint", Truth(info.twopoint))
            && Holds(f[flags + 3], "track.timecontrol", Truth(info.timecontrol))
            && Holds(f[flags + 4], "track.group_num", PrintNat(info.groupNum))
            && Holds(f[flags + 5], "track.group_index", PrintNat(info.groupIndex))
            && HoldsOptional(f[flags + 6..], "track.group_name", info.groupName))
  {
    hide Utf8, PrintInt, PrintNat, HoldsOptional, HoldsNumbers, NumberFields, OptionalText, TrackInfoFlagFields;
    if track.Some? {
      var info := track.value;
      var present, mode := BooleanField("track.present", true), TextField("track.mode", info.mode);
      var count := CountField("track.param_count", |info.params|);
      var numbers := NumberFields("track.param", info.params);
      var flagFields := TrackInfoFlagFields(info);
      var name := OptionalText("track.group_name", info.groupName);
      assert Holds(present, "track.present", "true") && Holds(mode, "track.mode", info.mode);
      assert Holds(count, "track.param_count", PrintNat(|info.params|));
      hide Holds;
      NumbersLayout("track.param", info.params);
      OptionalLayout("track.group_name", info.groupName);
      OptionalCount("track.group_name", info.groupName);
      InfoFlagsLayout(info);
      hide TextField, CountField, BooleanField;
      InfoSlices(present, mode, count, numbers, flagFields, name);
      assert TrackInfoFields(track) == [present] + ([mode] + ([count] + numbers) + flagFields + name);
    }
  }

  lemma InfoSlices<T>(a: T, b: T, c: T, d: seq<T>, e: seq<T>, f: seq<T>)
    ensures var s := [a] + ([b] + ([c] + d) + e + f);
      var i := |d| + 3;
      && |s| == i + |e| + |f|
      && s[0] == a && s[1] == b && s[2] == c && s[3..i] == d && s[i + |e|..] == f
      && (forall n :: 0 <= n < |e| ==> s[i + n] == e[n])
  {
  }

  lemma InfoFlagsLayout(info: TrackInfo)
    ensures var f := TrackInfoFlagFields(info);
      && |f| == 6
      && Holds(f[0], "track.accelerate", Truth(info.accelerate))
      && Holds(f[1], "track.decelerate", Truth(info.decelerate))
      && Holds(f[2], "track.twopoint", Truth(info.twopoint))
      && Holds(f[3], "track.timecontrol", Truth(info.timecontrol))
      && Holds(f[4], "track.group_num", PrintNat(info.groupNum))
      && Holds(f[5], "track.group_index", PrintNat(info.groupIndex))
  {
    hide Utf8, PrintNat;
  }

  // ----- The names of item types -----

  /** The type a name stands for where the names are read back; unknown types are not named alone. */
  function TypeFromName(name: string): Option<EffectItemType> {
    match name
    case "integer" => Some(IntegerItem)
    case "number" => Some(NumberItem)
    case "check" => Some(CheckItem)
    case "text" => Some(TextItem)
    case "string" => Some(StringItem)
    case "file" => Some(FileItem)
    case "color" => Some(ColorItem)
    case "select" => Some(SelectItem)
    case "scene" => Some(SceneItem)
    case "range" => Some(RangeItem)
    case "combo" => Some(ComboItem)
    case "mask" => Some(MaskItem)
    case "font" => Some(FontItem)
    case "figure" => Some(FigureItem)
    case "data" => Some(DataItem)
    case "folder" => Some(FolderItem)
    case _ => None
  }

  /** The name a type is fingerprinted by is the one it is read back from. */
  lemma NamesReadBack(itemType: EffectItemType)
    ensures TypeFromName(KindName(itemType)) == if itemType.UnknownItem? then None else Some(itemType)
  {
    if itemType.UnknownItem? {
      var name := KindName(itemType);
      assert name[|name| - 1] == ')' && |name| >= 9;
    }
    hide PrintInt;
  }
}
