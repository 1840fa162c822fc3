/**
 The values that cross the bridge: item values with their track movements, the kinds of
 effect items, and the ways a write can be refused.

 `N` is the representation of a finite number: decimal text where values are printed and
 parsed, raw bits where they are fingerprinted.
 */
module DataModel {
  import opened MachineIntegers
  import opened Wrappers

  /** A track bar's value: one number per section boundary, and how to move between them. */
  datatype TrackValue<+N> = TrackValue(
    values: seq<N>,
    mode: Option<string>,
    params: seq<N>,
    accelerate: bool,
    decelerate: bool,
    twopoint: bool,
    reservedFlags: U32,
    expression: Option<string>
  )

  datatype Movement = Movement(name: string, writable: bool)

  /** What a track write needs to know of its target. */
  datatype TrackWriteTarget = TrackWriteTarget(sectionCount: nat, movements: seq<Movement>)

  datatype ItemValue<+N> =
    | NumberValue(number: N)
    | IntegerValue(integer: I64)
    | BoolValue(flag: bool)
    | ColorValue(color: string)
    | ChoiceValue(choice: string)
    | FileValue(file: string)
    | FolderValue(folder: string)
    | FontValue(font: string)
    | TextValue(text: string)
    | TrackBarValue(track: TrackValue<N>)
    | UnknownValue(raw: string)

  /** The discriminator an item value carries in JSON. */
  function KindOf<N>(value: ItemValue<N>): string {
    match value
    case NumberValue(_) => "number"
    case IntegerValue(_) => "integer"
    case BoolValue(_) => "bool"
    case ColorValue(_) => "color"
    case ChoiceValue(_) => "choice"
    case FileValue(_) => "file"
    case FolderValue(_) => "folder"
    case FontValue(_) => "font"
    case TextValue(_) => "text"
    case TrackBarValue(_) => "track"
    case UnknownValue(_) => "unknown"
  }

  datatype EffectItemType =
    | IntegerItem | NumberItem | CheckItem | TextItem | StringItem | FileItem | ColorItem | SelectItem
    | SceneItem | RangeItem | ComboItem | MaskItem | FontItem | FigureItem | DataItem | FolderItem
    | UnknownItem(raw: I32)

  datatype EvaluatedItemKind = EvaluatedTrack | EvaluatedCheck

  function EvaluatedKind(itemType: EffectItemType): Option<EvaluatedItemKind> {
    match itemType
    case IntegerItem | NumberItem => Some(EvaluatedTrack)
    case CheckItem => Some(EvaluatedCheck)
    case _ => None
  }

  datatype AvailableEffectItem = AvailableEffectItem(name: string, itemType: EffectItemType)

  // ----- Failures -----

  datatype TextSyntaxError =
    | EmptyText
    | ContainsNul
    | ContainsControl
    | ForbiddenCharacter
    | LoneCarriageReturn
    | UnescapedBackslash
    | TooLongBytes(bytes: nat, max: nat)

  datatype PathSyntaxError =
    | EmptyPath
    | PathContainsNul
    | PathTooLong(units: nat)
    | DeviceNamespace
    | AlternateDataStream
    | NotAbsolute
    | UncPath

  datatype TrackValueError =
    | ValueCount(expected: nat, actual: nat)
    | UnknownMode(known: seq<Movement>)
    | ModeNotWritable
    | ModeReadsAsNumber
    | MovementWithoutMode
    | FlagsNotRepresentable
    | ExpressionMissing

  datatype ItemWriteError =
    | UnknownValueRefused
    | ItemNotFound(item: string)
    | ValueKindMismatch(itemType: EffectItemType, valueKind: string)
    | UnsupportedItemType(unsupported: EffectItemType)
    | IntegerNotRepresentable
    | TextError(text: TextSyntaxError)
    | PathError(path: PathSyntaxError)
    | TrackError(track: TrackValueError)
}
