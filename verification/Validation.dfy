/** Syntax rules for edit input that can be decided from the text alone. */
module Validation {
  import opened Wrappers
  import opened Strings
  import opened Bytes
  import opened DataModel

  const MAX_ITEM_VALUE_BYTES: nat := 8 * 1024
  const MAX_PATH_UTF16_UNITS: nat := 32767

  const NUL: char := '\0'

  predicate IsLayoutControl(c: char) {
    c in {'\n', '\r', '\t'}
  }

  function ValidateControlFree(text: string): Outcome<TextSyntaxError> {
    if NUL in text then Fail(ContainsNul)
    else if exists i :: 0 <= i < |text| && IsControl(text[i]) then Fail(ContainsControl)
    else Pass
  }

  function ValidateControlFreeExceptLayout(text: string): Outcome<TextSyntaxError> {
    if NUL in text then Fail(ContainsNul)
    else if exists i :: 0 <= i < |text| && IsControl(text[i]) && !IsLayoutControl(text[i]) then Fail(ContainsControl)
    else Pass
  }

  function LimitItemValueBytes(value: string): Outcome<TextSyntaxError> {
    var bytes := |Utf8(value)|;
    if bytes > MAX_ITEM_VALUE_BYTES then Fail(TooLongBytes(bytes, MAX_ITEM_VALUE_BYTES)) else Pass
  }

  function ValidateItemText(value: string): Outcome<TextSyntaxError> {
    var controls := ValidateControlFree(value);
    if controls.Fail? then controls else LimitItemValueBytes(value)
  }

  predicate LoneCarriageReturnAt(value: string, i: nat)
    requires i < |value|
  {
    value[i] == '\r' && (i + 1 == |value| || value[i + 1] != '\n')
  }

  predicate HasLoneCarriageReturn(value: string) {
    exists i :: 0 <= i < |value| && LoneCarriageReturnAt(value, i)
  }

  function ValidateMultilineItemText(value: string): Outcome<TextSyntaxError> {
    var controls := ValidateControlFreeExceptLayout(value);
    if controls.Fail? then controls
    else if HasLoneCarriageReturn(value) then Fail(LoneCarriageReturn)
    else Pass
  }

  /** The scan for a carriage return that no line feed follows. */
  method RejectLoneCarriageReturn(value: string) returns (r: Outcome<TextSyntaxError>)
    ensures r == if HasLoneCarriageReturn(value) then Fail(LoneCarriageReturn) else Pass
  {
    var next := 0;
    while next < |value|
      invariant 0 <= next <= |value|
      invariant forall i :: 0 <= i < next ==> !LoneCarriageReturnAt(value, i)
    {
      var c := value[next];
      next := next + 1;
      if c == '\r' && !(next < |value| && value[next] == '\n') {
        assert LoneCarriageReturnAt(value, next - 1);
        return Fail(LoneCarriageReturn);
      }
    }
    return Pass;
  }

  /** Read from the left, every backslash forms `\\` or `\n` with the character after it. */
  predicate PairedEscapes(value: string) {
    if value == "" then true
    else if value[0] != '\\' then PairedEscapes(value[1..])
    else |value| >= 2 && value[1] in {'n', '\\'} && PairedEscapes(value[2..])
  }

  method ValidateAliasTextEscapes(value: string) returns (r: Outcome<TextSyntaxError>)
    ensures r == if PairedEscapes(value) then Pass else Fail(UnescapedBackslash)
  {
    var next := 0;
    while next < |value|
      invariant 0 <= next <= |value|
      invariant PairedEscapes(value) == PairedEscapes(value[next..])
    {
      var c := value[next];
      assert value[next..][1..] == value[next + 1..];
      next := next + 1;
      if c != '\\' {
        continue;
      }
      if next < |value| && value[next] in {'n', '\\'} {
        assert value[next - 1..][2..] == value[next + 1..];
        next := next + 1;
      } else {
        return Fail(UnescapedBackslash);
      }
    }
    return Pass;
  }

  // ----- Paths -----

  function Utf16Units(s: string): nat {
    if s == "" then 0 else (if s[0] as int >= 0x1_0000 then 2 else 1) + Utf16Units(s[1..])
  }

  /** Characters past the sixteen-bit ones count twice. */
  lemma {:induction false} Utf16UnitsMeaning(a: string, c: char, b: string)
    ensures Utf16Units(a + [c] + b) == Utf16Units(a) + (if c as int > 65535 then 2 else 1) + Utf16Units(b)
  {
    var s := a + [c] + b;
    if a == "" {
      assert s[1..] == b;
    } else {
      assert s[1..] == a[1..] + [c] + b;
      Utf16UnitsMeaning(a[1..], c, b);
    }
  }

  predicate IsAsciiAlphabetic(c: char) {
    'A' <= c <= 'Z' || 'a' <= c <= 'z'
  }

  function UnifySeparators(path: string): string {
    seq(|path|, i requires 0 <= i < |path| => if path[i] == '/' then '\\' else path[i])
  }

  predicate IsDeviceNamespace(path: string) {
    "\\\\" <= path &&
    var rest := path[2..];
    rest in {".", "?"} || ".\\" <= rest || "?\\" <= rest
  }

  predicate HasStreamSeparator(path: string) {
    exists i :: 0 <= i < |path| && path[i] == ':' && !(i == 1 && IsAsciiAlphabetic(path[0]))
  }

  /** The paths that are accepted: a drive, a separator of either kind, and no colon but the drive's. */
  lemma PathMeaning(raw: string)
    ensures ValidatePath(raw).Pass? <==>
      && |raw| >= 3 && ('A' <= raw[0] <= 'Z' || 'a' <= raw[0] <= 'z') && raw[1] == ':' && raw[2] in {'\\', '/'}
      && (forall i :: 0 <= i < |raw| && i != 1 ==> raw[i] != ':')
      && '\0' !in raw && Utf16Units(raw) <= 32767
  {
    hide Utf16Units;
    var path := UnifySeparators(raw);
    StreamMeaning(raw);
    assert |raw| >= 3 ==> path[0] == (if raw[0] == '/' then '\\' else raw[0]);
    if IsDeviceNamespace(path) || "\\\\" <= path {
      assert path[0] == '\\';
    }
  }

  predicate Separator(c: char) {
    c in {'\\', '/'}
  }

  /** The reason a path is refused for, read off its characters, in the order the reasons are looked at. */
  lemma PathRefusals(raw: string)
    requires raw != "" && '\0' !in raw && Utf16Units(raw) <= 32767
    ensures var network := |raw| >= 2 && Separator(raw[0]) && Separator(raw[1]);
      var checked := ValidatePath(raw);
      if network && |raw| >= 3 && raw[2] in {'.', '?'} && (|raw| == 3 || Separator(raw[3])) then
        checked == Fail(DeviceNamespace)
      else if exists i :: 0 <= i < |raw| && raw[i] == ':' && !(i == 1 && IsAsciiAlphabetic(raw[0])) then
        checked == Fail(AlternateDataStream)
      else if network then checked == Fail(UncPath)
      else checked.Pass? || checked == Fail(NotAbsolute)
  {
    hide Utf16Units;
    var path := UnifySeparators(raw);
    DeviceMeaning(path);
    StreamMeaning(raw);
    forall i | 0 <= i < |raw| ensures path[i] == '\\' <==> Separator(raw[i]) {
    }
    if |raw| >= 2 && path[0] == '\\' && path[1] == '\\' {
      assert path == "\\\\" + path[2..];
    }
    hide IsDeviceNamespace, HasStreamSeparator;
  }

  lemma DeviceMeaning(path: string)
    ensures IsDeviceNamespace(path) <==>
      && |path| >= 3 && path[0] == '\\' && path[1] == '\\' && path[2] in {'.', '?'}
      && (|path| == 3 || path[3] == '\\')
  {
    if |path| >= 3 {
      var rest := path[2..];
      assert rest[0] == path[2];
      assert |path| == 3 ==> rest == [path[2]];
      assert |path| > 3 ==> rest[1] == path[3];
    }
  }

  lemma StreamMeaning(raw: string)
    ensures HasStreamSeparator(UnifySeparators(raw)) <==>
      exists i :: 0 <= i < |raw| && raw[i] == ':' && !(i == 1 && IsAsciiAlphabetic(raw[0]))
  {
    var path := UnifySeparators(raw);
    if i :| 0 <= i < |path| && path[i] == ':' && !(i == 1 && IsAsciiAlphabetic(path[0])) {
      assert raw[i] == ':';
    }
    if i :| 0 <= i < |raw| && raw[i] == ':' && !(i == 1 && IsAsciiAlphabetic(raw[0])) {
      assert path[i] == ':';
    }
  }

  function ValidatePath(raw: string): Outcome<PathSyntaxError> {
    if raw == "" then Fail(EmptyPath)
    else if NUL in raw then Fail(PathContainsNul)
    else if Utf16Units(raw) > MAX_PATH_UTF16_UNITS then Fail(PathTooLong(Utf16Units(raw)))
    else
      var path := UnifySeparators(raw);
      if IsDeviceNamespace(path) then Fail(DeviceNamespace)
      else if HasStreamSeparator(path) then Fail(AlternateDataStream)
      else if "\\\\" <= path then Fail(UncPath)
      else if |path| >= 3 && IsAsciiAlphabetic(path[0]) && path[1] == ':' && path[2] == '\\' then Pass
      else Fail(NotAbsolute)
  }
}
