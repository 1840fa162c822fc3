/**
 The host's escape notation for text items: a backslash and a line feed are each written as two
 characters, everything else stands for itself.
 */
module TextCodec {
  import opened Wrappers
  import opened Sequences
  import opened Strings
  import opened Bytes
  import opened DataModel
  import opened Validation

  function Escape(c: char): string {
    if c == '\\' then "\\\\" else if c == '\n' then "\\n" else [c]
  }

  function Encode(value: string): string {
    if value == "" then "" else Escape(value[0]) + Encode(value[1..])
  }

  /** Total: a backslash that starts no escape stays, with the character after it. */
  function Decode(raw: string): string {
    if raw == "" then ""
    else if raw[0] != '\\' then [raw[0]] + Decode(raw[1..])
    else if |raw| == 1 then raw
    else (if raw[1] == '\\' then "\\" else if raw[1] == 'n' then "\n" else raw[..2]) + Decode(raw[2..])
  }

  method EncodeHostText(value: string) returns (encoded: string)
    ensures encoded == Encode(value)
  {
    encoded := "";
    for next := 0 to |value|
      invariant encoded + Encode(value[next..]) == Encode(value)
    {
      var escape := match value[next] {
        case '\\' => "\\\\"
        case '\n' => "\\n"
        case c => [c]
      };
      assert value[next..][1..] == value[next + 1..];
      Associates(encoded, escape, Encode(value[next + 1..]));
      encoded := encoded + escape;
    }
    assert value[|value|..] == "";
  }

  /** What the decoder writes for the head of `raw`, and how much of `raw` that consumes. */
  function DecodeHead(raw: string): (head: (string, nat))
    requires raw != ""
    ensures 1 <= head.1 <= |raw|
    ensures Decode(raw) == head.0 + Decode(raw[head.1..])
  {
    if raw[0] != '\\' then ([raw[0]], 1)
    else if |raw| == 1 then (raw, 1)
    else (if raw[1] == '\\' then "\\" else if raw[1] == 'n' then "\n" else raw[..2], 2)
  }

  method DecodeHostText(raw: string) returns (decoded: string)
    ensures decoded == Decode(raw)
  {
    decoded := "";
    var next := 0;
    while next < |raw|
      invariant 0 <= next <= |raw|
      invariant decoded + Decode(raw[next..]) == Decode(raw)
    {
      ghost var rest := raw[next..];
      ghost var head := DecodeHead(rest);
      Associates(decoded, head.0, Decode(rest[head.1..]));
      assert rest[head.1..] == raw[next + head.1..];
      var c := raw[next];
      next := next + 1;
      if c != '\\' {
        decoded := decoded + [c];
        continue;
      }
      if next == |raw| {
        assert head.0 == "\\";
        decoded := decoded + "\\";
      } else {
        if raw[next] == '\\' {
          decoded := decoded + "\\";
        } else if raw[next] == 'n' {
          decoded := decoded + "\n";
        } else {
          assert head.0 == ['\\', raw[next]];
          decoded := decoded + ['\\', raw[next]];
        }
        next := next + 1;
      }
    }
    assert raw[next..] == "";
  }

  /** Decoding undoes encoding on every string. */
  lemma {:induction false} DecodeEncode(value: string)
    ensures Decode(Encode(value)) == value
  {
    if value != "" {
      DecodeEncode(value[1..]);
      var escape := Escape(value[0]);
      assert Encode(value)[|escape|..] == Encode(value[1..]);
      assert value == [value[0]] + value[1..];
    }
  }

  /** What the encoder writes never holds a line feed and pairs every escape. */
  lemma {:induction false} EncodedIsPaired(value: string)
    ensures '\n' !in Encode(value) && PairedEscapes(Encode(value))
  {
    if value != "" {
      EncodedIsPaired(value[1..]);
      assert Encode(value)[|Escape(value[0])|..] == Encode(value[1..]);
    }
  }

  lemma {:induction false} EncodeDecode(raw: string)
    requires '\n' !in raw && PairedEscapes(raw)
    ensures Encode(Decode(raw)) == raw
  {
    if raw != "" {
      var width := if raw[0] == '\\' then 2 else 1;
      EncodeDecode(raw[width..]);
      assert Decode(raw)[1..] == Decode(raw[width..]);
      assert raw == raw[..width] + raw[width..];
    }
  }

  /** The encoder's image is exactly what the independent validator accepts on one line. */
  lemma EncoderImage(raw: string)
    ensures (exists value :: Encode(value) == raw) <==> '\n' !in raw && PairedEscapes(raw)
    ensures (exists value :: Encode(value) == raw) <==> Encode(Decode(raw)) == raw
  {
    if '\n' !in raw && PairedEscapes(raw) {
      EncodeDecode(raw);
    }
    forall value | Encode(value) == raw
      ensures '\n' !in raw && PairedEscapes(raw)
    {
      EncodedIsPaired(value);
    }
  }

  // ----- What each notation means -----

  /** A backslash is doubled, a line feed is a backslash and an `n`, and everything else stands for itself. */
  lemma EncodeMeaning(c: char, rest: string)
    ensures Encode("") == ""
    ensures Encode("\\" + rest) == "\\\\" + Encode(rest)
    ensures Encode("\n" + rest) == "\\n" + Encode(rest)
    ensures c !in {'\\', '\n'} ==> Encode([c] + rest) == [c] + Encode(rest)
  {
    assert ("\\" + rest)[1..] == rest && ("\n" + rest)[1..] == rest && ([c] + rest)[1..] == rest;
  }

  /** The two escapes are undone, and a backslash before anything else stays with what follows it. */
  lemma DecodeMeaning(c: char, rest: string)
    ensures Decode("") == "" && Decode("\\") == "\\"
    ensures Decode("\\\\" + rest) == "\\" + Decode(rest)
    ensures Decode("\\n" + rest) == "\n" + Decode(rest)
    ensures c !in {'\\', 'n'} ==> Decode("\\" + [c] + rest) == "\\" + [c] + Decode(rest)
    ensures c != '\\' ==> Decode([c] + rest) == [c] + Decode(rest)
  {
    assert ("\\\\" + rest)[2..] == rest && ("\\n" + rest)[2..] == rest && ([c] + rest)[1..] == rest;
    var pair := "\\" + [c] + rest;
    assert pair[2..] == rest && pair[..2] == "\\" + [c];
  }

  // ----- The multi-line pipeline -----

  /** `replace("\r\n", "\n")`. */
  function UnifyLineEnds(value: string): string {
    if value == "" then ""
    else if "\r\n" <= value then "\n" + UnifyLineEnds(value[2..])
    else [value[0]] + UnifyLineEnds(value[1..])
  }

  /** Every CRLF becomes one line feed, wherever it stands, and nothing else changes. */
  lemma {:induction false} UnifyAt(before: string, after: string)
    ensures UnifyLineEnds(before + "\r\n" + after) == UnifyLineEnds(before) + "\n" + UnifyLineEnds(after)
  {
    var value := before + "\r\n" + after;
    if before == "" {
      assert value[2..] == after;
    } else {
      var width := if "\r\n" <= before then 2 else 1;
      assert value[width..] == before[width..] + "\r\n" + after;
      assert value[0] == before[0] && value[1] == (if |before| == 1 then '\r' else before[1]);
      UnifyAt(before[width..], after);
      var head := if width == 2 then "\n" else [before[0]];
      Associates4(head, UnifyLineEnds(before[width..]), "\n", UnifyLineEnds(after));
    }
  }

  lemma {:induction false} UnifyNothing(value: string)
    requires forall i :: 0 <= i < |value| - 1 ==> !(value[i] == '\r' && value[i + 1] == '\n')
    ensures UnifyLineEnds(value) == value
  {
    if value != "" {
      if |value| >= 2 {
        assert !(value[0] == '\r' && value[1] == '\n');
      }
      UnifyNothing(value[1..]);
      assert value == [value[0]] + value[1..];
    }
  }

  function EncodeMultilineText(value: string): Result<string, ItemWriteError> {
    match ValidateMultilineItemText(value)
    case Fail(error) => Err(TextError(error))
    case Pass =>
      var encoded := Encode(UnifyLineEnds(value));
      match LimitItemValueBytes(encoded)
      case Fail(error) => Err(TextError(error))
      case Pass => Ok(encoded)
  }

  /**
   Which texts are accepted: no control character but tabs and line ends, no return on its own, and no
   excess length.
   */
  lemma MultilineAccepted(value: string)
    ensures EncodeMultilineText(value).Ok? <==>
      && (forall i :: 0 <= i < |value| ==> IsControl(value[i]) ==> value[i] in {'\t', '\n', '\r'})
      && (forall i :: 0 <= i < |value| && value[i] == '\r' ==> i + 1 < |value| && value[i + 1] == '\n')
      && |Utf8(Encode(UnifyLineEnds(value)))| <= 8192
    ensures EncodeMultilineText(value).Ok? ==> EncodeMultilineText(value).value == Encode(UnifyLineEnds(value))
  {
    hide Encode, UnifyLineEnds, Utf8;
    if forall i :: 0 <= i < |value| && value[i] == '\r' ==> i + 1 < |value| && value[i + 1] == '\n' {
      assert !HasLoneCarriageReturn(value);
    } else {
      var i :| 0 <= i < |value| && value[i] == '\r' && !(i + 1 < |value| && value[i + 1] == '\n');
      assert LoneCarriageReturnAt(value, i);
    }
  }

  /** The characters of unified text come from the original; without lone returns none is a return. */
  lemma {:induction false} UnifiedChars(value: string)
    ensures forall c :: c in UnifyLineEnds(value) ==> c in value
    ensures !HasLoneCarriageReturn(value) ==> '\r' !in UnifyLineEnds(value)
  {
    if value != "" {
      var width := if "\r\n" <= value then 2 else 1;
      var rest := value[width..];
      UnifiedChars(rest);
      assert forall i :: 0 <= i < |rest| ==> rest[i] == value[width + i];
      assert forall c :: c in rest ==> c in value;
      assert width == 2 ==> value[1] == '\n';
      if i :| 0 <= i < |rest| && LoneCarriageReturnAt(rest, i) {
        assert LoneCarriageReturnAt(value, width + i);
      }
      assert width == 1 && value[0] == '\r' ==> LoneCarriageReturnAt(value, 0);
    }
  }

  lemma {:induction false} UnifiedIsStable(value: string)
    requires '\r' !in value
    ensures UnifyLineEnds(value) == value
  {
    if value != "" {
      UnifiedIsStable(value[1..]);
      assert value == [value[0]] + value[1..];
    }
  }

  lemma {:induction false} EncodedChars(value: string)
    ensures forall c :: c in Encode(value) ==> c in value || c in {'\\', 'n'}
  {
    if value != "" {
      EncodedChars(value[1..]);
    }
  }

  /**
   What reaches the host is a single line that decodes to the text with its line ends unified,
   and writing that text back produces the same line.
   */
  lemma MultilinePipeline(value: string, encoded: string)
    requires EncodeMultilineText(value) == Ok(encoded)
    ensures '\r' !in encoded && '\n' !in encoded && PairedEscapes(encoded)
    ensures Decode(encoded) == UnifyLineEnds(value)
    ensures EncodeMultilineText(Decode(encoded)) == Ok(encoded)
  {
    var unified := UnifyLineEnds(value);
    UnifiedChars(value);
    EncodedChars(unified);
    EncodedIsPaired(unified);
    DecodeEncode(unified);
    UnifiedIsStable(unified);
    assert !HasLoneCarriageReturn(unified);
    assert ValidateControlFreeExceptLayout(unified) == Pass by {
      forall i | 0 <= i < |unified| ensures !(IsControl(unified[i]) && !IsLayoutControl(unified[i])) {
        assert unified[i] in value;
      }
    }
  }
}
