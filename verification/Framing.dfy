/**
 Frames on a byte stream: a little-endian 32-bit length, then that many bytes. The decoder takes the
 stream in pieces of any size; the one-shot parser below says what it must make of them.
 */
module Framing {
  import opened Wrappers
  import opened Bytes
  import opened MachineIntegers
  import opened Sequences

  const MAX_FRAME_SIZE: nat := 8 * 1024 * 1024

  datatype FrameError = PayloadTooLarge(length: nat) | EmptyPayload | IncompleteFrame

  datatype DecoderState = ReadingLength | ReadingBody(length: nat)

  // ----- The one-shot parser -----

  /** The complete frames of a stream, what is left of an incomplete one, and the header that stopped it. */
  datatype Parsed = Parsed(frames: seq<seq<byte>>, rest: seq<byte>, error: Option<FrameError>)

  function Header(s: seq<byte>): nat
    requires |s| >= 4
  {
    FromLittleEndian(s[..4])
  }

  function HeaderError(length: nat): Option<FrameError> {
    if length == 0 then Some(EmptyPayload)
    else if length > MAX_FRAME_SIZE then Some(PayloadTooLarge(length))
    else None
  }

  function Parse(s: seq<byte>): (p: Parsed)
    ensures p.error.Some? ==> p.rest == []
  {
    if |s| < 4 then Parsed([], s, None)
    else
      var length := Header(s);
      if HeaderError(length).Some? then Parsed([], [], HeaderError(length))
      else if |s| < 4 + length then Parsed([], s, None)
      else
        var p := Parse(s[4 + length..]);
        Parsed([s[4..4 + length]] + p.frames, p.rest, p.error)
  }

  /** The header is the first four bytes, the least significant first. */
  lemma HeaderBytes(s: seq<byte>)
    requires |s| >= 4
    ensures var b0: int, b1: int, b2: int, b3: int := s[0], s[1], s[2], s[3];
      Header(s) == b0 + 256 * b1 + 65536 * b2 + 16777216 * b3
  {
    var h := s[..4];
    assert h[1..][1..] == h[2..] && h[2..][1..] == h[3..] && h[3..][1..] == [];
    assert FromLittleEndian(h) == h[0] + 256 * FromLittleEndian(h[1..]);
    assert FromLittleEndian(h[2..]) == h[2] + 256 * FromLittleEndian(h[3..]);
    assert FromLittleEndian(h[3..]) == h[3] + 256 * FromLittleEndian([]);
  }

  /** What a stream that starts with the length `n` must be answered with: frames, held bytes and error. */
  ghost predicate Answers(n: nat, rest: seq<byte>, frames: seq<seq<byte>>, held: seq<byte>, r: Outcome<FrameError>) {
    if n == 0 then frames == [] && held == [] && r == Fail(EmptyPayload)
    else if n > 8388608 then frames == [] && held == [] && r == Fail(PayloadTooLarge(n))
    else if |rest| < n then frames == [] && held == LittleEndian(n, 4) + rest && r == Pass
    else frames != [] && frames[0] == rest[..n]
  }

  function OutcomeOf(error: Option<FrameError>): Outcome<FrameError> {
    if error.None? then Pass else Fail(error.value)
  }

  /**
   The length a stream starts with decides alone: zero and anything over 8 MiB stop the parse at that
   header, before any of the body is there; any other length waits for its body and goes on behind it.
   */
  lemma HeaderDecides(n: nat, rest: seq<byte>)
    requires n < 0x1_0000_0000
    ensures var p := Parse(LittleEndian(n, 4) + rest);
      && Answers(n, rest, p.frames, p.rest, OutcomeOf(p.error))
      && (1 <= n <= 8388608 && n <= |rest| ==>
            var q := Parse(rest[n..]); p == Parsed([rest[..n]] + q.frames, q.rest, q.error))
  {
    hide LittleEndian, FromLittleEndian;
    HeaderOfEncoded(n, rest);
    if n <= |rest| {
      assert rest == rest[..n] + rest[n..];
      Slices3(LittleEndian(n, 4), rest[..n], rest[n..]);
    }
    hide Header;
  }

  /** Less than a header is held as it is. */
  lemma ShortStream(s: seq<byte>)
    requires |s| < 4
    ensures Parse(s) == Parsed([], s, None)
  {
  }

  /** Bytes that neither complete a frame nor are refused: what a decoder can be holding. */
  predicate Incomplete(s: seq<byte>) {
    |s| < 4 || (HeaderError(Header(s)).None? && |s| < 4 + Header(s))
  }

  lemma {:induction false} ParseLeavesIncomplete(s: seq<byte>)
    ensures Incomplete(Parse(s).rest)
  {
    if !Incomplete(s) && HeaderError(Header(s)).None? {
      ParseLeavesIncomplete(s[4 + Header(s)..]);
    }
  }

  /** Parsing in two steps: what the first leaves over is prepended to the second. */
  lemma {:induction false} ParseSplit(a: seq<byte>, b: seq<byte>)
    ensures Parse(a).error.Some? ==> Parse(a + b) == Parse(a)
    ensures Parse(a).error.None? ==>
      var p := Parse(Parse(a).rest + b);
      Parse(a + b) == Parsed(Parse(a).frames + p.frames, p.rest, p.error)
  {
    hide HeaderError, FromLittleEndian;
    if |a| >= 4 {
      var length := Header(a);
      assert (a + b)[..4] == a[..4];
      if HeaderError(length).None? && |a| >= 4 + length {
        var later := a[4 + length..];
        ParseSplit(later, b);
        CutFrame(a, b, length);
        Associates([a[4..4 + length]], Parse(later).frames, Parse(Parse(later).rest + b).frames);
      }
    }
  }

  lemma CutFrame(a: seq<byte>, b: seq<byte>, length: nat)
    requires |a| >= 4 + length
    ensures (a + b)[4 + length..] == a[4 + length..] + b
    ensures (a + b)[4..4 + length] == a[4..4 + length]
  {
  }

  function Concat(chunks: seq<seq<byte>>): seq<byte>
    decreases |chunks|
  {
    if chunks == [] then [] else chunks[0] + Concat(chunks[1..])
  }

  /** Feeding chunks one after the other to a decoder that holds `partial`, stopping at the first error. */
  function FeedAll(partial: seq<byte>, chunks: seq<seq<byte>>): Parsed
    decreases |chunks|
  {
    if chunks == [] then Parsed([], partial, None)
    else
      var p := Parse(partial + chunks[0]);
      if p.error.Some? then p
      else
        var q := FeedAll(p.rest, chunks[1..]);
        Parsed(p.frames + q.frames, q.rest, q.error)
  }

  /** However a stream is cut into chunks, feeding them is parsing the stream at once. */
  lemma {:induction false} FeedAllIsParse(partial: seq<byte>, chunks: seq<seq<byte>>)
    requires Incomplete(partial)
    ensures FeedAll(partial, chunks) == Parse(partial + Concat(chunks))
    decreases |chunks|
  {
    hide Parse, Incomplete;
    if chunks == [] {
      assert partial + Concat(chunks) == partial;
      RemainingNothing([], partial);
      assert [] + Parse(partial).frames == Parse(partial).frames;
    } else {
      var first := partial + chunks[0];
      ParseSplit(first, Concat(chunks[1..]));
      assert partial + Concat(chunks) == first + Concat(chunks[1..]);
      if Parse(first).error.None? {
        ParseLeavesIncomplete(first);
        FeedAllIsParse(Parse(first).rest, chunks[1..]);
      }
    }
  }

  /** What a decoder with `queued` frames will have made of the bytes `s` once it has them all. */
  function Remaining(queued: seq<seq<byte>>, s: seq<byte>): Parsed {
    var p := Parse(s);
    Parsed(queued + p.frames, p.rest, p.error)
  }

  lemma QueueFrame(queued: seq<seq<byte>>, s: seq<byte>)
    requires |s| >= 4 && HeaderError(Header(s)).None? && |s| >= 4 + Header(s)
    ensures Remaining(queued, s) == Remaining(queued + [s[4..4 + Header(s)]], s[4 + Header(s)..])
  {
  }

  lemma RemainingNothing(queued: seq<seq<byte>>, s: seq<byte>)
    requires Incomplete(s)
    ensures Remaining(queued, s) == Parsed(queued, s, None)
  {
  }

  // ----- The decoder -----

  class FrameDecoder {
    var state: DecoderState
    const lengthBuffer: array<byte>
    var lengthFilled: nat
    var body: array<byte>
    var bodyFilled: nat
    var pending: seq<seq<byte>>

    ghost predicate Valid()
      reads this, lengthBuffer
    {
      && lengthBuffer.Length == 4 && lengthBuffer != body
      && match state
         case ReadingLength => lengthFilled < 4
         case ReadingBody(length) =>
           && lengthFilled == 4 && Header(lengthBuffer[..]) == length && HeaderError(length).None?
           && body.Length == length && bodyFilled < length
    }

    /** The bytes taken in since the last complete frame. */
    ghost function Partial(): (s: seq<byte>)
      requires Valid()
      reads this, lengthBuffer, body
      ensures Incomplete(s)
    {
      if state.ReadingLength? then lengthBuffer[..lengthFilled]
      else
        var s := lengthBuffer[..] + body[..bodyFilled];
        assert s[..4] == lengthBuffer[..] == lengthBuffer[..][..4];
        s
    }

    constructor ()
      ensures Valid() && Partial() == [] && pending == []
      ensures fresh(lengthBuffer) && fresh(body)
    {
      state := ReadingLength;
      lengthBuffer := new byte[4](_ => 0);
      lengthFilled := 0;
      body := new byte[0];
      bodyFilled := 0;
      pending := [];
    }

    /** How many bytes complete the unit being read. It is never zero. */
    function BytesNeeded(): (needed: nat)
      requires Valid()
      reads this, lengthBuffer, body
      ensures needed == Needed(Partial())
    {
      match state
      case ReadingLength => 4 - lengthFilled
      case ReadingBody(length) =>
        assert Header(Partial()) == length by {
          assert Partial()[..4] == lengthBuffer[..] == lengthBuffer[..][..4];
        }
        length - bodyFilled
    }

    method Reset()
      requires lengthBuffer.Length == 4
      modifies this, lengthBuffer
      ensures Valid() && Partial() == [] && pending == old(pending)
      ensures fresh(body)
    {
      state := ReadingLength;
      forall i | 0 <= i < 4 {
        lengthBuffer[i] := 0;
      }
      lengthFilled := 0;
      body := new byte[0];
      bodyFilled := 0;
    }

    /**
     Takes in a chunk: the frames it completes are queued, the rest is held, and a header that
     cannot start a frame is reported as soon as its fourth byte arrives.
     */
    method Feed(bytes: seq<byte>) returns (r: Outcome<FrameError>)
      requires Valid()
      modifies this, lengthBuffer, body
      ensures Valid() && (body == old(body) || fresh(body))
      ensures var p := Parse(old(Partial()) + bytes);
              && pending == old(pending) + p.frames
              && Partial() == p.rest
              && r == if p.error.None? then Pass else Fail(p.error.value)
    {
      hide Partial;
      var cursor := 0;
      ghost var whole := Remaining(pending, Partial() + bytes);
      assert bytes[0..] == bytes;
      while cursor < |bytes|
        invariant 0 <= cursor <= |bytes|
        invariant Valid() && (body == old(body) || fresh(body))
        invariant Remaining(pending, Partial() + bytes[cursor..]) == whole
      {
        ghost var s, queued := Partial() + bytes[cursor..], pending;
        if state.ReadingLength? {
          cursor, r := FillLength(bytes, cursor);
          if r.Fail? {
            assert Remaining(pending, s) == Parsed(pending, [], Some(r.error));
            return;
          }
        } else {
          cursor := FillBody(bytes, cursor);
          if |s| >= 4 + Header(s) {
            QueueFrame(queued, s);
            assert Partial() + bytes[cursor..] == bytes[cursor..];
          }
        }
      }
      assert Partial() + bytes[cursor..] == Partial();
      RemainingNothing(pending, Partial());
      return Pass;
    }

    /** One pass of the loop while the header is being read. */
    method FillLength(bytes: seq<byte>, start: nat) returns (cursor: nat, r: Outcome<FrameError>)
      requires Valid() && state.ReadingLength? && start < |bytes|
      modifies this, lengthBuffer
      ensures Valid() && (body == old(body) || fresh(body)) && pending == old(pending)
      ensures start < cursor <= |bytes|
      ensures var s := old(Partial()) + bytes[start..];
              match r
              case Pass => Partial() + bytes[cursor..] == s
              case Fail(error) => Partial() == [] && |s| >= 4 && HeaderError(Header(s)) == Some(error)
    {
      ghost var s := Partial() + bytes[start..];
      var need := 4 - lengthFilled;
      var take := if |bytes| - start < need then |bytes| - start else need;
      forall i | 0 <= i < take {
        lengthBuffer[lengthFilled + i] := bytes[start + i];
      }
      lengthFilled := lengthFilled + take;
      cursor := start + take;
      assert lengthBuffer[..lengthFilled] + bytes[cursor..] == s;
      if lengthFilled == 4 {
        var length := FromLittleEndian(lengthBuffer[..]);
        assert s[..4] == lengthBuffer[..] == lengthBuffer[..4];
        if length == 0 {
          Reset();
          return cursor, Fail(EmptyPayload);
        }
        if length > MAX_FRAME_SIZE {
          Reset();
          return cursor, Fail(PayloadTooLarge(length));
        }
        state := ReadingBody(length);
        body := new byte[length](_ => 0);
        bodyFilled := 0;
        assert lengthBuffer[..][..4] == lengthBuffer[..];
        assert lengthBuffer[..] + body[..0] == lengthBuffer[..4];
      }
      return cursor, Pass;
    }

    /** One pass of the loop while the body is being read. */
    method FillBody(bytes: seq<byte>, start: nat) returns (cursor: nat)
      requires Valid() && state.ReadingBody? && start < |bytes|
      modifies this, lengthBuffer, body
      ensures Valid() && (body == old(body) || fresh(body))
      ensures start < cursor <= |bytes|
      ensures var s := old(Partial()) + bytes[start..];
              && |s| >= 4 && HeaderError(Header(s)).None?
              && if |s| < 4 + Header(s) then pending == old(pending) && Partial() + bytes[cursor..] == s
              else
                && pending == old(pending) + [s[4..4 + Header(s)]]
                && Partial() == [] && bytes[cursor..] == s[4 + Header(s)..]
    {
      ghost var s := Partial() + bytes[start..];
      ghost var header := lengthBuffer[..];
      assert s[..4] == header == header[..4];
      var length := state.length;
      var need := length - bodyFilled;
      var take := if |bytes| - start < need then |bytes| - start else need;
      forall i | 0 <= i < take {
        body[bodyFilled + i] := bytes[start + i];
      }
      bodyFilled := bodyFilled + take;
      cursor := start + take;
      assert lengthBuffer[..] == header;
      assert header + body[..bodyFilled] + bytes[cursor..] == s;
      if bodyFilled == length {
        var frame := body[..];
        assert s[4..4 + length] == frame && s[4 + length..] == bytes[cursor..];
        pending := pending + [frame];
        Reset();
      }
    }

    method TakeFrame() returns (frame: Option<seq<byte>>)
      requires Valid()
      modifies this`pending
      ensures Valid() && Partial() == old(Partial())
      ensures old(pending) == [] ==> frame == None && pending == []
      ensures old(pending) != [] ==> frame == Some(old(pending)[0]) && pending == old(pending)[1..]
    {
      if pending == [] {
        return None;
      }
      frame := Some(pending[0]);
      pending := pending[1..];
    }

    /** The end of the stream is clean exactly when no frame is half read; either way nothing is held afterwards. */
    method End() returns (r: Outcome<FrameError>)
      requires Valid()
      modifies this, lengthBuffer
      ensures Valid() && Partial() == [] && pending == old(pending)
      ensures r == if old(Partial()) == [] then Pass else Fail(IncompleteFrame)
    {
      if state.ReadingLength? && lengthFilled == 0 {
        return Pass;
      }
      Reset();
      return Fail(IncompleteFrame);
    }
  }

  /** Feeds chunks one after the other, stopping at the first that is refused. */
  method FeedChunks(decoder: FrameDecoder, chunks: seq<seq<byte>>) returns (r: Outcome<FrameError>)
    requires decoder.Valid()
    modifies decoder, decoder.lengthBuffer, decoder.body
    ensures decoder.Valid() && (decoder.body == old(decoder.body) || fresh(decoder.body))
    ensures var p := Parse(old(decoder.Partial()) + Concat(chunks));
            && decoder.pending == old(decoder.pending) + p.frames
            && decoder.Partial() == p.rest
            && r == if p.error.None? then Pass else Fail(p.error.value)
    ensures forall n: nat, rest ::
      n < 0x1_0000_0000 && old(decoder.Partial()) + Concat(chunks) == LittleEndian(n, 4) + rest ==>
        Answers(n, rest, decoder.pending[|old(decoder.pending)|..], decoder.Partial(), r)
  {
    hide Parse, FrameDecoder.Partial, FrameDecoder.Valid, Answers;
    ghost var stream := decoder.Partial() + Concat(chunks);
    forall n: nat, rest | n < 0x1_0000_0000 && stream == LittleEndian(n, 4) + rest
      ensures Answers(n, rest, Parse(stream).frames, Parse(stream).rest, OutcomeOf(Parse(stream).error))
    {
      HeaderDecides(n, rest);
    }
    assert (decoder.pending + Parse(stream).frames)[|decoder.pending|..] == Parse(stream).frames;
    FeedAllIsParse(decoder.Partial(), chunks);
    ghost var whole, queued := FeedAll(decoder.Partial(), chunks), decoder.pending;
    assert chunks[0..] == chunks;
    for next := 0 to |chunks|
      invariant decoder.Valid() && (decoder.body == old(decoder.body) || fresh(decoder.body))
      invariant var p := FeedAll(decoder.Partial(), chunks[next..]);
        Parsed(decoder.pending + p.frames, p.rest, p.error) == Parsed(queued + whole.frames, whole.rest, whole.error)
    {
      ghost var held, before := decoder.Partial(), decoder.pending;
      r := decoder.Feed(chunks[next]);
      FeedNext(held, chunks, next, before);
      if r.Fail? {
        return;
      }
    }
    return Pass;
  }

  lemma FeedNext(held: seq<byte>, chunks: seq<seq<byte>>, next: nat, queued: seq<seq<byte>>)
    requires next < |chunks|
    ensures var p, now := FeedAll(held, chunks[next..]), Parse(held + chunks[next]);
      if now.error.Some? then p == now
      else
        var q := FeedAll(now.rest, chunks[next + 1..]);
        && queued + p.frames == queued + now.frames + q.frames
        && p.rest == q.rest && p.error == q.error
  {
    hide Parse;
    assert chunks[next..][1..] == chunks[next + 1..];
    var now := Parse(held + chunks[next]);
    Associates(queued, now.frames, FeedAll(now.rest, chunks[next + 1..]).frames);
  }

  /** The distance from held bytes to the end of the header or frame they belong to. */
  function Needed(partial: seq<byte>): (needed: nat)
    requires Incomplete(partial)
    ensures needed >= 1
  {
    if |partial| < 4 then 4 - |partial| else 4 + Header(partial) - |partial|
  }

  // ----- The encoder -----

  /** The length is cast to 32 bits before it is checked against the limit. */
  function EncodeFrame(body: seq<byte>): Result<seq<byte>, FrameError> {
    if body == [] then Err(EmptyPayload)
    else
      var length := |body| % U32_LIMIT;
      if length > MAX_FRAME_SIZE then Err(PayloadTooLarge(length)) else Ok(LittleEndian(length, 4) + body)
  }

  lemma HeaderOfEncoded(length: nat, rest: seq<byte>)
    requires length < U32_LIMIT
    ensures Header(LittleEndian(length, 4) + rest) == length
  {
    FitsIn32(length);
    LittleEndianInverse(length, 4);
    assert (LittleEndian(length, 4) + rest)[..4] == LittleEndian(length, 4);
  }

  lemma FrameLayout(body: seq<byte>, rest: seq<byte>)
    requires 1 <= |body| <= MAX_FRAME_SIZE
    ensures EncodeFrame(body).Ok?
    ensures var s := EncodeFrame(body).value + rest;
      && |s| == 4 + |body| + |rest| && Header(s) == |body|
      && s[4..4 + |body|] == body && s[4 + |body|..] == rest
  {
    HeaderOfEncoded(|body|, body + rest);
    FrameSlices(LittleEndian(|body|, 4), body, rest);
  }

  lemma FrameSlices(header: seq<byte>, body: seq<byte>, rest: seq<byte>)
    requires |header| == 4
    ensures var s := header + body + rest;
      s == header + (body + rest) && s[4..4 + |body|] == body && s[4 + |body|..] == rest
  {
  }

  /** A frame in front of any stream parses as its body, then the stream. */
  lemma ParseEncoded(body: seq<byte>, rest: seq<byte>)
    requires 1 <= |body| <= MAX_FRAME_SIZE
    ensures EncodeFrame(body).Ok?
    ensures var p := Parse(rest); Parse(EncodeFrame(body).value + rest) == Parsed([body] + p.frames, p.rest, p.error)
  {
    FrameLayout(body, rest);
  }

  /** The promised limits hold exactly where the cast does not bring an oversized length back under them. */
  lemma EncodeRefusesExactly(body: seq<byte>)
    ensures (EncodeFrame(body).Ok? <==> 1 <= |body| <= MAX_FRAME_SIZE)
       <==> |body| < U32_LIMIT || |body| % U32_LIMIT > MAX_FRAME_SIZE
  {
  }

  /** A frame the encoder lets through decodes to its body exactly when the cast kept the length. */
  lemma EncodedDecodes(body: seq<byte>)
    requires EncodeFrame(body).Ok?
    ensures Parse(EncodeFrame(body).value) == Parsed([body], [], None) <==> |body| < U32_LIMIT
  {
    var frame := EncodeFrame(body).value;
    if |body| < U32_LIMIT {
      ParseEncoded(body, []);
      assert frame + [] == frame;
    } else {
      HeaderOfEncoded(|body| % U32_LIMIT, body);
      if Parse(frame).frames != [] {
        assert |Parse(frame).frames[0]| == |body| % U32_LIMIT;
      }
    }
  }

  /** A body of 4 GiB is let through, though it is far over the limit, with a header that no decoder accepts. */
  lemma OversizedBodyIsEncoded() returns (body: seq<byte>)
    ensures |body| > MAX_FRAME_SIZE && EncodeFrame(body).Ok?
    ensures Parse(EncodeFrame(body).value).error == Some(EmptyPayload)
  {
    body := seq(U32_LIMIT, _ => 0);
    HeaderOfEncoded(0, body);
  }

  /** Bodies a well-behaved sender may frame. */
  predicate Sendable(bodies: seq<seq<byte>>) {
    forall i :: 0 <= i < |bodies| ==> 1 <= |bodies[i]| <= MAX_FRAME_SIZE
  }

  function EncodeAll(bodies: seq<seq<byte>>): seq<byte>
    requires Sendable(bodies)
    decreases |bodies|
  {
    if bodies == [] then [] else EncodeFrame(bodies[0]).value + EncodeAll(bodies[1..])
  }

  /** A stream of frames holds exactly the bodies it was made of. */
  lemma {:induction false} ParseEncodedAll(bodies: seq<seq<byte>>)
    requires Sendable(bodies)
    ensures Parse(EncodeAll(bodies)) == Parsed(bodies, [], None)
    decreases |bodies|
  {
    if bodies != [] {
      ParseEncodedAll(bodies[1..]);
      ParseEncoded(bodies[0], EncodeAll(bodies[1..]));
      assert bodies == [bodies[0]] + bodies[1..];
    }
  }

  // ----- Pull-driven reading -----

  /** Bytes up to what is needed either stay incomplete or end exactly at a unit's last byte. */
  lemma NeededBytes(partial: seq<byte>, chunk: seq<byte>)
    requires Incomplete(partial) && |chunk| <= Needed(partial)
    ensures var s := partial + chunk;
      if Incomplete(s) then Parse(s) == Parsed([], s, None)
      else if |partial| < 4 then
        |s| == 4 && HeaderError(Header(s)).Some? && Parse(s) == Parsed([], [], HeaderError(Header(s)))
      else |s| == 4 + Header(s) && Parse(s) == Parsed([s[4..]], [], None)
  {
    var s := partial + chunk;
    if |partial| >= 4 {
      assert s[..4] == partial[..4];
    }
    if |s| >= 4 && |s| == 4 + Header(s) {
      assert s[4 + Header(s)..] == [] && s[4..4 + Header(s)] == s[4..];
    }
  }

  /**
   Reads a stream of whole frames by asking the decoder how much it needs, at most `chunkLimit` bytes
   at a time. Every read makes progress and stays inside the stream, so the loop ends with every body
   delivered in order and nothing held.
   */
  method DrainStream(stream: seq<byte>, chunkLimit: nat) returns (frames: seq<seq<byte>>)
    requires chunkLimit >= 1
    requires Parse(stream).rest == [] && Parse(stream).error.None?
    ensures frames == Parse(stream).frames
  {
    hide Parse, FrameDecoder.Partial;
    var decoder := new FrameDecoder();
    var cursor := 0;
    frames := [];
    assert decoder.Partial() + stream[0..] == stream;
    while cursor < |stream|
      invariant 0 <= cursor <= |stream|
      invariant decoder.Valid() && fresh(decoder) && fresh(decoder.lengthBuffer) && fresh(decoder.body)
      invariant decoder.pending == []
      invariant Remaining(frames, decoder.Partial() + stream[cursor..]) == Parse(stream)
    {
      var needed := decoder.BytesNeeded();
      var take := if needed < chunkLimit then needed else chunkLimit;
      DrainStep(stream, frames, decoder.Partial(), cursor, take);
      var r := decoder.Feed(stream[cursor..cursor + take]);
      cursor := cursor + take;
      frames := TakeAll(decoder, frames);
    }
    assert decoder.Partial() + stream[cursor..] == decoder.Partial();
    RemainingNothing(frames, decoder.Partial());
    var r := decoder.End();
    assert r.Pass?;
  }

  /** Takes every queued frame. */
  method TakeAll(decoder: FrameDecoder, taken: seq<seq<byte>>) returns (frames: seq<seq<byte>>)
    requires decoder.Valid()
    modifies decoder`pending
    ensures decoder.Valid() && decoder.Partial() == old(decoder.Partial())
    ensures frames == taken + old(decoder.pending) && decoder.pending == []
  {
    frames := taken;
    while decoder.pending != []
      invariant decoder.Valid() && decoder.Partial() == old(decoder.Partial())
      invariant frames + decoder.pending == taken + old(decoder.pending)
      decreases |decoder.pending|
    {
      var frame := decoder.TakeFrame();
      frames := frames + [frame.value];
    }
  }

  /** One read of the loop: the bytes are there, they parse, and the rest of the stream is still to come. */
  lemma DrainStep(stream: seq<byte>, frames: seq<seq<byte>>, held: seq<byte>, from: nat, take: nat)
    requires Parse(stream).rest == [] && Parse(stream).error.None?
    requires Incomplete(held) && take <= Needed(held) && from < |stream|
    requires Remaining(frames, held + stream[from..]) == Parse(stream)
    ensures from + take <= |stream|
    ensures var p := Parse(held + stream[from..from + take]);
      p.error.None? && Remaining(frames + p.frames, p.rest + stream[from + take..]) == Parse(stream)
  {
    StreamHoldsNeeded(held, stream[from..]);
    RemainingCut(frames, held, stream, from, from + take);
  }

  /** Feeding the bytes from one position of a stream to another. */
  lemma RemainingCut(queued: seq<seq<byte>>, held: seq<byte>, stream: seq<byte>, from: nat, to: nat)
    requires from <= to <= |stream|
    requires Remaining(queued, held + stream[from..]).error.None?
    ensures var p := Parse(held + stream[from..to]);
      p.error.None? && Remaining(queued, held + stream[from..]) == Remaining(queued + p.frames, p.rest + stream[to..])
  {
    var a, b := held + stream[from..to], stream[to..];
    CutStream(held, stream, from, to);
    ParseSplit(a, b);
  }

  lemma CutStream(held: seq<byte>, stream: seq<byte>, from: nat, to: nat)
    requires from <= to <= |stream|
    ensures held + stream[from..] == held + stream[from..to] + stream[to..]
  {
  }

  /** Whole frames ahead mean that what completes the current unit is ahead too. */
  lemma StreamHoldsNeeded(held: seq<byte>, ahead: seq<byte>)
    requires Incomplete(held) && ahead != []
    requires Parse(held + ahead).rest == [] && Parse(held + ahead).error.None?
    ensures Needed(held) <= |ahead|
  {
    if |held| >= 4 {
      assert (held + ahead)[..4] == held[..4];
    }
  }

  datatype ReadOutcome = Frame(body: seq<byte>) | Closed | UnexpectedEof | Refused(error: FrameError)

  /** What the first frame of a stream is, read off its bytes. */
  function FirstFrame(s: seq<byte>): ReadOutcome {
    if s == [] then Closed
    else if |s| < 4 then UnexpectedEof
    else if HeaderError(Header(s)).Some? then Refused(HeaderError(Header(s)).value)
    else if |s| < 4 + Header(s) then UnexpectedEof
    else Frame(s[4..4 + Header(s)])
  }

  /** The first frame is the first the parser finds; without one, the stream is refused, closed or cut off. */
  lemma FirstFrameMeaning(s: seq<byte>)
    ensures var p := Parse(s);
      FirstFrame(s) ==
        if p.frames != [] then Frame(p.frames[0])
        else if p.error.Some? then Refused(p.error.value)
        else if s == [] then Closed
        else UnexpectedEof
  {
    hide FromLittleEndian;
  }

  /** After `n` bytes of a stream either its first frame is queued and `n` is its end, or everything read is held. */
  predicate ReadSoFar(stream: seq<byte>, n: nat, queued: seq<seq<byte>>, held: seq<byte>) {
    && n <= |stream|
    && if queued == [] then held == stream[..n]
       else n == 4 + |queued[0]| && FirstFrame(stream) == Frame(queued[0])
  }

  /** The connection's read loop: one frame, and not a byte of the next. */
  method ReadFrame(stream: seq<byte>, chunkLimit: nat) returns (outcome: ReadOutcome, consumed: nat)
    requires chunkLimit >= 1
    ensures consumed <= |stream|
    ensures outcome == FirstFrame(stream)
    ensures outcome.Frame? ==> consumed == 4 + |outcome.body|
  {
    hide Parse, FirstFrame, Needed, Incomplete, FrameDecoder.Partial;
    var decoder := new FrameDecoder();
    consumed := 0;
    while true
      invariant 0 <= consumed <= |stream|
      invariant decoder.Valid() && fresh(decoder) && fresh(decoder.lengthBuffer) && fresh(decoder.body)
      invariant ReadSoFar(stream, consumed, decoder.pending, decoder.Partial())
      decreases |stream| - consumed, if decoder.pending == [] then 1 else 0
    {
      var frame := decoder.TakeFrame();
      if frame.Some? {
        return Frame(frame.value), consumed;
      }
      var needed := decoder.BytesNeeded();
      var take := if needed < chunkLimit then needed else chunkLimit;
      if |stream| - consumed < take {
        outcome := AtEnd(decoder, stream, consumed);
        return;
      }
      NeededOfStream(stream, consumed, consumed + take);
      var r := decoder.Feed(stream[consumed..consumed + take]);
      consumed := consumed + take;
      if r.Fail? {
        return Refused(r.error), consumed;
      }
    }
  }

  /** The transport reports the end of the stream: cleanly only when the read got no byte at all. */
  method AtEnd(decoder: FrameDecoder, stream: seq<byte>, consumed: nat) returns (outcome: ReadOutcome)
    requires decoder.Valid() && consumed <= |stream| && decoder.Partial() == stream[..consumed]
    requires |stream| - consumed < Needed(decoder.Partial())
    modifies decoder, decoder.lengthBuffer
    ensures outcome == FirstFrame(stream) && !outcome.Frame?
  {
    EndsEarly(stream, consumed);
    if |stream| > consumed {
      return UnexpectedEof;
    }
    var ended := decoder.End();
    return if ended.Pass? then Closed else UnexpectedEof;
  }

  /** A read of at most the needed bytes leaves the unit incomplete, is refused, or ends with the first frame. */
  lemma NeededOfStream(stream: seq<byte>, from: nat, to: nat)
    requires from <= to <= |stream| && Incomplete(stream[..from]) && to - from <= Needed(stream[..from])
    ensures var p := Parse(stream[..from] + stream[from..to]);
      match p.error
      case None => ReadSoFar(stream, to, p.frames, p.rest)
      case Some(error) => p.frames == [] && FirstFrame(stream) == Refused(error)
  {
    var s := stream[..to];
    assert s == stream[..from] + stream[from..to];
    NeededBytes(stream[..from], stream[from..to]);
    if to >= 4 {
      assert s[..4] == stream[..4];
      if to == 4 + Header(s) {
        assert s[4..] == stream[4..to];
      }
    }
  }

  lemma EndsEarly(stream: seq<byte>, n: nat)
    requires n <= |stream| && Incomplete(stream[..n]) && |stream| - n < Needed(stream[..n])
    ensures FirstFrame(stream) == if stream == [] then Closed else UnexpectedEof
  {
    if n >= 4 {
      assert stream[..n][..4] == stream[..4];
    }
  }

  /** Reading a sent stream frame by frame yields its first body and leaves the rest of the stream. */
  lemma FirstFrameOfSent(bodies: seq<seq<byte>>)
    requires Sendable(bodies) && bodies != []
    ensures FirstFrame(EncodeAll(bodies)) == Frame(bodies[0])
    ensures EncodeAll(bodies)[4 + |bodies[0]|..] == EncodeAll(bodies[1..])
  {
    FrameLayout(bodies[0], EncodeAll(bodies[1..]));
  }
}
