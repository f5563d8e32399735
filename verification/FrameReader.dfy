/**
 `read_frames` of crates/pandar-bambu-source/src/reader.rs: length-prefixed JPEG frames
 over a socket that may split its bytes across reads in any way.
*/
module FrameReader {
  import opened Basics
  import opened JpegHeader

  const MAX_FRAME_BYTES := 10 * 1024 * 1024
  const LENGTH_BYTES := 4

  type Frame = seq<byte>

  /** How the byte stream ends after its last byte. */
  datatype Ending = PeerClosed | ReadError

  datatype Failure = ReadingLength | ReadingBody | InvalidFrameLength(length: nat) | InvalidJpeg

  datatype Terminal = Eof | Failed(failure: Failure)

  // ----- The meaning of a byte stream -----

  datatype Decoded = Decoded(frames: seq<Frame>, terminal: Terminal)

  function LittleEndian(s: seq<byte>): nat
    requires |s| == LENGTH_BYTES
  {
    s[0] as int + 256 * (s[1] as int + 256 * (s[2] as int + 256 * s[3] as int))
  }

  datatype Next = Finished(terminal: Terminal) | NextFrame(frame: Frame, rest: seq<byte>)

  /** The first frame of a stream and what follows it, or how reading ends. */
  function FirstFrame(data: seq<byte>, ending: Ending): (next: Next)
    ensures next.NextFrame? ==> |next.rest| < |data|
  {
    if data == [] then Finished(if ending.PeerClosed? then Eof else Failed(ReadingLength))
    else if |data| < LENGTH_BYTES then Finished(Failed(ReadingLength))
    else
      var length := LittleEndian(data[..LENGTH_BYTES]);
      var body := data[LENGTH_BYTES..];
      if length == 0 || length > MAX_FRAME_BYTES then Finished(Failed(InvalidFrameLength(length)))
      else if |body| < length then Finished(Failed(ReadingBody))
      else if Dimensions(body[..length]).None? then Finished(Failed(InvalidJpeg))
      else NextFrame(body[..length], body[length..])
  }

  /** The frames a stream carries and how reading it ends. */
  function Decode(data: seq<byte>, ending: Ending): Decoded
    decreases |data|
  {
    match FirstFrame(data, ending)
    case Finished(terminal) => Decoded([], terminal)
    case NextFrame(frame, rest) => Cons(frame, Decode(rest, ending))
  }

  function Cons(frame: Frame, d: Decoded): Decoded {
    Decoded([frame] + d.frames, d.terminal)
  }

  // ----- The socket -----

  /** Copies one read behind what the buffer already holds. */
  method Fill(buffer: array<byte>, from: nat, filled: nat, chunk: seq<byte>)
    requires from <= filled && filled + |chunk| <= buffer.Length
    modifies buffer
    ensures buffer[..from] == old(buffer[..from])
    ensures buffer[from..filled + |chunk|] == old(buffer[from..filled]) + chunk
  {
    forall i | 0 <= i < |chunk| {
      buffer[filled + i] := chunk[i];
    }
  }

  class Connection {
    var rest: seq<byte>
    const ending: Ending

    constructor (data: seq<byte>, ending: Ending)
      ensures rest == data && this.ending == ending
    {
      rest := data;
      this.ending := ending;
    }

    /** One `read`: some non-empty prefix of what is left, however short; nothing at the end. */
    method Read(limit: nat) returns (got: Option<seq<byte>>)
      requires limit > 0
      modifies this
      ensures old(rest) == [] ==> rest == [] && got == if ending.PeerClosed? then Some([]) else None
      ensures old(rest) != [] ==>
                got.Some? && 1 <= |got.value| <= limit && old(rest) == got.value + rest
    {
      if rest == [] {
        got := if ending.PeerClosed? then Some([]) else None;
      } else {
        var k :| 1 <= k <= |rest| && k <= limit;
        got := Some(rest[..k]);
        rest := rest[k..];
      }
    }

    /** `read_exact` into the buffer from position `from`: all of it, or an error. */
    method ReadExact(buffer: array<byte>, from: nat) returns (ok: bool)
      requires from <= buffer.Length
      modifies this, buffer
      ensures ok <==> |old(rest)| >= buffer.Length - from
      ensures ok ==> buffer[..from] == old(buffer[..from])
      ensures ok ==> old(rest) == buffer[from..] + rest
    {
      var filled := from;
      while filled < buffer.Length
        invariant from <= filled <= buffer.Length
        invariant buffer[..from] == old(buffer[..from])
        invariant old(rest) == buffer[from..filled] + rest
        decreases buffer.Length - filled
      {
        var got := Read(buffer.Length - filled);
        if got.None? || got.value == [] {
          return false;
        }
        Fill(buffer, from, filled, got.value);
        filled := filled + |got.value|;
      }
      assert buffer[from..filled] == buffer[from..];
      return true;
    }

    /** `read_frame_length`: four bytes, a clean end before the first of them, or an error. */
    method ReadFrameLength() returns (r: Result<Option<seq<byte>>, ()>)
      modifies this
      ensures old(rest) == [] && ending.PeerClosed? ==> r == Ok(None)
      ensures old(rest) == [] && ending.ReadError? ==> r.Err?
      ensures 0 < |old(rest)| < LENGTH_BYTES ==> r.Err?
      ensures |old(rest)| >= LENGTH_BYTES ==>
                r == Ok(Some(old(rest)[..LENGTH_BYTES])) && rest == old(rest)[LENGTH_BYTES..]
    {
      var buffer := new byte[LENGTH_BYTES](_ => 0);
      var got := Read(LENGTH_BYTES);
      if got.None? {
        return Err(());
      }
      var first := got.value;
      if first == [] {
        return Ok(None);
      }
      Fill(buffer, 0, 0, first);
      assert buffer[0..|first|] == buffer[..|first|] == first;
      var ok := ReadExact(buffer, |first|);
      if !ok {
        return Err(());
      }
      assert buffer[..] == buffer[..|first|] + buffer[|first|..];
      assert old(rest) == buffer[..] + rest;
      return Ok(Some(buffer[..]));
    }

    /** One turn of `read_frames` up to the queue: the first frame of what is left, or the end. */
    method ReadFrame() returns (next: Next, size: Option<Size>)
      modifies this
      ensures next == FirstFrame(old(rest), ending)
      ensures next.NextFrame? ==> rest == next.rest && size == Dimensions(next.frame)
    {
      size := None;
      var prefix := ReadFrameLength();
      if prefix.Err? {
        return Finished(Failed(ReadingLength)), None;
      }
      if prefix.value.None? {
        return Finished(Eof), None;
      }
      var length := LittleEndian(prefix.value.value);
      if length == 0 || length > MAX_FRAME_BYTES {
        return Finished(Failed(InvalidFrameLength(length))), None;
      }
      ghost var body := rest;
      var buffer := new byte[length](_ => 0);
      var ok := ReadExact(buffer, 0);
      if !ok {
        return Finished(Failed(ReadingBody)), None;
      }
      var frame := buffer[..];
      assert body == frame + rest;
      assert body[..length] == frame && body[length..] == rest;
      size := JpegDimensions(frame);
      if size.None? {
        return Finished(Failed(InvalidJpeg)), None;
      }
      return NextFrame(frame, rest), size;
    }
  }

  /** What `try_send` on the frame queue can answer. */
  datatype Sent = Queued | Full | Disconnected

  /**
   The sending side of the frame queue. The consumer may drain the queue or hang up at any
   time, so `answers` gives any answer to each offer; `offered` lists the offers.
  */
  class FrameSink {
    const answers: nat -> Sent
    var offered: seq<Frame>
    var dimensions: Option<Size>

    constructor (answers: nat -> Sent)
      ensures this.answers == answers && offered == [] && dimensions == None
    {
      this.answers := answers;
      offered, dimensions := [], None;
    }

    method TrySend(frame: Frame) returns (sent: Sent)
      modifies `offered
      ensures offered == old(offered) + [frame]
      ensures sent == answers(|old(offered)|)
    {
      sent := answers(|offered|);
      offered := offered + [frame];
    }
  }

  /** None of the first `n` offers was answered by a hang-up. */
  ghost predicate AllTaken(answers: nat -> Sent, n: nat) {
    forall i: nat | i < n :: !answers(i).Disconnected?
  }

  function Append(frames: seq<Frame>, d: Decoded): Decoded {
    Decoded(frames + d.frames, d.terminal)
  }

  ghost predicate LastPublished(offered: seq<Frame>, dimensions: Option<Size>) {
    offered != [] ==> dimensions == Dimensions(offered[|offered| - 1])
  }

  /** Between two turns: `left` of the stream's frames are still to come, and nobody hung up. */
  ghost predicate Underway(
    all: Decoded, answers: nat -> Sent, offered: seq<Frame>, dimensions: Option<Size>, left: Decoded)
  {
    all == Append(offered, left) && AllTaken(answers, |offered|) && LastPublished(offered, dimensions)
  }

  /** On return: all frames and the stream's own end, or a hang-up at the last frame offered. */
  ghost predicate Returned(
    all: Decoded, answers: nat -> Sent, offered: seq<Frame>, dimensions: Option<Size>, terminal: Terminal)
  {
    && LastPublished(offered, dimensions)
    && (AllTaken(answers, |offered|) ==> Decoded(offered, terminal) == all)
    && (!AllTaken(answers, |offered|) ==>
          offered != [] && AllTaken(answers, |offered| - 1) && terminal == Eof && offered <= all.frames)
  }

  lemma LastTurn(
    all: Decoded, answers: nat -> Sent, offered: seq<Frame>, dimensions: Option<Size>, terminal: Terminal)
    requires Underway(all, answers, offered, dimensions, Decoded([], terminal))
    ensures Returned(all, answers, offered, dimensions, terminal)
  {
  }

  lemma NextTurn(
    all: Decoded, answers: nat -> Sent, offered: seq<Frame>, dimensions: Option<Size>, frame: Frame, left: Decoded)
    requires Underway(all, answers, offered, dimensions, Cons(frame, left))
    ensures answers(|offered|).Disconnected? ==>
              Returned(all, answers, offered + [frame], Dimensions(frame), Eof)
    ensures !answers(|offered|).Disconnected? ==>
              Underway(all, answers, offered + [frame], Dimensions(frame), left)
  {
    AppendCons(offered, frame, left);
  }

  /** The loop of `read_frames`; `all` is what the stream carries. */
  method OfferFrames(stream: Connection, sink: FrameSink, ghost all: Decoded) returns (terminal: Terminal)
    requires Underway(all, sink.answers, sink.offered, sink.dimensions, Decode(stream.rest, stream.ending))
    modifies stream, sink
    ensures Returned(all, sink.answers, sink.offered, sink.dimensions, terminal)
  {
    while true
      invariant Underway(all, sink.answers, sink.offered, sink.dimensions, Decode(stream.rest, stream.ending))
      decreases |stream.rest|
    {
      ghost var offered, dimensions := sink.offered, sink.dimensions;
      var next, size := stream.ReadFrame();
      if next.Finished? {
        LastTurn(all, sink.answers, offered, dimensions, next.terminal);
        return next.terminal;
      }
      NextTurn(all, sink.answers, offered, dimensions, next.frame, Decode(stream.rest, stream.ending));
      sink.dimensions := size;
      var sent := sink.TrySend(next.frame);
      if sent.Disconnected? {
        return Eof;
      }
    }
  }

  /**
   `read_frames`. As long as no offer is answered by a hang-up, exactly the stream's frames
   are offered, in order, and the terminal is the stream's; the first hang-up ends the reader
   with the frame it was given for, as Eof. Every frame offered is valid, so its size fits;
   the published dimensions are those of the last one.
  */
  method ReadFrames(stream: Connection, sink: FrameSink) returns (terminal: Terminal)
    requires sink.offered == []
    modifies stream, sink
    ensures AllTaken(sink.answers, |sink.offered|) ==>
              Decoded(sink.offered, terminal) == Decode(old(stream.rest), stream.ending)
    ensures !AllTaken(sink.answers, |sink.offered|) ==>
              && sink.offered != [] && AllTaken(sink.answers, |sink.offered| - 1)
              && terminal == Eof && sink.offered <= Decode(old(stream.rest), stream.ending).frames
    ensures AllValid(sink.offered)
    ensures sink.offered != [] ==> sink.dimensions == Dimensions(sink.offered[|sink.offered| - 1])
  {
    ghost var all := Decode(stream.rest, stream.ending);
    DecodedIsEncoded(stream.rest, stream.ending);
    assert Append([], all) == all;
    terminal := OfferFrames(stream, sink, all);
  }

  lemma AppendCons(frames: seq<Frame>, frame: Frame, d: Decoded)
    ensures Append(frames, Cons(frame, d)) == Append(frames + [frame], d)
  {
    assert frames + ([frame] + d.frames) == frames + [frame] + d.frames;
  }

  // ----- Encoding -----

  predicate ValidFrame(frame: Frame) {
    0 < |frame| <= 10 * 1024 * 1024 && Dimensions(frame).Some?
  }

  predicate AllValid(frames: seq<Frame>) {
    forall i | 0 <= i < |frames| :: ValidFrame(frames[i])
  }

  function LengthPrefix(n: nat): (s: seq<byte>)
    requires n < 0x1_0000_0000
    ensures |s| == LENGTH_BYTES && LittleEndian(s) == n
  {
    var n1 := n / 256;
    var n2 := n1 / 256;
    [n % 256, n1 % 256, n2 % 256, n2 / 256]
  }

  function EncodeFrame(frame: Frame): seq<byte>
    requires ValidFrame(frame)
  {
    LengthPrefix(|frame|) + frame
  }

  function EncodeFrames(frames: seq<Frame>): seq<byte>
    requires AllValid(frames)
  {
    if frames == [] then [] else EncodeFrame(frames[0]) + EncodeFrames(frames[1..])
  }

  lemma ConsAppend(frames: seq<Frame>, d: Decoded)
    requires frames != []
    ensures Cons(frames[0], Append(frames[1..], d)) == Append(frames, d)
  {
    assert [frames[0]] + (frames[1..] + d.frames) == frames + d.frames;
  }

  lemma FirstEncoded(frame: Frame, rest: seq<byte>, ending: Ending)
    requires ValidFrame(frame)
    ensures FirstFrame(EncodeFrame(frame) + rest, ending) == NextFrame(frame, rest)
  {
    var data := EncodeFrame(frame) + rest;
    assert data[..LENGTH_BYTES] == LengthPrefix(|frame|);
    var body := data[LENGTH_BYTES..];
    assert body[..|frame|] == frame && body[|frame|..] == rest;
  }

  /** Complete frames in front of any tail come out first; the tail decides how it ends. */
  lemma {:induction false} DecodeEncoded(frames: seq<Frame>, tail: seq<byte>, ending: Ending)
    requires AllValid(frames)
    ensures Decode(EncodeFrames(frames) + tail, ending) == Append(frames, Decode(tail, ending))
  {
    if frames == [] {
      assert EncodeFrames(frames) + tail == tail;
      var d := Decode(tail, ending);
      assert frames + d.frames == d.frames;
    } else {
      DecodeEncoded(frames[1..], tail, ending);
      DecodeFirst(frames, tail, ending);
      ConsAppend(frames, Decode(tail, ending));
    }
  }

  lemma DecodeFirst(frames: seq<Frame>, tail: seq<byte>, ending: Ending)
    requires AllValid(frames) && frames != []
    ensures Decode(EncodeFrames(frames) + tail, ending) ==
            Cons(frames[0], Decode(EncodeFrames(frames[1..]) + tail, ending))
  {
    var rest := EncodeFrames(frames[1..]) + tail;
    assert EncodeFrames(frames) + tail == EncodeFrame(frames[0]) + rest;
    FirstEncoded(frames[0], rest, ending);
  }

  /** A stream of valid frames closed at a boundary yields exactly those frames, then Eof. */
  lemma BoundaryEndsAsEof(frames: seq<Frame>)
    requires AllValid(frames)
    ensures Decode(EncodeFrames(frames), PeerClosed) == Decoded(frames, Eof)
  {
    DecodeEncoded(frames, [], PeerClosed);
    assert EncodeFrames(frames) + [] == EncodeFrames(frames);
  }

  /** A length of zero or above 10 MiB ends reading behind the frames before it, and is named. */
  lemma BadLengthEndsReading(frames: seq<Frame>, length: nat, tail: seq<byte>, ending: Ending)
    requires AllValid(frames) && length < 0x1_0000_0000 && (length == 0 || length > 10 * 1024 * 1024)
    ensures Decode(EncodeFrames(frames) + (LengthPrefix(length) + tail), ending) ==
            Decoded(frames, Failed(InvalidFrameLength(length)))
  {
    var rest := LengthPrefix(length) + tail;
    assert rest[..LENGTH_BYTES] == LengthPrefix(length);
    assert Decode(rest, ending) == Decoded([], Failed(InvalidFrameLength(length)));
    DecodeEncoded(frames, rest, ending);
    assert frames + [] == frames;
  }

  /** So does a frame of acceptable length in which the scanner finds no size. */
  lemma UnsizedFrameEndsReading(frames: seq<Frame>, frame: Frame, tail: seq<byte>, ending: Ending)
    requires AllValid(frames) && 0 < |frame| <= 10 * 1024 * 1024 && Dimensions(frame).None?
    ensures Decode(EncodeFrames(frames) + (LengthPrefix(|frame|) + frame + tail), ending) ==
            Decoded(frames, Failed(InvalidJpeg))
  {
    var rest := LengthPrefix(|frame|) + frame + tail;
    UnsizedFirst(frame, tail, ending);
    DecodeEncoded(frames, rest, ending);
    assert frames + [] == frames;
  }

  lemma UnsizedFirst(frame: Frame, tail: seq<byte>, ending: Ending)
    requires 0 < |frame| <= 10 * 1024 * 1024 && Dimensions(frame).None?
    ensures Decode(LengthPrefix(|frame|) + frame + tail, ending) == Decoded([], Failed(InvalidJpeg))
  {
    var rest := LengthPrefix(|frame|) + frame + tail;
    assert rest[..LENGTH_BYTES] == LengthPrefix(|frame|);
    assert rest[LENGTH_BYTES..][..|frame|] == frame;
  }

  /** A cut inside a frame yields exactly the complete frames before it, then a failure. */
  lemma CutEndsAsFailure(frames: seq<Frame>, cut: Frame, k: nat, ending: Ending)
    requires AllValid(frames) && ValidFrame(cut) && 0 < k < |EncodeFrame(cut)|
    ensures Decode(EncodeFrames(frames) + EncodeFrame(cut)[..k], ending) ==
            Decoded(frames, Failed(if k < LENGTH_BYTES then ReadingLength else ReadingBody))
  {
    var tail := EncodeFrame(cut)[..k];
    DecodeEncoded(frames, tail, ending);
    if k >= LENGTH_BYTES {
      assert tail[..LENGTH_BYTES] == LengthPrefix(|cut|);
    }
    assert Decode(tail, ending) == Decoded([], Failed(if k < LENGTH_BYTES then ReadingLength else ReadingBody));
    assert frames + [] == frames;
  }

  lemma LowByte(low: byte, high: nat)
    ensures (low as int + 256 * high) % 256 == low && (low as int + 256 * high) / 256 == high
  {
  }

  /** The encoding of a length is unique. */
  lemma LittleEndianUnique(s: seq<byte>)
    requires |s| == LENGTH_BYTES
    ensures LittleEndian(s) < 0x1_0000_0000 && LengthPrefix(LittleEndian(s)) == s
  {
    var n2 := s[2] as int + 256 * s[3] as int;
    var n1 := s[1] as int + 256 * n2;
    LowByte(s[2], s[3]);
    LowByte(s[1], n2);
    LowByte(s[0], n1);
  }

  lemma FirstDecoded(data: seq<byte>, ending: Ending)
    requires FirstFrame(data, ending).NextFrame?
    ensures var next := FirstFrame(data, ending);
            ValidFrame(next.frame) && data == EncodeFrame(next.frame) + next.rest
  {
    LittleEndianUnique(data[..LENGTH_BYTES]);
  }

  /**
   Every decoded frame is valid, so its size fits a signed 32-bit integer; and a stream
   ends as Eof only when it is exactly the encoding of the frames it yielded.
  */
  lemma {:induction false} DecodedIsEncoded(data: seq<byte>, ending: Ending)
    ensures AllValid(Decode(data, ending).frames)
    ensures forall i | 0 <= i < |Decode(data, ending).frames| :: |Decode(data, ending).frames[i]| < 0x8000_0000
    ensures EncodeFrames(Decode(data, ending).frames) <= data
    ensures Decode(data, ending).terminal == Eof <==>
            ending.PeerClosed? && data == EncodeFrames(Decode(data, ending).frames)
    decreases |data|
  {
    match FirstFrame(data, ending)
    case Finished(terminal) =>
    case NextFrame(frame, rest) =>
      FirstDecoded(data, ending);
      DecodedIsEncoded(rest, ending);
      var d, tail := Decode(data, ending), Decode(rest, ending);
      assert d.frames[1..] == tail.frames;
      assert EncodeFrames(d.frames) == EncodeFrame(frame) + EncodeFrames(tail.frames);
      var n := |EncodeFrame(frame)|;
      assert data[n..] == rest && EncodeFrames(d.frames)[n..] == EncodeFrames(tail.frames);
  }
}
