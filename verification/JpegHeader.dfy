/**
 `jpeg_dimensions` of crates/pandar-bambu-source/src/config.rs: the marker scanner, and
 the header grammar it recognises (ITU-T T.81, sections B.1.1.2, B.1.1.4 and B.2.2).
*/
module JpegHeader {
  import opened Basics

  const FILL: byte := 0xff

  datatype Size = Size(width: nat, height: nat)

  /** Markers without a length field: TEM, SOI, EOI and the restart markers. */
  predicate IsStandalone(marker: byte) {
    marker == 0x01 || marker == 0xd8 || marker == 0xd9 || 0xd0 <= marker <= 0xd7
  }

  /** Start-of-frame markers; 0xc4, 0xc8 and 0xcc are not among them. */
  predicate IsSof(marker: byte) {
    0xc0 <= marker <= 0xc3 || 0xc5 <= marker <= 0xc7 || 0xc9 <= marker <= 0xcb || 0xcd <= marker <= 0xcf
  }

  function BigEndian(high: byte, low: byte): nat {
    high * 256 + low
  }

  // ----- The scanner -----

  /** The number of leading fill bytes. */
  function Fills(s: seq<byte>): (n: nat)
    ensures n <= |s|
    ensures forall i | 0 <= i < n :: s[i] == FILL
    ensures n < |s| ==> s[n] != FILL
  {
    if s == [] || s[0] != FILL then 0 else 1 + Fills(s[1..])
  }

  function PositiveSize(width: nat, height: nat): Option<Size> {
    if width > 0 && height > 0 then Some(Size(width, height)) else None
  }

  /** The scanner on the bytes from its current offset on. */
  function Scan(s: seq<byte>): Option<Size>
    decreases |s|
  {
    if |s| < 4 then None
    else if s[0] != FILL then Scan(s[1..])
    else
      var k := Fills(s);
      if k == |s| then None
      else if IsStandalone(s[k]) then Scan(s[k + 1..])
      else ScanSegment(s[k], s[k + 1..])
  }

  /** A marker with a length field; `s` starts at that field. */
  function ScanSegment(marker: byte, s: seq<byte>): Option<Size>
    decreases |s|, 0
  {
    if |s| < 2 then None
    else
      var length := BigEndian(s[0], s[1]);
      if length < 2 || length > |s| then None
      else if IsSof(marker) then
        if length < 7 then None
        else PositiveSize(BigEndian(s[5], s[6]), BigEndian(s[3], s[4]))
      else Scan(s[length..])
  }

  function Dimensions(frame: seq<byte>): Option<Size> {
    if |frame| >= 2 && frame[0] == 0xff && frame[1] == 0xd8 then Scan(frame[2..]) else None
  }

  /** The scanner at an offset of the whole frame, index by index. */
  function ScanAt(frame: seq<byte>, offset: nat): Option<Size>
    requires offset <= |frame|
    decreases |frame| - offset, 1
  {
    if offset + 4 > |frame| then None
    else if frame[offset] != FILL then ScanAt(frame, offset + 1)
    else
      var k := offset + Fills(frame[offset..]);
      if k == |frame| then None
      else if IsStandalone(frame[k]) then ScanAt(frame, k + 1)
      else SegmentAt(frame, frame[k], k + 1)
  }

  function SegmentAt(frame: seq<byte>, marker: byte, offset: nat): Option<Size>
    requires offset <= |frame|
    decreases |frame| - offset, 0
  {
    if offset + 2 > |frame| then None
    else
      var length := BigEndian(frame[offset], frame[offset + 1]);
      if length < 2 || offset + length > |frame| then None
      else if IsSof(marker) then
        if length < 7 then None
        else PositiveSize(BigEndian(frame[offset + 5], frame[offset + 6]),
                          BigEndian(frame[offset + 3], frame[offset + 4]))
      else ScanAt(frame, offset + length)
  }

  lemma SuffixOfSuffix(frame: seq<byte>, i: nat, j: nat)
    requires i + j <= |frame|
    ensures frame[i..][j..] == frame[i + j..]
  {
  }

  lemma {:induction false} ScanAtIsScan(frame: seq<byte>, offset: nat)
    requires offset <= |frame|
    ensures ScanAt(frame, offset) == Scan(frame[offset..])
    decreases |frame| - offset, 1
  {
    if offset + 4 > |frame| {
    } else if frame[offset] != FILL {
      SuffixOfSuffix(frame, offset, 1);
      ScanAtIsScan(frame, offset + 1);
    } else {
      var k := Fills(frame[offset..]);
      if offset + k < |frame| {
        SuffixOfSuffix(frame, offset, k + 1);
        if IsStandalone(frame[offset + k]) {
          ScanAtIsScan(frame, offset + k + 1);
        } else {
          SegmentAtIsScan(frame, frame[offset + k], offset + k + 1);
        }
      }
    }
  }

  lemma {:induction false} SegmentAtIsScan(frame: seq<byte>, marker: byte, offset: nat)
    requires offset <= |frame|
    ensures SegmentAt(frame, marker, offset) == ScanSegment(marker, frame[offset..])
    decreases |frame| - offset, 0
  {
    if offset + 2 <= |frame| {
      var length := BigEndian(frame[offset], frame[offset + 1]);
      if 2 <= length && offset + length <= |frame| && !IsSof(marker) {
        SuffixOfSuffix(frame, offset, length);
        ScanAtIsScan(frame, offset + length);
      }
    }
  }

  /** The inner loop: past the fill bytes of a marker. */
  method SkipFills(frame: seq<byte>, start: nat) returns (offset: nat)
    requires start < |frame|
    ensures offset == start + Fills(frame[start..])
  {
    offset := start;
    ghost var s := frame[start..];
    while offset < |frame| && frame[offset] == FILL
      invariant start <= offset <= start + Fills(s)
    {
      assert s[offset - start] == frame[offset];
      offset := offset + 1;
    }
    assert offset < |frame| ==> s[offset - start] == frame[offset];
  }

  /**
   `jpeg_dimensions`: every index is in bounds, the offset strictly increases on each
   turn, and the result is `Dimensions`.
  */
  method JpegDimensions(frame: seq<byte>) returns (size: Option<Size>)
    ensures size == Dimensions(frame)
  {
    if !(|frame| >= 2 && frame[0] == 0xff && frame[1] == 0xd8) {
      return None;
    }
    size := ScanFrom(frame);
    ScanAtIsScan(frame, 2);
  }

  /** The outer loop, from behind the SOI marker. */
  method ScanFrom(frame: seq<byte>) returns (size: Option<Size>)
    requires |frame| >= 2
    ensures size == ScanAt(frame, 2)
  {
    var offset := 2;
    ghost var result := ScanAt(frame, 2);
    while offset + 4 <= |frame|
      invariant 2 <= offset <= |frame|
      invariant ScanAt(frame, offset) == result
      decreases |frame| - offset
    {
      if frame[offset] != FILL {
        offset := offset + 1;
        continue;
      }
      offset := SkipFills(frame, offset);
      if offset == |frame| {
        return None;
      }
      var marker := frame[offset];
      offset := offset + 1;
      if IsStandalone(marker) {
        continue;
      }
      if offset + 1 >= |frame| {
        return None;
      }
      var length := BigEndian(frame[offset], frame[offset + 1]);
      if length < 2 || offset + length > |frame| {
        return None;
      }
      if IsSof(marker) {
        if length < 7 {
          return None;
        }
        var height := BigEndian(frame[offset + 3], frame[offset + 4]);
        var width := BigEndian(frame[offset + 5], frame[offset + 6]);
        return if width > 0 && height > 0 then Some(Size(width, height)) else None;
      }
      offset := offset + length;
    }
    return None;
  }

  // ----- The header grammar -----

  /** What may precede the frame header: stray bytes, bare markers and sized segments. */
  datatype Element =
    | Stray(value: byte)
    | Bare(fills: nat, marker: byte)
    | Segment(fills: nat, marker: byte, payload: seq<byte>)

  /** A frame header up to its sizes: precision, height, width and the remaining bytes. */
  datatype FrameHeader = FrameHeader(
    fills: nat, marker: byte, precision: byte, height: nat, width: nat, tail: seq<byte>)

  /** SOF0 to SOF15 of T.81, table B.1, without DHT (c4), JPG (c8) and DAC (cc). */
  ghost const FRAME_MARKERS: set<byte> :=
    {0xc0, 0xc1, 0xc2, 0xc3, 0xc5, 0xc6, 0xc7, 0xc9, 0xca, 0xcb, 0xcd, 0xce, 0xcf}

  /** TEM, RST0 to RST7, SOI and EOI of T.81, table B.1. */
  ghost const BARE_MARKERS: set<byte> :=
    {0x01, 0xd0, 0xd1, 0xd2, 0xd3, 0xd4, 0xd5, 0xd6, 0xd7, 0xd8, 0xd9}

  /** The scanner tells the markers apart as the table does. */
  lemma MarkersAreTold(marker: byte)
    ensures IsSof(marker) <==> marker in FRAME_MARKERS
    ensures IsStandalone(marker) <==> marker in BARE_MARKERS
  {
  }

  ghost predicate WellFormed(e: Element) {
    match e
    case Stray(value) => value != 0xff
    case Bare(_, marker) => marker in BARE_MARKERS
    case Segment(_, marker, payload) =>
      marker != 0xff && marker !in BARE_MARKERS && marker !in FRAME_MARKERS && |payload| + 2 < 0x10000
  }

  ghost predicate WellFormedHeader(h: FrameHeader) {
    h.marker in FRAME_MARKERS && h.height < 0x10000 && h.width < 0x10000 && |h.tail| + 7 < 0x10000
  }

  function Word(n: nat): seq<byte>
    requires n < 0x10000
  {
    [n / 256, n % 256]
  }

  function MarkerBytes(fills: nat, marker: byte): seq<byte> {
    seq(fills + 1, _ => 0xff) + [marker]
  }

  ghost function Encode(e: Element): seq<byte>
    requires WellFormed(e)
  {
    match e
    case Stray(value) => [value]
    case Bare(fills, marker) => MarkerBytes(fills, marker)
    case Segment(fills, marker, payload) => MarkerBytes(fills, marker) + Word(|payload| + 2) + payload
  }

  ghost function EncodeHeader(h: FrameHeader): seq<byte>
    requires WellFormedHeader(h)
  {
    MarkerBytes(h.fills, h.marker) + Word(|h.tail| + 7) + [h.precision] + Word(h.height) + Word(h.width) + h.tail
  }

  ghost predicate AllWellFormed(elements: seq<Element>) {
    forall i | 0 <= i < |elements| :: WellFormed(elements[i])
  }

  ghost function EncodeAll(elements: seq<Element>): seq<byte>
    requires AllWellFormed(elements)
  {
    if elements == [] then [] else Encode(elements[0]) + EncodeAll(elements[1..])
  }

  /** SOI, any elements, a frame header, and anything after it. */
  ghost function Jpeg(elements: seq<Element>, h: FrameHeader, rest: seq<byte>): seq<byte>
    requires AllWellFormed(elements) && WellFormedHeader(h)
  {
    [0xff, 0xd8] + EncodeAll(elements) + EncodeHeader(h) + rest
  }

  // ----- Encoding, then scanning -----

  lemma {:induction false} FillsOfMarker(fills: nat, marker: byte, s: seq<byte>)
    requires marker != FILL
    ensures Fills(MarkerBytes(fills, marker) + s) == fills + 1
  {
    var all := MarkerBytes(fills, marker) + s;
    assert forall i | 0 <= i <= fills :: all[i] == FILL;
    assert all[fills + 1] == marker;
    assert Fills(all) <= fills + 1;
  }

  lemma ScanMarker(fills: nat, marker: byte, body: seq<byte>)
    requires marker != FILL && |body| >= 2
    ensures Scan(MarkerBytes(fills, marker) + body) ==
            if IsStandalone(marker) then Scan(body) else ScanSegment(marker, body)
  {
    var all := MarkerBytes(fills, marker) + body;
    FillsOfMarker(fills, marker, body);
    assert all[0] == FILL && all[fills + 1] == marker && all[fills + 2..] == body;
  }

  lemma SegmentSkips(marker: byte, payload: seq<byte>, s: seq<byte>)
    requires !IsSof(marker) && |payload| + 2 < 0x10000
    ensures ScanSegment(marker, Word(|payload| + 2) + payload + s) == Scan(s)
  {
    var body := Word(|payload| + 2) + payload + s;
    assert body[0] == (|payload| + 2) / 256 && body[1] == (|payload| + 2) % 256;
    assert body[|payload| + 2..] == s;
  }

  lemma SegmentBytes(e: Element, s: seq<byte>)
    requires WellFormed(e) && e.Segment?
    ensures Encode(e) + s == MarkerBytes(e.fills, e.marker) + (Word(|e.payload| + 2) + e.payload + s)
  {
  }

  lemma ScanSkips(e: Element, s: seq<byte>)
    requires WellFormed(e) && |s| >= 4
    ensures Scan(Encode(e) + s) == Scan(s)
  {
    if e.Stray? {
      var all := [e.value] + s;
      assert all[0] == e.value && all[1..] == s;
    } else if e.Bare? {
      MarkersAreTold(e.marker);
      ScanMarker(e.fills, e.marker, s);
    } else {
      SegmentBytes(e, s);
      MarkersAreTold(e.marker);
      ScanMarker(e.fills, e.marker, Word(|e.payload| + 2) + e.payload + s);
      SegmentSkips(e.marker, e.payload, s);
    }
  }

  lemma ScanHeader(h: FrameHeader, rest: seq<byte>)
    requires WellFormedHeader(h)
    ensures Scan(EncodeHeader(h) + rest) == PositiveSize(h.width, h.height)
  {
    var body := Word(|h.tail| + 7) + [h.precision] + Word(h.height) + Word(h.width) + h.tail + rest;
    assert EncodeHeader(h) + rest == MarkerBytes(h.fills, h.marker) + body;
    MarkersAreTold(h.marker);
    ScanMarker(h.fills, h.marker, body);
    assert BigEndian(body[0], body[1]) == |h.tail| + 7;
    assert BigEndian(body[3], body[4]) == h.height && BigEndian(body[5], body[6]) == h.width;
  }

  lemma {:induction false} ScanElements(elements: seq<Element>, h: FrameHeader, rest: seq<byte>)
    requires AllWellFormed(elements) && WellFormedHeader(h)
    ensures Scan(EncodeAll(elements) + EncodeHeader(h) + rest) == PositiveSize(h.width, h.height)
  {
    if elements == [] {
      assert EncodeAll(elements) + EncodeHeader(h) + rest == EncodeHeader(h) + rest;
      ScanHeader(h, rest);
    } else {
      var s := EncodeAll(elements[1..]) + EncodeHeader(h) + rest;
      assert EncodeAll(elements) + EncodeHeader(h) + rest == Encode(elements[0]) + s;
      ScanSkips(elements[0], s);
      ScanElements(elements[1..], h, rest);
    }
  }

  lemma AfterSoi(a: seq<byte>, b: seq<byte>, c: seq<byte>)
    ensures ([0xff, 0xd8] + a + b + c)[2..] == a + b + c
  {
  }

  /** Every well-formed header yields exactly its own width and height. */
  lemma HeaderGivesSize(elements: seq<Element>, h: FrameHeader, rest: seq<byte>)
    requires AllWellFormed(elements) && WellFormedHeader(h)
    ensures Dimensions(Jpeg(elements, h, rest)) == PositiveSize(h.width, h.height)
  {
    AfterSoi(EncodeAll(elements), EncodeHeader(h), rest);
    ScanElements(elements, h, rest);
  }

  // ----- Scanning, then encoding -----

  lemma SplitAt(s: seq<byte>, k: nat)
    requires k < |s|
    ensures s == s[..k] + [s[k]] + s[k + 1..]
  {
  }

  lemma FillsAreFill(s: seq<byte>, k: nat)
    requires k <= Fills(s)
    ensures s[..k] == seq(k, _ => FILL)
  {
  }

  lemma MarkerPrefix(s: seq<byte>, k: nat)
    requires s != [] && s[0] == FILL && k == Fills(s) && k < |s|
    ensures k >= 1 && s == MarkerBytes(k - 1, s[k]) + s[k + 1..]
  {
    FillsAreFill(s, k);
    SplitAt(s, k);
  }

  /** A parse of `s` as elements and a frame header. */
  datatype Parse = Parse(elements: seq<Element>, h: FrameHeader, rest: seq<byte>)

  ghost predicate Parses(s: seq<byte>, p: Parse) {
    && AllWellFormed(p.elements) && WellFormedHeader(p.h) && p.h.width > 0 && p.h.height > 0
    && s == EncodeAll(p.elements) + EncodeHeader(p.h) + p.rest
  }

  /** A size is found only behind a well-formed header that states it. */
  lemma {:induction false} ScanFinds(s: seq<byte>) returns (p: Parse)
    requires Scan(s).Some?
    ensures Parses(s, p) && Scan(s) == Some(Size(p.h.width, p.h.height))
    decreases |s|, 1
  {
    if s[0] != FILL {
      p := ScanFinds(s[1..]);
      p := Prepend(Stray(s[0]), s[1..], p, s);
    } else {
      var k := Fills(s);
      MarkerPrefix(s, k);
      var marker, body := s[k], s[k + 1..];
      if IsStandalone(marker) {
        p := ScanFinds(body);
        MarkersAreTold(marker);
        p := Prepend(Bare(k - 1, marker), body, p, s);
      } else {
        p := SegmentFinds(k - 1, marker, body);
      }
    }
  }

  lemma SegmentSplit(fills: nat, marker: byte, body: seq<byte>, length: nat)
    requires |body| >= 2 && length == BigEndian(body[0], body[1]) && 2 <= length <= |body|
    ensures MarkerBytes(fills, marker) + body
            == MarkerBytes(fills, marker) + Word(length) + body[2..length] + body[length..]
  {
    assert Word(length) == body[..2];
    assert body == body[..2] + body[2..length] + body[length..];
  }

  lemma {:induction false} SegmentFinds(fills: nat, marker: byte, body: seq<byte>) returns (p: Parse)
    requires marker != FILL && !IsStandalone(marker) && ScanSegment(marker, body).Some?
    ensures Parses(MarkerBytes(fills, marker) + body, p)
    ensures ScanSegment(marker, body) == Some(Size(p.h.width, p.h.height))
    decreases |body|, 2
  {
    var length := BigEndian(body[0], body[1]);
    MarkersAreTold(marker);
    if IsSof(marker) {
      var h := HeaderAt(fills, marker, body);
      p := Parse([], h, body[length..]);
    } else {
      p := ScanFinds(body[length..]);
      var e := Segment(fills, marker, body[2..length]);
      SegmentSplit(fills, marker, body, length);
      p := Prepend(e, body[length..], p, MarkerBytes(fills, marker) + body);
    }
  }

  lemma Associate(a: seq<byte>, b: seq<byte>, c: seq<byte>, d: seq<byte>)
    ensures a + (b + c + d) == a + b + c + d
  {
  }

  lemma Prepend(e: Element, s: seq<byte>, p: Parse, all: seq<byte>) returns (q: Parse)
    requires WellFormed(e) && Parses(s, p) && all == Encode(e) + s
    ensures Parses(all, q) && q.h == p.h
  {
    q := p.(elements := [e] + p.elements);
    assert q.elements[1..] == p.elements;
    Associate(Encode(e), EncodeAll(p.elements), EncodeHeader(p.h), p.rest);
  }

  lemma HeaderAt(fills: nat, marker: byte, body: seq<byte>) returns (h: FrameHeader)
    requires IsSof(marker) && ScanSegment(marker, body).Some?
    ensures WellFormedHeader(h) && ScanSegment(marker, body) == Some(Size(h.width, h.height))
    ensures h.width > 0 && h.height > 0
    ensures var length := BigEndian(body[0], body[1]);
            MarkerBytes(fills, marker) + body == EncodeHeader(h) + body[length..]
  {
    var length := BigEndian(body[0], body[1]);
    MarkersAreTold(marker);
    h := FrameHeader(fills, marker, body[2], BigEndian(body[3], body[4]), BigEndian(body[5], body[6]), body[7..length]);
    HeaderBody(body, length, h.height, h.width);
  }

  lemma WordOf(high: byte, low: byte)
    ensures BigEndian(high, low) < 0x10000 && Word(BigEndian(high, low)) == [high, low]
  {
  }

  lemma HeaderBody(body: seq<byte>, length: nat, height: nat, width: nat)
    requires 7 <= length <= |body| && length == BigEndian(body[0], body[1])
    requires height == BigEndian(body[3], body[4]) && width == BigEndian(body[5], body[6])
    ensures length < 0x10000 && height < 0x10000 && width < 0x10000
    ensures body == Word(length) + [body[2]] + Word(height) + Word(width) + body[7..length] + body[length..]
  {
    WordOf(body[0], body[1]);
    WordOf(body[3], body[4]);
    WordOf(body[5], body[6]);
  }

  /** `frame` is SOI followed by the parse `p`, whose header states `size`. */
  ghost predicate States(frame: seq<byte>, p: Parse, size: Size) {
    && AllWellFormed(p.elements) && WellFormedHeader(p.h)
    && frame == Jpeg(p.elements, p.h, p.rest)
    && p.h.width == size.width && p.h.height == size.height
  }

  /**
   The scanner accepts exactly the well-formed headers with positive sizes, whatever
   surrounds them, and reports the sizes they state.
  */
  lemma DimensionsExactly(frame: seq<byte>, size: Size)
    ensures Dimensions(frame) == Some(size) <==>
            size.width > 0 && size.height > 0 && exists p :: States(frame, p, size)
  {
    if Dimensions(frame) == Some(size) {
      var p := FrameFinds(frame);
    }
    if size.width > 0 && size.height > 0 {
      forall p | States(frame, p, size)
        ensures Dimensions(frame) == Some(size)
      {
        HeaderGivesSize(p.elements, p.h, p.rest);
      }
    }
  }

  lemma FrameFinds(frame: seq<byte>) returns (p: Parse)
    requires Dimensions(frame).Some?
    ensures States(frame, p, Dimensions(frame).value)
    ensures Dimensions(frame).value.width > 0 && Dimensions(frame).value.height > 0
  {
    p := ScanFinds(frame[2..]);
    SoiInFront(frame, EncodeAll(p.elements), EncodeHeader(p.h), p.rest);
  }

  lemma SoiInFront(frame: seq<byte>, a: seq<byte>, b: seq<byte>, c: seq<byte>)
    requires |frame| >= 2 && frame[0] == 0xff && frame[1] == 0xd8 && frame[2..] == a + b + c
    ensures frame == [0xff, 0xd8] + a + b + c
  {
    assert frame == [frame[0], frame[1]] + frame[2..];
  }
}
