/** The RIFF chunk walk of WebP, against a printer of chunk lists. */
module Webp {
  import opened Bytes
  import opened Options

  const RIFF: seq<Byte> := [82, 73, 70, 70]
  const WEBP: seq<Byte> := [87, 69, 66, 80]
  const VP8X: seq<Byte> := [86, 80, 56, 88]
  const VP8L: seq<Byte> := [86, 80, 56, 76]
  const VP8: seq<Byte> := [86, 80, 56, 32]

  datatype Result = Found(header: Header) | Unsupported | OutOfBounds | Missing

  /** The header that one chunk gives, if it is one with dimensions. */
  function Dimensions(kind: seq<Byte>, data: seq<Byte>): Option<Header> {
    var name := Ascii(kind);
    if name == VP8X && |data| >= 10 then
      Some(Header(Le24(data, 4) + 1, Le24(data, 7) + 1, data[0] / 16 % 2 == 1))
    else if name == VP8L && |data| >= 5 && data[0] == 47 then
      var bits := Le32(data, 1);
      Some(Header(bits % 0x4000 + 1, bits / 0x4000 % 0x4000 + 1, bits / 0x4000 / 0x4000 % 2 == 1))
    else if name == VP8 && |data| >= 10 && data[3..6] == [157, 1, 42] then
      Some(Header(Le16(data, 6) % 0x4000, Le16(data, 8) % 0x4000, false))
    else None
  }

  /** The first dimensions in the chunks of the rest. */
  function Walk(rest: seq<Byte>): Result
    decreases |rest|
  {
    if |rest| < 8 then Missing
    else
      var length := Le32(rest, 4);
      if 8 + length > |rest| then OutOfBounds
      else
        var dimensions := Dimensions(rest[..4], rest[8..8 + length]);
        if dimensions.Some? then Found(dimensions.value)
        else if 8 + length + length % 2 > |rest| then Missing
        else Walk(rest[8 + length + length % 2..])
  }

  predicate IsWebp(bytes: seq<Byte>) {
    |bytes| >= 20 && Ascii(bytes[..4]) == RIFF && Ascii(bytes[8..12]) == WEBP && Le32(bytes, 4) + 8 == |bytes|
  }

  function HeaderOf(bytes: seq<Byte>): Result {
    if IsWebp(bytes) then Walk(bytes[12..]) else Unsupported
  }

  /** One turn of the walk. */
  lemma WalkOnce(rest: seq<Byte>, kind: seq<Byte>, data: seq<Byte>, length: nat)
    requires |rest| >= 8 && Le32(rest, 4) == length && 8 + length <= |rest|
    requires kind == rest[..4] && data == rest[8..8 + length]
    ensures Walk(rest) ==
            if Dimensions(kind, data).Some? then Found(Dimensions(kind, data).value)
            else if 16 + length + length % 2 > |rest| then Missing
            else Walk(rest[8 + length + length % 2..])
  {
    hide Dimensions, Le32;
    var next := 8 + length + length % 2;
    if Dimensions(kind, data).None? && next <= |rest| < next + 8 {
      assert |rest[next..]| < 8;
    }
  }

  /** The same, at an offset of the whole buffer. */
  lemma WalkAt(bytes: seq<Byte>, offset: nat, length: nat)
    requires offset + 8 <= |bytes| && length == Le32(bytes, offset + 4)
    ensures offset + 8 + length > |bytes| ==> Walk(bytes[offset..]) == OutOfBounds
    ensures offset + 8 + length <= |bytes| ==>
            var kind, data := bytes[offset..offset + 4], bytes[offset + 8..offset + 8 + length];
            var next := offset + 8 + length + length % 2;
            Walk(bytes[offset..]) ==
            if Dimensions(kind, data).Some? then Found(Dimensions(kind, data).value)
            else if next + 8 > |bytes| then Missing else Walk(bytes[next..])
  {
    hide Dimensions;
    var rest := bytes[offset..];
    assert Le32(rest, 4) == length;
    if offset + 8 + length <= |bytes| {
      hide *;
      WalkOnce(rest, bytes[offset..offset + 4], bytes[offset + 8..offset + 8 + length], length);
      if 8 + length + length % 2 <= |rest| {
        assert rest[8 + length + length % 2..] == bytes[offset + 8 + length + length % 2..];
      }
    }
  }

  /** Reading in a slice is reading in the buffer. */
  lemma InSlice(bytes: seq<Byte>, start: nat, end: nat, i: nat)
    requires start <= end <= |bytes|
    ensures start + i + 2 <= end ==> Le16(bytes[start..end], i) == Le16(bytes, start + i)
    ensures start + i + 3 <= end ==> Le24(bytes[start..end], i) == Le24(bytes, start + i)
    ensures start + i + 4 <= end ==> Le32(bytes[start..end], i) == Le32(bytes, start + i)
  {
  }

  method WebpHeader(bytes: seq<Byte>) returns (result: Result)
    ensures result == HeaderOf(bytes)
  {
    hide Dimensions, Walk;
    if |bytes| < 20 || Ascii(bytes[..4]) != RIFF || Ascii(bytes[8..12]) != WEBP || Le32(bytes, 4) + 8 != |bytes| {
      return Unsupported;
    }
    var offset := 12;
    while offset + 8 <= |bytes|
      invariant 12 <= offset <= |bytes| + 1
      invariant Walk(bytes[12..]) == if offset + 8 <= |bytes| then Walk(bytes[offset..]) else Missing
    {
      var length := Le32(bytes, offset + 4);
      WalkAt(bytes, offset, length);
      if offset + 8 + length > |bytes| {
        return OutOfBounds;
      }
      var dimensions := ReadDimensions(bytes, offset, length);
      if dimensions.Some? {
        return Found(dimensions.value);
      }
      offset := offset + 8 + length + length % 2;
    }
    return Missing;
  }

  lemma CodeAt(bytes: seq<Byte>, start: nat, end: nat)
    requires start + 6 <= end <= |bytes|
    ensures bytes[start..end][3..6] == bytes[start + 3..start + 6]
  {
    var a, b := bytes[start..end][3..6], bytes[start + 3..start + 6];
    assert |a| == |b| == 3 && a[0] == b[0] && a[1] == b[1] && a[2] == b[2];
  }

  /** The three tests of one chunk, on the whole buffer. */
  method ReadDimensions(bytes: seq<Byte>, offset: nat, length: nat) returns (dimensions: Option<Header>)
    requires offset + 8 + length <= |bytes|
    ensures dimensions == Dimensions(bytes[offset..offset + 4], bytes[offset + 8..offset + 8 + length])
  {
    hide Le16, Le24, Le32;
    var name, start := Ascii(bytes[offset..offset + 4]), offset + 8;
    if name == VP8X && length >= 10 {
      InSlice(bytes, start, start + length, 4);
      InSlice(bytes, start, start + length, 7);
      return Some(Header(Le24(bytes, start + 4) + 1, Le24(bytes, start + 7) + 1, bytes[start] / 16 % 2 == 1));
    }
    if name == VP8L && length >= 5 && bytes[start] == 47 {
      InSlice(bytes, start, start + length, 1);
      var bits := Le32(bytes, start + 1);
      return Some(Header(bits % 0x4000 + 1, bits / 0x4000 % 0x4000 + 1, bits / 0x4000 / 0x4000 % 2 == 1));
    }
    if name == VP8 && length >= 10 {
      CodeAt(bytes, start, start + length);
      if bytes[start + 3..start + 6] == [157, 1, 42] {
        InSlice(bytes, start, start + length, 6);
        InSlice(bytes, start, start + length, 8);
        return Some(Header(Le16(bytes, start + 6) % 0x4000, Le16(bytes, start + 8) % 0x4000, false));
      }
    }
    return None;
  }

  // ---------------------------------------------------------------- the printer

  /** pad is the byte that follows data of odd length. */
  datatype Chunk = Chunk(kind: seq<Byte>, data: seq<Byte>, pad: Byte)

  predicate Fits(chunk: Chunk) {
    |chunk.kind| == 4 && |chunk.data| < TWO_32
  }

  predicate AllFit(chunks: seq<Chunk>) {
    forall i :: 0 <= i < |chunks| ==> Fits(chunks[i])
  }

  predicate AllPlain(chunks: seq<Chunk>) {
    forall i :: 0 <= i < |chunks| ==> Dimensions(chunks[i].kind, chunks[i].data).None?
  }

  function PrintBare(kind: seq<Byte>, data: seq<Byte>): seq<Byte>
    requires |kind| == 4 && |data| < TWO_32
  {
    kind + PutLe32(|data|) + data
  }

  function PrintChunk(chunk: Chunk): seq<Byte>
    requires Fits(chunk)
  {
    PrintBare(chunk.kind, chunk.data) + (if |chunk.data| % 2 == 1 then [chunk.pad] else [])
  }

  function PrintChunks(chunks: seq<Chunk>): seq<Byte>
    requires AllFit(chunks)
  {
    if chunks == [] then [] else PrintChunk(chunks[0]) + PrintChunks(chunks[1..])
  }

  /** A RIFF file of type WEBP with this body. */
  function PrintFile(body: seq<Byte>): seq<Byte>
    requires 4 + |body| < TWO_32
  {
    RIFF + PutLe32(4 + |body|) + WEBP + body
  }

  lemma FileBody(body: seq<Byte>)
    requires 8 <= |body| < TWO_32 - 4
    ensures IsWebp(PrintFile(body)) && PrintFile(body)[12..] == body
  {
    var bytes, size := PrintFile(body), PutLe32(4 + |body|);
    assert bytes[..4] == RIFF && bytes[8..12] == WEBP && bytes[4..8] == size;
    assert Le32(bytes, 4) == Le32(size, 0);
    AsciiStays(RIFF);
    AsciiStays(WEBP);
  }

  lemma FirstBare(kind: seq<Byte>, data: seq<Byte>, rest: seq<Byte>)
    requires |kind| == 4 && |data| < TWO_32
    ensures var bytes := PrintBare(kind, data) + rest;
            && |bytes| >= 8 + |data| && Le32(bytes, 4) == |data|
            && bytes[..4] == kind && bytes[8..8 + |data|] == data && bytes[8 + |data|..] == rest
  {
    var bytes, length := PrintBare(kind, data) + rest, PutLe32(|data|);
    assert bytes[4..8] == length;
    assert Le32(bytes, 4) == Le32(length, 0);
  }

  /** A plain chunk is passed over, with its padding. */
  lemma PassOver(chunk: Chunk, rest: seq<Byte>)
    requires Fits(chunk) && Dimensions(chunk.kind, chunk.data).None?
    ensures Walk(PrintChunk(chunk) + rest) == Walk(rest)
  {
    hide Dimensions, Le32, PrintBare;
    var pad := if |chunk.data| % 2 == 1 then [chunk.pad] else [];
    FirstBare(chunk.kind, chunk.data, pad + rest);
    Assoc(PrintBare(chunk.kind, chunk.data), pad, rest);
    assert (PrintChunk(chunk) + rest)[8 + |chunk.data| + |chunk.data| % 2..] == rest;
  }

  lemma {:induction false} PassOverAll(chunks: seq<Chunk>, rest: seq<Byte>)
    requires AllFit(chunks) && AllPlain(chunks)
    ensures Walk(PrintChunks(chunks) + rest) == Walk(rest)
    decreases |chunks|
  {
    if chunks == [] {
      assert PrintChunks(chunks) + rest == rest;
    } else {
      PassOverAll(chunks[1..], rest);
      PassOver(chunks[0], PrintChunks(chunks[1..]) + rest);
      Assoc(PrintChunk(chunks[0]), PrintChunks(chunks[1..]), rest);
    }
  }

  /** A header within the buffer is the print of a chunk. */
  lemma SplitBare(rest: seq<Byte>)
    requires |rest| >= 8 && 8 + Le32(rest, 4) <= |rest|
    ensures var n := Le32(rest, 4); rest == PrintBare(rest[..4], rest[8..8 + n]) + rest[8 + n..]
  {
    PutLe32Read(rest[4..8]);
    InSlice(rest, 4, 8, 0);
  }

  lemma SplitChunk(rest: seq<Byte>, chunk: Chunk)
    requires |rest| >= 8
    requires 8 + Le32(rest, 4) + Le32(rest, 4) % 2 <= |rest|
    requires chunk == Chunk(rest[..4], rest[8..8 + Le32(rest, 4)],
                            if Le32(rest, 4) % 2 == 1 then rest[8 + Le32(rest, 4)] else 0)
    ensures Fits(chunk) && var n := Le32(rest, 4); rest == PrintChunk(chunk) + rest[8 + n + n % 2..]
  {
    SplitBare(rest);
    var n := Le32(rest, 4);
    var pad, end := (if n % 2 == 1 then [chunk.pad] else []), rest[8 + n + n % 2..];
    assert rest[8 + n..] == pad + end;
    Assoc(PrintBare(chunk.kind, chunk.data), pad, end);
  }

  lemma MorePlain(chunk: Chunk, more: seq<Chunk>, end: seq<Byte>)
    requires Fits(chunk) && AllFit(more) && AllPlain(more) && Dimensions(chunk.kind, chunk.data).None?
    ensures AllFit([chunk] + more) && AllPlain([chunk] + more)
    ensures PrintChunks([chunk] + more) + end == PrintChunk(chunk) + (PrintChunks(more) + end)
  {
    assert ([chunk] + more)[1..] == more;
    Assoc(PrintChunk(chunk), PrintChunks(more), end);
  }

  /** A walk that finds dimensions has passed over plain chunks to a chunk that gives them. */
  lemma {:induction false} FoundIsPrinted(rest: seq<Byte>)
      returns (chunks: seq<Chunk>, kind: seq<Byte>, data: seq<Byte>, tail: seq<Byte>)
    requires Walk(rest).Found?
    ensures AllFit(chunks) && AllPlain(chunks) && |kind| == 4 && |data| < TWO_32
    ensures Dimensions(kind, data) == Some(Walk(rest).header)
    ensures rest == PrintChunks(chunks) + (PrintBare(kind, data) + tail)
    decreases |rest|
  {
    var n := Le32(rest, 4);
    kind, data := rest[..4], rest[8..8 + n];
    if Dimensions(kind, data).Some? {
      SplitBare(rest);
      chunks, tail := [], rest[8 + n..];
      assert [] + rest == rest;
    } else {
      var next, chunk := 8 + n + n % 2, Chunk(kind, data, if n % 2 == 1 then rest[8 + n] else 0);
      SplitChunk(rest, chunk);
      var more;
      more, kind, data, tail := FoundIsPrinted(rest[next..]);
      MorePlain(chunk, more, PrintBare(kind, data) + tail);
      chunks := [chunk] + more;
    }
  }

  predicate Overruns(rest: seq<Byte>) {
    |rest| >= 8 && 8 + Le32(rest, 4) > |rest|
  }

  lemma {:induction false} OverrunIsPrinted(rest: seq<Byte>) returns (chunks: seq<Chunk>, end: seq<Byte>)
    requires Walk(rest) == OutOfBounds
    ensures AllFit(chunks) && AllPlain(chunks) && Overruns(end) && rest == PrintChunks(chunks) + end
    decreases |rest|
  {
    var n := Le32(rest, 4);
    if 8 + n > |rest| {
      chunks, end := [], rest;
      assert [] + rest == rest;
    } else {
      var chunk := Chunk(rest[..4], rest[8..8 + n], if n % 2 == 1 then rest[8 + n] else 0);
      SplitChunk(rest, chunk);
      var more;
      more, end := OverrunIsPrinted(rest[8 + n + n % 2..]);
      MorePlain(chunk, more, end);
      chunks := [chunk] + more;
    }
  }

  // ---------------------------------------------------------------- theorems

  /** The walk is out of bounds exactly where a chunk that overruns the buffer follows plain chunks. */
  lemma OverrunsIff(rest: seq<Byte>)
    ensures Walk(rest) == OutOfBounds <==>
            exists chunks, end ::
              AllFit(chunks) && AllPlain(chunks) && Overruns(end) && rest == PrintChunks(chunks) + end
  {
    if Walk(rest) == OutOfBounds {
      var chunks, end := OverrunIsPrinted(rest);
    }
    forall chunks, end | AllFit(chunks) && AllPlain(chunks) && Overruns(end) && rest == PrintChunks(chunks) + end
      ensures Walk(rest) == OutOfBounds
    {
      PassOverAll(chunks, end);
    }
  }

  /** The walk finds a header exactly where a chunk that gives it follows plain chunks. */
  lemma FindsIff(rest: seq<Byte>, header: Header)
    ensures Walk(rest) == Found(header) <==>
            exists chunks, kind, data, tail ::
              && AllFit(chunks) && AllPlain(chunks) && |kind| == 4 && |data| < TWO_32
              && Dimensions(kind, data) == Some(header)
              && rest == PrintChunks(chunks) + (PrintBare(kind, data) + tail)
  {
    if Walk(rest) == Found(header) {
      var chunks, kind, data, tail := FoundIsPrinted(rest);
    }
    forall chunks, kind, data, tail |
        && AllFit(chunks) && AllPlain(chunks) && |kind| == 4 && |data| < TWO_32
        && Dimensions(kind, data) == Some(header)
        && rest == PrintChunks(chunks) + (PrintBare(kind, data) + tail)
      ensures Walk(rest) == Found(header)
    {
      PassOverAll(chunks, PrintBare(kind, data) + tail);
      FirstBare(kind, data, tail);
    }
  }

  /** Round trip: after any plain chunks, with payloads of any lengths, and before anything at all, a
      chunk with dimensions gives the header of the file. */
  lemma FileHeader(chunks: seq<Chunk>, chunk: Chunk, header: Header, after: seq<Byte>)
    requires AllFit(chunks) && AllPlain(chunks) && Fits(chunk) && Dimensions(chunk.kind, chunk.data) == Some(header)
    requires |PrintChunks(chunks) + (PrintChunk(chunk) + after)| < TWO_32 - 4
    ensures HeaderOf(PrintFile(PrintChunks(chunks) + (PrintChunk(chunk) + after))) == Found(header)
  {
    var body := PrintChunks(chunks) + (PrintChunk(chunk) + after);
    var pad := if |chunk.data| % 2 == 1 then [chunk.pad] else [];
    FileBody(body);
    PassOverAll(chunks, PrintChunk(chunk) + after);
    FirstBare(chunk.kind, chunk.data, pad + after);
    Assoc(PrintBare(chunk.kind, chunk.data), pad, after);
  }

  /** The data of the three chunks with dimensions, as their formats lay it out. */
  function ExtendedData(flags: Byte, width: nat, height: nat): seq<Byte>
    requires 0 < width <= TWO_24 && 0 < height <= TWO_24
  {
    [flags, 0, 0, 0] + PutLe24(width - 1) + PutLe24(height - 1)
  }

  function LosslessData(width: nat, height: nat, alpha: bool): seq<Byte>
    requires 0 < width <= 0x4000 && 0 < height <= 0x4000
  {
    [47] + PutLe32((width - 1) + 0x4000 * ((height - 1) + 0x4000 * (if alpha then 1 else 0)))
  }

  function LossyData(tag: seq<Byte>, width: nat, xScale: nat, height: nat, yScale: nat): seq<Byte>
    requires |tag| == 3 && width < 0x4000 && height < 0x4000 && xScale < 4 && yScale < 4
  {
    tag + [157, 1, 42] + PutLe16(width + 0x4000 * xScale) + PutLe16(height + 0x4000 * yScale)
  }

  /** VP8X: the canvas size, and the alpha flag. */
  lemma Extended(flags: Byte, width: nat, height: nat, more: seq<Byte>)
    requires 0 < width <= TWO_24 && 0 < height <= TWO_24
    ensures Dimensions(VP8X, ExtendedData(flags, width, height) + more) ==
            Some(Header(width, height, flags / 16 % 2 == 1))
  {
    var data := ExtendedData(flags, width, height) + more;
    assert data[4..7] == PutLe24(width - 1) && data[7..10] == PutLe24(height - 1);
    assert Le24(data, 4) == Le24(data[4..7], 0) && Le24(data, 7) == Le24(data[7..10], 0);
    AsciiStays(VP8X);
  }

  lemma LosslessBits(w: nat, h: nat, a: nat)
    requires w < 0x4000 && h < 0x4000 && a < 2
    ensures var bits := w + 0x4000 * (h + 0x4000 * a);
            bits < TWO_32 && bits % 0x4000 == w && bits / 0x4000 % 0x4000 == h && bits / 0x4000 / 0x4000 % 2 == a
  {
    var bits := w + 0x4000 * (h + 0x4000 * a);
    assert bits / 0x4000 == h + 0x4000 * a;
  }

  /** VP8L: fourteen bits of width, fourteen of height, and the alpha bit. */
  lemma Lossless(width: nat, height: nat, alpha: bool, more: seq<Byte>)
    requires 0 < width <= 0x4000 && 0 < height <= 0x4000
    ensures Dimensions(VP8L, LosslessData(width, height, alpha) + more) == Some(Header(width, height, alpha))
  {
    hide Le32, Le24, Le16, PutLe32;
    var a := if alpha then 1 else 0;
    LosslessBits(width - 1, height - 1, a);
    var bits := PutLe32((width - 1) + 0x4000 * ((height - 1) + 0x4000 * a));
    var data := LosslessData(width, height, alpha) + more;
    assert data[1..5] == bits;
    InSlice(data, 1, 5, 0);
    AsciiStays(VP8L);
    assert VP8L[3] != VP8X[3];
  }

  /** VP8: the dimensions without their scales, and no alpha. */
  lemma Lossy(tag: seq<Byte>, width: nat, xScale: nat, height: nat, yScale: nat, more: seq<Byte>)
    requires |tag| == 3 && width < 0x4000 && height < 0x4000 && xScale < 4 && yScale < 4
    ensures Dimensions(VP8, LossyData(tag, width, xScale, height, yScale) + more) == Some(Header(width, height, false))
  {
    var data := LossyData(tag, width, xScale, height, yScale) + more;
    assert data[3..6] == [157, 1, 42];
    assert data[6..8] == PutLe16(width + 0x4000 * xScale) && data[8..10] == PutLe16(height + 0x4000 * yScale);
    assert Le16(data, 6) == Le16(data[6..8], 0) && Le16(data, 8) == Le16(data[8..10], 0);
    AsciiStays(VP8);
    assert VP8[3] != VP8X[3] && VP8[3] != VP8L[3];
  }

  // ---------------------------------------------------------------- exactly these data give dimensions

  ghost predicate GivesExtended(data: seq<Byte>, header: Header) {
    && 0 < header.width <= TWO_24 && 0 < header.height <= TWO_24
    && exists flags, reserved, more ::
         && |reserved| == 3 && header.alpha == (flags / 16 % 2 == 1)
         && data == ExtendedLayout(flags, reserved, header.width, header.height) + more
  }

  function ExtendedLayout(flags: Byte, reserved: seq<Byte>, width: nat, height: nat): seq<Byte>
    requires 0 < width <= TWO_24 && 0 < height <= TWO_24
  {
    [flags] + reserved + PutLe24(width - 1) + PutLe24(height - 1)
  }

  /** Three bits of version are above the alpha bit. */
  ghost predicate GivesLossless(data: seq<Byte>, header: Header) {
    && 0 < header.width <= 0x4000 && 0 < header.height <= 0x4000
    && exists version, more :: version < 8 && data == LosslessLayout(header, version) + more
  }

  function LosslessLayout(header: Header, version: nat): seq<Byte>
    requires 0 < header.width <= 0x4000 && 0 < header.height <= 0x4000 && version < 8
  {
    var a := if header.alpha then 1 else 0;
    [47] + PutLe32((header.width - 1) + 0x4000 * ((header.height - 1) + 0x4000 * (a + 2 * version)))
  }

  ghost predicate GivesLossy(data: seq<Byte>, header: Header) {
    && header.width < 0x4000 && header.height < 0x4000 && !header.alpha
    && exists tag, xScale, yScale, more ::
         |tag| == 3 && xScale < 4 && yScale < 4 &&
         data == LossyData(tag, header.width, xScale, header.height, yScale) + more
  }

  lemma PutLe16Read(s: seq<Byte>)
    requires |s| == 2
    ensures PutLe16(Le16(s, 0)) == s
  {
  }

  lemma PutLe24Read(s: seq<Byte>)
    requires |s| == 3
    ensures PutLe24(Le24(s, 0)) == s
  {
    PutLe16Read(s[1..]);
    assert Le24(s, 0) % 256 == s[0] && Le24(s, 0) / 256 == Le16(s[1..], 0);
  }

  lemma ExtendedRead(flags: Byte, reserved: seq<Byte>, width: nat, height: nat, more: seq<Byte>)
    requires |reserved| == 3 && 0 < width <= TWO_24 && 0 < height <= TWO_24
    ensures var data := ExtendedLayout(flags, reserved, width, height) + more;
            |data| >= 10 && data[0] == flags && Le24(data, 4) == width - 1 && Le24(data, 7) == height - 1
  {
    var data := ExtendedLayout(flags, reserved, width, height) + more;
    assert data[4..7] == PutLe24(width - 1) && data[7..10] == PutLe24(height - 1);
    assert Le24(data, 4) == Le24(data[4..7], 0) && Le24(data, 7) == Le24(data[7..10], 0);
  }

  /** What the test of a VP8X chunk reads. */
  predicate ReadsCanvas(data: seq<Byte>, header: Header) {
    && |data| >= 10
    && header == Header(Le24(data, 4) + 1, Le24(data, 7) + 1, data[0] / 16 % 2 == 1)
  }

  lemma ExtendedIs(data: seq<Byte>, header: Header)
    ensures Dimensions(VP8X, data) == Some(header) <==> ReadsCanvas(data, header)
  {
    AsciiStays(VP8X);
    hide Le32, Le24, Le16;
  }

  lemma CanvasGiven(data: seq<Byte>, header: Header)
    requires ReadsCanvas(data, header)
    ensures GivesExtended(data, header)
  {
    assert Le24(data, 4) < TWO_24 && Le24(data, 7) < TWO_24;
    PutLe24Read(data[4..7]);
    PutLe24Read(data[7..10]);
    InSlice(data, 4, 7, 0);
    InSlice(data, 7, 10, 0);
    hide Le24, PutLe24;
    assert data == ExtendedLayout(data[0], data[1..4], header.width, header.height) + data[10..];
  }

  lemma ExtendedIff(data: seq<Byte>, header: Header)
    ensures Dimensions(VP8X, data) == Some(header) <==> GivesExtended(data, header)
  {
    ExtendedIs(data, header);
    hide Dimensions, Le24, PutLe24, ExtendedLayout;
    if ReadsCanvas(data, header) {
      CanvasGiven(data, header);
    }
    if GivesExtended(data, header) {
      var flags, reserved, more :|
        && |reserved| == 3 && header.alpha == (flags / 16 % 2 == 1)
        && data == ExtendedLayout(flags, reserved, header.width, header.height) + more;
      ExtendedRead(flags, reserved, header.width, header.height, more);
    }
  }

  lemma BitsSplit(bits: nat)
    requires bits < TWO_32
    ensures var w, h, v := bits % 0x4000, bits / 0x4000 % 0x4000, bits / 0x4000 / 0x4000;
            bits == w + 0x4000 * (h + 0x4000 * (v % 2 + 2 * (v / 2))) && v / 2 < 8
  {
  }

  lemma BitsJoin(w: nat, h: nat, a: nat, version: nat)
    requires w < 0x4000 && h < 0x4000 && a < 2 && version < 8
    ensures var bits := w + 0x4000 * (h + 0x4000 * (a + 2 * version));
            bits < TWO_32 && bits % 0x4000 == w && bits / 0x4000 % 0x4000 == h && bits / 0x4000 / 0x4000 % 2 == a
  {
    var bits := w + 0x4000 * (h + 0x4000 * (a + 2 * version));
    assert bits / 0x4000 == h + 0x4000 * (a + 2 * version);
    assert bits / 0x4000 / 0x4000 == a + 2 * version;
  }

  /** What the test of a VP8L chunk makes of its bits. */
  predicate ReadsBits(data: seq<Byte>, header: Header) {
    && |data| >= 5 && data[0] == 47
    && var bits := Le32(data, 1);
       header == Header(bits % 0x4000 + 1, bits / 0x4000 % 0x4000 + 1, bits / 0x4000 / 0x4000 % 2 == 1)
  }

  lemma LosslessIs(data: seq<Byte>, header: Header)
    ensures Dimensions(VP8L, data) == Some(header) <==> ReadsBits(data, header)
  {
    AsciiStays(VP8L);
    assert VP8L[3] != VP8X[3] && VP8L[3] != VP8[3];
    hide Le32, Le24, Le16;
  }

  lemma LosslessIff(data: seq<Byte>, header: Header)
    ensures Dimensions(VP8L, data) == Some(header) <==> GivesLossless(data, header)
  {
    LosslessIs(data, header);
    hide Dimensions;
    if ReadsBits(data, header) {
      var bits := Le32(data, 1);
      BitsSplit(bits);
      PutLe32Read(data[1..5]);
      InSlice(data, 1, 5, 0);
      hide Le32, PutLe32;
      var version := bits / 0x4000 / 0x4000 / 2;
      assert data == LosslessLayout(header, version) + data[5..];
    }
    if GivesLossless(data, header) {
      var version, more :| version < 8 && data == LosslessLayout(header, version) + more;
      LosslessRead(data, header, version, more);
    }
  }

  lemma LosslessRead(data: seq<Byte>, header: Header, version: nat, more: seq<Byte>)
    requires 0 < header.width <= 0x4000 && 0 < header.height <= 0x4000 && version < 8
    requires data == LosslessLayout(header, version) + more
    ensures ReadsBits(data, header)
  {
    hide Le32, PutLe32;
    var a := if header.alpha then 1 else 0;
    BitsJoin(header.width - 1, header.height - 1, a, version);
    var bits := PutLe32((header.width - 1) + 0x4000 * ((header.height - 1) + 0x4000 * (a + 2 * version)));
    assert data[1..5] == bits;
    InSlice(data, 1, 5, 0);
  }

  /** What the test of a VP8 chunk reads. */
  predicate ReadsSizes(data: seq<Byte>, header: Header) {
    && |data| >= 10 && data[3..6] == [157, 1, 42]
    && header == Header(Le16(data, 6) % 0x4000, Le16(data, 8) % 0x4000, false)
  }

  lemma LossyIs(data: seq<Byte>, header: Header)
    ensures Dimensions(VP8, data) == Some(header) <==> ReadsSizes(data, header)
  {
    AsciiStays(VP8);
    assert VP8[3] != VP8X[3] && VP8[3] != VP8L[3];
    hide Le32, Le24, Le16;
  }

  lemma LossyIff(data: seq<Byte>, header: Header)
    ensures Dimensions(VP8, data) == Some(header) <==> GivesLossy(data, header)
  {
    LossyIs(data, header);
    hide Dimensions;
    if ReadsSizes(data, header) {
      var w, h := Le16(data, 6), Le16(data, 8);
      PutLe16Read(data[6..8]);
      PutLe16Read(data[8..10]);
      InSlice(data, 6, 8, 0);
      InSlice(data, 8, 10, 0);
      assert w < TWO_16 && h < TWO_16;
      assert w == w % 0x4000 + 0x4000 * (w / 0x4000) && h == h % 0x4000 + 0x4000 * (h / 0x4000);
      hide Le16, PutLe16;
      assert data == LossyData(data[..3], header.width, w / 0x4000, header.height, h / 0x4000) + data[10..];
    }
    if GivesLossy(data, header) {
      var tag, xScale, yScale, more :|
        |tag| == 3 && xScale < 4 && yScale < 4 &&
        data == LossyData(tag, header.width, xScale, header.height, yScale) + more;
      LossyRead(data, tag, header, xScale, yScale, more);
    }
  }

  lemma LossyRead(data: seq<Byte>, tag: seq<Byte>, header: Header, xScale: nat, yScale: nat, more: seq<Byte>)
    requires |tag| == 3 && header.width < 0x4000 && header.height < 0x4000 && !header.alpha && xScale < 4 && yScale < 4
    requires data == LossyData(tag, header.width, xScale, header.height, yScale) + more
    ensures ReadsSizes(data, header)
  {
    hide Le16, PutLe16;
    var w, h := PutLe16(header.width + 0x4000 * xScale), PutLe16(header.height + 0x4000 * yScale);
    LossyParts(data, tag, w, h, more);
    Scaled(header.width, xScale);
    Scaled(header.height, yScale);
  }

  lemma LossyParts(data: seq<Byte>, tag: seq<Byte>, w: seq<Byte>, h: seq<Byte>, more: seq<Byte>)
    requires |tag| == 3 && |w| == 2 && |h| == 2 && data == tag + [157, 1, 42] + w + h + more
    ensures |data| >= 10 && data[3..6] == [157, 1, 42]
    ensures Le16(data, 6) == Le16(w, 0) && Le16(data, 8) == Le16(h, 0)
  {
    assert data[3..6] == [157, 1, 42] && data[6..8] == w && data[8..10] == h;
    InSlice(data, 6, 8, 0);
    InSlice(data, 8, 10, 0);
    hide Le16;
  }

  lemma Scaled(size: nat, scale: nat)
    requires size < 0x4000 && scale < 4
    ensures (size + 0x4000 * scale) % 0x4000 == size
  {
  }

  lemma NamedAs(kind: seq<Byte>, data: seq<Byte>)
    requires |kind| == 4
    ensures Ascii(kind) !in {VP8X, VP8L, VP8} ==> Dimensions(kind, data).None?
    ensures Ascii(kind) in {VP8X, VP8L, VP8} ==> Dimensions(kind, data) == Dimensions(Ascii(kind), data)
  {
    AsciiStays(Ascii(kind));
    hide Le32, Le24, Le16;
  }

  /** A chunk gives a header exactly when its name, less the highest bits, is one of the three and its data
      are laid out as that format does, with anything in the reserved fields and after them. */
  lemma DimensionsIff(kind: seq<Byte>, data: seq<Byte>, header: Header)
    requires |kind| == 4
    ensures Dimensions(kind, data) == Some(header) <==>
            || (Ascii(kind) == Codes("VP8X") && GivesExtended(data, header))
            || (Ascii(kind) == Codes("VP8L") && GivesLossless(data, header))
            || (Ascii(kind) == Codes("VP8 ") && GivesLossy(data, header))
  {
    hide GivesExtended, GivesLossless, GivesLossy, Dimensions;
    NamedAs(kind, data);
    assert Codes("VP8X") == VP8X && Codes("VP8L") == VP8L && Codes("VP8 ") == VP8;
    assert VP8L[3] != VP8X[3] && VP8[3] != VP8X[3] && VP8[3] != VP8L[3];
    ExtendedIff(data, header);
    LosslessIff(data, header);
    LossyIff(data, header);
  }

  /** A file is taken for a WebP exactly when it is a RIFF file of that type, less the highest bits of the
      two names, whose size field says the length of what follows it, at least twelve bytes. */
  lemma FileIff(bytes: seq<Byte>)
    ensures IsWebp(bytes) <==>
            && 20 <= |bytes| < TWO_32 + 8
            && Ascii(bytes[..4]) == Codes("RIFF") && Ascii(bytes[8..12]) == Codes("WEBP")
            && bytes[4..8] == PutLe32(|bytes| - 8)
  {
    assert Codes("RIFF") == RIFF && Codes("WEBP") == WEBP;
    if |bytes| >= 20 {
      PutLe32Read(bytes[4..8]);
      InSlice(bytes, 4, 8, 0);
      hide Le32, PutLe32;
    }
  }
}
