/** The PNG chunk walk, against a printer of chunk lists. */
module Png {
  import opened Bytes
  import opened Options

  const SIGNATURE: seq<Byte> := [137, 80, 78, 71, 13, 10, 26, 10]
  const IHDR: seq<Byte> := [73, 72, 68, 82]
  const TRNS: seq<Byte> := [116, 82, 78, 83]

  /** Whether a chunk of the rest is named tRNS; None when a chunk goes beyond its end. */
  function HasTrns(rest: seq<Byte>): Option<bool>
    decreases |rest|
  {
    if |rest| < 12 then Some(false)
    else
      var length := Be32(rest, 0);
      if 12 + length > |rest| then None
      else Or(Ascii(rest[4..8]) == TRNS, HasTrns(rest[12 + length..]))
  }

  function Or(found: bool, more: Option<bool>): Option<bool> {
    if more.Some? then Some(found || more.value) else None
  }

  /** The header of a file that starts as a PNG does. */
  function HeaderOf(bytes: seq<Byte>): Option<Header>
    requires |bytes| >= 33
  {
    var trns := HasTrns(bytes[8..]);
    if trns.None? then None
    else Some(Header(Be32(bytes, 16), Be32(bytes, 20), bytes[25] in {4, 6} || trns.value))
  }

  lemma AtOffset(bytes: seq<Byte>, offset: nat)
    requires offset + 12 <= |bytes|
    ensures var rest := bytes[offset..];
            && Be32(rest, 0) == Be32(bytes, offset)
            && rest[4..8] == bytes[offset + 4..offset + 8]
            && (offset + 12 + Be32(bytes, offset) <= |bytes| ==>
                  rest[12 + Be32(rest, 0)..] == bytes[offset + 12 + Be32(bytes, offset)..])
  {
  }

  method PngHeader(bytes: seq<Byte>) returns (header: Option<Header>)
    requires |bytes| >= 33
    ensures header == HeaderOf(bytes)
  {
    var alpha := bytes[25] == 4 || bytes[25] == 6;
    ghost var found := false;
    var offset := 8;
    while offset + 12 <= |bytes|
      invariant 8 <= offset <= |bytes|
      invariant alpha == (bytes[25] in {4, 6} || found)
      invariant HasTrns(bytes[8..]) == Or(found, HasTrns(bytes[offset..]))
    {
      AtOffset(bytes, offset);
      var length := Be32(bytes, offset);
      if offset + 12 + length > |bytes| {
        return None;
      }
      if Ascii(bytes[offset + 4..offset + 8]) == TRNS {
        alpha, found := true, true;
      }
      offset := offset + length + 12;
    }
    return Some(Header(Be32(bytes, 16), Be32(bytes, 20), alpha));
  }

  // ---------------------------------------------------------------- the printer

  datatype Chunk = Chunk(kind: seq<Byte>, data: seq<Byte>, crc: seq<Byte>)

  predicate Fits(chunk: Chunk) {
    |chunk.kind| == 4 && |chunk.crc| == 4 && |chunk.data| < TWO_32
  }

  predicate AllFit(chunks: seq<Chunk>) {
    forall i :: 0 <= i < |chunks| ==> Fits(chunks[i])
  }

  function PrintChunk(chunk: Chunk): seq<Byte>
    requires Fits(chunk)
  {
    PutBe32(|chunk.data|) + chunk.kind + chunk.data + chunk.crc
  }

  function PrintChunks(chunks: seq<Chunk>): seq<Byte>
    requires AllFit(chunks)
  {
    if chunks == [] then [] else PrintChunk(chunks[0]) + PrintChunks(chunks[1..])
  }

  predicate SomeTrns(chunks: seq<Chunk>) {
    exists i :: 0 <= i < |chunks| && Ascii(chunks[i].kind) == TRNS
  }

  lemma SomeTrnsFirst(chunks: seq<Chunk>)
    requires chunks != []
    ensures SomeTrns(chunks) <==> Ascii(chunks[0].kind) == TRNS || SomeTrns(chunks[1..])
  {
    if SomeTrns(chunks) && Ascii(chunks[0].kind) != TRNS {
      var i :| 0 <= i < |chunks| && Ascii(chunks[i].kind) == TRNS;
      assert chunks[1..][i - 1] == chunks[i];
    }
    if SomeTrns(chunks[1..]) {
      var i :| 0 <= i < |chunks[1..]| && Ascii(chunks[1..][i].kind) == TRNS;
      assert chunks[i + 1] == chunks[1..][i];
    }
  }

  /** One printed chunk is read back, and what follows it is the rest. */
  lemma FirstChunk(chunk: Chunk, rest: seq<Byte>)
    requires Fits(chunk)
    ensures var bytes := PrintChunk(chunk) + rest;
            && |bytes| >= 12 && Be32(bytes, 0) == |chunk.data| && 12 + |chunk.data| <= |bytes|
            && bytes[4..8] == chunk.kind && bytes[12 + |chunk.data|..] == rest
  {
    var length, bytes := PutBe32(|chunk.data|), PrintChunk(chunk) + rest;
    assert bytes[0] == length[0] && bytes[1] == length[1] && bytes[2] == length[2] && bytes[3] == length[3];
  }

  lemma {:induction false} PrintedWalk(chunks: seq<Chunk>, tail: seq<Byte>)
    requires AllFit(chunks) && |tail| < 12
    ensures HasTrns(PrintChunks(chunks) + tail) == Some(SomeTrns(chunks))
    decreases |chunks|
  {
    if chunks == [] {
      assert PrintChunks(chunks) + tail == tail;
    } else {
      PrintedWalk(chunks[1..], tail);
      SomeTrnsFirst(chunks);
      FirstChunk(chunks[0], PrintChunks(chunks[1..]) + tail);
      Assoc(PrintChunk(chunks[0]), PrintChunks(chunks[1..]), tail);
    }
  }

  /** A walk that reaches the end has read a list of chunks, and fewer than twelve bytes after it. */
  lemma {:induction false} WalkedIsPrinted(rest: seq<Byte>) returns (chunks: seq<Chunk>, tail: seq<Byte>)
    requires HasTrns(rest).Some?
    ensures AllFit(chunks) && |tail| < 12 && rest == PrintChunks(chunks) + tail
    decreases |rest|
  {
    if |rest| < 12 {
      chunks, tail := [], rest;
    } else {
      var n := Be32(rest, 0);
      var chunk := Chunk(rest[4..8], rest[8..8 + n], rest[8 + n..12 + n]);
      PutBe32Read(rest[..4]);
      assert rest == PrintChunk(chunk) + rest[12 + n..];
      var more;
      more, tail := WalkedIsPrinted(rest[12 + n..]);
      chunks := [chunk] + more;
      assert chunks[1..] == more;
      Assoc(PrintChunk(chunk), PrintChunks(more), tail);
    }
  }

  // ---------------------------------------------------------------- theorems

  /** The walk accepts exactly the printed chunk lists, with up to eleven bytes after them. */
  lemma AcceptsIff(bytes: seq<Byte>)
    requires |bytes| >= 33
    ensures HeaderOf(bytes).Some? <==>
            exists chunks, tail :: AllFit(chunks) && |tail| < 12 && bytes[8..] == PrintChunks(chunks) + tail
  {
    if HeaderOf(bytes).Some? {
      var chunks, tail := WalkedIsPrinted(bytes[8..]);
    } else if chunks, tail :| AllFit(chunks) && |tail| < 12 && bytes[8..] == PrintChunks(chunks) + tail {
      PrintedWalk(chunks, tail);
      assert false;
    }
  }

  /** The data of an IHDR chunk. */
  function Ihdr(width: nat, height: nat, depth: Byte, colour: Byte, methods: seq<Byte>): seq<Byte>
    requires width < TWO_32 && height < TWO_32 && |methods| == 3
  {
    PutBe32(width) + PutBe32(height) + [depth, colour] + methods
  }

  lemma IhdrFields(width: nat, height: nat, depth: Byte, colour: Byte, methods: seq<Byte>, crc: seq<Byte>, rest: seq<Byte>)
    requires width < TWO_32 && height < TWO_32 && |methods| == 3 && |crc| == 4
    ensures var first := Chunk(IHDR, Ihdr(width, height, depth, colour, methods), crc);
            var bytes := SIGNATURE + (PrintChunk(first) + rest);
            && |bytes| >= 33 && Be32(bytes, 16) == width && Be32(bytes, 20) == height && bytes[25] == colour
            && bytes[8..] == PrintChunk(first) + rest
  {
    var first := Chunk(IHDR, Ihdr(width, height, depth, colour, methods), crc);
    var bytes := SIGNATURE + (PrintChunk(first) + rest);
    assert bytes[16..20] == PutBe32(width) && bytes[20..24] == PutBe32(height);
    assert Be32(bytes, 16) == Be32(bytes[16..20], 0) && Be32(bytes, 20) == Be32(bytes[20..24], 0);
  }

  lemma HeaderFrom(bytes: seq<Byte>, width: nat, height: nat, colour: Byte, trns: bool)
    requires |bytes| >= 33 && Be32(bytes, 16) == width && Be32(bytes, 20) == height && bytes[25] == colour
    requires HasTrns(bytes[8..]) == Some(trns)
    ensures HeaderOf(bytes) == Some(Header(width, height, colour in {4, 6} || trns))
  {
  }

  lemma AfterFirst(first: Chunk, chunks: seq<Chunk>, tail: seq<Byte>)
    requires Fits(first) && first.kind == IHDR && AllFit(chunks)
    ensures AllFit([first] + chunks)
    ensures PrintChunks([first] + chunks) + tail == PrintChunk(first) + (PrintChunks(chunks) + tail)
    ensures SomeTrns([first] + chunks) == SomeTrns(chunks)
  {
    assert ([first] + chunks)[1..] == chunks;
    Assoc(PrintChunk(first), PrintChunks(chunks), tail);
    SomeTrnsFirst([first] + chunks);
    assert Ascii(IHDR)[0] != TRNS[0];
  }

  /** PNG: from a printed chunk list that starts with IHDR come the dimensions in it, and alpha exactly
      when the colour type is 4 or 6 or some chunk anywhere is tRNS. */
  lemma PrintedHeader(width: nat, height: nat, depth: Byte, colour: Byte, methods: seq<Byte>, crc: seq<Byte>,
                      chunks: seq<Chunk>, tail: seq<Byte>)
    requires width < TWO_32 && height < TWO_32 && |methods| == 3 && |crc| == 4 && AllFit(chunks) && |tail| < 12
    ensures var first := Chunk(IHDR, Ihdr(width, height, depth, colour, methods), crc);
            var bytes := SIGNATURE + (PrintChunks([first] + chunks) + tail);
            |bytes| >= 33 &&
            HeaderOf(bytes) == Some(Header(width, height, colour in {4, 6} || SomeTrns(chunks)))
  {
    var first := Chunk(IHDR, Ihdr(width, height, depth, colour, methods), crc);
    AfterFirst(first, chunks, tail);
    IhdrFields(width, height, depth, colour, methods, crc, PrintChunks(chunks) + tail);
    PrintedWalk([first] + chunks, tail);
    HeaderFrom(SIGNATURE + (PrintChunks([first] + chunks) + tail), width, height, colour, SomeTrns(chunks));
  }

  /** For kinds of ASCII bytes, as the standard has them, dropping the highest bit loses nothing. */
  lemma AsciiKinds(chunks: seq<Chunk>)
    requires forall i :: 0 <= i < |chunks| ==> forall j :: 0 <= j < |chunks[i].kind| ==> chunks[i].kind[j] < 128
    ensures SomeTrns(chunks) <==> exists i :: 0 <= i < |chunks| && chunks[i].kind == TRNS
  {
    forall i | 0 <= i < |chunks|
      ensures Ascii(chunks[i].kind) == chunks[i].kind
    {
      forall j | 0 <= j < |chunks[i].kind|
        ensures Ascii(chunks[i].kind)[j] == chunks[i].kind[j]
      {
        assert chunks[i].kind[j] < 128;
      }
    }
  }
}
