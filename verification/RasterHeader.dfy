/** The header facts of a raster file: PNG by its signature, WebP otherwise. */
module RasterHeader {
  import opened Bytes
  import opened Options
  import Png
  import Webp

  datatype Outcome = Read(header: Header) | PngOutOfBounds | WebpFailure(result: Webp.Result)

  predicate StartsAsPng(bytes: seq<Byte>) {
    |bytes| >= 33 && bytes[..8] == Png.SIGNATURE
  }

  function Meaning(bytes: seq<Byte>): Outcome {
    if StartsAsPng(bytes) then
      match Png.HeaderOf(bytes)
      case Some(header) => Read(header)
      case None => PngOutOfBounds
    else
      match Webp.HeaderOf(bytes)
      case Found(header) => Read(header)
      case failure => WebpFailure(failure)
  }

  method RasterHeader(bytes: seq<Byte>) returns (outcome: Outcome)
    ensures outcome == Meaning(bytes)
  {
    if |bytes| >= 33 && bytes[..8] == Png.SIGNATURE {
      var header := Png.PngHeader(bytes);
      return if header.Some? then Read(header.value) else PngOutOfBounds;
    }
    var result := Webp.WebpHeader(bytes);
    return if result.Found? then Read(result.header) else WebpFailure(result);
  }

  /** The names of the chunks and of the file types, spelled out. */
  lemma NamesSpelled()
    ensures Png.SIGNATURE == [137] + Codes("PNG") + [13, 10, 26, 10]
    ensures Png.IHDR == Codes("IHDR") && Png.TRNS == Codes("tRNS")
    ensures Webp.RIFF == Codes("RIFF") && Webp.WEBP == Codes("WEBP")
    ensures Webp.VP8X == Codes("VP8X") && Webp.VP8L == Codes("VP8L") && Webp.VP8 == Codes("VP8 ")
  {
  }

  /** A printed PNG is read as one, and a printed WebP is not taken for a PNG. */
  lemma PrintedFiles(rest: seq<Byte>, body: seq<Byte>)
    requires |rest| >= 25 && 4 + |body| < TWO_32
    ensures StartsAsPng(Png.SIGNATURE + rest) && !StartsAsPng(Webp.PrintFile(body))
  {
    assert (Png.SIGNATURE + rest)[..8] == Png.SIGNATURE;
    assert Webp.PrintFile(body)[0] == Webp.RIFF[0] == 82;
    assert Png.SIGNATURE[0] == 137;
  }

  /** A printed PNG, with any chunks after its IHDR and a short tail, gives the dimensions in it, and alpha
      exactly when the colour type is 4 or 6 or some chunk is tRNS. */
  lemma PngRoundTrip(width: nat, height: nat, depth: Byte, colour: Byte, methods: seq<Byte>, crc: seq<Byte>,
                     chunks: seq<Png.Chunk>, tail: seq<Byte>)
    requires width < TWO_32 && height < TWO_32 && |methods| == 3 && |crc| == 4 && Png.AllFit(chunks) && |tail| < 12
    ensures var first := Png.Chunk(Png.IHDR, Png.Ihdr(width, height, depth, colour, methods), crc);
            Meaning(Png.SIGNATURE + (Png.PrintChunks([first] + chunks) + tail)) ==
            Read(Header(width, height, colour in {4, 6} || Png.SomeTrns(chunks)))
  {
    hide Png.HeaderOf, Png.PrintChunks, Png.SomeTrns;
    var first := Png.Chunk(Png.IHDR, Png.Ihdr(width, height, depth, colour, methods), crc);
    Png.PrintedHeader(width, height, depth, colour, methods, crc, chunks, tail);
    PrintedFiles(Png.PrintChunks([first] + chunks) + tail, []);
  }

  /** A printed WebP file gives the header of its chunk with dimensions, whatever plain chunks come before
      it and whatever comes after. */
  lemma WebpRoundTrip(chunks: seq<Webp.Chunk>, chunk: Webp.Chunk, header: Header, after: seq<Byte>)
    requires Webp.AllFit(chunks) && Webp.AllPlain(chunks)
    requires Webp.Fits(chunk) && Webp.Dimensions(chunk.kind, chunk.data) == Some(header)
    requires |Webp.PrintChunks(chunks) + (Webp.PrintChunk(chunk) + after)| < TWO_32 - 4
    ensures Meaning(Webp.PrintFile(Webp.PrintChunks(chunks) + (Webp.PrintChunk(chunk) + after))) == Read(header)
  {
    hide Webp.HeaderOf, Webp.PrintFile, Webp.PrintChunks, Webp.PrintChunk, Webp.Dimensions, Webp.Fits;
    Webp.FileHeader(chunks, chunk, header, after);
    NotAPng(Webp.PrintChunks(chunks) + (Webp.PrintChunk(chunk) + after));
  }

  lemma NotAPng(body: seq<Byte>)
    requires 4 + |body| < TWO_32
    ensures !StartsAsPng(Webp.PrintFile(body))
  {
    PrintedFiles(seq(25, _ => 0), body);
  }

  /** The printed WebP bodies: plain chunks, a chunk that gives dimensions, and anything at all. */
  ghost predicate GivesDimensions(body: seq<Byte>) {
    exists chunks, kind, data, tail ::
      && Webp.AllFit(chunks) && Webp.AllPlain(chunks) && |kind| == 4 && |data| < TWO_32
      && Webp.Dimensions(kind, data).Some?
      && body == Webp.PrintChunks(chunks) + (Webp.PrintBare(kind, data) + tail)
  }

  /** Exactly these files are read: the printed PNGs, whatever their chunks, with a short tail, and the
      WebP files in which a chunk with dimensions is printed after plain ones. */
  lemma ReadsIff(bytes: seq<Byte>)
    ensures Meaning(bytes).Read? <==>
            if StartsAsPng(bytes) then
              exists chunks, tail ::
                Png.AllFit(chunks) && |tail| < 12 && bytes[8..] == Png.PrintChunks(chunks) + tail
            else
              Webp.IsWebp(bytes) && GivesDimensions(bytes[12..])
  {
    if StartsAsPng(bytes) {
      Png.AcceptsIff(bytes);
    } else if Webp.IsWebp(bytes) {
      FoundIff(bytes[12..]);
    }
  }

  lemma FoundIff(body: seq<Byte>)
    ensures Webp.Walk(body).Found? <==> GivesDimensions(body)
  {
    hide Webp.Walk, Webp.Dimensions, Webp.PrintChunks, Webp.PrintBare, Webp.AllFit, Webp.AllPlain;
    if Webp.Walk(body).Found? {
      Webp.FindsIff(body, Webp.Walk(body).header);
    }
    if GivesDimensions(body) {
      var chunks, kind, data, tail :|
        && Webp.AllFit(chunks) && Webp.AllPlain(chunks) && |kind| == 4 && |data| < TWO_32
        && Webp.Dimensions(kind, data).Some?
        && body == Webp.PrintChunks(chunks) + (Webp.PrintBare(kind, data) + tail);
      Webp.FindsIff(body, Webp.Dimensions(kind, data).value);
    }
  }
}
