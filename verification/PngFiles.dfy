/** From an image to a file by the standard, and back through `inspect_png` (RFC 2083). */
module PngFiles {
  import opened Prelude
  import opened PngRows
  import opened PngChunks
  import opened PngGrammar
  import opened Pngs
  import opened PngLayout

  // ---- The raster ----

  /** The rows one after the other, each behind its filter byte. */
  function RasterOf(lines: seq<Line>): Row {
    if lines == [] then []
    else RasterOf(lines[..|lines| - 1]) + [lines[|lines| - 1].kind] + lines[|lines| - 1].stored
  }

  lemma {:induction false} RasterSize(lines: seq<Line>, stride: nat)
    requires LinesFit(lines, stride)
    ensures |RasterOf(lines)| == |lines| * (stride + 1)
  {
    if lines != [] {
      RasterSize(lines[..|lines| - 1], stride);
      assert |lines| * (stride + 1) == (|lines| - 1) * (stride + 1) + (stride + 1);
    }
  }

  lemma {:induction false} RasterPrefix(lines: seq<Line>, n: nat)
    requires n <= |lines|
    ensures RasterOf(lines[..n]) <= RasterOf(lines)
    decreases |lines|
  {
    if n < |lines| {
      RasterPrefix(lines[..|lines| - 1], n);
      assert lines[..|lines| - 1][..n] == lines[..n];
    } else {
      assert lines[..n] == lines;
    }
  }

  lemma RasterLine(lines: seq<Line>, stride: nat, y: nat)
    requires LinesFit(lines, stride) && y < |lines| && |RasterOf(lines)| == |lines| * (stride + 1)
    ensures 0 <= y * (stride + 1) && (y + 1) * (stride + 1) <= |RasterOf(lines)|
    ensures RasterOf(lines)[y * (stride + 1)..(y + 1) * (stride + 1)] == [lines[y].kind] + lines[y].stored
  {
    var before, upTo := RasterOf(lines[..y]), RasterOf(lines[..y + 1]);
    RasterSize(lines[..y], stride);
    RasterSize(lines[..y + 1], stride);
    RasterPrefix(lines, y + 1);
    assert lines[..y + 1][..y] == lines[..y];
    assert upTo == before + ([lines[y].kind] + lines[y].stored);
    assert upTo == RasterOf(lines)[..|upTo|];
  }

  /** A raster is read as the rows it was written from. */
  lemma RastersComeBack(lines: seq<Line>, stride: nat)
    requires LinesFit(lines, stride)
    ensures |RasterOf(lines)| == |lines| * (stride + 1) && LinesOf(RasterOf(lines), stride, |lines|) == lines
  {
    hide RasterOf;
    RasterSize(lines, stride);
    var read := LinesOf(RasterOf(lines), stride, |lines|);
    forall y | 0 <= y < |lines| ensures read[y] == lines[y] {
      RasterLine(lines, stride, y);
      LineIsCut(RasterOf(lines), stride, y, |lines|, lines[y]);
    }
  }

  lemma LineIsCut(raster: Row, stride: nat, y: nat, height: nat, line: Line)
    requires |raster| == height * (stride + 1) && y < height && |line.stored| == stride
    requires 0 <= y * (stride + 1) && (y + 1) * (stride + 1) <= |raster|
    requires raster[y * (stride + 1)..(y + 1) * (stride + 1)] == [line.kind] + line.stored
    ensures LinesOf(raster, stride, height)[y] == line
  {
    var at, end := y * (stride + 1), (y + 1) * (stride + 1);
    assert end == at + stride + 1;
    var cut := raster[at..end];
    assert cut[0] == raster[at] && cut[1..] == raster[at + 1..end];
    assert ([line.kind] + line.stored)[1..] == line.stored;
  }

  // ---- The chunks ----

  /** Header, compressed data in one chunk, end. */
  function Written(crc: Row -> nat, header: Row, compressed: Row): seq<Chunk> {
    [Chunk(IHDR, header, crc(IHDR + header)), Chunk(IDAT, compressed, crc(IDAT + compressed)),
     Chunk(IEND, [], crc(IEND + []))]
  }

  lemma KindsAreNamed()
    ensures Named(IHDR) && Named(IDAT) && Named(IEND)
  {
    assert IHDR[2] == 68 && IDAT[2] == 65 && IEND[2] == 78;
    assert forall kind :: kind in ANIMATION ==> kind[0] in {97, 102};
    assert IHDR[0] == 73 && IDAT[0] == 73 && IEND[0] == 73;
  }

  lemma WrittenIsStepped(crc: Row -> nat, header: Row, compressed: Row)
    requires HeaderOf(header).Some? && compressed != []
    ensures Steps(crc, Written(crc, header, compressed))
            == Some(Cursor(3, HeaderOf(header), true, true, true, compressed))
  {
    hide HeaderOf, Named;
    KindsAreNamed();
    KindsDiffer();
    var chunks := Written(crc, header, compressed);
    assert chunks[..2][..1] == chunks[..1] && chunks[..1][..0] == [];
    var first := Cursor(1, HeaderOf(header), false, false, false, []);
    assert Steps(crc, chunks[..1]) == Some(first);
    assert Steps(crc, chunks[..2]) == Some(first.(chunks := 2, idatSeen := true, compressed := compressed)) by {
      assert [] + compressed == compressed;
    }
  }

  // ---- The file ----

  /** The file of a compressed image. */
  function FileOf(crc: Row -> nat, width: nat, height: nat, alpha: bool, compressed: Row): Row
    requires width < WORDS && height < WORDS && |compressed| < WORDS && forall bytes :: crc(bytes) < WORDS
  {
    SIGNATURE + Laid(Written(crc, HeaderBytes(width, height, alpha), compressed))
  }

  lemma FileIsLaid(crc: Row -> nat, width: nat, height: nat, alpha: bool, compressed: Row)
    requires Sized(width, height) && compressed != [] && |compressed| < WORDS && forall bytes :: crc(bytes) < WORDS
    requires |FileOf(crc, width, height, alpha, compressed)| <= 2 * 1024 * 1024
    ensures var png := FileOf(crc, width, height, alpha, compressed);
            && WellLaid(crc, png)
            && HeaderOf(Chunks(png).value[0].data) == Some(Header(width, height, if alpha then 4 else 3))
            && Body(Chunks(png).value) == compressed
  {
    hide Laid, HeaderOf, HeaderBytes, WellFormed, Body, Steps, Closed, HasData, Chunks;
    var chunks := Written(crc, HeaderBytes(width, height, alpha), compressed);
    HeaderComesBack(width, height, alpha);
    FilesComeBack(chunks);
    WrittenIsStepped(crc, HeaderBytes(width, height, alpha), compressed);
    StepsFollowGrammar(crc, chunks);
  }

  lemma RowsAreAccepted(reader: Reader, png: Row, header: Header, lines: seq<Line>)
    requires WellLaid(reader.crc, png) && HeaderOf(Chunks(png).value[0].data) == Some(header)
    requires |lines| == header.height && LinesFit(lines, header.Stride())
    requires reader.inflate(Body(Chunks(png).value)) == Some(RasterOf(lines))
    ensures Accepts(reader, png, header, RasterOf(lines)) && Lines(header, RasterOf(lines)) == lines
  {
    hide WellLaid, HeaderOf, LinesOf, RasterOf, Body, Chunks, LinesFit, Header.Stride;
    RastersComeBack(lines, header.Stride());
  }

  /**
   Any image of an allowed size, filtered row by row in any way, compressed and
   written as the standard says, is accepted and read as that very image.
   */
  lemma WrittenImagesAreRead(
      reader: Reader, width: nat, height: nat, alpha: bool, rows: seq<Row>, kinds: seq<Sample>, compressed: Row)
    requires Sized(width, height) && (forall bytes :: reader.crc(bytes) < WORDS)
    requires var channels := if alpha then 4 else 3;
             && |rows| == |kinds| == height && Rectangular(rows, width * channels)
             && (forall y :: 0 <= y < height ==> kinds[y] <= 4)
             && compressed != [] && |compressed| < WORDS
             && reader.inflate(compressed) == Some(RasterOf(Encoded(channels, width * channels, rows, kinds)))
             && |FileOf(reader.crc, width, height, alpha, compressed)| <= 2 * 1024 * 1024
    ensures var channels := if alpha then 4 else 3;
            var header := Header(width, height, channels);
            var raster := RasterOf(Encoded(channels, width * channels, rows, kinds));
            && Accepts(reader, FileOf(reader.crc, width, height, alpha, compressed), header, raster)
            && Pixels(header, raster) == rows
  {
    hide FileOf, WellLaid, HeaderOf, Encoded, Decoded, Lines, RasterOf, Body, Chunks, Accepts, LinesFit, RightSize;
    var channels := if alpha then 4 else 3;
    FileIsLaid(reader.crc, width, height, alpha, compressed);
    RowsAreAccepted(reader, FileOf(reader.crc, width, height, alpha, compressed), Header(width, height, channels),
                    Encoded(channels, width * channels, rows, kinds));
    ImagesSurvive(channels, width * channels, rows, kinds);
  }
}
