/** `inspect_png` of `image_generation.py`: which files it accepts, and what it counts in them. */
module Pngs {
  import opened Prelude
  import opened PngRows
  import opened PngChunks
  import opened PngGrammar

  /** The chunks of a file after its signature. */
  function Chunks(png: Row): Option<seq<Chunk>> { if |png| < 8 then None else SplitFrom(png, 8) }

  lemma {:induction false} StepsPrefix(crc: Row -> nat, chunks: seq<Chunk>, n: nat)
    requires n <= |chunks| && Steps(crc, chunks[..n]).None?
    ensures Steps(crc, chunks).None?
    decreases |chunks|
  {
    if n < |chunks| {
      assert chunks[..|chunks| - 1][..n] == chunks[..n];
      StepsPrefix(crc, chunks[..|chunks| - 1], n);
    } else {
      assert chunks[..n] == chunks;
    }
  }

  /** One turn of the cursor loop on a chunk that lies inside the file. */
  lemma OneChunk(crc: Row -> nat, png: Row, pos: nat, seen: seq<Chunk>, s: Cursor)
    requires pos + 12 <= |png| && pos + 12 + Word(png, pos) <= |png| && Steps(crc, seen) == Some(s)
    ensures var end := pos + 8 + Word(png, pos);
            var c := Chunk(png[pos + 4..pos + 8], png[pos + 8..end], Word(png, end));
            && Steps(crc, seen + [c]) == Step(crc, s, c)
            && (SplitFrom(png, pos).Some? <==> SplitFrom(png, end + 4).Some?)
            && (SplitFrom(png, pos).Some? ==> SplitFrom(png, pos).value == [c] + SplitFrom(png, end + 4).value)
  {
    hide Step;
    var end := pos + 8 + Word(png, pos);
    var c := Chunk(png[pos + 4..pos + 8], png[pos + 8..end], Word(png, end));
    assert (seen + [c])[..|seen|] == seen;
  }

  lemma NoChunk(png: Row, pos: nat)
    requires pos < |png| && (pos + 12 > |png| || pos + 12 + Word(png, pos) > |png|)
    ensures SplitFrom(png, pos).None?
  {
    hide Word;
  }

  lemma StartSteps(crc: Row -> nat)
    ensures Steps(crc, []) == Some(NewCursor)
  {
  }

  lemma AtEnd(png: Row)
    ensures SplitFrom(png, |png|) == Some([])
  {
  }

  /** The cursor loop: it moves on by at least twelve bytes a turn, and accepts exactly the well-formed chunk lists. */
  method ReadChunks(crc: Row -> nat, png: Row) returns (r: Option<Cursor>)
    requires |png| >= 8
    ensures r == match Chunks(png) case None => None case Some(chunks) => Steps(crc, chunks)
  {
    hide Step, Word, SplitFrom, Steps;
    StartSteps(crc);
    var pos, cursor := 8, NewCursor;
    ghost var seen := [];
    while pos < |png|
      invariant 8 <= pos <= |png|
      invariant Steps(crc, seen) == Some(cursor)
      invariant Chunks(png).Some? <==> SplitFrom(png, pos).Some?
      invariant Chunks(png).Some? ==> Chunks(png).value == seen + SplitFrom(png, pos).value
      decreases |png| - pos
    {
      if pos + 12 > |png| {
        NoChunk(png, pos);
        return None;
      }
      var end := pos + 8 + Word(png, pos);
      if end + 4 > |png| {
        NoChunk(png, pos);
        return None;
      }
      var c := Chunk(png[pos + 4..pos + 8], png[pos + 8..end], Word(png, end));
      var next := Step(crc, cursor, c);
      OneChunk(crc, png, pos, seen, cursor);
      seen := seen + [c];
      if next.None? {
        if Chunks(png).Some? {
          assert Chunks(png).value[..|seen|] == seen;
          StepsPrefix(crc, Chunks(png).value, |seen|);
        }
        return None;
      }
      cursor := next.value;
      pos := end + 4;
    }
    AtEnd(png);
    assert seen + [] == seen;
    r := Some(cursor);
  }

  datatype Facts = Facts(width: nat, height: nat, contentOk: bool)

  /** `inflate` answers the data of a complete zlib stream and nothing else. */
  datatype Reader = Reader(crc: Row -> nat, inflate: Row -> Option<Row>)

  /** Size, signature, and a complete well-formed list of chunks that ends where the file ends. */
  ghost predicate WellLaid(crc: Row -> nat, png: Row) {
    && |png| <= 0x20_0000 && SIGNATURE <= png && Chunks(png).Some?
    && var chunks := Chunks(png).value;
       WellFormed(crc, chunks) && chunks != [] && chunks[|chunks| - 1].kind == IEND
  }

  predicate RightSize(header: Header, raster: Row) { |raster| == header.height * (header.Stride() + 1) }

  /** The stored rows of a raster. */
  function Lines(header: Header, raster: Row): seq<Line>
    requires RightSize(header, raster)
  {
    LinesOf(raster, header.Stride(), header.height)
  }

  /**
   What makes a file acceptable: its layout, and a raster of the size that the
   header announces with known filters.
   */
  ghost predicate Accepts(reader: Reader, png: Row, header: Header, raster: Row) {
    && WellLaid(reader.crc, png)
    && HeaderOf(Chunks(png).value[0].data) == Some(header)
    && reader.inflate(Body(Chunks(png).value)) == Some(raster)
    && RightSize(header, raster) && LinesFit(Lines(header, raster), header.Stride())
  }

  /** The rows of an accepted image. */
  function Pixels(header: Header, raster: Row): seq<Row>
    requires header.channels > 0 && RightSize(header, raster) && LinesFit(Lines(header, raster), header.Stride())
  {
    Decoded(header.channels, header.Stride(), Lines(header, raster))
  }

  /** Enough of the image shows the colour: one pixel in a hundred, and at least one. */
  ghost predicate Colored(blue: bool, header: Header, rows: seq<Row>)
    requires 3 <= header.channels <= 4
  {
    var needed := header.width * header.height / 100;
    Shown(blue, header.channels, rows) >= if needed > 1 then needed else 1
  }

  /** Some pixel shows the colour, and so does one in each full hundred of them. */
  lemma ColoredMeans(blue: bool, header: Header, rows: seq<Row>)
    requires 3 <= header.channels <= 4
    ensures Colored(blue, header, rows) <==>
              var shown := Shown(blue, header.channels, rows);
              shown >= 1 && 100 * shown + 99 >= header.width * header.height
  {
    hide Shown;
    var pixels := header.width * header.height;
    assert pixels == pixels / 100 * 100 + pixels % 100;
  }

  lemma HeaderChannels(data: Row)
    requires HeaderOf(data).Some?
    ensures 3 <= HeaderOf(data).value.channels <= 4
  {
  }

  lemma RasterLines(raster: Row, stride: nat, height: nat)
    requires |raster| == height * (stride + 1)
    ensures forall y :: 0 <= y < height ==> |LinesOf(raster, stride, height)[y].stored| == stride
  {
    forall y | 0 <= y < height ensures |LinesOf(raster, stride, height)[y].stored| == stride {
      RowIsInside(stride, y, height);
    }
  }

  /** The chunk half of `inspect_png`. */
  method ReadBody(reader: Reader, png: Row) returns (header: Option<Header>, compressed: Row)
    ensures header.Some? <==> WellLaid(reader.crc, png)
    ensures header.Some? ==> HeaderOf(Chunks(png).value[0].data) == header && compressed == Body(Chunks(png).value)
  {
    hide WellFormed, Steps, HeaderOf, Body, Closed, HasData, SplitFrom;
    if |png| > 0x20_0000 || !(SIGNATURE <= png) {
      return None, [];
    }
    var cursor := ReadChunks(reader.crc, png);
    if Chunks(png).Some? {
      StepsFollowGrammar(reader.crc, Chunks(png).value);
    }
    if cursor.None? || !cursor.value.ended || cursor.value.header.None? {
      if WellLaid(reader.crc, png) {
        HasHeader(reader.crc, Chunks(png).value);
      }
      return None, [];
    }
    header, compressed := cursor.value.header, cursor.value.compressed;
  }

  lemma HasHeader(crc: Row -> nat, chunks: seq<Chunk>)
    requires WellFormed(crc, chunks) && chunks != []
    ensures HeaderOf(chunks[0].data).Some?
  {
  }

  /** `inspect_png`: it answers exactly for the acceptable files, and counts in the image that they hold. */
  method InspectPng(reader: Reader, png: Row, blue: bool) returns (r: Option<Facts>)
    ensures r.Some? <==> exists header, raster :: Accepts(reader, png, header, raster)
    ensures forall header, raster :: Accepts(reader, png, header, raster) ==>
              && 3 <= header.channels <= 4
              && r == Some(Facts(header.width, header.height, Colored(blue, header, Pixels(header, raster))))
  {
    hide WellFormed, HeaderOf, Body, Shown, LinesOf, Decoded, Chunks;
    var found, compressed := ReadBody(reader, png);
    if found.None? {
      return None;
    }
    var header := found.value;
    HeaderChannels(Chunks(png).value[0].data);
    var raster := reader.inflate(compressed);
    if raster.None? || !RightSize(header, raster.value) {
      return None;
    }
    RasterLines(raster.value, header.Stride(), header.height);
    var ok, colored := CountColored(blue, header.channels, header.Stride(), Lines(header, raster.value));
    if !ok {
      return None;
    }
    var needed := header.width * header.height / 100;
    assert Accepts(reader, png, header, raster.value);
    r := Some(Facts(header.width, header.height, colored >= if needed > 1 then needed else 1));
  }

  /** A file that holds an image filtered by the standard, in any way, is read as that image. */
  lemma StandardImagesAreRead(reader: Reader, png: Row, header: Header, raster: Row, rows: seq<Row>, kinds: seq<Sample>)
    requires 3 <= header.channels && Accepts(reader, png, header, raster)
    requires Rectangular(rows, header.Stride()) && |kinds| == |rows| && (forall y :: 0 <= y < |kinds| ==> kinds[y] <= 4)
    requires Lines(header, raster) == Encoded(header.channels, header.Stride(), rows, kinds)
    ensures Pixels(header, raster) == rows
  {
    hide WellLaid, Lines, Decoded;
    ImagesSurvive(header.channels, header.Stride(), rows, kinds);
  }
}
