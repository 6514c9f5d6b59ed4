/**
 The chunk layout that `image_generation.py` accepts, as the cursor loop checks
 it and as a grammar over the whole file.
 */
module PngChunks {
  import opened Prelude
  import opened PngRows

  datatype Chunk = Chunk(kind: Row, data: Row, sum: nat)

  datatype Header = Header(width: nat, height: nat, channels: nat) {
    function Stride(): nat { width * channels }
  }

  const SIGNATURE: Row := [0x89, 0x50, 0x4e, 0x47, 0x0d, 0x0a, 0x1a, 0x0a]
  const IHDR: Row := [73, 72, 68, 82]
  const PLTE: Row := [80, 76, 84, 69]
  const IDAT: Row := [73, 68, 65, 84]
  const IEND: Row := [73, 69, 78, 68]
  const ANIMATION: set<Row> := {[97, 99, 84, 76], [102, 99, 84, 76], [102, 100, 65, 84]}
  const CHUNKS: nat := 4096

  /** Big-endian 32-bit number. */
  function Word(bytes: Row, at: nat): nat
    requires at + 4 <= |bytes|
  {
    bytes[at] as int * 0x100_0000 + bytes[at + 1] as int * 0x1_0000 + bytes[at + 2] as int * 0x100
      + bytes[at + 3] as int
  }

  /** The chunks from `pos` to the end of the file; `None` when they do not end exactly there. */
  function SplitFrom(png: Row, pos: nat): Option<seq<Chunk>>
    requires pos <= |png|
    decreases |png| - pos
  {
    if pos == |png| then Some([])
    else if pos + 12 > |png| then None
    else
      var end := pos + 8 + Word(png, pos);
      if end + 4 > |png| then None
      else
        match SplitFrom(png, end + 4)
        case None => None
        case Some(chunks) => Some([Chunk(png[pos + 4..pos + 8], png[pos + 8..end], Word(png, end))] + chunks)
  }

  predicate Lower(b: Sample) { b as int / 32 % 2 == 1 }

  /** A reader may ignore chunks of this kind. */
  predicate Optional(kind: Row) { kind != [] && Lower(kind[0]) }

  predicate Named(kind: Row) {
    && |kind| == 4
    && (forall i :: 0 <= i < 4 ==> 65 <= kind[i] <= 90 || 97 <= kind[i] <= 122)
    && !Lower(kind[2]) && kind !in ANIMATION
  }

  predicate Intact(crc: Row -> nat, c: Chunk) { Named(c.kind) && crc(c.kind + c.data) == c.sum }

  function HeaderOf(data: Row): Option<Header> {
    if |data| != 13 then None
    else
      var width, height := Word(data, 0), Word(data, 4);
      if !(0 < width <= 8192 && 0 < height <= 8192 && width * height <= 16_777_216) then None
      else if data[8] != 8 || data[9] !in {2, 6} || data[10] != 0 || data[11] != 0 || data[12] != 0 then None
      else Some(Header(width, height, if data[9] == 2 then 3 else 4))
  }

  predicate Palette(data: Row) { 0 < |data| <= 768 && |data| % 3 == 0 }

  // ---- The cursor loop, chunk by chunk ----

  datatype Cursor = Cursor(
    chunks: nat, header: Option<Header>, ended: bool, bodyClosed: bool, idatSeen: bool, compressed: Row)

  const NewCursor := Cursor(0, None, false, false, false, [])

  function Step(crc: Row -> nat, s: Cursor, c: Chunk): Option<Cursor> {
    if s.ended || !Intact(crc, c) || s.chunks + 1 > CHUNKS then None
    else
      var n := s.(chunks := s.chunks + 1);
      if c.kind == IHDR then
        var header := HeaderOf(c.data);
        if n.chunks != 1 || header.None? then None else Some(n.(header := header))
      else if s.header.None? then None
      else if c.kind == IDAT then
        if s.bodyClosed then None else Some(n.(idatSeen := true, compressed := s.compressed + c.data))
      else
        var closed := n.(bodyClosed := s.bodyClosed || s.idatSeen);
        if c.kind == IEND then if c.data != [] || s.compressed == [] then None else Some(closed.(ended := true))
        else if c.kind == PLTE then if s.idatSeen || !Palette(c.data) then None else Some(closed)
        else if Optional(c.kind) then Some(closed) else None
  }

  function Steps(crc: Row -> nat, chunks: seq<Chunk>): Option<Cursor> {
    if chunks == [] then Some(NewCursor)
    else
      match Steps(crc, chunks[..|chunks| - 1])
      case None => None
      case Some(s) => Step(crc, s, chunks[|chunks| - 1])
  }

  // ---- The grammar ----

  /** The image data of these chunks. */
  function Body(chunks: seq<Chunk>): Row {
    if chunks == [] then []
    else
      var last := chunks[|chunks| - 1];
      Body(chunks[..|chunks| - 1]) + if last.kind == IDAT then last.data else []
  }

  ghost predicate HasData(chunks: seq<Chunk>) { exists i :: 0 <= i < |chunks| && chunks[i].kind == IDAT }

  /**
   The header comes first and only there; the end comes last; every other chunk
   is one the reader knows or may ignore.
   */
  ghost predicate Ordered(chunks: seq<Chunk>) {
    && (forall i :: 0 <= i < |chunks| ==> (chunks[i].kind == IHDR <==> i == 0))
    && (forall i :: 0 <= i < |chunks| && chunks[i].kind == IEND ==> i == |chunks| - 1)
    && (chunks != [] ==> HeaderOf(chunks[0].data).Some?)
    && (forall i :: 0 <= i < |chunks| && chunks[i].kind !in {IHDR, IDAT, IEND, PLTE} ==> Optional(chunks[i].kind))
  }

  /** The data chunks are contiguous, after any palette, and not empty before the end. */
  ghost predicate Contiguous(chunks: seq<Chunk>) {
    && (forall i, j, k :: 0 <= i < j < k < |chunks| && chunks[i].kind == IDAT && chunks[k].kind == IDAT ==>
          chunks[j].kind == IDAT)
    && (forall j :: 0 <= j < |chunks| && chunks[j].kind == PLTE ==> Palette(chunks[j].data) && !HasData(chunks[..j]))
    && (forall j :: 0 <= j < |chunks| && chunks[j].kind == IEND ==> chunks[j].data == [] && Body(chunks[..j]) != [])
  }

  ghost predicate WellFormed(crc: Row -> nat, chunks: seq<Chunk>) {
    && |chunks| <= CHUNKS
    && (forall i :: 0 <= i < |chunks| ==> Intact(crc, chunks[i]))
    && Ordered(chunks) && Contiguous(chunks)
  }

  /** Some chunk after a data chunk is not one. */
  ghost predicate Closed(chunks: seq<Chunk>) {
    exists i, j :: 0 <= i < j < |chunks| && chunks[i].kind == IDAT && chunks[j].kind != IDAT
  }

  /** What the cursor knows of the chunks behind it. */
  ghost predicate Knows(s: Cursor, chunks: seq<Chunk>) {
    && s.chunks == |chunks|
    && s.header == (if chunks == [] then None else HeaderOf(chunks[0].data))
    && (s.ended <==> chunks != [] && chunks[|chunks| - 1].kind == IEND)
    && (s.bodyClosed <==> Closed(chunks))
    && (s.idatSeen <==> HasData(chunks))
    && s.compressed == Body(chunks)
  }
}
