/**
 How a PNG file is laid out in bytes (section 3 of RFC 2083), as an encoder
 writes it, and that `image_generation.py` reads exactly that.
 */
module PngLayout {
  import opened Prelude
  import opened PngRows
  import opened PngChunks
  import opened Pngs

  const WORDS: nat := 0x1_0000_0000

  lemma Quotient(q: nat, digit: nat)
    requires digit < 256
    ensures (q * 256 + digit) / 256 == q && (q * 256 + digit) % 256 == digit
  {
  }

  lemma ByteQuotient(n: nat, bound: nat)
    requires n < bound * 256
    ensures n / 256 < bound && n == n / 256 * 256 + n % 256
  {
  }

  /** The four bytes of a number, most significant first. */
  function BigEndian(n: nat): (r: Row)
    requires n < WORDS
    ensures |r| == 4
  {
    var q := n / 256;
    var p := q / 256;
    ByteQuotient(n, 0x100_0000);
    ByteQuotient(q, 0x1_0000);
    ByteQuotient(p, 0x100);
    [p / 256, p % 256, q % 256, n % 256]
  }

  lemma Digits(n: nat)
    requires n < WORDS
    ensures var r := BigEndian(n); n == ((r[0] as int * 256 + r[1]) * 256 + r[2]) * 256 + r[3]
  {
    var q := n / 256;
    var p := q / 256;
    assert n == q * 256 + n % 256 && q == p * 256 + q % 256 && p == p / 256 * 256 + p % 256;
  }

  /** A number is read back from wherever its bytes stand. */
  lemma WordComesBack(before: Row, n: nat, after: Row)
    requires n < WORDS
    ensures Word(before + BigEndian(n) + after, |before|) == n
  {
    Digits(n);
    var s := before + BigEndian(n) + after;
    assert forall i :: 0 <= i < 4 ==> s[|before| + i] == BigEndian(n)[i];
  }

  lemma DigitsAreUnique(a: Sample, b: Sample, c: Sample, d: Sample)
    ensures var n := ((a as int * 256 + b) * 256 + c) * 256 + d;
            0 <= n < WORDS && BigEndian(n) == [a, b, c, d]
  {
    var p: nat := a as int * 256 + b;
    var q: nat := p * 256 + c;
    Quotient(a, b);
    Quotient(p, c);
    Quotient(q, d);
  }

  lemma WordIsWritten(bytes: Row, at: nat)
    requires at + 4 <= |bytes|
    ensures Word(bytes, at) < WORDS && BigEndian(Word(bytes, at)) == bytes[at..at + 4]
  {
    hide BigEndian;
    DigitsAreUnique(bytes[at], bytes[at + 1], bytes[at + 2], bytes[at + 3]);
    assert bytes[at..at + 4] == [bytes[at], bytes[at + 1], bytes[at + 2], bytes[at + 3]];
  }

  // ---- Chunks ----

  predicate Writable(c: Chunk) { |c.kind| == 4 && |c.data| < WORDS && c.sum < WORDS }

  function ChunkBytes(c: Chunk): (r: Row)
    requires Writable(c)
    ensures |r| == 12 + |c.data|
  {
    BigEndian(|c.data|) + c.kind + c.data + BigEndian(c.sum)
  }

  function Laid(chunks: seq<Chunk>): Row
    requires forall i :: 0 <= i < |chunks| ==> Writable(chunks[i])
  {
    if chunks == [] then [] else ChunkBytes(chunks[0]) + Laid(chunks[1..])
  }

  /** One chunk is cut out of the bytes around it. */
  lemma ChunkComesBack(before: Row, c: Chunk, after: Row)
    requires Writable(c)
    ensures var png := before + ChunkBytes(c) + after;
            var pos := |before|;
            && pos + 12 <= |png| && Word(png, pos) == |c.data|
            && var end := pos + 8 + |c.data|;
               && end + 4 == pos + |ChunkBytes(c)| <= |png| && Word(png, end) == c.sum
               && png[pos + 4..pos + 8] == c.kind && png[pos + 8..end] == c.data
  {
    var png, pos := before + ChunkBytes(c) + after, |before|;
    var end := pos + 8 + |c.data|;
    WordComesBack(before, |c.data|, c.kind + c.data + BigEndian(c.sum) + after);
    assert png == before + BigEndian(|c.data|) + (c.kind + c.data + BigEndian(c.sum) + after);
    WordComesBack(before + BigEndian(|c.data|) + c.kind + c.data, c.sum, after);
    assert png == (before + BigEndian(|c.data|) + c.kind + c.data) + BigEndian(c.sum) + after;
  }

  lemma SplitMore(before: Row, c: Chunk, after: Row, chunks: seq<Chunk>)
    requires Writable(c) && SplitFrom(before + ChunkBytes(c) + after, |before + ChunkBytes(c)|) == Some(chunks)
    ensures SplitFrom(before + ChunkBytes(c) + after, |before|) == Some([c] + chunks)
  {
    hide Word, BigEndian, ChunkBytes;
    ChunkComesBack(before, c, after);
  }

  lemma {:induction false} LaidComesBack(before: Row, chunks: seq<Chunk>)
    requires forall i :: 0 <= i < |chunks| ==> Writable(chunks[i])
    ensures SplitFrom(before + Laid(chunks), |before|) == Some(chunks)
    decreases |chunks|
  {
    hide Word, BigEndian, ChunkBytes, SplitFrom;
    if chunks == [] {
      assert before + [] == before;
      AtEnd(before);
    } else {
      var c, more := chunks[0], Laid(chunks[1..]);
      LaidComesBack(before + ChunkBytes(c), chunks[1..]);
      SplitMore(before, c, more, chunks[1..]);
      assert before + Laid(chunks) == before + ChunkBytes(c) + more;
      assert chunks == [c] + chunks[1..];
    }
  }

  /** A file that is laid out by the standard is read as the chunks it was written from. */
  lemma FilesComeBack(chunks: seq<Chunk>)
    requires forall i :: 0 <= i < |chunks| ==> Writable(chunks[i])
    ensures Chunks(SIGNATURE + Laid(chunks)) == Some(chunks)
  {
    LaidComesBack(SIGNATURE, chunks);
  }

  lemma {:induction false} SplitIsLaid(png: Row, pos: nat)
    requires pos <= |png| && SplitFrom(png, pos).Some?
    ensures forall i :: 0 <= i < |SplitFrom(png, pos).value| ==> Writable(SplitFrom(png, pos).value[i])
    ensures png[pos..] == Laid(SplitFrom(png, pos).value)
    decreases |png| - pos
  {
    hide Word, BigEndian;
    if pos < |png| {
      WordIsWritten(png, pos);
      var end := pos + 8 + Word(png, pos);
      WordIsWritten(png, end);
      var c := Chunk(png[pos + 4..pos + 8], png[pos + 8..end], Word(png, end));
      SplitIsLaid(png, end + 4);
      var chunks := SplitFrom(png, pos).value;
      assert chunks[0] == c && chunks[1..] == SplitFrom(png, end + 4).value;
      assert png[pos..] == png[pos..pos + 4] + c.kind + c.data + png[end..end + 4] + png[end + 4..];
    }
  }

  /**
   The files that split into chunks are exactly those that the standard lays
   out: nothing is skipped, shared, or left over.
   */
  lemma OnlyLaidFilesSplit(png: Row)
    requires SIGNATURE <= png && Chunks(png).Some?
    ensures forall i :: 0 <= i < |Chunks(png).value| ==> Writable(Chunks(png).value[i])
    ensures png == SIGNATURE + Laid(Chunks(png).value)
  {
    SplitIsLaid(png, 8);
    assert png == png[..8] + png[8..];
  }

  // ---- The header ----

  /** Eight bits a sample, true colour with or without alpha, no interlacing. */
  function HeaderBytes(width: nat, height: nat, alpha: bool): (r: Row)
    requires width < WORDS && height < WORDS
    ensures |r| == 13
  {
    BigEndian(width) + BigEndian(height) + [8, if alpha then 6 else 2, 0, 0, 0]
  }

  /** An image of these dimensions is neither empty nor too large. */
  predicate Sized(width: nat, height: nat) {
    1 <= width <= 8192 && 1 <= height <= 8192 && width * height <= 16_777_216
  }

  lemma HeaderComesBack(width: nat, height: nat, alpha: bool)
    requires width < WORDS && height < WORDS
    ensures HeaderOf(HeaderBytes(width, height, alpha))
            == if Sized(width, height) then Some(Header(width, height, if alpha then 4 else 3)) else None
  {
    hide BigEndian, Word;
    var data := HeaderBytes(width, height, alpha);
    WordComesBack([], width, BigEndian(height) + data[8..]);
    WordComesBack(BigEndian(width), height, data[8..]);
    assert data == [] + BigEndian(width) + (BigEndian(height) + data[8..]);
    assert data == BigEndian(width) + BigEndian(height) + data[8..];
  }

  /** The headers that are read are exactly those of true-colour images of an allowed size. */
  lemma OnlySuchHeaders(data: Row)
    ensures HeaderOf(data).Some? <==>
              exists width, height, alpha :: Sized(width, height) && data == HeaderBytes(width, height, alpha)
  {
    hide BigEndian, Word;
    if HeaderOf(data).Some? {
      WordIsWritten(data, 0);
      WordIsWritten(data, 4);
      var header := HeaderOf(data).value;
      assert data[8..] == [8, if header.channels == 4 then 6 else 2, 0, 0, 0];
      assert data == data[0..4] + data[4..8] + data[8..];
      assert Sized(header.width, header.height)
        && data == HeaderBytes(header.width, header.height, header.channels == 4);
    }
    forall width, height, alpha | Sized(width, height) && data == HeaderBytes(width, height, alpha)
      ensures HeaderOf(data).Some?
    {
      HeaderComesBack(width, height, alpha);
    }
  }

  /**
   Every chunk of an accepted file carries the checksum of its type and data and
   has a type of four letters, the third of them a capital; the file and its
   chunks are within the limits.
   */
  lemma AcceptedChunksAreIntact(crc: Row -> nat, png: Row, i: nat)
    requires WellLaid(crc, png) && i < |Chunks(png).value|
    ensures var c := Chunks(png).value[i];
            && c.sum == crc(c.kind + c.data)
            && |png| <= 2 * 1024 * 1024 && |Chunks(png).value| <= 4096
            && |c.kind| == 4 && 'A' as int <= c.kind[2] <= 'Z' as int
            && forall j :: 0 <= j < 4 ==>
                 'A' as int <= c.kind[j] <= 'Z' as int || 'a' as int <= c.kind[j] <= 'z' as int
  {
    hide WellFormed, Chunks, Word, Lower;
    var c := Chunks(png).value[i];
    ChunksAreIntact(crc, Chunks(png).value, i);
    if 'a' as int <= c.kind[2] <= 'z' as int {
      SmallLetter(c.kind[2]);
    }
  }

  lemma ChunksAreIntact(crc: Row -> nat, chunks: seq<Chunk>, i: nat)
    requires WellFormed(crc, chunks) && i < |chunks|
    ensures Intact(crc, chunks[i]) && |chunks| <= 4096
  {
    hide Intact, Ordered, Contiguous;
  }

  lemma SmallLetter(b: Sample)
    requires 97 <= b <= 122
    ensures Lower(b)
  {
    assert b as int / 32 == 3;
  }
}
