/** The cursor loop of `PngChunks` accepts exactly the files of its grammar. */
module PngGrammar {
  import opened PngRows
  import opened PngChunks

  lemma HasMore(chunks: seq<Chunk>, c: Chunk)
    ensures HasData(chunks + [c]) <==> HasData(chunks) || c.kind == IDAT
    ensures Closed(chunks + [c]) <==> Closed(chunks) || (HasData(chunks) && c.kind != IDAT)
    ensures Body(chunks + [c]) == Body(chunks) + if c.kind == IDAT then c.data else []
  {
    var more := chunks + [c];
    assert more[..|chunks|] == chunks && more[|chunks|] == c;
    assert forall i :: 0 <= i < |chunks| ==> more[i] == chunks[i];
  }

  lemma PrefixOf(chunks: seq<Chunk>, c: Chunk, j: nat)
    requires j <= |chunks|
    ensures (chunks + [c])[..j] == chunks[..j]
  {
  }

  /** One more chunk keeps the order in exactly these cases. */
  lemma OrderedMore(chunks: seq<Chunk>, c: Chunk)
    ensures Ordered(chunks + [c]) <==>
              && Ordered(chunks) && (chunks != [] ==> chunks[|chunks| - 1].kind != IEND)
              && (c.kind == IHDR <==> chunks == [])
              && (chunks == [] ==> HeaderOf(c.data).Some?)
              && (c.kind !in {IHDR, IDAT, IEND, PLTE} ==> Optional(c.kind))
  {
    var more := chunks + [c];
    assert more[|chunks|] == c && forall i :: 0 <= i < |chunks| ==> more[i] == chunks[i];
  }

  lemma ContiguousMore(chunks: seq<Chunk>, c: Chunk)
    ensures Contiguous(chunks + [c]) <==>
              && Contiguous(chunks)
              && (c.kind == IDAT ==> !Closed(chunks))
              && (c.kind == PLTE ==> Palette(c.data) && !HasData(chunks))
              && (c.kind == IEND ==> c.data == [] && Body(chunks) != [])
  {
    var more := chunks + [c];
    assert more[|chunks|] == c && forall i :: 0 <= i < |chunks| ==> more[i] == chunks[i];
    forall j | 0 <= j <= |chunks| ensures more[..j] == chunks[..j] {
      PrefixOf(chunks, c, j);
    }
    assert chunks[..|chunks|] == chunks;
  }

  lemma WellFormedMore(crc: Row -> nat, chunks: seq<Chunk>, c: Chunk)
    ensures WellFormed(crc, chunks + [c]) <==>
              && WellFormed(crc, chunks) && |chunks| + 1 <= CHUNKS && Intact(crc, c)
              && Ordered(chunks + [c]) && Contiguous(chunks + [c])
  {
    hide Ordered, Contiguous, Intact;
    var more := chunks + [c];
    OrderedMore(chunks, c);
    ContiguousMore(chunks, c);
    assert more[|chunks|] == c;
    assert forall i :: 0 <= i < |chunks| ==> chunks[i] == more[i];
    assert forall i :: 0 <= i < |more| ==> more[i] == if i < |chunks| then chunks[i] else c;
    assert (forall i :: 0 <= i < |more| ==> Intact(crc, more[i]))
           <==> (forall i :: 0 <= i < |chunks| ==> Intact(crc, chunks[i])) && Intact(crc, c);
  }

  lemma KindsDiffer()
    ensures IHDR != IDAT && IHDR != IEND && IHDR != PLTE && IDAT != IEND && IDAT != PLTE && IEND != PLTE
  {
    assert IHDR[1] == 72 && IDAT[1] == 68 && IEND[1] == 69 && PLTE[1] == 76;
  }

  /** The cursor accepts a chunk exactly when the grammar goes on with it, and still knows what is behind it. */
  lemma StepFollowsGrammar(crc: Row -> nat, s: Cursor, chunks: seq<Chunk>, c: Chunk)
    requires WellFormed(crc, chunks) && Knows(s, chunks)
    ensures Step(crc, s, c).Some? <==> WellFormed(crc, chunks + [c])
    ensures Step(crc, s, c).Some? ==> Knows(Step(crc, s, c).value, chunks + [c])
  {
    hide Intact, Closed, Body, Contiguous;
    KindsDiffer();
    WellFormedMore(crc, chunks, c);
    OrderedMore(chunks, c);
    ContiguousMore(chunks, c);
    HasMore(chunks, c);
    assert chunks != [] ==> (chunks + [c])[0] == chunks[0];
    assert (chunks + [c])[|chunks|] == c;
  }

  /** The cursor loop accepts exactly the grammar. */
  lemma {:induction false} StepsFollowGrammar(crc: Row -> nat, chunks: seq<Chunk>)
    ensures Steps(crc, chunks).Some? <==> WellFormed(crc, chunks)
    ensures Steps(crc, chunks).Some? ==> Knows(Steps(crc, chunks).value, chunks)
  {
    if chunks != [] {
      var init, last := chunks[..|chunks| - 1], chunks[|chunks| - 1];
      assert init + [last] == chunks;
      StepsFollowGrammar(crc, init);
      if Steps(crc, init).Some? {
        StepFollowsGrammar(crc, Steps(crc, init).value, init, last);
      } else {
        WellFormedMore(crc, init, last);
      }
    }
  }
}
