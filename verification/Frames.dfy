/**
 Splitting a text stream into frames at blank lines, with bounded buffering
 (`wire.py`): a buffer that is fed pieces of the text, against a parser that
 sees the whole text at once.
 */
module Frames {
  import opened Prelude

  // ---- Widths ----

  /** Bytes of one character in UTF-8. */
  function CharWidth(c: char): nat {
    if c as int < 0x80 then 1 else if c as int < 0x800 then 2 else if c as int < 0x1_0000 then 3 else 4
  }

  function Power(base: nat, exponent: nat): nat { if exponent == 0 then 1 else base * Power(base, exponent - 1) }

  /**
   A character takes as few bytes as hold its bits: seven in one byte, and in `n`
   bytes, of two to four, `5n + 1` (section 3 of RFC 3629).
   */
  lemma WidthHoldsBits(c: char, n: nat)
    requires 2 <= n <= 4
    ensures CharWidth(c) <= n <==> (c as int) < Power(2, 5 * n + 1)
    ensures CharWidth(c) == 1 <==> (c as int) < Power(2, 7)
    ensures 1 <= CharWidth(c) <= 4
  {
    assert Power(2, 7) == 0x80;
    assert Power(2, 11) == 0x800;
    assert Power(2, 16) == 0x1_0000;
    assert Power(2, 21) == 0x20_0000;
  }

  function Width(s: string): nat {
    if s == [] then 0 else Width(s[..|s| - 1]) + CharWidth(s[|s| - 1])
  }

  lemma {:induction false} WidthAppend(a: string, b: string)
    ensures Width(a + b) == Width(a) + Width(b)
  {
    if b == [] {
      assert a + b == a;
    } else {
      WidthAppend(a, b[..|b| - 1]);
      assert (a + b)[..|a + b| - 1] == a + b[..|b| - 1];
    }
  }

  // ---- Delimiters ----

  /** Length of the match of `\r?\n\r?\n` that begins at `i`; 0 when none does. */
  function DelimiterAt(s: string, i: nat): (n: nat)
    ensures n > 0 ==> 2 <= n <= 4 && i + n <= |s|
  {
    var first := if i < |s| && s[i] == '\r' then i + 1 else i;
    if first >= |s| || s[first] != '\n' then 0
    else
      var second := if first + 1 < |s| && s[first + 1] == '\r' then first + 2 else first + 1;
      if second < |s| && s[second] == '\n' then second + 1 - i else 0
  }

  function FirstFrom(s: string, i: nat): (r: Option<nat>)
    requires i <= |s|
    decreases |s| - i
    ensures r.Some? ==> i <= r.value < |s| && DelimiterAt(s, r.value) > 0
    ensures r.Some? ==> forall j :: i <= j < r.value ==> DelimiterAt(s, j) == 0
    ensures r.None? ==> forall j :: i <= j < |s| ==> DelimiterAt(s, j) == 0
  {
    if i == |s| then None else if DelimiterAt(s, i) > 0 then Some(i) else FirstFrom(s, i + 1)
  }

  /** The leftmost match. */
  function First(s: string): Option<nat> { FirstFrom(s, 0) }

  /** More text does not change a match that is complete. */
  lemma CompleteMatch(s: string, t: string, i: nat)
    requires DelimiterAt(s, i) > 0
    ensures DelimiterAt(s + t, i) == DelimiterAt(s, i)
  {
  }

  /** A match that only the longer text has reaches into the added text. */
  lemma LateMatch(s: string, t: string, i: nat)
    requires DelimiterAt(s, i) == 0 && DelimiterAt(s + t, i) > 0
    ensures i + DelimiterAt(s + t, i) > |s|
  {
  }

  /** Two line feeds end a match: one match cannot reach over another that begins later. */
  lemma MatchesDoNotNest(s: string, i: nat, j: nat)
    requires i < j && DelimiterAt(s, i) > 0 && DelimiterAt(s, j) > 0
    ensures i + DelimiterAt(s, i) <= j + DelimiterAt(s, j)
  {
  }

  lemma FirstIs(s: string, i: nat)
    requires i < |s| && DelimiterAt(s, i) > 0 && forall j :: 0 <= j < i ==> DelimiterAt(s, j) == 0
    ensures First(s) == Some(i)
  {
  }

  /** The first delimiter of a prefix is the first delimiter of the whole. */
  lemma FirstIsStable(s: string, t: string)
    requires First(s).Some?
    ensures First(s + t) == First(s) && DelimiterAt(s + t, First(s).value) == DelimiterAt(s, First(s).value)
  {
    var i := First(s).value;
    CompleteMatch(s, t, i);
    forall j | 0 <= j < i ensures DelimiterAt(s + t, j) == 0 {
      if DelimiterAt(s + t, j) > 0 {
        LateMatch(s, t, j);
        MatchesDoNotNest(s + t, j, i);
      }
    }
    FirstIs(s + t, i);
  }

  /** A delimiter that is complete only with more text began at most three line-end characters before it. */
  lemma PartialDelimiter(s: string, t: string)
    requires First(s).None? && First(s + t).Some?
    ensures First(s + t).value + 3 >= |s|
    ensures forall k :: First(s + t).value <= k < |s| ==> CharWidth(s[k]) == 1
  {
    var i := First(s + t).value;
    if i < |s| {
      LateMatch(s, t, i);
    }
    assert forall k :: i <= k < i + DelimiterAt(s + t, i) ==> (s + t)[k] in ['\r', '\n'];
  }

  lemma {:induction false} NarrowTail(s: string, n: nat)
    requires n <= |s| && forall k :: n <= k < |s| ==> CharWidth(s[k]) == 1
    ensures Width(s) == Width(s[..n]) + |s| - n
  {
    if n < |s| {
      var init := s[..|s| - 1];
      NarrowTail(init, n);
      assert init[..n] == s[..n];
    } else {
      assert s[..n] == s;
    }
  }

  // ---- The buffer ----

  /** The limits, and what a complete frame does to the consumer's state; `None` rejects the stream. */
  datatype Rules<!G> = Rules(frameBytes: nat, slack: nat, frameCount: nat, take: (G, string) -> Option<G>)

  datatype Buffer<G> = Buffer(pending: string, frames: nat, progress: G)

  datatype Piece = Piece(frame: string, rest: string)

  /** The first frame of a text, and what follows its delimiter. */
  function Cut(text: string): (r: Option<Piece>)
    ensures r.Some? ==> |r.value.rest| < |text|
    ensures r.None? <==> First(text).None?
  {
    match First(text)
    case None => None
    case Some(i) => Some(Piece(text[..i], text[i + DelimiterAt(text, i)..]))
  }

  /** More text leaves a complete frame as it is. */
  lemma CutIsStable(text: string, more: string)
    requires Cut(text).Some?
    ensures Cut(text + more) == Some(Cut(text).value.(rest := Cut(text).value.rest + more))
  {
    FirstIsStable(text, more);
    var i := First(text).value;
    var n := i + DelimiterAt(text, i);
    assert (text + more)[..i] == text[..i];
    assert (text + more)[n..] == text[n..] + more;
  }

  /** The loop that takes every complete frame out of the pending text. */
  function Drain<G>(rules: Rules<G>, b: Buffer<G>): (r: Option<Buffer<G>>)
    decreases |b.pending|
    ensures r.Some? ==> First(r.value.pending).None?
  {
    match Cut(b.pending)
    case None => Some(b)
    case Some(piece) =>
      match TakeFrame(rules, b, piece)
      case None => None
      case Some(next) => Drain(rules, next)
  }

  /** One turn of the loop: the limits, then the frame. */
  function TakeFrame<G>(rules: Rules<G>, b: Buffer<G>, piece: Piece): (r: Option<Buffer<G>>)
    ensures r.Some? ==> r.value.pending == piece.rest
  {
    if Width(piece.frame) > rules.frameBytes || b.frames + 1 > rules.frameCount then None
    else
      match rules.take(b.progress, piece.frame)
      case None => None
      case Some(progress) => Some(Buffer(piece.rest, b.frames + 1, progress))
  }

  /** What is left must leave room for no more than a frame and a partial delimiter. */
  function Bounded<G>(rules: Rules<G>, r: Option<Buffer<G>>): Option<Buffer<G>> {
    if r.Some? && Width(r.value.pending) <= rules.frameBytes + rules.slack then r else None
  }

  function More<G>(b: Buffer<G>, text: string): Buffer<G> { b.(pending := b.pending + text) }

  /** One push of decoded text. */
  function Accept<G>(rules: Rules<G>, b: Buffer<G>, text: string): Option<Buffer<G>> {
    Bounded(rules, Drain(rules, More(b, text)))
  }

  function Feed<G>(rules: Rules<G>, b: Buffer<G>, texts: seq<string>): Option<Buffer<G>> {
    if texts == [] then Some(b)
    else
      match Feed(rules, b, texts[..|texts| - 1])
      case None => None
      case Some(before) => Accept(rules, before, texts[|texts| - 1])
  }

  // ---- The whole-stream parser ----

  function FramesOf(text: string): seq<string>
    decreases |text|
  {
    match Cut(text)
    case None => []
    case Some(piece) => [piece.frame] + FramesOf(piece.rest)
  }

  function RestOf(text: string): string
    decreases |text|
  {
    match Cut(text)
    case None => text
    case Some(piece) => RestOf(piece.rest)
  }

  /** The delimiters between the frames. */
  function GapsOf(text: string): seq<string>
    decreases |text|
  {
    match Cut(text)
    case None => []
    case Some(piece) => [text[|piece.frame|..|text| - |piece.rest|]] + GapsOf(piece.rest)
  }

  function Interleave(frames: seq<string>, gaps: seq<string>, rest: string): string
    requires |frames| == |gaps|
  {
    if frames == [] then rest else frames[0] + gaps[0] + Interleave(frames[1..], gaps[1..], rest)
  }

  const Delimiters := {"\n\n", "\n\r\n", "\r\n\n", "\r\n\r\n"}

  lemma GapIsDelimiter(text: string, i: nat)
    requires DelimiterAt(text, i) > 0
    ensures text[i..i + DelimiterAt(text, i)] in Delimiters
  {
    var n := DelimiterAt(text, i);
    var gap := text[i..i + n];
    assert gap == if n == 2 then "\n\n" else if n == 4 then "\r\n\r\n"
      else if gap[0] == '\r' then "\r\n\n" else "\n\r\n";
  }

  lemma ThreeParts<T>(s: seq<T>, i: nat, j: nat)
    requires i <= j <= |s|
    ensures |s| - |s[j..]| == j && s == s[..i] + s[i..j] + s[j..]
  {
  }

  /** Nothing before the first delimiter is one. */
  lemma FrameIsUnbroken(text: string, i: nat)
    requires First(text) == Some(i)
    ensures First(text[..i]).None?
  {
    var frame, rest := text[..i], text[i..];
    assert frame + rest == text;
    forall j | 0 <= j < i ensures DelimiterAt(frame, j) == 0 {
      if DelimiterAt(frame, j) > 0 {
        CompleteMatch(frame, rest, j);
      }
    }
  }

  lemma CutIsPart(text: string)
    requires Cut(text).Some?
    ensures var piece := Cut(text).value;
            && |piece.frame| + |piece.rest| <= |text|
            && var gap := text[|piece.frame|..|text| - |piece.rest|];
               gap in Delimiters && text == piece.frame + gap + piece.rest && First(piece.frame).None?
  {
    var i := First(text).value;
    ThreeParts(text, i, i + DelimiterAt(text, i));
    GapIsDelimiter(text, i);
    FrameIsUnbroken(text, i);
  }

  /** Splitting loses nothing and leaves no blank line inside a frame or in what remains. */
  lemma {:induction false} SplittingIsExact(text: string)
    ensures |GapsOf(text)| == |FramesOf(text)| && Interleave(FramesOf(text), GapsOf(text), RestOf(text)) == text
    ensures forall gap :: gap in GapsOf(text) ==> gap in Delimiters
    ensures forall frame :: frame in FramesOf(text) ==> First(frame).None?
    ensures First(RestOf(text)).None?
    decreases |text|
  {
    if Cut(text).Some? {
      var piece := Cut(text).value;
      CutIsPart(text);
      SplittingIsExact(piece.rest);
      assert FramesOf(text)[1..] == FramesOf(piece.rest) && GapsOf(text)[1..] == GapsOf(piece.rest);
    }
  }

  function Fold<G>(take: (G, string) -> Option<G>, progress: G, frames: seq<string>): Option<G> {
    if frames == [] then Some(progress)
    else
      match take(progress, frames[0])
      case None => None
      case Some(next) => Fold(take, next, frames[1..])
  }

  ghost predicate AllFit(frames: seq<string>, bytes: nat) { forall f :: f in frames ==> Width(f) <= bytes }

  /** The reference: split the whole text, check every frame and what is left, and take the frames in order. */
  ghost function WholeStream<G>(rules: Rules<G>, taken: nat, start: G, text: string): Option<Buffer<G>> {
    var frames, rest := FramesOf(text), RestOf(text);
    var progress := Fold(rules.take, start, frames);
    if AllFit(frames, rules.frameBytes) && taken + |frames| <= rules.frameCount && progress.Some?
       && Width(rest) <= rules.frameBytes + rules.slack
      then Some(Buffer(rest, taken + |frames|, progress.value)) else None
  }

  lemma FirstFrameFits(frame: string, frames: seq<string>, bytes: nat)
    ensures AllFit([frame] + frames, bytes) <==> Width(frame) <= bytes && AllFit(frames, bytes)
  {
    assert frame in [frame] + frames;
    assert forall f :: f in frames ==> f in [frame] + frames;
  }

  lemma WholeStep<G>(rules: Rules<G>, b: Buffer<G>, piece: Piece)
    requires Cut(b.pending) == Some(piece)
    ensures var next := TakeFrame(rules, b, piece);
            WholeStream(rules, b.frames, b.progress, b.pending)
            == if next.None? then None else WholeStream(rules, next.value.frames, next.value.progress, piece.rest)
  {
    hide FramesOf, RestOf, Fold, AllFit, Width, Cut;
    var later := FramesOf(piece.rest);
    FirstFrame(b.pending, piece);
    FirstFrameFits(piece.frame, later, rules.frameBytes);
    FoldFirst(rules.take, b.progress, piece.frame, later);
  }

  lemma FirstFrame(text: string, piece: Piece)
    requires Cut(text) == Some(piece)
    ensures FramesOf(text) == [piece.frame] + FramesOf(piece.rest) && RestOf(text) == RestOf(piece.rest)
  {
  }

  lemma FoldFirst<G>(take: (G, string) -> Option<G>, progress: G, frame: string, later: seq<string>)
    ensures Fold(take, progress, [frame] + later)
            == match take(progress, frame) case None => None case Some(next) => Fold(take, next, later)
  {
    assert ([frame] + later)[1..] == later;
  }

  /** The draining loop computes the reference. */
  lemma {:induction false} DrainIsWhole<G>(rules: Rules<G>, b: Buffer<G>)
    requires b.frames <= rules.frameCount
    ensures Bounded(rules, Drain(rules, b)) == WholeStream(rules, b.frames, b.progress, b.pending)
    decreases |b.pending|
  {
    match Cut(b.pending)
    case None =>
    case Some(piece) =>
      WholeStep(rules, b, piece);
      var next := TakeFrame(rules, b, piece);
      if next.Some? {
        DrainIsWhole(rules, next.value);
      }
  }

  // ---- Fragmentation ----

  lemma TakeInParts<G>(rules: Rules<G>, b: Buffer<G>, piece: Piece, text: string)
    ensures TakeFrame(rules, More(b, text), piece.(rest := piece.rest + text))
            == match TakeFrame(rules, b, piece) case None => None case Some(next) => Some(More(next, text))
  {
  }

  /** Draining before more text arrives, or after, is the same. */
  lemma {:induction false} DrainInParts<G>(rules: Rules<G>, b: Buffer<G>, text: string)
    ensures Drain(rules, More(b, text))
            == match Drain(rules, b) case None => None case Some(drained) => Drain(rules, More(drained, text))
    decreases |b.pending|
  {
    var cut := Cut(b.pending);
    if cut.Some? {
      var piece, whole := cut.value, More(b, text);
      var next := TakeFrame(rules, b, piece);
      CutIsStable(b.pending, text);
      TakeInParts(rules, b, piece, text);
      if next.Some? {
        DrainStep(rules, b, piece, next.value);
        DrainStep(rules, whole, piece.(rest := piece.rest + text), More(next.value, text));
        DrainInParts(rules, next.value, text);
      }
    }
  }

  lemma DrainStep<G>(rules: Rules<G>, b: Buffer<G>, piece: Piece, next: Buffer<G>)
    requires Cut(b.pending) == Some(piece) && TakeFrame(rules, b, piece) == Some(next)
    ensures Drain(rules, b) == Drain(rules, next)
  {
  }

  /** Text over the buffer's bound is rejected however it goes on, if the bound leaves room for a partial delimiter. */
  lemma OverBound<G>(rules: Rules<G>, b: Buffer<G>, text: string)
    requires rules.slack >= 3 && First(b.pending).None? && Width(b.pending) > rules.frameBytes + rules.slack
    ensures Bounded(rules, Drain(rules, More(b, text))).None?
  {
    var whole := b.pending + text;
    WidthAppend(b.pending, text);
    if First(whole).Some? {
      var i := First(whole).value;
      PartialDelimiter(b.pending, text);
      if i < |b.pending| {
        NarrowTail(b.pending, i);
        assert whole[..i] == b.pending[..i];
      } else {
        assert whole[..i] == b.pending + text[..i - |b.pending|];
        WidthAppend(b.pending, text[..i - |b.pending|]);
      }
    }
  }

  lemma AcceptInParts<G>(rules: Rules<G>, b: Buffer<G>, first: string, second: string)
    requires rules.slack >= 3
    ensures Accept(rules, b, first + second)
            == match Accept(rules, b, first) case None => None case Some(next) => Accept(rules, next, second)
  {
    assert More(b, first + second) == More(More(b, first), second);
    DrainInParts(rules, More(b, first), second);
    var drained := Drain(rules, More(b, first));
    if drained.Some? && Accept(rules, b, first).None? {
      OverBound(rules, drained.value, second);
    }
  }

  /** One push of the whole text is the reference. */
  lemma AcceptIsWhole<G>(rules: Rules<G>, start: G, text: string)
    ensures Accept(rules, Buffer("", 0, start), text) == WholeStream(rules, 0, start, text)
  {
    hide Drain, WholeStream, Bounded;
    var b := Buffer(text, 0, start);
    assert More(Buffer("", 0, start), text) == b by {
      assert "" + text == text;
    }
    DrainIsWhole(rules, b);
  }

  /** However the text is cut into pieces, the buffer ends as the reference does on the whole text. */
  lemma {:induction false} FeedIsWhole<G>(rules: Rules<G>, start: G, texts: seq<string>)
    requires rules.slack >= 3
    ensures Feed(rules, Buffer("", 0, start), texts) == WholeStream(rules, 0, start, Concat(texts))
  {
    var b := Buffer("", 0, start);
    if texts == [] {
      assert Cut("").None?;
      AcceptIsWhole(rules, start, "");
    } else {
      var init, last := texts[..|texts| - 1], texts[|texts| - 1];
      FeedIsWhole(rules, start, init);
      AcceptIsWhole(rules, start, Concat(init));
      AcceptIsWhole(rules, start, Concat(texts));
      AcceptInParts(rules, b, Concat(init), last);
    }
  }

  // ---- The slack ----

  function Repeated(c: char, n: nat): (s: string)
    ensures |s| == n && forall k :: 0 <= k < n ==> s[k] == c
  {
    seq(n, k => c)
  }

  lemma {:induction false} RepeatedWidth(n: nat)
    ensures Width(Repeated('a', n)) == n
  {
    NarrowTail(Repeated('a', n), 0);
  }

  /** A frame of the greatest size whose delimiter arrives in two pieces, the line feed last. */
  function Split(bytes: nat): seq<string> { [Repeated('a', bytes) + "\r\n\r", "\n"] }

  lemma SplitText(bytes: nat)
    ensures Concat(Split(bytes)) == Repeated('a', bytes) + "\r\n\r\n"
  {
    var parts := Split(bytes);
    assert parts[..1] == [parts[0]] && parts[..1][..0] == [];
    assert Concat([parts[0]]) == parts[0];
    assert (Repeated('a', bytes) + "\r\n\r") + "\n" == Repeated('a', bytes) + "\r\n\r\n";
  }

  lemma SplitPart(bytes: nat)
    ensures First(Split(bytes)[0]).None? && Width(Split(bytes)[0]) == bytes + 3
  {
    NarrowTail(Split(bytes)[0], 0);
  }

  lemma WholeFrame(bytes: nat)
    ensures Cut(Repeated('a', bytes) + "\r\n\r\n") == Some(Piece(Repeated('a', bytes), ""))
  {
    var whole := Repeated('a', bytes) + "\r\n\r\n";
    FirstIs(whole, bytes);
    assert whole[..bytes] == Repeated('a', bytes) && whole[bytes + 4..] == "";
  }

  lemma SplitIsRefused<G>(rules: Rules<G>, start: G)
    requires rules.slack < 3
    ensures Feed(rules, Buffer("", 0, start), Split(rules.frameBytes)).None?
  {
    var b, texts := Buffer("", 0, start), Split(rules.frameBytes);
    var part := texts[0];
    SplitPart(rules.frameBytes);
    assert More(b, part) == Buffer(part, 0, start) by {
      assert "" + part == part;
    }
    assert Accept(rules, b, part).None?;
    assert texts[..1] == [part] && [part][..0] == [];
    assert Feed(rules, b, []) == Some(b);
    assert Feed(rules, b, [part]).None?;
  }

  lemma WholeIsAccepted<G>(rules: Rules<G>, start: G)
    requires rules.frameCount >= 1 && rules.take(start, Repeated('a', rules.frameBytes)).Some?
    ensures WholeStream(rules, 0, start, Concat(Split(rules.frameBytes))).Some?
  {
    var frame := Repeated('a', rules.frameBytes);
    var whole := frame + "\r\n\r\n";
    SplitText(rules.frameBytes);
    WholeFrame(rules.frameBytes);
    RepeatedWidth(rules.frameBytes);
    var b := Buffer(whole, 0, start);
    DrainIsWhole(rules, b);
    assert Drain(rules, b) == Drain(rules, Buffer("", 1, rules.take(start, frame).value));
  }

  /** The buffer and the reference agree on this cut. */
  ghost predicate Agrees<G>(rules: Rules<G>, start: G, texts: seq<string>) {
    Feed(rules, Buffer("", 0, start), texts) == WholeStream(rules, 0, start, Concat(texts))
  }

  /**
   Three bytes of slack are exactly what it takes: with less, that frame is
   rejected although the whole stream is fine.
   */
  lemma SlackIsNeeded<G>(rules: Rules<G>, start: G)
    requires rules.frameCount >= 1 && rules.take(start, Repeated('a', rules.frameBytes)).Some?
    ensures rules.slack >= 3 <==> forall texts :: Agrees(rules, start, texts)
  {
    if rules.slack >= 3 {
      forall texts ensures Agrees(rules, start, texts) {
        FeedIsWhole(rules, start, texts);
      }
    } else {
      SplitIsRefused(rules, start);
      WholeIsAccepted(rules, start);
      assert !Agrees(rules, start, Split(rules.frameBytes));
    }
  }
}
