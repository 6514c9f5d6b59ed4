/**
 The bounded observer of a probed response stream (`wire.py`), and its
 independence of how the stream is cut into chunks.
 */
module Wires {
  import opened Prelude
  import opened Frames
  import opened WireEvents

  type Byte = bv8

  /** `decode` is the strict incremental UTF-8 decoder, by what one more byte does to the bytes it holds back. */
  datatype Config = Config(
    chat: bool, streaming: bool, limit: nat,
    decode: (seq<Byte>, Byte) -> Option<(seq<Byte>, string)>,
    parse: string -> Option<Json>)

  const FRAME_BYTES: nat := 0x10_0000
  const FRAMES: nat := 65536

  function RulesOf(c: Config): Rules<Progress> {
    Rules(FRAME_BYTES, 3, FRAMES, (p: Progress, frame: string) => Take(c.chat, c.parse, p, frame))
  }

  datatype Decoded = Decoded(held: seq<Byte>, text: string)

  function Decode(c: Config, held: seq<Byte>, raw: seq<Byte>): Option<Decoded>
    decreases |raw|
  {
    if raw == [] then Some(Decoded(held, ""))
    else
      match c.decode(held, raw[0])
      case None => None
      case Some((after, text)) =>
        match Decode(c, after, raw[1..])
        case None => None
        case Some(d) => Some(Decoded(d.held, text + d.text))
  }

  lemma {:induction false} DecodeInParts(c: Config, held: seq<Byte>, a: seq<Byte>, b: seq<Byte>)
    decreases |a|
    ensures Decode(c, held, a + b) ==
            match Decode(c, held, a)
            case None => None
            case Some(d) =>
              match Decode(c, d.held, b) case None => None case Some(e) => Some(Decoded(e.held, d.text + e.text))
  {
    if a == [] {
      assert a + b == b;
      assert forall e: Decoded :: "" + e.text == e.text;
    } else {
      assert (a + b)[1..] == a[1..] + b;
      match c.decode(held, a[0]) {
        case None =>
        case Some((after, text)) =>
          DecodeInParts(c, after, a[1..], b);
          assert forall d: Decoded, e: Decoded :: text + (d.text + e.text) == (text + d.text) + e.text;
      }
    }
  }

  // ---- The observer by its state ----

  datatype Reader = Reader(bytes: nat, held: seq<Byte>, buffer: Buffer<Progress>)

  const NewReader := Reader(0, [], Buffer("", 0, Start))

  /** `push` */
  function PushOnce(c: Config, r: Reader, raw: seq<Byte>): Option<Reader> {
    if r.bytes + |raw| > c.limit then None
    else if !c.streaming then Some(r.(bytes := r.bytes + |raw|))
    else
      match Decode(c, r.held, raw)
      case None => None
      case Some(d) =>
        match Accept(RulesOf(c), r.buffer, d.text)
        case None => None
        case Some(buffer) => Some(Reader(r.bytes + |raw|, d.held, buffer))
  }

  function PushAll(c: Config, chunks: seq<seq<Byte>>): Option<Reader> {
    if chunks == [] then Some(NewReader)
    else
      match PushAll(c, chunks[..|chunks| - 1])
      case None => None
      case Some(r) => PushOnce(c, r, chunks[|chunks| - 1])
  }

  /** `str.isspace` */
  predicate IsSpace(ch: char) {
    var n := ch as int;
    0x09 <= n <= 0x0d || 0x1c <= n <= 0x20 || n == 0x85 || n == 0xa0 || n == 0x1680 || 0x2000 <= n <= 0x200a
    || n == 0x2028 || n == 0x2029 || n == 0x202f || n == 0x205f || n == 0x3000
  }

  predicate Blank(s: string) { forall ch :: ch in s ==> IsSpace(ch) }

  /** What a closed observer reports. */
  datatype Report = Report(terminal: Option<string>, text: string, snapshot: Option<string>)

  function Ending(c: Config, b: Buffer<Progress>): Option<Report> {
    var p := b.progress;
    if !Blank(b.pending) || !p.done then None
    else if c.chat then Some(Report(p.terminal, p.text, p.snapshot))
    else if p.snapshot.Some? && p.snapshot.value != Joined(p.parts) then None
    else Some(Report(p.terminal, Joined(p.parts), p.snapshot))
  }

  /** `finish` */
  function Finish(c: Config, r: Reader): Option<Report> {
    if !c.streaming then Some(Report(r.buffer.progress.terminal, r.buffer.progress.text, r.buffer.progress.snapshot))
    else if r.held != [] then None
    else Ending(c, r.buffer)
  }

  function Observe(c: Config, chunks: seq<seq<Byte>>): Option<Report> {
    match PushAll(c, chunks)
    case None => None
    case Some(r) => Finish(c, r)
  }

  // ---- The whole stream at once ----

  /** Decode everything, split it, check and take every frame, and look at what is left. */
  ghost function Parse(c: Config, stream: seq<Byte>): Option<Report> {
    if |stream| > c.limit then None
    else if !c.streaming then Some(Report(None, "", None))
    else
      match Decode(c, [], stream)
      case None => None
      case Some(d) =>
        match WholeStream(RulesOf(c), 0, Start, d.text)
        case None => None
        case Some(b) => if d.held != [] then None else Ending(c, b)
  }

  /** One push of everything. */
  function PushWhole(c: Config, stream: seq<Byte>): Option<Reader> { PushOnce(c, NewReader, stream) }

  lemma SlackOfRules(c: Config)
    ensures RulesOf(c).slack == 3
  {
  }

  lemma PushInParts(c: Config, a: seq<Byte>, b: seq<Byte>)
    ensures PushWhole(c, a + b) == match PushWhole(c, a) case None => None case Some(r) => PushOnce(c, r, b)
  {
    hide Decode, Accept, RulesOf;
    SlackOfRules(c);
    DecodeInParts(c, [], a, b);
    if Decode(c, [], a).Some? {
      var d := Decode(c, [], a).value;
      if Decode(c, d.held, b).Some? {
        AcceptInParts(RulesOf(c), Buffer("", 0, Start), d.text, Decode(c, d.held, b).value.text);
      }
    }
  }

  lemma PushNothing(c: Config)
    ensures PushWhole(c, []) == Some(NewReader)
  {
    assert More(NewReader.buffer, "") == NewReader.buffer by {
      assert "" + "" == "";
    }
    assert Cut("").None?;
  }

  lemma {:induction false} PushAllIsWhole(c: Config, chunks: seq<seq<Byte>>)
    ensures PushAll(c, chunks) == PushWhole(c, Concat(chunks))
  {
    if chunks == [] {
      PushNothing(c);
    } else {
      PushAllIsWhole(c, chunks[..|chunks| - 1]);
      PushInParts(c, Concat(chunks[..|chunks| - 1]), chunks[|chunks| - 1]);
    }
  }

  lemma CutIsIrrelevant(c: Config, chunks: seq<seq<Byte>>)
    ensures Observe(c, chunks) == Parse(c, Concat(chunks))
  {
    var stream := Concat(chunks);
    PushAllIsWhole(c, chunks);
    if Decode(c, [], stream).Some? {
      AcceptIsWhole(RulesOf(c), Start, Decode(c, [], stream).value.text);
    }
  }

  /** The observer of these chunks reports what the parser makes of their concatenation. */
  ghost predicate Faithful(c: Config, chunks: seq<seq<Byte>>) { Observe(c, chunks) == Parse(c, Concat(chunks)) }

  /**
   For every stream and every way of cutting it into chunks, the observer
   accepts exactly what the whole-stream parser accepts, and then reports the
   same terminal, text and snapshot.
   */
  lemma FragmentationIndependence(c: Config)
    ensures forall chunks :: Faithful(c, chunks)
  {
    forall chunks ensures Faithful(c, chunks) {
      CutIsIrrelevant(c, chunks);
    }
  }

  /** Whatever arrives, no more than a frame and a partial delimiter stays buffered, and no complete frame. */
  lemma BufferIsBounded(c: Config, chunks: seq<seq<Byte>>)
    requires PushAll(c, chunks).Some?
    ensures var r := PushAll(c, chunks).value;
            && r.bytes == |Concat(chunks)| <= c.limit
            && (c.streaming ==> Width(r.buffer.pending) <= FRAME_BYTES + 3 && First(r.buffer.pending).None?)
  {
    PushAllIsWhole(c, chunks);
  }

  // ---- What an accepted stream looks like ----

  lemma TakesOne(c: Config, p: Progress, frames: seq<string>)
    requires frames != []
    ensures Fold(RulesOf(c).take, p, frames)
            == match Take(c.chat, c.parse, p, frames[0])
               case None => None
               case Some(next) => Fold(RulesOf(c).take, next, frames[1..])
  {
  }

  /** After the end marker nothing but data-free frames is accepted. */
  lemma {:induction false} NothingFollowsDone(c: Config, p: Progress, frames: seq<string>)
    requires p.done && Fold(RulesOf(c).take, p, frames).Some?
    ensures Fold(RulesOf(c).take, p, frames).value == p
    ensures forall frame :: frame in frames ==> Data(frame) == ""
    decreases |frames|
  {
    if frames != [] {
      TakesOne(c, p, frames);
      NothingFollowsDone(c, p, frames[1..]);
    }
  }

  /** The frame at `k` ends the stream: no later one carries data, and in chat it is the only `[DONE]`. */
  ghost predicate EndsAt(chat: bool, frames: seq<string>, k: nat) {
    && k < |frames| && Data(frames[k]) != "" && (chat ==> Data(frames[k]) == "[DONE]")
    && (forall frame :: frame in frames[k + 1..] ==> Data(frame) == "")
    && (chat ==> forall frame :: frame in frames[..k] ==> Data(frame) != "[DONE]")
  }

  lemma EndsLater(chat: bool, frames: seq<string>, k: nat)
    requires frames != [] && EndsAt(chat, frames[1..], k) && (chat ==> Data(frames[0]) != "[DONE]")
    ensures EndsAt(chat, frames, k + 1)
  {
    assert frames[1..][k + 1..] == frames[k + 2..];
    assert frames[..k + 1] == [frames[0]] + frames[1..][..k];
  }

  /** A frame that ends the stream. */
  lemma TakeEnds(c: Config, p: Progress, frame: string)
    requires !p.done && Take(c.chat, c.parse, p, frame).Some?
    ensures Take(c.chat, c.parse, p, frame).value.done ==> Data(frame) != "" && (c.chat ==> Data(frame) == "[DONE]")
    ensures c.chat && Data(frame) == "[DONE]" ==> Take(c.chat, c.parse, p, frame).value.done
  {
  }

  lemma {:induction false} DoneHasAFrame(c: Config, p: Progress, frames: seq<string>)
    requires !p.done && Fold(RulesOf(c).take, p, frames).Some? && Fold(RulesOf(c).take, p, frames).value.done
    ensures exists k :: EndsAt(c.chat, frames, k)
    decreases |frames|
  {
    TakesOne(c, p, frames);
    TakeEnds(c, p, frames[0]);
    var next := Take(c.chat, c.parse, p, frames[0]).value;
    if next.done {
      NothingFollowsDone(c, next, frames[1..]);
      assert EndsAt(c.chat, frames, 0);
    } else {
      DoneHasAFrame(c, next, frames[1..]);
      var k :| EndsAt(c.chat, frames[1..], k);
      EndsLater(c.chat, frames, k);
    }
  }

  ghost predicate WithinLimits(p: Progress) { WithinText(p) && (p.snapshot.Some? ==> |p.snapshot.value| <= TEXT_CHARS) }

  lemma TakeStaysWithin(c: Config, p: Progress, frame: string)
    requires WithinLimits(p) && Take(c.chat, c.parse, p, frame).Some?
    ensures WithinLimits(Take(c.chat, c.parse, p, frame).value)
  {
  }

  lemma {:induction false} TextStaysWithin(c: Config, p: Progress, frames: seq<string>)
    requires WithinLimits(p) && Fold(RulesOf(c).take, p, frames).Some?
    ensures WithinLimits(Fold(RulesOf(c).take, p, frames).value)
    decreases |frames|
  {
    if frames != [] {
      TakesOne(c, p, frames);
      TakeStaysWithin(c, p, frames[0]);
      TextStaysWithin(c, Take(c.chat, c.parse, p, frames[0]).value, frames[1..]);
    }
  }

  /**
   An accepted stream ends in one data-bearing frame, which for chat is the only
   `[DONE]`; its text is within bounds and agrees with the snapshot of the
   completed response when there is one.
   */
  lemma AcceptedStreamsEnd(c: Config, stream: seq<Byte>)
    requires c.streaming && Parse(c, stream).Some?
    ensures exists k :: EndsAt(c.chat, FramesOf(Decode(c, [], stream).value.text), k)
    ensures var report := Parse(c, stream).value;
            |report.text| <= TEXT_CHARS && (!c.chat && report.snapshot.Some? ==> report.text == report.snapshot.value)
  {
    var frames := FramesOf(Decode(c, [], stream).value.text);
    DoneHasAFrame(c, Start, frames);
    TextStaysWithin(c, Start, frames);
  }
}
