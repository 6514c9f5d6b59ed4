/** Which chat streams the probe observer accepts, and what it reports of them, in terms of the parsed frames. */
module ChatGrammar {
  import opened Prelude
  import opened Frames
  import opened WireEvents
  import opened Wires

  // ---- One frame ----

  predicate Silent(frame: string) { Data(frame) == "" }

  predicate EndMark(frame: string) { Data(frame) == "[DONE]" }

  /** The value in a frame that carries data, if it parses. */
  function ValueIn(c: Config, frame: string): Option<Json> {
    if Silent(frame) || EndMark(frame) then None else c.parse(Data(frame))
  }

  /** The first choice of a chat event. */
  function ChoiceOf(value: Json): Option<Json> {
    if value.Object? && "choices" in value.fields && value.fields["choices"].List?
       && |value.fields["choices"].items| > 0
      then Some(value.fields["choices"].items[0]) else None
  }

  function DeltaOf(choice: Json): Json {
    if choice.Object? && "delta" in choice.fields then choice.fields["delta"] else Object(map[])
  }

  /** The text that a chat event adds. */
  function ContentOf(value: Json): string {
    if ChoiceOf(value).None? || !DeltaOf(ChoiceOf(value).value).Object? then ""
    else
      var content := Get(DeltaOf(ChoiceOf(value).value).fields, "content");
      if content.Str? then content.s else ""
  }

  /** The reason for which a chat event finishes. */
  function FinishOf(value: Json): Option<string> {
    if ChoiceOf(value).None? || !ChoiceOf(value).value.Object? then None
    else
      var finish := Get(ChoiceOf(value).value.fields, "finish_reason");
      if finish.Str? then Some(finish.s) else None
  }

  predicate NullOrText(value: Json) { value.Null? || value.Str? }

  const REASONS := {"stop", "tool_calls", "length", "content_filter"}

  /** An event that reports no error and has at most one choice, the first, with text and a known reason if any. */
  predicate LegalChat(value: Json) {
    && value.Object? && "error" !in value.fields
    && ("choices" in value.fields ==> value.fields["choices"].List? && |value.fields["choices"].items| <= 1)
    && (ChoiceOf(value).Some? ==>
          var choice := ChoiceOf(value).value;
          && choice.Object? && IsZero(Get(choice.fields, "index")) && DeltaOf(choice).Object?
          && NullOrText(Get(DeltaOf(choice).fields, "content"))
          && NullOrText(Get(choice.fields, "finish_reason"))
          && (FinishOf(value).Some? ==> FinishOf(value).value in REASONS))
  }

  function ContentIn(c: Config, frame: string): string {
    if ValueIn(c, frame).Some? then ContentOf(ValueIn(c, frame).value) else ""
  }

  function FinishIn(c: Config, frame: string): Option<string> {
    if ValueIn(c, frame).Some? then FinishOf(ValueIn(c, frame).value) else None
  }

  /** The frame is an event, and a legal one. */
  predicate Legal(c: Config, frame: string) { ValueIn(c, frame).Some? && LegalChat(ValueIn(c, frame).value) }

  /** Frames before, at and after the one that finishes. */
  predicate Talks(c: Config, frame: string) { Silent(frame) || (Legal(c, frame) && FinishIn(c, frame).None?) }

  predicate Finishes(c: Config, frame: string) { Legal(c, frame) && FinishIn(c, frame).Some? }

  predicate Trails(c: Config, frame: string) {
    Silent(frame) || (Legal(c, frame) && ChoiceOf(ValueIn(c, frame).value).None?)
  }

  /** The contents of the frames, one after the other. */
  function TextOf(c: Config, frames: seq<string>): string {
    if frames == [] then "" else ContentIn(c, frames[0]) + TextOf(c, frames[1..])
  }

  // ---- One step ----

  /** Progress of a chat stream that has not ended. */
  predicate Open(p: Progress) { !p.done && p.parts == map[] && |p.text| <= TEXT_CHARS }

  function WithText(p: Progress, text: string): Progress { p.(text := p.text + text) }

  lemma NoParts(p: Progress)
    requires p.parts == map[]
    ensures WithinText(p) <==> |p.text| <= TEXT_CHARS
  {
  }

  /** A choice before the finish. */
  lemma ChoiceAdds(p: Progress, fields: map<string, Json>)
    requires !p.finishSeen
    ensures TakeChat(p, fields).Some? <==> LegalChat(Object(fields))
    ensures LegalChat(Object(fields)) ==>
              var value := Object(fields);
              TakeChat(p, fields).value
              == if FinishOf(value).None? then WithText(p, ContentOf(value))
                 else WithText(p, ContentOf(value)).(terminal := FinishOf(value), finishSeen := true)
  {
    assert p.text + "" == p.text;
  }

  /** After the finish no choice is accepted. */
  lemma NoChoiceAfterFinish(p: Progress, fields: map<string, Json>)
    requires p.finishSeen
    ensures TakeChat(p, fields).Some? <==> LegalChat(Object(fields)) && ChoiceOf(Object(fields)).None?
    ensures TakeChat(p, fields).Some? ==> TakeChat(p, fields).value == p
  {
  }

  /** One frame before the finish. */
  lemma TakeTalk(c: Config, p: Progress, frame: string)
    requires c.chat && Open(p) && !p.finishSeen
    ensures var text := ContentIn(c, frame);
            && (Take(c.chat, c.parse, p, frame).Some? <==>
                  Silent(frame) || (Legal(c, frame) && |p.text| + |text| <= TEXT_CHARS))
            && (Take(c.chat, c.parse, p, frame).Some? ==>
                  Take(c.chat, c.parse, p, frame).value
                  == if FinishIn(c, frame).None? then WithText(p, text)
                     else WithText(p, text).(terminal := FinishIn(c, frame), finishSeen := true))
  {
    hide Data, TakeChat, LegalChat, WithinText, ContentOf, FinishOf;
    assert p.text + "" == p.text;
    if ValueIn(c, frame).Some? && ValueIn(c, frame).value.Object? {
      var fields := ValueIn(c, frame).value.fields;
      ChoiceAdds(p, fields);
      if LegalChat(Object(fields)) {
        NoParts(TakeChat(p, fields).value);
      }
    } else if ValueIn(c, frame).Some? {
      OnlyObjects(ValueIn(c, frame).value);
    }
  }

  lemma OnlyObjects(value: Json)
    ensures LegalChat(value) ==> value.Object?
  {
  }

  /** One frame after the finish. */
  lemma TakeTrail(c: Config, p: Progress, frame: string)
    requires c.chat && Open(p) && p.finishSeen
    ensures Take(c.chat, c.parse, p, frame).Some? <==> EndMark(frame) || Trails(c, frame)
    ensures EndMark(frame) ==> Take(c.chat, c.parse, p, frame) == Some(p.(done := true))
    ensures Trails(c, frame) ==> Take(c.chat, c.parse, p, frame) == Some(p)
  {
    hide Data, TakeChat, LegalChat, WithinText, ContentOf, FinishOf, ChoiceOf;
    if ValueIn(c, frame).Some? && ValueIn(c, frame).value.Object? {
      NoChoiceAfterFinish(p, ValueIn(c, frame).value.fields);
      NoParts(p);
    } else if ValueIn(c, frame).Some? {
      OnlyObjects(ValueIn(c, frame).value);
    }
  }

  // ---- All frames ----

  function FoldChat(c: Config, p: Progress, frames: seq<string>): Option<Progress> {
    Fold(RulesOf(c).take, p, frames)
  }

  /** From `k` on: the end mark, and then nothing that carries data. */
  ghost predicate EndsWith(frames: seq<string>, k: int) {
    0 <= k < |frames| && EndMark(frames[k]) && forall i :: k < i < |frames| ==> Silent(frames[i])
  }

  /** After the finish: events without a choice up to the end mark at `k`, and nothing after it. */
  ghost predicate Tail(c: Config, frames: seq<string>, k: int) {
    EndsWith(frames, k) && forall i :: 0 <= i < k ==> Trails(c, frames[i])
  }

  /**
   A chat stream: legal events that do not finish, one that does at `j`, events
   without a choice, the end mark at `k`, and nothing after it.
   */
  ghost predicate ChatStream(c: Config, frames: seq<string>, j: int, k: int) {
    && 0 <= j < k && EndsWith(frames, k)
    && (forall i :: 0 <= i < j ==> Talks(c, frames[i])) && Finishes(c, frames[j])
    && (forall i :: j < i < k ==> Trails(c, frames[i]))
  }

  lemma {:induction false} SilentFolds(c: Config, p: Progress, frames: seq<string>)
    requires p.done
    ensures FoldChat(c, p, frames).Some? <==> forall i :: 0 <= i < |frames| ==> Silent(frames[i])
    ensures FoldChat(c, p, frames).Some? ==> FoldChat(c, p, frames) == Some(p)
    decreases |frames|
  {
    hide Data;
    if frames != [] {
      TakesOne(c, p, frames);
      DoneTakesSilent(c, p, frames[0]);
      SilentFolds(c, p, frames[1..]);
      assert forall i :: 0 < i < |frames| ==> frames[i] == frames[1..][i - 1];
    }
  }

  lemma DoneTakesSilent(c: Config, p: Progress, frame: string)
    requires p.done
    ensures Take(c.chat, c.parse, p, frame) == if Silent(frame) then Some(p) else None
  {
    hide Data;
  }

  lemma {:induction false} SilentText(c: Config, frames: seq<string>)
    requires forall i :: 0 <= i < |frames| ==> Silent(frames[i]) || EndMark(frames[i]) || Trails(c, frames[i])
    ensures TextOf(c, frames) == ""
    decreases |frames|
  {
    hide Data, LegalChat;
    if frames != [] {
      SilentText(c, frames[1..]);
    }
  }

  /** What follows the finish is accepted exactly when it is such a tail, and adds nothing. */
  lemma {:induction false} TailFolds(c: Config, p: Progress, frames: seq<string>)
    requires c.chat && Open(p) && p.finishSeen
    ensures FoldChat(c, p, frames).Some? && FoldChat(c, p, frames).value.done <==> exists k :: Tail(c, frames, k)
    ensures FoldChat(c, p, frames).Some? && FoldChat(c, p, frames).value.done ==>
              FoldChat(c, p, frames) == Some(p.(done := true))
    decreases |frames|
  {
    hide Data, Take, Trails;
    if frames == [] {
    } else {
      TakesOne(c, p, frames);
      TakeTrail(c, p, frames[0]);
      if EndMark(frames[0]) {
        TrailsIsNoMark(c, frames[0]);
        SilentFolds(c, p.(done := true), frames[1..]);
        TailStarts(c, frames);
      } else {
        if Trails(c, frames[0]) {
          TailFolds(c, p, frames[1..]);
        }
        TailGoesOn(c, frames);
      }
    }
  }

  lemma TrailsIsNoMark(c: Config, frame: string)
    requires EndMark(frame)
    ensures !Trails(c, frame) && !Talks(c, frame) && !Finishes(c, frame)
  {
  }

  lemma TailStarts(c: Config, frames: seq<string>)
    requires frames != [] && EndMark(frames[0])
    ensures (exists k :: Tail(c, frames, k)) <==> forall i :: 0 <= i < |frames| - 1 ==> Silent(frames[1..][i])
  {
    hide Data;
    TrailsIsNoMark(c, frames[0]);
    if forall i :: 0 <= i < |frames| - 1 ==> Silent(frames[1..][i]) {
      assert forall i :: 0 < i < |frames| ==> frames[i] == frames[1..][i - 1];
      assert Tail(c, frames, 0);
    }
    if k :| Tail(c, frames, k) {
      assert k == 0;
      assert forall i :: 0 <= i < |frames| - 1 ==> frames[1..][i] == frames[i + 1];
    }
  }

  lemma TailGoesOn(c: Config, frames: seq<string>)
    requires frames != [] && !EndMark(frames[0])
    ensures (exists k :: Tail(c, frames, k)) <==> Trails(c, frames[0]) && exists k :: Tail(c, frames[1..], k)
  {
    hide Data, Trails;
    if k :| Tail(c, frames, k) {
      assert Tail(c, frames[1..], k - 1);
    }
    if Trails(c, frames[0]) {
      if k :| Tail(c, frames[1..], k) {
        assert forall i :: 0 < i < |frames| ==> frames[i] == frames[1..][i - 1];
        assert Tail(c, frames, k + 1);
      }
    }
  }

  lemma NeverFinishes(c: Config, frames: seq<string>)
    requires frames != [] && !Talks(c, frames[0]) && !Finishes(c, frames[0])
    ensures !exists j, k :: ChatStream(c, frames, j, k)
  {
  }

  /** The first frame finishes. */
  lemma FinishesAtOnce(c: Config, frames: seq<string>)
    requires frames != [] && Finishes(c, frames[0])
    ensures forall j, k :: ChatStream(c, frames, j, k) ==> j == 0 && Tail(c, frames[1..], k - 1)
    ensures forall k :: Tail(c, frames[1..], k) ==> ChatStream(c, frames, 0, k + 1)
    ensures (exists k :: Tail(c, frames[1..], k)) ==> TextOf(c, frames) == ContentIn(c, frames[0])
  {
    hide Data, LegalChat, Trails, TextOf;
    assert !Talks(c, frames[0]);
    forall k | Tail(c, frames[1..], k) ensures ChatStream(c, frames, 0, k + 1) {
      assert forall i :: 0 < i < |frames| ==> frames[i] == frames[1..][i - 1];
    }
    if k :| Tail(c, frames[1..], k) {
      SilentText(c, frames[1..]);
      TextStep(c, frames);
      assert ContentIn(c, frames[0]) + "" == ContentIn(c, frames[0]);
    }
  }

  lemma TextStep(c: Config, frames: seq<string>)
    requires frames != []
    ensures TextOf(c, frames) == ContentIn(c, frames[0]) + TextOf(c, frames[1..])
  {
  }

  /** The first frame does not finish. */
  lemma FinishesLater(c: Config, frames: seq<string>)
    requires frames != [] && Talks(c, frames[0])
    ensures forall j, k :: ChatStream(c, frames, j, k) ==>
              0 < j < |frames| && ChatStream(c, frames[1..], j - 1, k - 1)
    ensures forall j, k :: ChatStream(c, frames[1..], j, k) ==> ChatStream(c, frames, j + 1, k + 1)
  {
    hide Data, LegalChat, Trails;
    assert !Finishes(c, frames[0]);
    forall j, k | ChatStream(c, frames[1..], j, k) ensures ChatStream(c, frames, j + 1, k + 1) {
      assert forall i :: 0 < i < |frames| ==> frames[i] == frames[1..][i - 1];
    }
  }

  /** What a fold over an accepted stream arrives at. */
  function Arrived(c: Config, p: Progress, frames: seq<string>, finish: Option<string>): Progress {
    WithText(p, TextOf(c, frames)).(terminal := finish, finishSeen := true, done := true)
  }

  lemma TextAdds(c: Config, p: Progress, frames: seq<string>, finish: Option<string>)
    requires frames != []
    ensures Arrived(c, WithText(p, ContentIn(c, frames[0])), frames[1..], finish) == Arrived(c, p, frames, finish)
    ensures |p.text| + |TextOf(c, frames)| == |WithText(p, ContentIn(c, frames[0])).text| + |TextOf(c, frames[1..])|
  {
    TextStep(c, frames);
    var a, b := ContentIn(c, frames[0]), TextOf(c, frames[1..]);
    assert (p.text + a) + b == p.text + (a + b);
  }

  ghost predicate IsChatStream(c: Config, frames: seq<string>) { exists j, k :: ChatStream(c, frames, j, k) }

  lemma FoldStep(c: Config, p: Progress, frames: seq<string>)
    requires frames != []
    ensures FoldChat(c, p, frames)
            == match Take(c.chat, c.parse, p, frames[0])
               case None => None
               case Some(next) => FoldChat(c, next, frames[1..])
  {
    hide Take;
    TakesOne(c, p, frames);
  }

  lemma EmptyIsNoStream(c: Config, p: Progress)
    ensures !IsChatStream(c, []) && FoldChat(c, p, []) == Some(p)
  {
  }

  /** What a fold over these frames has to arrive at. */
  ghost predicate FoldsRight(c: Config, p: Progress, frames: seq<string>) {
    && (FoldChat(c, p, frames).Some? && FoldChat(c, p, frames).value.done
        <==> IsChatStream(c, frames) && |p.text| + |TextOf(c, frames)| <= TEXT_CHARS)
    && (forall j, k :: ChatStream(c, frames, j, k) && |p.text| + |TextOf(c, frames)| <= TEXT_CHARS ==>
          FoldChat(c, p, frames) == Some(Arrived(c, p, frames, FinishIn(c, frames[j]))))
  }

  lemma FinishFolds(c: Config, p: Progress, frames: seq<string>)
    requires c.chat && Open(p) && !p.finishSeen && frames != [] && Finishes(c, frames[0])
    ensures FoldsRight(c, p, frames)
  {
    hide Data, Take, LegalChat, ValueIn, Trails, ChatStream, Tail, TextOf, FoldChat, ContentIn;
    FoldStep(c, p, frames);
    TakeTalk(c, p, frames[0]);
    FinishesAtOnce(c, frames);
    LegalIsNotSilent(c, frames[0]);
    if Take(c.chat, c.parse, p, frames[0]).Some? {
      TailFolds(c, Take(c.chat, c.parse, p, frames[0]).value, frames[1..]);
    }
    if j, k :| ChatStream(c, frames, j, k) {
      assert Tail(c, frames[1..], k - 1);
    }
    if k :| Tail(c, frames[1..], k) {
      assert ChatStream(c, frames, 0, k + 1);
    }
    TextStep(c, frames);
  }

  lemma LegalIsNotSilent(c: Config, frame: string)
    requires Legal(c, frame)
    ensures !Silent(frame)
  {
  }

  lemma TalkFolds(c: Config, p: Progress, frames: seq<string>)
    requires c.chat && Open(p) && !p.finishSeen && frames != [] && Talks(c, frames[0])
    requires var next := WithText(p, ContentIn(c, frames[0])); Open(next) ==> FoldsRight(c, next, frames[1..])
    ensures FoldsRight(c, p, frames)
  {
    hide Data, Take, LegalChat, ValueIn, Trails, ChatStream, Tail, TextOf, FoldChat, ContentIn;
    FoldStep(c, p, frames);
    TakeTalk(c, p, frames[0]);
    FinishesLater(c, frames);
    TalkHasNoReason(c, frames[0]);
    TextStep(c, frames);
    if j, k :| ChatStream(c, frames, j, k) {
      assert ChatStream(c, frames[1..], j - 1, k - 1);
    }
    if j, k :| ChatStream(c, frames[1..], j, k) {
      assert ChatStream(c, frames, j + 1, k + 1);
    }
    forall j, k |
        0 < j < |frames| && ChatStream(c, frames, j, k) && |p.text| + |TextOf(c, frames)| <= TEXT_CHARS
      ensures FoldChat(c, p, frames) == Some(Arrived(c, p, frames, FinishIn(c, frames[j])))
    {
      assert ChatStream(c, frames[1..], j - 1, k - 1) && frames[1..][j - 1] == frames[j];
      TextAdds(c, p, frames, FinishIn(c, frames[j]));
    }
  }

  lemma TalkHasNoReason(c: Config, frame: string)
    requires Talks(c, frame)
    ensures FinishIn(c, frame).None? && (Silent(frame) ==> ContentIn(c, frame) == "")
  {
  }

  /** A fold ends done exactly on such a stream, with its texts joined in order and its one reason. */
  lemma {:induction false} StreamFolds(c: Config, p: Progress, frames: seq<string>)
    requires c.chat && Open(p) && !p.finishSeen
    ensures FoldsRight(c, p, frames)
    decreases |frames|
  {
    hide Data, Take, Legal, Silent, Trails, ChatStream, Tail, ContentIn, TextOf, FinishIn, FoldChat;
    if frames == [] {
      EmptyFoldsRight(c, p);
    } else if Finishes(c, frames[0]) {
      FinishFolds(c, p, frames);
    } else if Talks(c, frames[0]) {
      var next := WithText(p, ContentIn(c, frames[0]));
      if Open(next) {
        StreamFolds(c, next, frames[1..]);
      }
      TalkFolds(c, p, frames);
    } else {
      OtherFoldsRight(c, p, frames);
    }
  }

  lemma EmptyFoldsRight(c: Config, p: Progress)
    requires !p.done
    ensures FoldsRight(c, p, [])
  {
  }

  lemma OtherFoldsRight(c: Config, p: Progress, frames: seq<string>)
    requires c.chat && Open(p) && !p.finishSeen && frames != [] && !Talks(c, frames[0]) && !Finishes(c, frames[0])
    ensures FoldsRight(c, p, frames)
  {
    hide Data, Take, LegalChat, TextOf;
    NeverFinishes(c, frames);
    FoldStep(c, p, frames);
    TakeTalk(c, p, frames[0]);
  }

  // ---- Whole streams ----

  /** Every frame and what is left over are within the limits of the observer. */
  ghost predicate FitsObserver(text: string) {
    && AllFit(FramesOf(text), FRAME_BYTES) && |FramesOf(text)| <= FRAMES
    && Width(RestOf(text)) <= FRAME_BYTES + 3 && Blank(RestOf(text))
  }

  /** The text of the stream, when all of it decodes. */
  function TextIn(c: Config, stream: seq<Byte>): Option<string> {
    var d := Decode(c, [], stream);
    if d.Some? && d.value.held == [] then Some(d.value.text) else None
  }

  /**
   The observer accepts exactly the chat streams that are within its limits. It
   reports the contents of their choices joined in the order of the frames, and
   the one reason for which they finish.
   */
  lemma ChatAcceptance(c: Config, stream: seq<Byte>)
    requires c.chat && c.streaming
    ensures Parse(c, stream).Some? <==>
              && |stream| <= c.limit && TextIn(c, stream).Some?
              && var text := TextIn(c, stream).value;
                 FitsObserver(text) && IsChatStream(c, FramesOf(text)) && |TextOf(c, FramesOf(text))| <= TEXT_CHARS
    ensures Parse(c, stream).Some? ==>
              var frames := FramesOf(TextIn(c, stream).value);
              && (exists j, k :: ChatStream(c, frames, j, k))
              && forall j, k :: ChatStream(c, frames, j, k) ==>
                   Parse(c, stream).value == Report(FinishIn(c, frames[j]), TextOf(c, frames), None)
  {
    hide Decode, FramesOf, RestOf, ContentIn, TextOf, FinishIn, AllFit, Width, Blank, Take, ChatStream;
    if Decode(c, [], stream).Some? {
      var text := Decode(c, [], stream).value.text;
      StreamFolds(c, Start, FramesOf(text));
      assert Start.text + TextOf(c, FramesOf(text)) == TextOf(c, FramesOf(text));
    }
  }
}
