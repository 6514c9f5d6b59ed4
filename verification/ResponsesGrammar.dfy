/** Which responses streams the probe observer accepts, and what it reports of them, in terms of the parsed frames. */
module ResponsesGrammar {
  import opened Prelude
  import opened Frames
  import opened WireEvents
  import opened Wires
  import opened ChatGrammar

  // ---- Joined parts ----

  lemma LeastIsUnique(keys: set<Coordinates>, k: Coordinates)
    requires k in keys && forall j :: j in keys ==> UpTo(k, j)
    ensures Least(keys) == k
  {
  }

  /** Taking out any part shortens the joined text by that part. */
  lemma {:induction false} JoinedWithout(parts: map<Coordinates, string>, k: Coordinates)
    requires k in parts
    ensures |Joined(parts)| == |parts[k]| + |Joined(parts - {k})|
    decreases |parts|
  {
    var least := Least(parts.Keys);
    assert (parts - {least}).Keys == parts.Keys - {least} && (parts - {k}).Keys == parts.Keys - {k};
    if least != k {
      JoinedWithout(parts - {least}, k);
      LeastIsUnique((parts - {k}).Keys, least);
      assert parts - {least} - {k} == parts - {k} - {least};
      JoinedStep(parts);
      JoinedStep(parts - {k});
    }
  }

  lemma JoinedStep(parts: map<Coordinates, string>)
    requires parts != map[]
    ensures Joined(parts) == parts[Least(parts.Keys)] + Joined(parts - {Least(parts.Keys)})
  {
  }

  /** Every part of the one comes before every part of the other. */
  ghost predicate Precedes(a: map<Coordinates, string>, b: map<Coordinates, string>) {
    a.Keys !! b.Keys && forall j, k :: j in a && k in b ==> UpTo(j, k)
  }

  lemma LeastOfBoth(a: map<Coordinates, string>, b: map<Coordinates, string>)
    requires Precedes(a, b) && a != map[]
    ensures var least := Least(a.Keys);
            && Least((a + b).Keys) == least && (a + b)[least] == a[least]
            && (a + b) - {least} == (a - {least}) + b && Precedes(a - {least}, b) && |a - {least}| < |a|
  {
    var least := Least(a.Keys);
    assert (a + b).Keys == a.Keys + b.Keys;
    LeastIsUnique((a + b).Keys, least);
    WithoutOne(a, b, least);
  }

  lemma WithoutOne(a: map<Coordinates, string>, b: map<Coordinates, string>, k: Coordinates)
    requires k in a && k !in b
    ensures (a + b)[k] == a[k] && (a + b) - {k} == (a - {k}) + b
    ensures (a - {k}).Keys == a.Keys - {k} && |a - {k}| < |a|
  {
    assert (a - {k}).Keys == a.Keys - {k};
    assert |a.Keys - {k}| < |a.Keys|;
  }

  /** Parts are joined in the order of their coordinates: what comes before stays before. */
  lemma {:induction false} JoinedInOrder(a: map<Coordinates, string>, b: map<Coordinates, string>)
    requires Precedes(a, b)
    ensures Joined(a + b) == Joined(a) + Joined(b)
    decreases |a|
  {
    hide Joined, Precedes, UpTo;
    if a == map[] {
      assert a + b == b;
      NothingJoined();
      assert "" + Joined(b) == Joined(b);
    } else {
      var least := Least(a.Keys);
      LeastOfBoth(a, b);
      JoinedInOrder(a - {least}, b);
      JoinedStep(a);
      assert a + b != map[] by {
        assert least in a + b;
      }
      JoinedStep(a + b);
      assert a[least] + (Joined(a - {least}) + Joined(b)) == (a[least] + Joined(a - {least})) + Joined(b);
    }
  }

  lemma NothingJoined()
    ensures Joined(map[]) == ""
  {
  }

  lemma JoinedOne(k: Coordinates, text: string)
    ensures Joined(map[k := text]) == text
  {
    var parts := map[k := text];
    LeastIsUnique(parts.Keys, k);
    JoinedStep(parts);
    assert parts - {k} == map[];
    assert text + "" == text;
  }

  function Added(parts: map<Coordinates, string>, at: Coordinates, text: string): map<Coordinates, string> {
    parts[at := (if at in parts then parts[at] else "") + text]
  }

  lemma AddedLength(parts: map<Coordinates, string>, at: Coordinates, text: string)
    ensures |Joined(Added(parts, at, text))| == |Joined(parts)| + |text|
  {
    var more := Added(parts, at, text);
    JoinedWithout(more, at);
    assert more - {at} == parts - {at};
    if at in parts {
      JoinedWithout(parts, at);
    } else {
      assert parts - {at} == parts;
    }
  }

  // ---- The text of a completed response ----

  /** The items of a response are read in order. */
  lemma {:induction false} ItemsInOrder(a: seq<Json>, b: seq<Json>)
    ensures ItemsText(a + b).Some? <==> ItemsText(a).Some? && ItemsText(b).Some?
    ensures ItemsText(a + b).Some? ==> ItemsText(a + b).value == ItemsText(a).value + ItemsText(b).value
    decreases |a|
  {
    hide ItemText;
    if a == [] {
      assert a + b == b;
      assert ItemsText(b).Some? ==> "" + ItemsText(b).value == ItemsText(b).value;
    } else {
      ItemsInOrder(a[1..], b);
      assert (a + b)[0] == a[0] && (a + b)[1..] == a[1..] + b;
      if ItemsText(a).Some? && ItemsText(b).Some? {
        var x, y, z := ItemText(a[0]).value, ItemsText(a[1..]).value, ItemsText(b).value;
        assert x + (y + z) == (x + y) + z;
      }
    }
  }

  lemma {:induction false} PartsInOrder(a: seq<Json>, b: seq<Json>)
    ensures PartsText(a + b).Some? <==> PartsText(a).Some? && PartsText(b).Some?
    ensures PartsText(a + b).Some? ==> PartsText(a + b).value == PartsText(a).value + PartsText(b).value
    decreases |a|
  {
    hide PartText;
    if a == [] {
      assert a + b == b;
      assert PartsText(b).Some? ==> "" + PartsText(b).value == PartsText(b).value;
    } else {
      PartsInOrder(a[1..], b);
      assert (a + b)[0] == a[0] && (a + b)[1..] == a[1..] + b;
      if PartsText(a).Some? && PartsText(b).Some? {
        var x, y, z := PartText(a[0]).value, PartsText(a[1..]).value, PartsText(b).value;
        assert x + (y + z) == (x + y) + z;
      }
    }
  }

  function TextPart(text: string): Json { Object(map["type" := Str("output_text"), "text" := Str(text)]) }

  function MessageOf(parts: seq<Json>): Json { Object(map["type" := Str("message"), "content" := List(parts)]) }

  function ResponseOf(items: seq<Json>): map<string, Json> {
    map["response" := Object(map["output" := List(items)])]
  }

  /** The snapshot of a response with one text, which with the order of items and parts gives that of any. */
  lemma SnapshotOfOne(text: string, parts: seq<Json>, items: seq<Json>)
    ensures PartsText([TextPart(text)]) == Some(text)
    ensures ItemsText([MessageOf(parts)]) == PartsText(parts)
    ensures Snapshot(ResponseOf(items)) == ItemsText(items)
  {
    assert text + "" == text;
    MessageText(parts);
  }

  lemma MessageText(parts: seq<Json>)
    ensures ItemsText([MessageOf(parts)]) == PartsText(parts)
  {
    assert PartsText(parts).Some? ==> PartsText(parts).value + "" == PartsText(parts).value;
  }

  predicate Typed(value: Json, kind: string) {
    value.Object? && "type" in value.fields && value.fields["type"] == Str(kind)
  }

  predicate Untyped(value: Json) { !value.Object? || "type" !in value.fields }

  /** An empty JSON value that a loop passes over. */
  predicate Hollow(value: Json) { value == List([]) || value == Object(map[]) || value == Str("") }

  /** Only text parts have a text, and they must have one; a part without a type is an error. */
  lemma PartsAreRead(part: Json)
    ensures PartText(part).None? <==>
              || Untyped(part)
              || (Typed(part, "output_text") && ("text" !in part.fields || !part.fields["text"].Str?))
    ensures PartText(part).Some? && !Typed(part, "output_text") ==> PartText(part) == Some("")
    ensures PartText(part).Some? && Typed(part, "output_text") ==> Str(PartText(part).value) == part.fields["text"]
  {
  }

  /**
   Only messages have parts, in a list that must be there; other empty values count
   as an empty list, and an item without a type is an error.
   */
  lemma ItemsAreRead(item: Json)
    ensures Untyped(item) ==> ItemText(item).None?
    ensures !Untyped(item) && !Typed(item, "message") ==> ItemText(item) == Some("")
    ensures Typed(item, "message") && "content" !in item.fields ==> ItemText(item).None?
    ensures Typed(item, "message") && "content" in item.fields ==>
              var content := item.fields["content"];
              && (content.List? ==> ItemText(item) == PartsText(content.items))
              && (Hollow(content) ==> ItemText(item) == Some(""))
              && (!content.List? && !Hollow(content) ==> ItemText(item).None?)
  {
  }

  // ---- One frame ----

  const ENDINGS := {"response.completed", "response.incomplete", "response.failed", "error"}

  datatype Addition = Addition(at: Coordinates, text: string)

  function TypeIn(c: Config, frame: string): Json {
    var value := ValueIn(c, frame);
    if value.Some? && value.value.Object? then Get(value.value.fields, "type") else Null
  }

  predicate IsEvent(c: Config, frame: string) { ValueIn(c, frame).Some? && ValueIn(c, frame).value.Object? }

  predicate IsDelta(c: Config, frame: string) {
    IsEvent(c, frame) && TypeIn(c, frame) == Str("response.output_text.delta")
  }

  /** What a delta adds to which part, if its coordinates and its text are such. */
  function AdditionIn(c: Config, frame: string): Option<Addition> {
    if !IsDelta(c, frame) then None
    else
      var fields := ValueIn(c, frame).value.fields;
      var output, content, delta := Get(fields, "output_index"), Get(fields, "content_index"), Get(fields, "delta");
      if output.Int? && output.n >= 0 && content.Int? && content.n >= 0 && delta.Str?
        then Some(Addition((output.n, content.n), delta.s)) else None
  }

  /** The terminal event in the frame. */
  function TerminalIn(c: Config, frame: string): Option<string> {
    var kind := TypeIn(c, frame);
    if kind.Str? && kind.s in ENDINGS then Some(kind.s) else None
  }

  /** The snapshot of a completed response. */
  function SnapshotIn(c: Config, frame: string): Option<string> {
    if IsEvent(c, frame) && TerminalIn(c, frame) == Some("response.completed")
      then Snapshot(ValueIn(c, frame).value.fields) else None
  }

  /** Frames before the terminal event, and the one that holds it. */
  predicate Flows(c: Config, frame: string) {
    Silent(frame)
    || (IsEvent(c, frame) && TerminalIn(c, frame).None? && (IsDelta(c, frame) ==> AdditionIn(c, frame).Some?))
  }

  predicate Terminates(c: Config, frame: string) {
    && TerminalIn(c, frame).Some?
    && (TerminalIn(c, frame) == Some("response.completed") ==>
          SnapshotIn(c, frame).Some? && |SnapshotIn(c, frame).value| <= TEXT_CHARS)
  }

  function Apply(c: Config, parts: map<Coordinates, string>, frame: string): map<Coordinates, string> {
    var addition := AdditionIn(c, frame);
    if addition.Some? then Added(parts, addition.value.at, addition.value.text) else parts
  }

  function Size(c: Config, frame: string): nat {
    if AdditionIn(c, frame).Some? then |AdditionIn(c, frame).value.text| else 0
  }

  /** The deltas at these coordinates, one after the other. */
  function DeltasAt(c: Config, frames: seq<string>, at: Coordinates): string {
    if frames == [] then ""
    else
      var addition := AdditionIn(c, frames[0]);
      (if addition.Some? && addition.value.at == at then addition.value.text else "") + DeltasAt(c, frames[1..], at)
  }

  /** Some delta is at these coordinates. */
  predicate Named(c: Config, frames: seq<string>, at: Coordinates) {
    exists i :: 0 <= i < |frames| && AdditionIn(c, frames[i]).Some? && AdditionIn(c, frames[i]).value.at == at
  }

  /** The length of all deltas. */
  function Total(c: Config, frames: seq<string>): nat {
    if frames == [] then 0 else Size(c, frames[0]) + Total(c, frames[1..])
  }

  // ---- One step ----

  predicate Flowing(p: Progress) { !p.done && p.text == "" && |Joined(p.parts)| <= TEXT_CHARS }

  lemma EventAdds(p: Progress, c: Config, frame: string)
    requires IsEvent(c, frame)
    ensures var fields := ValueIn(c, frame).value.fields;
            && (TakeResponses(p, fields).Some? <==> Flows(c, frame) || Terminates(c, frame))
            && (Flows(c, frame) ==> TakeResponses(p, fields).value == p.(parts := Apply(c, p.parts, frame)))
            && (Terminates(c, frame) ==>
                  TakeResponses(p, fields).value
                  == p.(terminal := TerminalIn(c, frame), done := true,
                        snapshot := if SnapshotIn(c, frame).Some? then SnapshotIn(c, frame) else p.snapshot))
  {
    hide Data, Snapshot;
  }

  lemma ApplyLength(c: Config, parts: map<Coordinates, string>, frame: string)
    ensures |Joined(Apply(c, parts, frame))| == |Joined(parts)| + Size(c, frame)
  {
    hide Joined, AdditionIn;
    if AdditionIn(c, frame).Some? {
      AddedLength(parts, AdditionIn(c, frame).value.at, AdditionIn(c, frame).value.text);
    }
  }

  lemma TakeFlow(c: Config, p: Progress, frame: string)
    requires !c.chat && Flowing(p)
    ensures Take(c.chat, c.parse, p, frame).Some? <==>
              Terminates(c, frame) || (Flows(c, frame) && |Joined(p.parts)| + Size(c, frame) <= TEXT_CHARS)
    ensures Flows(c, frame) && Take(c.chat, c.parse, p, frame).Some? ==>
              Take(c.chat, c.parse, p, frame) == Some(p.(parts := Apply(c, p.parts, frame)))
    ensures Terminates(c, frame) ==>
              Take(c.chat, c.parse, p, frame)
              == Some(p.(terminal := TerminalIn(c, frame), done := true,
                         snapshot := if SnapshotIn(c, frame).Some? then SnapshotIn(c, frame) else p.snapshot))
  {
    hide Data, TakeResponses, Snapshot, Joined, SnapshotIn, Terminates;
    TerminatesIsEvent(c, frame);
    if IsEvent(c, frame) {
      EventAdds(p, c, frame);
      ApplyLength(c, p.parts, frame);
    }
  }

  lemma TerminatesIsEvent(c: Config, frame: string)
    ensures Terminates(c, frame) ==> IsEvent(c, frame) && !Flows(c, frame) && !Silent(frame) && !EndMark(frame)
    ensures Flows(c, frame) ==> Silent(frame) || IsEvent(c, frame)
    ensures Silent(frame) ==> AdditionIn(c, frame).None? && Flows(c, frame)
  {
  }

  // ---- All frames ----

  /** A responses stream: events and deltas, a terminal event at `k`, and nothing that carries data after it. */
  ghost predicate ResponsesStream(c: Config, frames: seq<string>, k: int) {
    && 0 <= k < |frames| && (forall i :: 0 <= i < k ==> Flows(c, frames[i])) && Terminates(c, frames[k])
    && forall i :: k < i < |frames| ==> Silent(frames[i])
  }

  ghost predicate IsResponsesStream(c: Config, frames: seq<string>) { exists k :: ResponsesStream(c, frames, k) }

  function Grown(c: Config, parts: map<Coordinates, string>, frames: seq<string>): map<Coordinates, string>
    decreases |frames|
  {
    if frames == [] then parts else Grown(c, Apply(c, parts, frames[0]), frames[1..])
  }

  /** The parts are those that deltas name, each the concatenation of its deltas in order. */
  ghost predicate PartsAre(
      c: Config, before: map<Coordinates, string>, frames: seq<string>, parts: map<Coordinates, string>)
  {
    && (forall at :: at in parts <==> at in before || Named(c, frames, at))
    && (forall at :: at in parts ==> parts[at] == TextAt(before, at) + DeltasAt(c, frames, at))
  }

  lemma NamedStep(c: Config, frames: seq<string>, at: Coordinates)
    requires frames != []
    ensures Named(c, frames, at) <==>
              (AdditionIn(c, frames[0]).Some? && AdditionIn(c, frames[0]).value.at == at) || Named(c, frames[1..], at)
  {
    hide AdditionIn;
    if Named(c, frames, at) {
      var i :| 0 <= i < |frames| && AdditionIn(c, frames[i]).Some? && AdditionIn(c, frames[i]).value.at == at;
      assert i > 0 ==> frames[i] == frames[1..][i - 1];
    }
    if Named(c, frames[1..], at) {
      var i :| 0 <= i < |frames| - 1 && AdditionIn(c, frames[1..][i]).Some?
        && AdditionIn(c, frames[1..][i]).value.at == at;
      assert frames[i + 1] == frames[1..][i];
    }
  }

  /** The text of a part, which is empty where there is none. */
  function TextAt(parts: map<Coordinates, string>, at: Coordinates): string { if at in parts then parts[at] else "" }

  /** What a frame adds at these coordinates. */
  function AddedAt(c: Config, frame: string, at: Coordinates): string {
    var addition := AdditionIn(c, frame);
    if addition.Some? && addition.value.at == at then addition.value.text else ""
  }

  lemma ApplyAt(c: Config, before: map<Coordinates, string>, frame: string, at: Coordinates)
    ensures at in Apply(c, before, frame) <==>
              at in before || (AdditionIn(c, frame).Some? && AdditionIn(c, frame).value.at == at)
    ensures TextAt(Apply(c, before, frame), at) == TextAt(before, at) + AddedAt(c, frame, at)
  {
    hide AdditionIn;
    assert TextAt(before, at) + "" == TextAt(before, at);
  }

  lemma PartAt(
      c: Config, before: map<Coordinates, string>, frames: seq<string>, after: map<Coordinates, string>,
      at: Coordinates)
    requires PartsAre(c, before, frames, after)
    ensures at in after <==> at in before || Named(c, frames, at)
    ensures at in after ==> TextAt(after, at) == TextAt(before, at) + DeltasAt(c, frames, at)
  {
    hide Named, DeltasAt;
  }

  /** One frame more, at one place. */
  lemma PartStep(
      c: Config, before: map<Coordinates, string>, frames: seq<string>, after: map<Coordinates, string>,
      at: Coordinates)
    requires frames != [] && PartsAre(c, Apply(c, before, frames[0]), frames[1..], after)
    ensures at in after <==> at in before || Named(c, frames, at)
    ensures at in after ==> TextAt(after, at) == TextAt(before, at) + DeltasAt(c, frames, at)
  {
    hide AdditionIn, Named, PartsAre, Apply, TextAt, DeltasAt;
    NamedStep(c, frames, at);
    ApplyAt(c, before, frames[0], at);
    PartAt(c, Apply(c, before, frames[0]), frames[1..], after, at);
    DeltasStep(c, frames, at);
    var was, added, rest := TextAt(before, at), AddedAt(c, frames[0], at), DeltasAt(c, frames[1..], at);
    assert (was + added) + rest == was + (added + rest);
  }

  lemma NoDeltas(c: Config, at: Coordinates)
    ensures DeltasAt(c, [], at) == ""
  {
  }

  lemma DeltasStep(c: Config, frames: seq<string>, at: Coordinates)
    requires frames != []
    ensures DeltasAt(c, frames, at) == AddedAt(c, frames[0], at) + DeltasAt(c, frames[1..], at)
  {
    hide AdditionIn;
  }

  lemma {:induction false} GrownParts(c: Config, before: map<Coordinates, string>, frames: seq<string>)
    ensures PartsAre(c, before, frames, Grown(c, before, frames))
    decreases |frames|
  {
    hide AdditionIn, Named, Apply, DeltasAt;
    if frames == [] {
      NothingNamed(c);
      forall at | at in before ensures before[at] == TextAt(before, at) + DeltasAt(c, [], at) {
        NoDeltas(c, at);
      }
    } else {
      GrownParts(c, Apply(c, before, frames[0]), frames[1..]);
      var after := Grown(c, before, frames);
      forall at
        ensures at in after <==> at in before || Named(c, frames, at)
        ensures at in after ==> after[at] == TextAt(before, at) + DeltasAt(c, frames, at)
      {
        PartStep(c, before, frames, after, at);
      }
    }
  }

  lemma NothingNamed(c: Config)
    ensures forall at :: !Named(c, [], at)
  {
  }

  function FoldResponses(c: Config, p: Progress, frames: seq<string>): Option<Progress> {
    Fold(RulesOf(c).take, p, frames)
  }

  /** What a fold over an accepted stream arrives at. */
  function Closed(c: Config, p: Progress, frames: seq<string>, last: string): Progress {
    p.(parts := Grown(c, p.parts, frames), terminal := TerminalIn(c, last), done := true,
       snapshot := if SnapshotIn(c, last).Some? then SnapshotIn(c, last) else p.snapshot)
  }

  ghost predicate FoldsRight(c: Config, p: Progress, frames: seq<string>) {
    && (FoldResponses(c, p, frames).Some? && FoldResponses(c, p, frames).value.done
        <==> IsResponsesStream(c, frames) && |Joined(p.parts)| + Total(c, frames) <= TEXT_CHARS)
    && (forall k :: ResponsesStream(c, frames, k) && |Joined(p.parts)| + Total(c, frames) <= TEXT_CHARS ==>
          FoldResponses(c, p, frames) == Some(Closed(c, p, frames, frames[k])))
  }

  lemma {:induction false} SilentAddsNothing(c: Config, parts: map<Coordinates, string>, frames: seq<string>)
    requires forall i :: 0 <= i < |frames| ==> Silent(frames[i])
    ensures Grown(c, parts, frames) == parts && Total(c, frames) == 0
    decreases |frames|
  {
    hide Data;
    if frames != [] {
      SilentAddsNothing(c, parts, frames[1..]);
    }
  }

  lemma StepOf(c: Config, p: Progress, frames: seq<string>)
    requires frames != []
    ensures FoldResponses(c, p, frames)
            == match Take(c.chat, c.parse, p, frames[0])
               case None => None
               case Some(next) => FoldResponses(c, next, frames[1..])
    ensures Total(c, frames) == Size(c, frames[0]) + Total(c, frames[1..])
    ensures Grown(c, p.parts, frames) == Grown(c, Apply(c, p.parts, frames[0]), frames[1..])
  {
    hide Take;
    TakesOne(c, p, frames);
  }

  lemma SilentRest(c: Config, p: Progress, frames: seq<string>)
    requires p.done
    ensures FoldResponses(c, p, frames).Some? <==> forall i :: 0 <= i < |frames| ==> Silent(frames[i])
    ensures FoldResponses(c, p, frames).Some? ==> FoldResponses(c, p, frames) == Some(p)
  {
    SilentFolds(c, p, frames);
  }

  lemma TerminatesAtOnce(c: Config, frames: seq<string>)
    requires frames != [] && Terminates(c, frames[0])
    ensures forall k :: ResponsesStream(c, frames, k) ==> k == 0
    ensures ResponsesStream(c, frames, 0) <==> forall i :: 0 <= i < |frames| - 1 ==> Silent(frames[1..][i])
    ensures AdditionIn(c, frames[0]).None?
  {
    hide Data, SnapshotIn, Silent;
    NoFlow(c, frames[0]);
    if ResponsesStream(c, frames, 0) {
      assert forall i :: 0 <= i < |frames| - 1 ==> frames[1..][i] == frames[i + 1];
    } else if forall i :: 0 <= i < |frames| - 1 ==> Silent(frames[1..][i]) {
      assert forall i :: 0 < i < |frames| ==> frames[i] == frames[1..][i - 1];
    }
  }

  lemma NoFlow(c: Config, frame: string)
    requires Terminates(c, frame)
    ensures !Flows(c, frame) && AdditionIn(c, frame).None?
  {
  }

  lemma EndFolds(c: Config, p: Progress, frames: seq<string>)
    requires !c.chat && Flowing(p) && frames != [] && Terminates(c, frames[0])
    ensures FoldsRight(c, p, frames)
  {
    hide Data, Take, Terminates, ResponsesStream, FoldResponses, SnapshotIn, TerminalIn, AdditionIn, Joined, Silent;
    StepOf(c, p, frames);
    TakeFlow(c, p, frames[0]);
    TerminatesAtOnce(c, frames);
    SilentRest(c, Take(c.chat, c.parse, p, frames[0]).value, frames[1..]);
    if forall i :: 0 <= i < |frames| - 1 ==> Silent(frames[1..][i]) {
      SilentAddsNothing(c, p.parts, frames[1..]);
      assert IsResponsesStream(c, frames);
    }
  }

  lemma FlowsLater(c: Config, frames: seq<string>)
    requires frames != [] && Flows(c, frames[0])
    ensures forall k :: ResponsesStream(c, frames, k) ==> 0 < k < |frames| && ResponsesStream(c, frames[1..], k - 1)
    ensures forall k :: ResponsesStream(c, frames[1..], k) ==> ResponsesStream(c, frames, k + 1)
  {
    hide Data, SnapshotIn, Silent, Flows;
    FlowIsNoEnd(c, frames[0]);
    forall k | ResponsesStream(c, frames[1..], k) ensures ResponsesStream(c, frames, k + 1) {
      assert forall i :: 0 < i < |frames| ==> frames[i] == frames[1..][i - 1];
    }
  }

  lemma FlowIsNoEnd(c: Config, frame: string)
    requires Flows(c, frame)
    ensures !Terminates(c, frame)
  {
  }

  lemma FlowFolds(c: Config, p: Progress, frames: seq<string>)
    requires !c.chat && Flowing(p) && frames != [] && Flows(c, frames[0])
    requires var next := p.(parts := Apply(c, p.parts, frames[0])); Flowing(next) ==> FoldsRight(c, next, frames[1..])
    ensures FoldsRight(c, p, frames)
  {
    hide Data, Take, Terminates, ResponsesStream, FoldResponses, SnapshotIn, TerminalIn, AdditionIn, Joined, Silent,
         Flows, Apply, Size, Total, Grown;
    StepOf(c, p, frames);
    TakeFlow(c, p, frames[0]);
    ApplyLength(c, p.parts, frames[0]);
    FlowsLater(c, frames);
    FlowIsNoEnd(c, frames[0]);
    if k :| ResponsesStream(c, frames, k) {
      assert ResponsesStream(c, frames[1..], k - 1);
    }
    if k :| ResponsesStream(c, frames[1..], k) {
      assert ResponsesStream(c, frames, k + 1);
    }
    forall k | 0 < k < |frames| && ResponsesStream(c, frames, k) && |Joined(p.parts)| + Total(c, frames) <= TEXT_CHARS
      ensures FoldResponses(c, p, frames) == Some(Closed(c, p, frames, frames[k]))
    {
      assert ResponsesStream(c, frames[1..], k - 1) && frames[1..][k - 1] == frames[k];
    }
  }

  lemma OtherFoldsRight(c: Config, p: Progress, frames: seq<string>)
    requires !c.chat && Flowing(p) && (frames == [] || (!Flows(c, frames[0]) && !Terminates(c, frames[0])))
    ensures FoldsRight(c, p, frames)
  {
    hide Data, Take, SnapshotIn, Joined, Total;
    if frames != [] {
      StepOf(c, p, frames);
      TakeFlow(c, p, frames[0]);
    }
  }

  /** A fold ends done exactly on such a stream, with every part the concatenation of its deltas. */
  lemma {:induction false} StreamFolds(c: Config, p: Progress, frames: seq<string>)
    requires !c.chat && Flowing(p)
    ensures FoldsRight(c, p, frames)
    decreases |frames|
  {
    hide Data, Take, Terminates, Flows, FoldsRight, Joined, Apply;
    if frames != [] && Terminates(c, frames[0]) {
      EndFolds(c, p, frames);
    } else if frames != [] && Flows(c, frames[0]) {
      var next := p.(parts := Apply(c, p.parts, frames[0]));
      if Flowing(next) {
        StreamFolds(c, next, frames[1..]);
      }
      FlowFolds(c, p, frames);
    } else {
      OtherFoldsRight(c, p, frames);
    }
  }

  // ---- Whole streams ----

  /**
   The observer accepts exactly the responses streams that are within its limits
   and whose text is that of the completed response, if there is one. It reports
   the parts joined in the order of their coordinates, each the concatenation of
   its deltas, and the terminal event.
   */
  lemma ResponsesAcceptance(c: Config, stream: seq<Byte>)
    requires !c.chat && c.streaming
    ensures Parse(c, stream).Some? <==>
              && |stream| <= c.limit && TextIn(c, stream).Some?
              && var text := TextIn(c, stream).value;
                 var frames := FramesOf(text);
                 && FitsObserver(text) && Total(c, frames) <= TEXT_CHARS
                 && exists k :: ResponsesStream(c, frames, k)
                                && SnapshotIn(c, frames[k]) in {None, Some(Joined(Grown(c, map[], frames)))}
    ensures Parse(c, stream).Some? ==>
              var frames := FramesOf(TextIn(c, stream).value);
              && (exists k :: ResponsesStream(c, frames, k))
              && (forall k :: ResponsesStream(c, frames, k) ==>
                    Parse(c, stream).value
                    == Report(TerminalIn(c, frames[k]), Joined(Grown(c, map[], frames)), SnapshotIn(c, frames[k])))
              && PartsAre(c, map[], frames, Grown(c, map[], frames))
  {
    hide Decode, FramesOf, RestOf, AllFit, Width, Blank, Take, ResponsesStream, Grown, Total, TerminalIn,
         SnapshotIn, PartsAre, FoldsRight;
    if Decode(c, [], stream).Some? {
      var frames := FramesOf(Decode(c, [], stream).value.text);
      NothingJoined();
      StreamFolds(c, Start, frames);
      StartFolds(c, frames);
      GrownParts(c, map[], frames);
    }
  }

  lemma StartFolds(c: Config, frames: seq<string>)
    requires FoldsRight(c, Start, frames)
    ensures FoldResponses(c, Start, frames).Some? && FoldResponses(c, Start, frames).value.done
            <==> IsResponsesStream(c, frames) && Total(c, frames) <= TEXT_CHARS
    ensures forall k :: ResponsesStream(c, frames, k) ==> 0 <= k < |frames|
    ensures forall k :: ResponsesStream(c, frames, k) && Total(c, frames) <= TEXT_CHARS ==>
              FoldResponses(c, Start, frames)
              == Some(Progress(TerminalIn(c, frames[k]), true, "", Grown(c, map[], frames),
                SnapshotIn(c, frames[k]), false))
  {
    hide Data, Take, Total, Grown, SnapshotIn, TerminalIn;
    NothingJoined();
  }
}
