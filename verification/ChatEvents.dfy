/**
 Which event streams a Chat client can be shown: the per-event checks of
 `lowering/events.rs` together with the stream state they read
 (`event.rs`). All other checks are the `accepted` flag of an event.
 */
module ChatEvents {
  import opened Prelude

  datatype ItemKind = Message | ToolCall(message: Option<nat>) | OtherItem

  datatype PartKind = Text | Audio | Refusal | OtherPart

  datatype Presence = Absent | Null | Value(probs: seq<string>) {
    function Known(): seq<string> { if Value? then probs else [] }
  }

  datatype Part = Part(
    id: nat, kind: PartKind, logprobs: Presence, valueFinished: bool, metadataFinished: bool, finished: bool)

  datatype Item = Item(id: nat, kind: ItemKind, parts: seq<Part>, finished: bool)

  datatype State = State(items: seq<Item>)

  const Start := State([])

  datatype Change =
    | ItemStarted(item: nat, kind: ItemKind)
    | PartStarted(item: nat, part: nat, partKind: PartKind)
    | Delta(item: nat, part: nat, probs: seq<string>)
    | LogprobsSnapshot(item: nat, part: nat, probs: seq<string>)
    | TextMetadata(item: nat, part: nat, logprobs: Presence)
    | ValueFinished(item: nat, part: nat)
    | PartFinished(item: nat, part: nat)
    | ItemFinished(item: nat, completed: bool)
    | Unrelated

  datatype Event = Event(change: Change, accepted: bool)

  /** How probabilities seen in deltas and in a final snapshot may differ is left to `compatible_logprobs`. */
  type Compatible = (seq<string>, seq<string>) -> bool

  // ---- The stream state ----

  function ItemAt(items: seq<Item>, id: nat): (i: Option<nat>)
    ensures i.Some? ==> i.value < |items| && items[i.value].id == id
    ensures i.None? ==> forall k :: 0 <= k < |items| ==> items[k].id != id
  {
    if items == [] then None
    else
      var before := ItemAt(items[..|items| - 1], id);
      if before.Some? then before else if items[|items| - 1].id == id then Some(|items| - 1) else None
  }

  function PartAt(parts: seq<Part>, id: nat): (i: Option<nat>)
    ensures i.Some? ==> i.value < |parts| && parts[i.value].id == id
    ensures i.None? ==> forall k :: 0 <= k < |parts| ==> parts[k].id != id
  {
    if parts == [] then None
    else
      var before := PartAt(parts[..|parts| - 1], id);
      if before.Some? then before else if parts[|parts| - 1].id == id then Some(|parts| - 1) else None
  }

  /** `StreamState::part` */
  function Find(s: State, item: nat, part: nat): Option<Part> {
    var i := ItemAt(s.items, item);
    if i.None? then None
    else
      var p := PartAt(s.items[i.value].parts, part);
      if p.None? then None else Some(s.items[i.value].parts[p.value])
  }

  predicate HasMessage(items: seq<Item>) { exists i :: 0 <= i < |items| && items[i].kind.Message? }

  // ---- The checks for Chat ----

  predicate Representable(s: State, e: Change) {
    match e
    case ItemStarted(_, Message) =>
      forall i :: 0 <= i < |s.items| ==> !s.items[i].kind.Message? && s.items[i].kind != ToolCall(None)
    case ItemStarted(_, ToolCall(message)) =>
      forall i :: 0 <= i < |s.items| && s.items[i].kind.Message? ==> Some(s.items[i].id) == message
    case PartStarted(item, _, kind) =>
      var i := ItemAt(s.items, item);
      && i.Some?
      && (s.items[i.value].kind.Message? ==>
            forall k :: 0 <= k < |s.items[i.value].parts| ==>
              var p := s.items[i.value].parts[k].kind;
              p != kind && p != Audio && p != Refusal && kind != Refusal && kind == Audio)
    case LogprobsSnapshot(item, part, probs) =>
      var p := Find(s, item, part);
      p.Some? && (p.value.logprobs.Value? ==> p.value.logprobs.probs == probs)
    case TextMetadata(item, part, logprobs) =>
      var p := Find(s, item, part);
      p.Some? && (p.value.logprobs.Value? ==> logprobs == p.value.logprobs)
    case _ => true
  }

  // ---- The reducer ----

  /** What an event does to an open part, when it may. */
  function Touch(compatible: Compatible, p: Part, e: Change): Option<Part> {
    if p.finished then None
    else
      match e
      case Delta(_, _, probs) =>
        if p.valueFinished || (probs != [] && p.kind !in {Text, Refusal}) then None
        else Some(if probs == [] then p else p.(logprobs := Value(p.logprobs.Known() + probs)))
      case LogprobsSnapshot(_, _, probs) =>
        if p.kind !in {Text, Refusal} || p.valueFinished || !compatible(p.logprobs.Known(), probs) then None
        else Some(p.(logprobs := Value(probs)))
      case TextMetadata(_, _, logprobs) =>
        if p.kind !in {Text, Refusal} || !p.valueFinished || p.metadataFinished
           || !compatible(p.logprobs.Known(), logprobs.Known()) then None
        else Some(p.(logprobs := logprobs, metadataFinished := true))
      case ValueFinished(_, _) => if p.valueFinished then None else Some(p.(valueFinished := true))
      case PartFinished(_, _) => if !p.valueFinished then None else Some(p.(finished := true))
      case _ => None
  }

  predicate OwnsCall(items: seq<Item>, item: nat) {
    exists i :: 0 <= i < |items| && items[i].kind == ToolCall(Some(item))
  }

  /** A call may be added to this message: it refuses nothing, and only calls of its own have come after it. */
  predicate MayCall(items: seq<Item>, message: nat) {
    var i := ItemAt(items, message);
    && i.Some? && items[i.value].kind.Message?
    && (forall k :: 0 <= k < |items[i.value].parts| ==> items[i.value].parts[k].kind != Refusal)
    && forall k :: i.value < k < |items| ==> items[k].kind == ToolCall(Some(message))
  }

  predicate PartExists(items: seq<Item>, part: nat) {
    exists i :: 0 <= i < |items| && PartAt(items[i].parts, part).Some?
  }

  function Reduce(compatible: Compatible, s: State, e: Change): Option<State> {
    match e
    case Unrelated => Some(s)
    case ItemStarted(item, kind) =>
      if ItemAt(s.items, item).Some? then None
      else if kind.ToolCall? && kind.message.Some? && !MayCall(s.items, kind.message.value) then None
      else Some(State(s.items + [Item(item, kind, [], false)]))
    case PartStarted(item, part, kind) =>
      var i := ItemAt(s.items, item);
      if i.None? || s.items[i.value].finished || PartExists(s.items, part)
         || (s.items[i.value].kind.ToolCall? && s.items[i.value].parts != [])
         || (kind == Refusal && OwnsCall(s.items, item)) then None
      else
        var owner := s.items[i.value];
        if (owner.kind.Message? && kind == OtherPart) || (!owner.kind.Message? && kind != OtherPart) then None
        else
          var grown := owner.parts + [Part(part, kind, Absent, false, false, false)];
          Some(State(s.items[i.value := owner.(parts := grown)]))
    case ItemFinished(item, completed) =>
      var i := ItemAt(s.items, item);
      if i.None? || s.items[i.value].finished then None
      else if completed && exists k :: 0 <= k < |s.items[i.value].parts| && !s.items[i.value].parts[k].finished
         then None
      else if s.items[i.value].kind.ToolCall? && |s.items[i.value].parts| != 1 then None
      else Some(State(s.items[i.value := s.items[i.value].(finished := true)]))
    case _ =>
      var i := ItemAt(s.items, e.item);
      if i.None? || s.items[i.value].finished then None
      else
        var owner := s.items[i.value];
        var p := PartAt(owner.parts, e.part);
        if p.None? then None
        else
          match Touch(compatible, owner.parts[p.value], e)
          case None => None
          case Some(next) => Some(State(s.items[i.value := owner.(parts := owner.parts[p.value := next])]))
  }

  /** One event of a stream for a Chat client. */
  function Step(compatible: Compatible, s: State, e: Event): Option<State> {
    if !e.accepted || !Representable(s, e.change) then None else Reduce(compatible, s, e.change)
  }

  function Run(compatible: Compatible, s: State, events: seq<Event>): Option<State> {
    if events == [] then Some(s)
    else
      match Run(compatible, s, events[..|events| - 1])
      case None => None
      case Some(before) => Step(compatible, before, events[|events| - 1])
  }

  // ---- The shape of a Chat answer ----

  /** One message at most, to which every tool call belongs when there is one. */
  ghost predicate OneMessage(items: seq<Item>) {
    && (forall i, j :: 0 <= i < j < |items| && items[i].kind.Message? ==> !items[j].kind.Message?)
    && (forall i, j :: 0 <= i < |items| && 0 <= j < |items| && items[i].kind.Message? && items[j].kind.ToolCall? ==>
          items[j].kind.message == Some(items[i].id))
  }

  /** A text, an audio or a refusal part, or text followed by audio. */
  ghost predicate MessageParts(parts: seq<Part>) {
    && (forall k :: 0 <= k < |parts| ==> parts[k].kind in {Text, Audio, Refusal})
    && (|parts| <= 1 || (|parts| == 2 && parts[0].kind == Text && parts[1].kind == Audio))
  }

  ghost predicate ChatShape(s: State) {
    && OneMessage(s.items)
    && forall i :: 0 <= i < |s.items| && s.items[i].kind.Message? ==> MessageParts(s.items[i].parts)
  }

  /** The same item further on: parts are only added, and recorded probabilities only extended. */
  ghost predicate PartGrows(p: Part, q: Part) {
    p.id == q.id && p.kind == q.kind
    && (p.logprobs.Value? ==> q.logprobs.Value? && p.logprobs.probs <= q.logprobs.probs)
  }

  ghost predicate ItemGrows(a: Item, b: Item) {
    a.id == b.id && a.kind == b.kind && |a.parts| <= |b.parts|
    && forall k :: 0 <= k < |a.parts| ==> PartGrows(a.parts[k], b.parts[k])
  }

  ghost predicate Grows(s: State, t: State) {
    |s.items| <= |t.items| && forall i :: 0 <= i < |s.items| ==> ItemGrows(s.items[i], t.items[i])
  }

  lemma TouchGrows(compatible: Compatible, p: Part, e: Change)
    requires Touch(compatible, p, e).Some?
    requires (e.LogprobsSnapshot? && p.logprobs.Value? ==> p.logprobs.probs == e.probs)
             && (e.TextMetadata? && p.logprobs.Value? ==> e.logprobs == p.logprobs)
    ensures PartGrows(p, Touch(compatible, p, e).value)
  {
  }

  lemma StepGrows(compatible: Compatible, s: State, e: Event)
    requires Step(compatible, s, e).Some?
    ensures Grows(s, Step(compatible, s, e).value)
  {
    if e.change.Delta? || e.change.LogprobsSnapshot? || e.change.TextMetadata?
       || e.change.ValueFinished? || e.change.PartFinished? {
      var i := ItemAt(s.items, e.change.item).value;
      var p := PartAt(s.items[i].parts, e.change.part).value;
      TouchGrows(compatible, s.items[i].parts[p], e.change);
    }
  }

  /** A new item keeps the shape. */
  lemma ItemKeepsShape(s: State, item: nat, kind: ItemKind)
    requires ChatShape(s) && Representable(s, ItemStarted(item, kind)) && ItemAt(s.items, item).None?
    requires kind.ToolCall? && kind.message.Some? ==> HasMessage(s.items)
    requires kind.Message? ==> forall i :: 0 <= i < |s.items| && s.items[i].kind.ToolCall? ==>
      s.items[i].kind.message.None?
    ensures ChatShape(State(s.items + [Item(item, kind, [], false)]))
  {
  }

  /** Calls that name an owner come after a message. */
  ghost predicate OwnersExist(s: State) {
    forall j :: 0 <= j < |s.items| && s.items[j].kind.ToolCall? && s.items[j].kind.message.Some? ==> HasMessage(s.items)
  }

  lemma PartKeepsShape(s: State, i: nat, part: Part)
    requires ChatShape(s) && i < |s.items|
    requires s.items[i].kind.Message? ==> MessageParts(s.items[i].parts + [part])
    ensures ChatShape(State(s.items[i := s.items[i].(parts := s.items[i].parts + [part])]))
  {
  }

  lemma PartFits(parts: seq<Part>, part: Part)
    requires MessageParts(parts) && part.kind != OtherPart
    requires forall k :: 0 <= k < |parts| ==>
               parts[k].kind != part.kind && parts[k].kind != Audio && parts[k].kind != Refusal && part.kind == Audio
    ensures MessageParts(parts + [part])
  {
  }

  lemma SameKindsKeepShape(s: State, i: nat, next: Item)
    requires ChatShape(s) && i < |s.items| && next.id == s.items[i].id && next.kind == s.items[i].kind
    requires |next.parts| == |s.items[i].parts|
    requires forall k :: 0 <= k < |next.parts| ==> next.parts[k].kind == s.items[i].parts[k].kind
    ensures ChatShape(State(s.items[i := next]))
  {
  }

  lemma StepKeepsShape(compatible: Compatible, s: State, e: Event)
    requires ChatShape(s) && OwnersExist(s) && Step(compatible, s, e).Some?
    ensures ChatShape(Step(compatible, s, e).value)
  {
    match e.change {
      case Unrelated =>
      case ItemStarted(item, kind) => ItemKeepsShape(s, item, kind);
      case PartStarted(item, part, kind) =>
        var i := ItemAt(s.items, item).value;
        if s.items[i].kind.Message? {
          PartFits(s.items[i].parts, Part(part, kind, Absent, false, false, false));
        }
        PartKeepsShape(s, i, Part(part, kind, Absent, false, false, false));
      case ItemFinished(item, _) =>
        var i := ItemAt(s.items, item).value;
        SameKindsKeepShape(s, i, s.items[i].(finished := true));
      case _ =>
        var i := ItemAt(s.items, e.change.item).value;
        var p := PartAt(s.items[i].parts, e.change.part).value;
        var next := Touch(compatible, s.items[i].parts[p], e.change).value;
        SameKindsKeepShape(s, i, s.items[i].(parts := s.items[i].parts[p := next]));
    }
  }

  lemma StepKeepsOwners(compatible: Compatible, s: State, e: Event)
    requires OwnersExist(s) && Step(compatible, s, e).Some?
    ensures OwnersExist(Step(compatible, s, e).value)
  {
    var t := Step(compatible, s, e).value;
    StepGrows(compatible, s, e);
    if HasMessage(s.items) {
      MessagesStay(s, t);
    } else {
      forall j | 0 <= j < |t.items| && t.items[j].kind.ToolCall? ensures t.items[j].kind.message.None? {
        assert j < |s.items| ==> ItemGrows(s.items[j], t.items[j]);
      }
    }
  }

  lemma MessagesStay(s: State, t: State)
    requires Grows(s, t) && HasMessage(s.items)
    ensures HasMessage(t.items)
  {
    var i :| 0 <= i < |s.items| && s.items[i].kind.Message?;
    assert ItemGrows(s.items[i], t.items[i]);
  }

  /**
   Every stream that a Chat client is shown has one message at most, of text,
   audio, refusal, or text and then audio.
   */
  lemma {:induction false} ChatStreamsHaveShape(compatible: Compatible, events: seq<Event>)
    requires Run(compatible, Start, events).Some?
    ensures ChatShape(Run(compatible, Start, events).value) && OwnersExist(Run(compatible, Start, events).value)
  {
    if events != [] {
      var before := Run(compatible, Start, events[..|events| - 1]).value;
      ChatStreamsHaveShape(compatible, events[..|events| - 1]);
      StepKeepsShape(compatible, before, events[|events| - 1]);
      StepKeepsOwners(compatible, before, events[|events| - 1]);
    }
  }

  lemma GrowthIsTransitive(s: State, t: State, u: State)
    requires Grows(s, t) && Grows(t, u)
    ensures Grows(s, u)
  {
    forall i | 0 <= i < |s.items| ensures ItemGrows(s.items[i], u.items[i]) {
      assert ItemGrows(s.items[i], t.items[i]) && ItemGrows(t.items[i], u.items[i]);
      forall k | 0 <= k < |s.items[i].parts| ensures PartGrows(s.items[i].parts[k], u.items[i].parts[k]) {
        assert PartGrows(s.items[i].parts[k], t.items[i].parts[k])
          && PartGrows(t.items[i].parts[k], u.items[i].parts[k]);
      }
    }
  }

  /** What a Chat client has been told of items, parts and probabilities is never taken back. */
  lemma {:induction false} ChatStreamsOnlyGrow(compatible: Compatible, s: State, events: seq<Event>)
    requires Run(compatible, s, events).Some?
    ensures Grows(s, Run(compatible, s, events).value)
  {
    if events != [] {
      var before := Run(compatible, s, events[..|events| - 1]).value;
      ChatStreamsOnlyGrow(compatible, s, events[..|events| - 1]);
      StepGrows(compatible, before, events[|events| - 1]);
      GrowthIsTransitive(s, before, Run(compatible, s, events).value);
    }
  }

  // ---- What a Chat client is shown ----

  /** A message with one text part that is still written, with these probabilities so far. */
  function Writing(item: nat, part: nat, logprobs: Presence): State {
    State([Item(item, Message, [Part(part, Text, logprobs, false, false, false)], false)])
  }

  lemma RunOneMore(compatible: Compatible, s: State, events: seq<Event>, e: Event)
    ensures Run(compatible, s, events + [e])
            == match Run(compatible, s, events) case None => None case Some(t) => Step(compatible, t, e)
  {
    assert (events + [e])[..|events|] == events;
  }

  function Deltas(item: nat, part: nat, probs: seq<seq<string>>): seq<Event> {
    seq(|probs|, i requires 0 <= i < |probs| => Event(Delta(item, part, probs[i]), true))
  }

  /** A message with one part. */
  function Only(item: nat, part: Part, finished: bool): State { State([Item(item, Message, [part], finished)]) }

  /** An event of the only part touches that part. */
  lemma OnlyPartIsTouched(compatible: Compatible, item: nat, part: Part, e: Change)
    requires e.Delta? || e.ValueFinished? || e.PartFinished?
    requires e.item == item && e.part == part.id && Touch(compatible, part, e).Some?
    ensures Step(compatible, Only(item, part, false), Event(e, true))
            == Some(Only(item, Touch(compatible, part, e).value, false))
  {
    hide Touch;
    var items := Only(item, part, false).items;
    var owner, next := items[0], Touch(compatible, part, e).value;
    assert ItemAt(items, item) == Some(0) by {
      assert items[0].id == item;
    }
    assert PartAt(owner.parts, part.id) == Some(0) by {
      assert owner.parts[0].id == part.id;
    }
    assert owner.parts[0 := next] == [next];
    assert items[0 := owner.(parts := [next])] == [Item(item, Message, [next], false)];
  }

  lemma OneDelta(compatible: Compatible, item: nat, part: nat, logprobs: Presence, probs: seq<string>)
    ensures var next := if probs == [] then logprobs else Value(logprobs.Known() + probs);
            && Step(compatible, Writing(item, part, logprobs), Event(Delta(item, part, probs), true))
               == Some(Writing(item, part, next))
            && next.Known() == logprobs.Known() + probs
  {
    hide Step;
    assert probs == [] ==> logprobs.Known() + probs == logprobs.Known();
    OnlyPartIsTouched(compatible, item, Part(part, Text, logprobs, false, false, false), Delta(item, part, probs));
  }

  /** Deltas are accepted one after the other, and their probabilities add up in order. */
  lemma {:induction false} DeltasAddUp(compatible: Compatible, item: nat, part: nat, probs: seq<seq<string>>)
    ensures exists logprobs: Presence ::
              && Run(compatible, Writing(item, part, Absent), Deltas(item, part, probs))
                   == Some(Writing(item, part, logprobs))
              && logprobs.Known() == Concat(probs)
  {
    hide Step;
    if probs == [] {
      assert Absent.Known() == Concat(probs);
    } else {
      var before, last := probs[..|probs| - 1], probs[|probs| - 1];
      DeltasAddUp(compatible, item, part, before);
      var logprobs: Presence :|
        && Run(compatible, Writing(item, part, Absent), Deltas(item, part, before))
             == Some(Writing(item, part, logprobs))
        && logprobs.Known() == Concat(before);
      assert Deltas(item, part, probs) == Deltas(item, part, before) + [Event(Delta(item, part, last), true)];
      RunOneMore(compatible, Writing(item, part, Absent), Deltas(item, part, before),
                 Event(Delta(item, part, last), true));
      OneDelta(compatible, item, part, logprobs, last);
    }
  }

  lemma RunOne(compatible: Compatible, s: State, e: Event)
    ensures Run(compatible, s, [e]) == Step(compatible, s, e)
  {
    hide Step;
    assert [] + [e] == [e];
    RunOneMore(compatible, s, [], e);
  }

  lemma RunTwo(compatible: Compatible, s: State, a: Event, b: Event)
    ensures Run(compatible, s, [a, b])
            == match Step(compatible, s, a) case None => None case Some(t) => Step(compatible, t, b)
  {
    hide Step;
    RunOne(compatible, s, a);
    RunOneMore(compatible, s, [a], b);
    assert [a] + [b] == [a, b];
  }

  lemma ItemStarts(compatible: Compatible, item: nat)
    ensures Step(compatible, Start, Event(ItemStarted(item, Message), true))
            == Some(State([Item(item, Message, [], false)]))
  {
    assert [] + [Item(item, Message, [], false)] == [Item(item, Message, [], false)];
  }

  lemma PartStarts(compatible: Compatible, item: nat, part: nat)
    ensures Step(compatible, State([Item(item, Message, [], false)]), Event(PartStarted(item, part, Text), true))
            == Some(Writing(item, part, Absent))
  {
    var items := [Item(item, Message, [], false)];
    assert ItemAt(items, item) == Some(0) by {
      assert items[0].id == item;
    }
    assert !PartExists(items, part);
    assert [] + [Part(part, Text, Absent, false, false, false)] == [Part(part, Text, Absent, false, false, false)];
    assert items[0 := Writing(item, part, Absent).items[0]] == Writing(item, part, Absent).items;
  }

  lemma MessageStarts(compatible: Compatible, item: nat, part: nat)
    ensures Run(compatible, Start,
                [Event(ItemStarted(item, Message), true), Event(PartStarted(item, part, Text), true)])
            == Some(Writing(item, part, Absent))
  {
    hide Step;
    RunTwo(compatible, Start, Event(ItemStarted(item, Message), true), Event(PartStarted(item, part, Text), true));
    ItemStarts(compatible, item);
    PartStarts(compatible, item, part);
  }

  lemma ItemEnds(compatible: Compatible, item: nat, part: Part)
    requires part.finished
    ensures Step(compatible, Only(item, part, false), Event(ItemFinished(item, true), true))
            == Some(Only(item, part, true))
  {
    var items := Only(item, part, false).items;
    assert ItemAt(items, item) == Some(0) by {
      assert items[0].id == item;
    }
    assert items[0 := items[0].(finished := true)] == Only(item, part, true).items;
  }

  lemma MessageEnds(compatible: Compatible, item: nat, part: nat, logprobs: Presence)
    ensures var ends := [Event(ValueFinished(item, part), true), Event(PartFinished(item, part), true)];
            Run(compatible, Writing(item, part, logprobs), ends + [Event(ItemFinished(item, true), true)])
            == Some(Only(item, Part(part, Text, logprobs, true, false, true), true))
  {
    hide Step;
    var a, b := Event(ValueFinished(item, part), true), Event(PartFinished(item, part), true);
    var s := Writing(item, part, logprobs);
    OnlyPartIsTouched(compatible, item, Part(part, Text, logprobs, false, false, false), ValueFinished(item, part));
    OnlyPartIsTouched(compatible, item, Part(part, Text, logprobs, true, false, false), PartFinished(item, part));
    RunTwo(compatible, s, a, b);
    RunOneMore(compatible, s, [a, b], Event(ItemFinished(item, true), true));
    ItemEnds(compatible, item, Part(part, Text, logprobs, true, false, true));
  }

  lemma {:induction false} RunOn(compatible: Compatible, s: State, first: seq<Event>, more: seq<Event>)
    ensures Run(compatible, s, first + more)
            == match Run(compatible, s, first) case None => None case Some(t) => Run(compatible, t, more)
    decreases |more|
  {
    hide Step;
    if more == [] {
      assert first + more == first;
    } else {
      RunOn(compatible, s, first, more[..|more| - 1]);
      assert (first + more)[..|first + more| - 1] == first + more[..|more| - 1];
    }
  }

  /** Any text answer is shown from its start to its end, with all its probabilities in order. */
  lemma TextAnswersAreShown(compatible: Compatible, item: nat, part: nat, probs: seq<seq<string>>)
    ensures var starts := [Event(ItemStarted(item, Message), true), Event(PartStarted(item, part, Text), true)];
            var ends := [Event(ValueFinished(item, part), true), Event(PartFinished(item, part), true)]
                        + [Event(ItemFinished(item, true), true)];
            var shown := Run(compatible, Start, starts + Deltas(item, part, probs) + ends);
            && shown.Some? && |shown.value.items| == 1 && shown.value.items[0].finished
            && |shown.value.items[0].parts| == 1 && shown.value.items[0].parts[0].finished
            && shown.value.items[0].parts[0].logprobs.Known() == Concat(probs)
  {
    hide Step, Run;
    var starts := [Event(ItemStarted(item, Message), true), Event(PartStarted(item, part, Text), true)];
    var ends := [Event(ValueFinished(item, part), true), Event(PartFinished(item, part), true)]
                + [Event(ItemFinished(item, true), true)];
    MessageStarts(compatible, item, part);
    DeltasAddUp(compatible, item, part, probs);
    var logprobs: Presence :|
      && Run(compatible, Writing(item, part, Absent), Deltas(item, part, probs)) == Some(Writing(item, part, logprobs))
      && logprobs.Known() == Concat(probs);
    RunOn(compatible, Start, starts, Deltas(item, part, probs));
    RunOn(compatible, Start, starts + Deltas(item, part, probs), ends);
    MessageEnds(compatible, item, part, logprobs);
  }
}
