/**
 In which order a Chat stream may report what happens to its items and parts:
 nothing follows its own end (`event.rs`, as `lowering/events.rs` uses it).
 */
module ChatOrder {
  import opened Prelude
  import opened ChatEvents

  /** The metadata and the end of a part come after the end of its value, and only text has probabilities. */
  predicate PartInOrder(p: Part) {
    && (p.finished || p.metadataFinished ==> p.valueFinished)
    && (p.metadataFinished || p.logprobs != Absent ==> p.kind in {Text, Refusal})
  }

  ghost predicate InOrder(s: State) {
    forall i, k :: 0 <= i < |s.items| && 0 <= k < |s.items[i].parts| ==> PartInOrder(s.items[i].parts[k])
  }

  /** What has ended, or has ended up to its metadata, is as it was. */
  predicate PartSettles(p: Part, q: Part) {
    && (p.finished ==> q == p)
    && (p.valueFinished ==> q.valueFinished && (q.metadataFinished == p.metadataFinished ==> q.logprobs == p.logprobs))
    && (p.metadataFinished ==> q.metadataFinished && q.logprobs == p.logprobs)
  }

  ghost predicate ItemSettles(a: Item, b: Item) {
    && (a.finished ==> b == a) && |a.parts| <= |b.parts|
    && forall k :: 0 <= k < |a.parts| ==> PartSettles(a.parts[k], b.parts[k])
  }

  ghost predicate Settles(s: State, t: State) {
    |s.items| <= |t.items| && forall i :: 0 <= i < |s.items| ==> ItemSettles(s.items[i], t.items[i])
  }

  lemma TouchSettles(compatible: Compatible, p: Part, e: Change)
    requires Touch(compatible, p, e).Some? && PartInOrder(p)
    ensures PartSettles(p, Touch(compatible, p, e).value) && PartInOrder(Touch(compatible, p, e).value)
  {
  }

  /** The change is to a part, and not its start. */
  predicate Touches(e: Change) {
    e.Delta? || e.LogprobsSnapshot? || e.TextMetadata? || e.ValueFinished? || e.PartFinished?
  }

  lemma TouchingSettles(compatible: Compatible, s: State, e: Change)
    requires InOrder(s) && Touches(e) && Reduce(compatible, s, e).Some?
    ensures Settles(s, Reduce(compatible, s, e).value) && InOrder(Reduce(compatible, s, e).value)
  {
    hide Touch;
    var i := ItemAt(s.items, e.item).value;
    var p := PartAt(s.items[i].parts, e.part).value;
    TouchSettles(compatible, s.items[i].parts[p], e);
  }

  lemma StepSettles(compatible: Compatible, s: State, e: Event)
    requires InOrder(s) && Step(compatible, s, e).Some?
    ensures Settles(s, Step(compatible, s, e).value) && InOrder(Step(compatible, s, e).value)
  {
    hide Touch, Representable;
    if Touches(e.change) {
      TouchingSettles(compatible, s, e.change);
    }
  }

  lemma SettlingIsTransitive(s: State, t: State, u: State)
    requires Settles(s, t) && Settles(t, u)
    ensures Settles(s, u)
  {
    forall i | 0 <= i < |s.items| ensures ItemSettles(s.items[i], u.items[i]) {
      assert ItemSettles(s.items[i], t.items[i]) && ItemSettles(t.items[i], u.items[i]);
      forall k | 0 <= k < |s.items[i].parts| ensures PartSettles(s.items[i].parts[k], u.items[i].parts[k]) {
        assert PartSettles(s.items[i].parts[k], t.items[i].parts[k]);
        assert PartSettles(t.items[i].parts[k], u.items[i].parts[k]);
      }
    }
  }

  lemma {:induction false} RunSettles(compatible: Compatible, s: State, events: seq<Event>)
    requires InOrder(s) && Run(compatible, s, events).Some?
    ensures Settles(s, Run(compatible, s, events).value) && InOrder(Run(compatible, s, events).value)
  {
    hide Step, InOrder, Settles;
    if events == [] {
      NothingChanges(s);
    } else {
      var before := Run(compatible, s, events[..|events| - 1]).value;
      RunSettles(compatible, s, events[..|events| - 1]);
      StepSettles(compatible, before, events[|events| - 1]);
      SettlingIsTransitive(s, before, Run(compatible, s, events).value);
    }
  }

  lemma NothingChanges(s: State)
    ensures Settles(s, s)
  {
  }

  /**
   In every accepted stream, what has finished is final: a finished item or part
   never changes again, a part gets no probabilities once its value has finished
   but with its metadata, and none after those; and parts end in this order.
   */
  lemma FinishedIsFinal(compatible: Compatible, events: seq<Event>, more: seq<Event>)
    requires Run(compatible, Start, events + more).Some?
    ensures Run(compatible, Start, events).Some?
    ensures InOrder(Run(compatible, Start, events).value)
    ensures Settles(Run(compatible, Start, events).value, Run(compatible, Start, events + more).value)
  {
    hide Step, Settles;
    RunOn(compatible, Start, events, more);
    RunSettles(compatible, Start, events);
    RunSettles(compatible, Run(compatible, Start, events).value, more);
  }

  /** An item completes only when all of its parts have finished. */
  lemma CompletedItemsAreWhole(compatible: Compatible, s: State, item: nat)
    requires Step(compatible, s, Event(ItemFinished(item, true), true)).Some?
    ensures exists i :: && 0 <= i < |s.items| && s.items[i].id == item
                        && forall k :: 0 <= k < |s.items[i].parts| ==> s.items[i].parts[k].finished
  {
    assert s.items[ItemAt(s.items, item).value].id == item;
  }

  /** Probabilities that are reported as a whole are compatible with those of the deltas before. */
  lemma SnapshotsAreCompatible(compatible: Compatible, s: State, item: nat, part: nat, probs: seq<string>)
    requires Step(compatible, s, Event(LogprobsSnapshot(item, part, probs), true)).Some?
    ensures Find(s, item, part).Some? && !Find(s, item, part).value.valueFinished
    ensures compatible(Find(s, item, part).value.logprobs.Known(), probs)
  {
  }

  lemma MetadataIsCompatible(compatible: Compatible, s: State, item: nat, part: nat, logprobs: Presence)
    requires Step(compatible, s, Event(TextMetadata(item, part, logprobs), true)).Some?
    ensures Find(s, item, part).Some? && Find(s, item, part).value.valueFinished
    ensures compatible(Find(s, item, part).value.logprobs.Known(), logprobs.Known())
  {
  }

  // ---- Calls ----

  ghost predicate Distinct(items: seq<Item>) { forall i, j :: 0 <= i < j < |items| ==> items[i].id != items[j].id }

  /** The item is a call of the message at `i`. */
  predicate CallOf(items: seq<Item>, i: int, k: int)
    requires 0 <= i < |items| && 0 <= k < |items|
  {
    items[i].kind.Message? && items[k].kind == ToolCall(Some(items[i].id))
  }

  /** The calls of a message follow it in one block, and it refuses nothing. */
  ghost predicate CallsInBlock(items: seq<Item>) {
    forall i, k :: 0 <= i < |items| && 0 <= k < |items| && CallOf(items, i, k) ==>
      && i < k && (forall j :: i < j <= k ==> CallOf(items, i, j))
      && forall p :: 0 <= p < |items[i].parts| ==> items[i].parts[p].kind != Refusal
  }

  /** A call has one part at most, and one once it has finished. */
  ghost predicate CallsHaveOnePart(items: seq<Item>) {
    forall i :: 0 <= i < |items| && items[i].kind.ToolCall? ==>
      |items[i].parts| <= 1 && (items[i].finished ==> |items[i].parts| == 1)
  }

  ghost predicate CallsOk(s: State) { Distinct(s.items) && CallsInBlock(s.items) && CallsHaveOnePart(s.items) }

  lemma ItemIsAt(items: seq<Item>, i: nat)
    requires Distinct(items) && i < |items|
    ensures ItemAt(items, items[i].id) == Some(i)
  {
    var at := ItemAt(items, items[i].id).value;
    assert items[at].id == items[i].id;
  }

  lemma ItemKeepsCalls(s: State, item: Item)
    requires CallsOk(s) && ItemAt(s.items, item.id).None? && item.parts == [] && !item.finished
    requires item.kind.ToolCall? && item.kind.message.Some? ==> MayCall(s.items, item.kind.message.value)
    requires item.kind.Message? ==> forall k :: 0 <= k < |s.items| ==> s.items[k].kind != ToolCall(Some(item.id))
    ensures CallsOk(State(s.items + [item]))
  {
    var items := s.items + [item];
    forall i, k | 0 <= i < |items| && 0 <= k < |items| && CallOf(items, i, k)
      ensures i < k && (forall j :: i < j <= k ==> CallOf(items, i, j))
      ensures forall p :: 0 <= p < |items[i].parts| ==> items[i].parts[p].kind != Refusal
    {
      if i < |s.items| {
        ItemIsAt(s.items, i);
        if k < |s.items| {
          assert CallOf(s.items, i, k);
        }
        forall j | i < j <= k ensures CallOf(items, i, j) {
          assert j < |s.items| && k < |s.items| ==> CallOf(s.items, i, j);
        }
      }
    }
  }

  /** The same items, with no refusal more in a message that has calls. */
  lemma ChangeKeepsCalls(s: State, i: nat, next: Item)
    requires CallsOk(s) && i < |s.items| && next.id == s.items[i].id && next.kind == s.items[i].kind
    requires next.kind.ToolCall? ==> |next.parts| <= 1 && (next.finished ==> |next.parts| == 1)
    requires forall p :: 0 <= p < |next.parts| && next.parts[p].kind == Refusal ==>
               (p < |s.items[i].parts| && s.items[i].parts[p].kind == Refusal)
               || forall k :: 0 <= k < |s.items| ==> s.items[k].kind != ToolCall(Some(next.id))
    ensures CallsOk(State(s.items[i := next]))
  {
    var items := s.items[i := next];
    forall m, k | 0 <= m < |items| && 0 <= k < |items| && CallOf(items, m, k)
      ensures m < k && (forall j :: m < j <= k ==> CallOf(items, m, j))
      ensures forall p :: 0 <= p < |items[m].parts| ==> items[m].parts[p].kind != Refusal
    {
      assert CallOf(s.items, m, k);
      forall j | m < j <= k ensures CallOf(items, m, j) {
        assert CallOf(s.items, m, j);
      }
    }
  }

  /** Before there is a message no call can have an owner. */
  lemma NoCallsYet(s: State, item: nat)
    requires OwnersExist(s) && Representable(s, ItemStarted(item, Message))
    ensures forall k :: 0 <= k < |s.items| ==> s.items[k].kind != ToolCall(Some(item))
  {
  }

  lemma TouchKeepsKind(compatible: Compatible, p: Part, e: Change)
    requires Touch(compatible, p, e).Some?
    ensures Touch(compatible, p, e).value.kind == p.kind
  {
  }

  lemma TouchingKeepsCalls(compatible: Compatible, s: State, e: Change)
    requires CallsOk(s) && Touches(e) && Reduce(compatible, s, e).Some?
    ensures CallsOk(Reduce(compatible, s, e).value)
  {
    hide Touch, MayCall, CallsInBlock;
    var i := ItemAt(s.items, e.item).value;
    var p := PartAt(s.items[i].parts, e.part).value;
    TouchKeepsKind(compatible, s.items[i].parts[p], e);
    var next := Touch(compatible, s.items[i].parts[p], e).value;
    ChangeKeepsCalls(s, i, s.items[i].(parts := s.items[i].parts[p := next]));
  }

  lemma PartKeepsCalls(compatible: Compatible, s: State, item: nat, part: nat, kind: PartKind)
    requires CallsOk(s) && Reduce(compatible, s, PartStarted(item, part, kind)).Some?
    ensures CallsOk(Reduce(compatible, s, PartStarted(item, part, kind)).value)
  {
    hide Touch, MayCall, CallsInBlock, PartExists;
    var i := ItemAt(s.items, item).value;
    ChangeKeepsCalls(s, i, s.items[i].(parts := s.items[i].parts + [Part(part, kind, Absent, false, false, false)]));
  }

  lemma StepKeepsCalls(compatible: Compatible, s: State, e: Event)
    requires CallsOk(s) && OwnersExist(s) && Step(compatible, s, e).Some?
    ensures CallsOk(Step(compatible, s, e).value)
  {
    hide MayCall, Touch, CallsInBlock, OwnersExist;
    match e.change {
      case Unrelated =>
      case ItemStarted(item, kind) =>
        if kind.Message? {
          NoCallsYet(s, item);
        }
        ItemKeepsCalls(s, Item(item, kind, [], false));
      case PartStarted(item, part, kind) => PartKeepsCalls(compatible, s, item, part, kind);
      case ItemFinished(item, _) =>
        var i := ItemAt(s.items, item).value;
        ChangeKeepsCalls(s, i, s.items[i].(finished := true));
      case _ => TouchingKeepsCalls(compatible, s, e.change);
    }
  }

  lemma NoCalls()
    ensures CallsOk(Start)
  {
  }

  /**
   In every accepted stream the calls of a message follow it in one block, with
   nothing in between, the message refuses nothing, and each call has one part.
   */
  lemma {:induction false} CallsFollowTheirMessage(compatible: Compatible, events: seq<Event>)
    requires Run(compatible, Start, events).Some?
    ensures CallsOk(Run(compatible, Start, events).value)
  {
    hide Step, CallsOk, OwnersExist, ChatShape;
    if events == [] {
      NoCalls();
    } else {
      var before := events[..|events| - 1];
      ChatStreamsHaveShape(compatible, before);
      CallsFollowTheirMessage(compatible, before);
      StepKeepsCalls(compatible, Run(compatible, Start, before).value, events[|events| - 1]);
    }
  }

  /** Audio may follow the text of a message while it is open. */
  lemma AudioFollowsText(compatible: Compatible, item: nat, text: Part, audio: nat)
    requires text.kind == Text && text.id != audio
    ensures var started := Part(audio, Audio, Absent, false, false, false);
            Step(compatible, Only(item, text, false), Event(PartStarted(item, audio, Audio), true))
            == Some(State([Item(item, Message, [text, started], false)]))
  {
    var items := Only(item, text, false).items;
    assert ItemAt(items, item) == Some(0) by {
      assert items[0].id == item;
    }
    assert PartAt(items[0].parts, audio).None?;
    assert [text] + [Part(audio, Audio, Absent, false, false, false)]
        == [text, Part(audio, Audio, Absent, false, false, false)];
    assert items[0 := Item(item, Message, [text, Part(audio, Audio, Absent, false, false, false)], false)]
        == [Item(item, Message, [text, Part(audio, Audio, Absent, false, false, false)], false)];
  }
}
