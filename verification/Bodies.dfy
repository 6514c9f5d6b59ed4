/**
 The two sides of `body.rs` as code over their shared fields: each method is
 what one side does without being interrupted, and is proved to be steps of the
 interleaved protocol, so that everything proved of runs holds of it.
 */
module Bodies {
  import opened Prelude
  import opened Delivery

  /** What `poll_next` answers. */
  datatype Poll = Pending | Data(frame: Frame) | Failure | End

  lemma OneStep(s: State, e: Event)
    ensures Run(s, [e]) == Apply(s, e)
  {
    assert [e][..0] == [];
  }

  lemma TwoSteps(s: State, a: Event, b: Event)
    ensures Run(s, [a, b]) == Apply(Apply(s, a), b)
  {
    assert [a, b][..1] == [a];
    OneStep(s, a);
  }

  lemma ThreeSteps(s: State, a: Event, b: Event, c: Event)
    ensures Run(s, [a, b, c]) == Apply(Apply(Apply(s, a), b), c)
  {
    assert [a, b, c][..2] == [a, b];
    TwoSteps(s, a, b);
  }

  /** One poll, as steps that nothing comes between. */
  function Polled(s: State): State {
    var checked := Apply(s, PollStart);
    if !checked.consumer.Checked? then checked
    else
      var taken := Apply(checked, PollTake);
      if taken.consumer.Holding? then Apply(taken, PollAck)
      else if taken.consumer.Drained? then Apply(taken, PollEnd)
      else taken
  }

  lemma PollIsSteps(s: State)
    requires Inv(s)
    ensures Inv(Polled(s)) && exists events :: |events| <= 3 && Polled(s) == Run(s, events)
  {
    hide Inv, Apply;
    var checked := Apply(s, PollStart);
    var taken := Apply(checked, PollTake);
    OneStep(s, PollStart);
    TwoSteps(s, PollStart, PollTake);
    ThreeSteps(s, PollStart, PollTake, PollAck);
    ThreeSteps(s, PollStart, PollTake, PollEnd);
    StepKeepsInv(s, PollStart);
    StepKeepsInv(checked, PollTake);
    StepKeepsInv(taken, PollAck);
    StepKeepsInv(taken, PollEnd);
  }

  function Incoming(s: State): Option<Message> { if s.first.Some? then Some(Chunk(s.first.value)) else s.channel }

  function Emptied(s: State): State { if s.first.Some? then s.(first := None) else s.(channel := None) }

  /** A poll of an open body, case by case. */
  function Answered(s: State): State
    requires s.consumer == Idle
  {
    var taken := Emptied(s);
    if s.failed then s.(consumer := Ended(false))
    else
      match Incoming(s)
      case None => if s.worker.Gone? then s.(consumer := Ended(s.complete)) else s
      case Some(Error) => taken.(consumer := Ended(false))
      case Some(Chunk(n)) =>
        if s.worker.Awaiting? && n < |s.sent| then taken.(ackSent := true, yielded := s.yielded + [s.sent[n]])
        else taken.(consumer := Ended(false))
  }

  lemma PolledIsAnswered(s: State)
    requires s.consumer == Idle
    ensures Polled(s) == Answered(s)
  {
    hide WorkerStep;
    if !s.failed {
      var checked := s.(consumer := Checked);
      assert Apply(s, PollStart) == checked;
      match Incoming(s) {
        case None => assert Apply(checked, PollTake) == s.(consumer := if s.worker.Gone? then Drained else Idle);
        case Some(Error) =>
        case Some(Chunk(n)) => assert Apply(checked, PollTake).consumer == Holding(n);
      }
    }
  }

  /**
   What the answer means: data is the next frame in order, and the end is clean
   only when everything was sent and seen.
   */
  lemma PollAnswers(s: State)
    requires Inv(s) && s.consumer == Idle
    ensures var t := Polled(s);
            && (t.consumer == Idle || t.consumer.Ended?)
            && (t.yielded == s.yielded
                || (t.consumer == Idle && t.ackSent && |s.yielded| < |s.sent|
                  && t.yielded == s.yielded + [s.sent[|s.yielded|]]))
            && (t.consumer == Ended(true) ==> t.complete && t.yielded == t.sent)
            && (s.failed ==> t.consumer == Ended(false))
  {
    hide Polled;
    PollIsSteps(s);
    PolledIsAnswered(s);
  }

  /** The start of the response on the message that has come in. */
  function Opened(s: State, typed: bool): State
    requires s.consumer == Opening && s.channel.Some?
  {
    if s.channel == Some(Error) || s.failed || !typed then s.(channel := None, consumer := Refused)
    else s.(channel := None, consumer := Idle, first := Some(s.channel.value.n), published := true)
  }

  lemma OpenedIsSteps(s: State, typed: bool)
    requires Inv(s) && s.consumer == Opening && s.channel.Some?
    ensures Inv(Opened(s, typed)) && exists events :: |events| <= 2 && Opened(s, typed) == Run(s, events)
  {
    hide Inv;
    StepKeepsInv(s, TakeFirst);
    StepKeepsInv(Apply(s, TakeFirst), CheckFirst(typed));
    OneStep(s, TakeFirst);
    TwoSteps(s, TakeFirst, CheckFirst(typed));
  }

  /** The end of the worker task. */
  function Settled(s: State): State
    requires s.worker.Closing?
  {
    if s.worker.ok then s.(worker := Gone, complete := true)
    else s.(worker := Gone, failed := true,
            channel := if s.consumer.Listens() && s.channel.None? then Some(Error) else s.channel)
  }

  lemma SettledIsSteps(s: State)
    requires Inv(s) && s.worker.Closing?
    ensures Inv(Settled(s)) && exists events :: |events| <= 3 && Settled(s) == Run(s, events)
  {
    hide Inv, Run;
    var flagged := Apply(s, Settle);
    StepKeepsInv(s, Settle);
    if s.worker.ok {
      StepKeepsInv(flagged, Leave);
      TwoSteps(s, Settle, Leave);
    } else {
      StepKeepsInv(flagged, Report);
      StepKeepsInv(Apply(flagged, Report), Leave);
      ThreeSteps(s, Settle, Report, Leave);
    }
  }

  /** What is in flight is the frame after those the client has. */
  lemma FlightIsNext(s: State)
    requires Inv(s) && s.consumer == Idle
    ensures s.InFlight().Some? ==> |s.yielded| < |s.sent| && Incoming(s) == Some(Chunk(|s.yielded|))
    ensures s.InFlight().None? ==> s.first.None? && Incoming(s) == s.channel
  {
  }

  class Link {
    var worker: Worker
    var consumer: Consumer
    var candidate: nat
    var channel: Option<Message>
    var first: Option<nat>
    var ackSent: bool
    var failed: bool
    var complete: bool
    var published: bool
    var sent: seq<Frame>
    var acked: nat
    var yielded: seq<Frame>

    function State(): Delivery.State
      reads this
    {
      Delivery.State.State(worker, consumer, candidate, channel, first, ackSent, failed,
        complete, published, sent, acked, yielded)
    }

    constructor ()
      ensures State() == Start
    {
      worker, consumer, candidate, channel, first := Running, Opening, 0, None, None;
      ackSent, failed, complete, published, sent, acked, yielded := false, false, false, false, [], 0, [];
    }

    /** The first frame, which was set aside when the response started, or what is in the channel. */
    method TakeMessage() returns (taken: Option<Message>)
      modifies this`first, this`channel
      ensures taken == Incoming(old(State())) && State() == Emptied(old(State()))
    {
      if first.Some? {
        taken, first := Some(Chunk(first.value)), None;
      } else {
        taken, channel := channel, None;
      }
    }

    /** A frame reaches the client if the worker can still be told so. */
    method Acknowledge(n: nat) returns (item: Poll)
      requires consumer == Idle
      modifies this`consumer, this`ackSent, this`yielded
      ensures var s, told := old(State()), worker == Awaiting && n < |sent|;
              && State() == (if told then s.(ackSent := true, yielded := s.yielded + [s.sent[n]])
                             else s.(consumer := Ended(false)))
              && item == if told then Data(s.sent[n]) else Failure
    {
      if worker != Awaiting || n >= |sent| {
        consumer := Ended(false);
        return Failure;
      }
      ackSent := true;
      yielded := yielded + [sent[n]];
      item := Data(sent[n]);
    }

    /** `poll_next` of an open body. */
    method PollNext() returns (item: Poll)
      requires Inv(State()) && consumer == Idle
      modifies this
      ensures State() == Polled(old(State())) && Inv(State())
      ensures item.Data? ==> yielded == old(yielded) + [item.frame] && consumer == Idle
      ensures !item.Data? ==> yielded == old(yielded)
      ensures item == Pending <==> consumer == Idle && !item.Data?
      ensures item == Failure <==> consumer == Ended(false)
      ensures item == End <==> consumer == Ended(true)
      ensures old(failed) ==> item == Failure
      ensures old(!failed && first.None? && channel.None? && worker != Gone) ==> item == Pending
      ensures old(!failed && first.None? && channel.None? && worker == Gone) ==>
                item == if old(complete) then End else Failure
      ensures old(!failed && State().InFlight().Some? && worker == Awaiting && |yielded| < |sent|) ==>
                item == Data(old(sent[|yielded|]))
      ensures old(!failed && State().InFlight().Some? && worker != Awaiting) ==> item == Failure
    {
      hide Inv, Polled, Apply, Run, ConsumerStep, WorkerStep;
      PollIsSteps(State());
      PolledIsAnswered(State());
      FlightIsNext(State());
      if failed {
        consumer := Ended(false);
        return Failure;
      }
      var taken := TakeMessage();
      match taken {
        case None =>
          if worker != Gone {
            return Pending;
          }
          consumer := Ended(complete);
          return if complete then End else Failure;
        case Some(Error) =>
          consumer := Ended(false);
          return Failure;
        case Some(Chunk(n)) =>
          item := Acknowledge(n);
      }
    }

    /** The response waits for a first frame of the right type, and freezes the candidate when it has one. */
    method OpenBody(typed: bool) returns (started: bool)
      requires Inv(State()) && consumer == Opening && channel.Some?
      modifies this
      ensures State() == Opened(old(State()), typed) && Inv(State())
      ensures started <==> consumer == Idle
      ensures started <==> typed && old(!failed && channel.value.Chunk?)
      ensures started ==> published && channel.None? && first == Some(old(channel).value.n)
      ensures !started ==> consumer == Refused && sent == old(sent) && yielded == old(yielded)
    {
      hide Inv, Apply, Run;
      OpenedIsSteps(State(), typed);
      var message := channel.value;
      channel := None;
      if message == Error || failed || !typed {
        consumer := Refused;
        return false;
      }
      published := true;
      consumer, first := Idle, Some(message.n);
      started := true;
    }

    /** `send_chunk` up to the point where it waits for the acknowledgement. */
    method OfferChunk(bytes: string) returns (queued: bool)
      requires Inv(State()) && worker == Running && (channel.None? || !consumer.Listens())
      modifies this
      ensures State() == Run(old(State()), [Offer(bytes), Enqueue]) && Inv(State())
      ensures published && queued == old(consumer).Listens()
      ensures queued ==> worker == Awaiting && sent == old(sent) + [Frame(candidate, bytes)]
      ensures queued ==> channel == Some(Chunk(|old(sent)|))
      ensures !queued ==> worker == Closing(false) && sent == old(sent)
    {
      ghost var s := State();
      StepKeepsInv(s, Offer(bytes));
      StepKeepsInv(Apply(s, Offer(bytes)), Enqueue);
      TwoSteps(s, Offer(bytes), Enqueue);
      published := true;
      if !consumer.Listens() {
        worker := Closing(false);
        return false;
      }
      channel := Some(Chunk(|sent|));
      sent := sent + [Frame(candidate, bytes)];
      worker := Awaiting;
      queued := true;
    }

    /** The end of the worker task: the flag comes before the message. */
    method Settle()
      requires Inv(State()) && worker.Closing?
      modifies this
      ensures State() == Settled(old(State())) && Inv(State())
      ensures worker == Gone && sent == old(sent)
      ensures old(worker) == Closing(true) ==> complete && !failed && channel == old(channel)
      ensures old(worker) == Closing(false) ==> failed && !complete
      ensures old(worker) == Closing(false) ==>
                channel == if old(consumer.Listens() && channel.None?) then Some(Error) else old(channel)
    {
      FailedIsNotComplete(State());
      hide Inv;
      SettledIsSteps(State());
      if worker.ok {
        complete := true;
      } else {
        failed := true;
        if consumer.Listens() && channel.None? {
          channel := Some(Error);
        }
      }
      worker := Gone;
    }
  }

  lemma FailedIsNotComplete(s: State)
    requires Inv(s) && s.worker.Closing?
    ensures !s.complete && !s.failed
  {
  }
}
