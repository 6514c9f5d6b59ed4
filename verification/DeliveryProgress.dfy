/**
 What the delivery protocol does not only allow but bring about: frames arrive,
 and streams that complete end cleanly.
 */
module DeliveryProgress {
  import opened Prelude
  import opened Delivery

  lemma {:induction false} RunOn(s: State, first: seq<Event>, more: seq<Event>)
    ensures Run(s, first + more) == Run(Run(s, first), more)
    decreases |more|
  {
    if more == [] {
      assert first + more == first;
    } else {
      RunOn(s, first, more[..|more| - 1]);
      assert (first + more)[..|first + more| - 1] == first + more[..|more| - 1];
    }
  }

  lemma RunOne(s: State, e: Event)
    ensures Run(s, [e]) == Apply(s, e)
  {
    assert [e][..0] == [];
  }

  lemma RunNext(s: State, first: seq<Event>, e: Event)
    ensures Run(s, first + [e]) == Apply(Run(s, first), e)
  {
    RunOn(s, first, [e]);
    RunOne(Run(s, first), e);
  }

  lemma RunThree(s: State, a: Event, b: Event, c: Event)
    ensures Run(s, [a, b, c]) == Apply(Apply(Apply(s, a), b), c)
  {
    hide Apply;
    RunOne(s, a);
    RunNext(s, [a], b);
    RunNext(s, [a, b], c);
    assert [a] + [b] == [a, b] && [a, b] + [c] == [a, b, c];
  }

  // ---- One poll ----

  lemma EmptyPollEnds(s: State)
    requires s.consumer == Idle && s.channel.None? && s.first.None? && s.worker == Gone && s.complete && !s.failed
    ensures Run(s, [PollStart, PollTake, PollEnd]) == s.(consumer := Ended(true))
  {
    hide WorkerStep;
    RunThree(s, PollStart, PollTake, PollEnd);
  }

  /** In every interleaving, a body that has seen every frame of a completed worker ends cleanly when it is polled. */
  lemma CompletionIsReported(events: seq<Event>)
    requires var s := Run(Start, events);
             s.consumer == Idle && s.channel.None? && s.first.None? && s.worker == Gone && s.complete
    ensures Run(Run(Start, events), [PollStart, PollTake, PollEnd]).consumer == Ended(true)
    ensures Run(Start, events).yielded == Run(Start, events).sent
  {
    hide Apply;
    RunKeepsInv(Start, events);
    EmptyPollEnds(Run(Start, events));
  }

  /**
   In every interleaving, a frame in flight that the worker still awaits reaches
   the client when the body is polled.
   */
  lemma FrameIsYielded(events: seq<Event>)
    requires var s := Run(Start, events);
             s.consumer == Idle && s.InFlight().Some? && s.worker == Awaiting && !s.failed
    ensures var s := Run(Start, events);
            var t := Run(s, [PollStart, PollTake, PollAck]);
            && |s.yielded| < |s.sent| && t.yielded == s.yielded + [s.sent[|s.yielded|]]
            && t.consumer == Idle && t.ackSent
            && Apply(t, SeeAck).worker == Running && Apply(t, SeeAck).acked == |t.yielded|
  {
    hide Apply;
    RunKeepsInv(Start, events);
    PollYields(Run(Start, events));
  }

  lemma PollYields(s: State)
    requires Inv(s) && s.consumer == Idle && s.InFlight().Some? && s.worker == Awaiting && !s.failed
    ensures var t := Run(s, [PollStart, PollTake, PollAck]);
            && |s.yielded| < |s.sent| && t.yielded == s.yielded + [s.sent[|s.yielded|]]
            && t.consumer == Idle && t.ackSent
            && Apply(t, SeeAck).worker == Running && Apply(t, SeeAck).acked == |t.yielded|
  {
    hide Apply;
    RunThree(s, PollStart, PollTake, PollAck);
    PollTakes(s);
    var t := Apply(Apply(Apply(s, PollStart), PollTake), PollAck);
    SeesAck(t);
  }

  lemma PollTakes(s: State)
    requires Inv(s) && s.consumer == Idle && s.InFlight().Some? && s.worker == Awaiting && !s.failed
    ensures var t := Apply(Apply(Apply(s, PollStart), PollTake), PollAck);
            && |s.yielded| < |s.sent| && t.yielded == s.yielded + [s.sent[|s.yielded|]]
            && t.consumer == Idle && t.ackSent && t.worker == Awaiting && t.acked == |s.yielded|
  {
    hide WorkerStep;
  }

  lemma SeesAck(t: State)
    requires t.worker == Awaiting && t.ackSent
    ensures Apply(t, SeeAck).worker == Running && Apply(t, SeeAck).acked == t.acked + 1
  {
  }

  // ---- Whole streams ----

  /** Between two frames: the worker runs, the body waits, and nothing is on the way. */
  predicate Resting(s: State) {
    && s.worker == Running && s.consumer == Idle && s.channel.None? && s.first.None? && s.published
    && !s.ackSent && !s.failed && !s.complete && s.acked == |s.sent| && s.yielded == s.sent
  }

  function Delivered(s: State, bytes: string): State {
    var frames := s.sent + [Frame(s.candidate, bytes)];
    s.(sent := frames, yielded := frames, acked := |frames|)
  }

  function Turn(bytes: string): seq<Event> { [Offer(bytes), Enqueue, PollStart] + [PollTake, PollAck, SeeAck] }

  lemma TurnDelivers(s: State, bytes: string)
    requires Resting(s)
    ensures Run(s, Turn(bytes)) == Delivered(s, bytes) && Resting(Delivered(s, bytes))
  {
    RunOn(s, [Offer(bytes), Enqueue, PollStart], [PollTake, PollAck, SeeAck]);
    RunThree(s, Offer(bytes), Enqueue, PollStart);
    RunThree(Apply(Apply(Apply(s, Offer(bytes)), Enqueue), PollStart), PollTake, PollAck, SeeAck);
  }

  function Frames(candidate: nat, chunks: seq<string>): seq<Frame> {
    seq(|chunks|, i requires 0 <= i < |chunks| => Frame(candidate, chunks[i]))
  }

  function Turns(chunks: seq<string>): seq<Event> {
    if chunks == [] then [] else Turns(chunks[..|chunks| - 1]) + Turn(chunks[|chunks| - 1])
  }

  lemma {:induction false} TurnsDeliver(s: State, chunks: seq<string>)
    requires Resting(s)
    ensures var t := Run(s, Turns(chunks));
            Resting(t) && t.candidate == s.candidate && t.sent == s.sent + Frames(s.candidate, chunks)
  {
    hide Apply;
    if chunks == [] {
    } else {
      var before, last := chunks[..|chunks| - 1], chunks[|chunks| - 1];
      TurnsDeliver(s, before);
      RunOn(s, Turns(before), Turn(last));
      TurnDelivers(Run(s, Turns(before)), last);
      assert Frames(s.candidate, chunks) == Frames(s.candidate, before) + [Frame(s.candidate, last)];
    }
  }

  /** The chain moves on before anything is published. */
  function Advanced(candidate: nat): seq<Event> { seq(candidate, _ => Advance) }

  lemma {:induction false} AdvancedMoves(candidate: nat)
    ensures Run(Start, Advanced(candidate)) == Start.(candidate := candidate)
  {
    if candidate > 0 {
      AdvancedMoves(candidate - 1);
      assert Advanced(candidate)[..candidate - 1] == Advanced(candidate - 1);
    }
  }

  /** The first frame, which the response waits for before it starts. */
  function Opening(bytes: string): seq<Event> {
    [Offer(bytes), Enqueue, TakeFirst] + [CheckFirst(true), PollStart, PollTake] + [PollAck] + [SeeAck]
  }

  lemma OpeningDelivers(candidate: nat, bytes: string)
    ensures var s := Run(Start.(candidate := candidate), Opening(bytes));
            Resting(s) && s.candidate == candidate && s.sent == [Frame(candidate, bytes)]
  {
    var s := Start.(candidate := candidate);
    var first, second := [Offer(bytes), Enqueue, TakeFirst], [CheckFirst(true), PollStart, PollTake];
    RunThree(s, Offer(bytes), Enqueue, TakeFirst);
    RunOn(s, first, second);
    RunThree(Run(s, first), CheckFirst(true), PollStart, PollTake);
    RunNext(s, first + second, PollAck);
    RunNext(s, first + second + [PollAck], SeeAck);
  }

  function Ending(): seq<Event> { [Finish, Settle, Leave] + [PollStart, PollTake, PollEnd] }

  lemma WorkerCompletes(s: State)
    requires Resting(s)
    ensures Run(s, [Finish, Settle, Leave]) == s.(worker := Gone, complete := true)
  {
    hide ConsumerStep;
    RunThree(s, Finish, Settle, Leave);
  }

  lemma EndingIsClean(s: State)
    requires Resting(s)
    ensures var t := Run(s, Ending());
            t.consumer == Ended(true) && t.yielded == s.sent && t.complete && !t.failed && t.worker == Gone
  {
    hide Apply;
    RunOn(s, [Finish, Settle, Leave], [PollStart, PollTake, PollEnd]);
    WorkerCompletes(s);
    EmptyPollEnds(Run(s, [Finish, Settle, Leave]));
  }

  /**
   Any frames of any candidate can be delivered: there is a run in which the
   client gets exactly these frames in order and the body ends cleanly.
   */
  lemma StreamsCanComplete(candidate: nat, chunks: seq<string>)
    requires chunks != []
    ensures exists events ::
              && Run(Start, events).consumer == Ended(true)
              && Run(Start, events).yielded == Frames(candidate, chunks)
  {
    hide Apply, Resting;
    var begun := Advanced(candidate) + Opening(chunks[0]);
    AdvancedMoves(candidate);
    RunOn(Start, Advanced(candidate), Opening(chunks[0]));
    OpeningDelivers(candidate, chunks[0]);
    var s := Run(Start, begun);
    TurnsDeliver(s, chunks[1..]);
    RunOn(Start, begun, Turns(chunks[1..]));
    EndingIsClean(Run(s, Turns(chunks[1..])));
    RunOn(Start, begun + Turns(chunks[1..]), Ending());
    assert [Frame(candidate, chunks[0])] + Frames(candidate, chunks[1..]) == Frames(candidate, chunks);
  }

  // ---- Streams that do not complete ----

  /** The worker has decided to end well. */
  predicate Succeeds(s: State) { s.complete || s.worker == Closing(true) }

  lemma StepSucceeds(s: State, e: Event)
    ensures Succeeds(Apply(s, e)) ==> Succeeds(s) || (e == Finish && s.worker == Running)
  {
  }

  /** A worker is complete only if it finished: in every run, some event is the end of a producer that was running. */
  lemma {:induction false} CompletionNeedsFinish(events: seq<Event>)
    requires Succeeds(Run(Start, events))
    ensures exists i :: 0 <= i < |events| && events[i] == Finish && Run(Start, events[..i]).worker == Running
    decreases |events|
  {
    hide Apply;
    assert events != [];
    var n := |events| - 1;
    StepSucceeds(Run(Start, events[..n]), events[n]);
    if Succeeds(Run(Start, events[..n])) {
      CompletionNeedsFinish(events[..n]);
      var i :| 0 <= i < n && events[..n][i] == Finish && Run(Start, events[..n][..i]).worker == Running;
      assert events[..n][..i] == events[..i] && events[i] == Finish;
    }
  }

  /** The producer is at work, wherever in a frame. */
  predicate Producing(s: State) { s.worker.Running? || s.worker.Offering? || s.worker.Awaiting? }

  const Stopping := [Settle, Report, Leave]

  lemma StoppingFails(s: State)
    requires Inv(s) && s.worker == Closing(false)
    ensures var t := Run(s, Stopping);
            && t.worker == Gone && t.failed && !t.complete && t.sent == s.sent && t.yielded == s.yielded
            && t.channel == if s.consumer.Listens() && s.channel.None? then Some(Error) else s.channel
  {
    RunThree(s, Settle, Report, Leave);
  }

  /**
   Shutdown and deadline: in every interleaving a producer can be interrupted
   wherever it stands, and then its worker ends as failed and tells a body that
   is still there.
   */
  lemma InterruptionEnds(events: seq<Event>)
    requires Producing(Run(Start, events))
    ensures var s := Run(Start, events);
            var t := Run(s, [Interrupt] + Stopping);
            && t.worker == Gone && t.failed && !t.complete && t.sent == s.sent && t.yielded == s.yielded
            && (s.consumer.Listens() ==> t.channel.Some?)
  {
    hide Apply;
    RunKeepsInv(Start, events);
    var s := Run(Start, events);
    RunOn(s, [Interrupt], Stopping);
    RunOne(s, Interrupt);
    RunKeepsInv(s, [Interrupt]);
    Interrupts(s);
    StoppingFails(Apply(s, Interrupt));
  }

  lemma Interrupts(s: State)
    requires Producing(s)
    ensures Apply(s, Interrupt) == s.(worker := Closing(false), ackSent := false)
  {
  }

  /**
   A client that leaves: in every interleaving what was on its way is dropped, and
   a producer at work can be aborted where it stands, with neither a completion
   nor a failure to report.
   */
  lemma LeavingAborts(events: seq<Event>)
    ensures var s := Run(Start, events);
            var t := Run(s, [Drop, Abort]);
            && t.consumer == Dropped && t.InFlight().None? && t.channel.None? && t.yielded == s.yielded
            && (Producing(s) ==> t.worker == Gone && !t.complete && !t.failed)
  {
    hide Apply;
    RunKeepsInv(Start, events);
    var s := Run(Start, events);
    RunNext(s, [Drop], Abort);
    RunOne(s, Drop);
    assert [Drop] + [Abort] == [Drop, Abort];
    Drops(s);
    Aborts(Apply(s, Drop));
  }

  lemma Drops(s: State)
    ensures Apply(s, Drop) == s.(consumer := Dropped, first := None, channel := None)
  {
  }

  lemma Aborts(s: State)
    requires s.consumer == Dropped
    ensures Apply(s, Abort) == if Producing(s) then s.(worker := Gone, ackSent := false) else s
  {
  }

  /**
   A frame whose acknowledgement can no longer come: in every interleaving the
   worker that awaits it notices, and ends as failed.
   */
  lemma LostFrameFails(events: seq<Event>)
    requires var s := Run(Start, events); s.worker == Awaiting && !s.ackSent && s.InFlight().None?
    ensures var s := Run(Start, events);
            var t := Run(s, [AckLost] + Stopping);
            t.worker == Gone && t.failed && !t.complete && t.yielded == s.yielded
  {
    hide Apply;
    RunKeepsInv(Start, events);
    var s := Run(Start, events);
    RunOn(s, [AckLost], Stopping);
    RunOne(s, AckLost);
    RunKeepsInv(s, [AckLost]);
    NoticesLoss(s);
    StoppingFails(Apply(s, AckLost));
  }

  lemma NoticesLoss(s: State)
    requires s.worker == Awaiting && !s.ackSent && s.InFlight().None?
    ensures Apply(s, AckLost) == s.(worker := Closing(false))
  {
  }
}
