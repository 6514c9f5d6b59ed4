/**
 The delivery protocol of `body.rs`: a worker task and an HTTP body that share
 a channel of capacity one, an acknowledgement per frame, and three flags.
 Every atomic action of either side is one step, and steps interleave freely.
 */
module Delivery {
  import opened Prelude

  /** A frame remembers which candidate of the fallback chain produced it. */
  datatype Frame = Frame(candidate: nat, bytes: string)

  /** A chunk is named by its position among the frames sent. */
  datatype Message = Chunk(n: nat) | Error

  datatype Worker =
    | Running
    | Offering(frame: Frame)
    | Awaiting
    | Closing(ok: bool)
    | Reporting
    | Leaving
    | Gone

  datatype Consumer =
    | Opening
    | FirstTaken(n: nat)
    | Refused
    | Idle
    | Checked
    | Holding(n: nat)
    | Drained
    | Ended(clean: bool)
    | Dropped
  {
    /** The receiving half still exists. */
    predicate Listens() { !Refused? && !Dropped? }
  }

  datatype State = State(
    worker: Worker,
    consumer: Consumer,
    candidate: nat,
    channel: Option<Message>,
    first: Option<nat>,
    ackSent: bool,
    failed: bool,
    complete: bool,
    published: bool,
    sent: seq<Frame>,
    acked: nat,
    yielded: seq<Frame>)
  {
    /** The chunk that was sent last and is neither yielded nor lost. */
    function InFlight(): Option<nat> {
      if channel.Some? && channel.value.Chunk? then Some(channel.value.n)
      else if first.Some? then first
      else if consumer.FirstTaken? || consumer.Holding? then Some(consumer.n)
      else None
    }
  }

  const Start := State(Running, Opening, 0, None, None, false, false, false, false, [], 0, [])

  datatype Event =
    // The worker.
    | Offer(bytes: string)
    | Enqueue
    | SeeAck
    | AckLost
    | Advance
    | Finish
    | Fail
    | Interrupt
    | Settle
    | Report
    | Leave
    | Abort
    // The consumer.
    | TakeFirst
    | CheckFirst(typed: bool)
    | PollStart
    | PollTake
    | PollAck
    | PollEnd
    | Drop

  predicate OfWorker(e: Event) {
    e.Offer? || e.Enqueue? || e.SeeAck? || e.AckLost? || e.Advance? || e.Finish? || e.Fail? || e.Interrupt? || e.Settle?
    || e.Report? || e.Leave? || e.Abort?
  }

  /** One step; an event that is not enabled changes nothing. */
  function Apply(s: State, e: Event): State {
    if OfWorker(e) then WorkerStep(s, e) else ConsumerStep(s, e)
  }

  function WorkerStep(s: State, e: Event): State {
    match e
    // `send_chunk` marks the response published before it offers the frame.
    case Offer(bytes) =>
      if s.worker.Running? then s.(worker := Offering(Frame(s.candidate, bytes)), published := true) else s
    case Enqueue =>
      if !s.worker.Offering? then s
      else if !s.consumer.Listens() then s.(worker := Closing(false))
      else if s.channel.Some? then s
      else s.(channel := Some(Chunk(|s.sent|)), sent := s.sent + [s.worker.frame], worker := Awaiting)
    case SeeAck =>
      if s.worker.Awaiting? && s.ackSent then s.(worker := Running, ackSent := false, acked := s.acked + 1) else s
    // The chunk was dropped together with its half of the acknowledgement.
    case AckLost =>
      if s.worker.Awaiting? && !s.ackSent && s.InFlight().None? then s.(worker := Closing(false)) else s
    // `produce_chain` moves on to the next candidate only before publication.
    case Advance => if s.worker.Running? && !s.published then s.(candidate := s.candidate + 1) else s
    case Finish => if s.worker.Running? then s.(worker := Closing(true)) else s
    case Fail => if s.worker.Running? then s.(worker := Closing(false)) else s
    // Shutdown, deadline or a closed channel: the producer is dropped where it stands.
    case Interrupt =>
      if s.worker.Running? || s.worker.Offering? || s.worker.Awaiting?
         then s.(worker := Closing(false), ackSent := false) else s
    case Settle =>
      if !s.worker.Closing? then s
      else if s.worker.ok then s.(complete := true, worker := Leaving)
      else s.(failed := true, worker := Reporting)
    case Report =>
      if !s.worker.Reporting? then s
      else s.(worker := Leaving, channel := if s.consumer.Listens() && s.channel.None? then Some(Error) else s.channel)
    case Leave => if s.worker.Leaving? then s.(worker := Gone) else s
    case Abort =>
      if s.consumer.Dropped? && (s.worker.Running? || s.worker.Offering? || s.worker.Awaiting?)
        then s.(worker := Gone, ackSent := false) else s
    case _ => s
  }

  function ConsumerStep(s: State, e: Event): State {
    match e
    case TakeFirst =>
      if !s.consumer.Opening? then s
      else
        (match s.channel
         case Some(Chunk(n)) => s.(consumer := FirstTaken(n), channel := None)
         case Some(Error) => s.(consumer := Refused, channel := None)
         case None => if s.worker.Gone? then s.(consumer := Refused) else s)
    case CheckFirst(typed) =>
      if !s.consumer.FirstTaken? then s
      else if s.failed || !typed then s.(consumer := Refused)
      else s.(consumer := Idle, first := Some(s.consumer.n), published := true)
    case PollStart => if !s.consumer.Idle? then s else s.(consumer := if s.failed then Ended(false) else Checked)
    case PollTake =>
      if !s.consumer.Checked? then s
      else if s.first.Some? then s.(consumer := Holding(s.first.value), first := None)
      else
        (match s.channel
         case Some(Chunk(n)) => s.(consumer := Holding(n), channel := None)
         case Some(Error) => s.(consumer := Ended(false), channel := None)
         case None => s.(consumer := if s.worker.Gone? then Drained else Idle))
    // The acknowledgement can be sent only while the worker still waits for it.
    case PollAck =>
      if !s.consumer.Holding? then s
      else if s.worker.Awaiting? && s.consumer.n < |s.sent|
        then s.(consumer := Idle, ackSent := true, yielded := s.yielded + [s.sent[s.consumer.n]])
      else s.(consumer := Ended(false))
    case PollEnd => if s.consumer.Drained? then s.(consumer := Ended(s.complete)) else s
    case Drop => s.(consumer := Dropped, first := None, channel := None)
    case _ => s
  }

  function Run(s: State, events: seq<Event>): State {
    if events == [] then s
    else Apply(Run(s, events[..|events| - 1]), events[|events| - 1])
  }

  // ---- The invariant ----

  /** Frames reach the client in the order sent, with at most one outstanding. */
  ghost predicate FlightOk(s: State) {
    && |s.yielded| <= |s.sent| <= |s.yielded| + 1
    && s.yielded == s.sent[..|s.yielded|]
    && (s.InFlight().Some? ==> s.InFlight().value == |s.yielded| && |s.sent| == |s.yielded| + 1)
    && (s.channel.Some? && s.channel.value.Chunk? ==> s.first.None? && !s.consumer.FirstTaken? && !s.consumer.Holding?)
    && (s.first.Some? ==> s.consumer.Idle? || s.consumer.Checked? || s.consumer.Ended?)
    && (s.consumer.FirstTaken? || s.consumer.Holding? ==> s.first.None?)
  }

  ghost predicate WorkerOk(s: State) {
    && s.acked <= |s.yielded| <= s.acked + 1
    && (s.worker.Running? || s.worker.Offering? ==> s.acked == |s.sent| && s.InFlight().None? && !s.ackSent)
    && (s.worker.Awaiting? ==> |s.sent| == s.acked + 1 && (s.ackSent <==> |s.yielded| == |s.sent|))
    && (s.worker.Closing? && s.worker.ok ==> s.acked == |s.sent|)
    && (s.complete ==> s.acked == |s.sent| && !s.failed)
    && (s.complete || s.failed ==> s.worker.Reporting? || s.worker.Leaving? || s.worker.Gone?)
    && (s.worker.Reporting? ==> s.failed)
    && (s.channel == Some(Error) ==> s.failed)
  }

  ghost predicate ChainOk(s: State) {
    && (!s.published ==> s.sent == [] && !s.worker.Offering?)
    && (s.worker.Offering? ==> s.worker.frame.candidate == s.candidate)
    && forall i :: 0 <= i < |s.sent| ==> s.sent[i].candidate == s.candidate
  }

  ghost predicate EndOk(s: State) {
    && (s.consumer.Drained? ==> s.worker.Gone? && s.channel.None? && s.first.None?)
    && (s.consumer == Ended(true) ==> s.complete && |s.yielded| == |s.sent|)
  }

  ghost predicate Inv(s: State) { FlightOk(s) && WorkerOk(s) && ChainOk(s) && EndOk(s) }

  lemma WorkerKeepsFlight(s: State, e: Event)
    requires Inv(s)
    ensures FlightOk(WorkerStep(s, e)) && EndOk(WorkerStep(s, e))
  {
  }

  lemma WorkerKeepsWorker(s: State, e: Event)
    requires Inv(s)
    ensures WorkerOk(WorkerStep(s, e)) && ChainOk(WorkerStep(s, e))
  {
  }

  lemma AcknowledgementKeepsInv(s: State)
    requires Inv(s)
    ensures Inv(ConsumerStep(s, PollAck))
  {
  }

  lemma TakingKeepsFlight(s: State, e: Event)
    requires Inv(s) && (e.TakeFirst? || e.PollTake?)
    ensures FlightOk(ConsumerStep(s, e))
  {
  }

  lemma ConsumerKeepsFlight(s: State, e: Event)
    requires Inv(s) && !e.PollAck?
    ensures FlightOk(ConsumerStep(s, e))
  {
    if e.TakeFirst? || e.PollTake? {
      TakingKeepsFlight(s, e);
    }
  }

  lemma ConsumerKeepsEnd(s: State, e: Event)
    requires Inv(s) && !e.PollAck?
    ensures EndOk(ConsumerStep(s, e))
  {
  }

  lemma TakingKeepsWorker(s: State, e: Event)
    requires Inv(s) && (e.TakeFirst? || e.PollTake?)
    ensures WorkerOk(ConsumerStep(s, e))
  {
  }

  lemma SilentKeepsWorker(s: State, e: Event)
    requires Inv(s) && !e.PollAck? && !e.TakeFirst? && !e.PollTake?
    ensures WorkerOk(ConsumerStep(s, e))
  {
  }

  lemma ConsumerKeepsWorker(s: State, e: Event)
    requires Inv(s) && !e.PollAck?
    ensures WorkerOk(ConsumerStep(s, e))
  {
    if e.TakeFirst? || e.PollTake? {
      TakingKeepsWorker(s, e);
    } else {
      SilentKeepsWorker(s, e);
    }
  }

  lemma ConsumerKeepsChain(s: State, e: Event)
    requires Inv(s)
    ensures ChainOk(ConsumerStep(s, e))
  {
  }

  lemma StepKeepsInv(s: State, e: Event)
    requires Inv(s)
    ensures Inv(Apply(s, e))
  {
    if OfWorker(e) {
      WorkerKeepsFlight(s, e);
      WorkerKeepsWorker(s, e);
    } else if e.PollAck? {
      AcknowledgementKeepsInv(s);
    } else {
      ConsumerKeepsFlight(s, e);
      ConsumerKeepsEnd(s, e);
      ConsumerKeepsWorker(s, e);
      ConsumerKeepsChain(s, e);
    }
  }

  lemma {:induction false} RunKeepsInv(s: State, events: seq<Event>)
    requires Inv(s)
    ensures Inv(Run(s, events))
  {
    if events != [] {
      RunKeepsInv(s, events[..|events| - 1]);
      StepKeepsInv(Run(s, events[..|events| - 1]), events[|events| - 1]);
    }
  }

  // ---- What a client can rely on ----

  /**
   In every interleaving the client has a prefix of the frames that were sent,
   in order and without repetition; at most one frame is in flight; the worker
   has seen the acknowledgement of all of the client's frames but at most one;
   and all of them come from one candidate of the fallback chain.
   */
  lemma DeliveryIsInOrder(events: seq<Event>)
    ensures var s := Run(Start, events);
            && s.yielded <= s.sent && |s.sent| <= |s.yielded| + 1
            && s.acked <= |s.yielded| <= s.acked + 1
            && forall i, j :: 0 <= i < |s.yielded| && 0 <= j < |s.yielded| ==>
                 s.yielded[i].candidate == s.yielded[j].candidate
  {
    RunKeepsInv(Start, events);
  }

  /** The body ends without an error only when the producer completed and the client has every frame it sent. */
  lemma CleanEndIsComplete(events: seq<Event>)
    requires Run(Start, events).consumer == Ended(true)
    ensures Run(Start, events).complete && !Run(Start, events).failed
    ensures Run(Start, events).yielded == Run(Start, events).sent
  {
    RunKeepsInv(Start, events);
  }

  /** The worker has begun to end with an error. */
  ghost predicate Failing(s: State) { s.failed || s.worker == Closing(false) }

  lemma FailingStaysFailing(s: State, e: Event)
    requires Inv(s) && Failing(s)
    ensures Failing(Apply(s, e)) && Apply(s, e).yielded == s.yielded && Apply(s, e).consumer != Ended(true)
  {
    StepKeepsInv(s, e);
  }

  /**
   Once the worker ends with an error no step can end the body cleanly, and no
   further frame reaches the client: not even when the failure comes after the
   consumer has checked the flag, or while it holds a frame.
   */
  lemma {:induction false} FailureIsFinal(s: State, events: seq<Event>)
    requires Inv(s) && Failing(s)
    ensures var s' := Run(s, events);
            Failing(s') && s'.yielded == s.yielded && s'.consumer != Ended(true)
  {
    if events != [] {
      var before := events[..|events| - 1];
      FailureIsFinal(s, before);
      RunKeepsInv(s, before);
      FailingStaysFailing(Run(s, before), events[|events| - 1]);
    }
  }

  lemma WorkerFreezesCandidate(s: State, e: Event)
    requires s.published
    ensures WorkerStep(s, e).published && WorkerStep(s, e).candidate == s.candidate
  {
  }

  lemma ConsumerFreezesCandidate(s: State, e: Event)
    requires s.published
    ensures ConsumerStep(s, e).published && ConsumerStep(s, e).candidate == s.candidate
  {
  }

  lemma StepFreezesCandidate(s: State, e: Event)
    requires s.published
    ensures Apply(s, e).published && Apply(s, e).candidate == s.candidate
  {
    hide WorkerStep, ConsumerStep;
    if OfWorker(e) {
      WorkerFreezesCandidate(s, e);
    } else {
      ConsumerFreezesCandidate(s, e);
    }
  }

  /** Once anything is published the chain keeps its candidate for good. */
  lemma {:induction false} PublicationFreezesCandidate(s: State, events: seq<Event>)
    requires s.published
    ensures Run(s, events).published && Run(s, events).candidate == s.candidate
  {
    if events != [] {
      PublicationFreezesCandidate(s, events[..|events| - 1]);
      StepFreezesCandidate(Run(s, events[..|events| - 1]), events[|events| - 1]);
    }
  }
}
