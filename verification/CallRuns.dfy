/** Every sequence of calls on any number of attempts and one delivery: what is withheld, and what is bound. */
module CallRuns {
  import opened Prelude
  import opened Execution

  /** Output handed back by the delivery, and whether it ends the response. */
  datatype Emission = Emission(attempt: nat, final: bool)

  /**
   `validated` records the attempts whose end of input was accepted at some
   point, `discarded` those that were rejected or cancelled.
   */
  datatype System = System(
    attempts: map<nat, AttemptState>,
    delivery: DeliveryState,
    validated: set<nat>,
    log: seq<Emission>,
    completions: seq<nat>)

  const Fresh := System(map[], NewDelivery, {}, [], [])

  datatype Call =
    | New(id: nat)
    | Begin(id: nat, format: Option<Intake>)
    | Push(id: nat, chunk: seq<Byte>)
    | Finish(id: nat)
    | CancelAttempt(id: nat)
    | EncodeJson(id: nat, body: Option<seq<Byte>>)
    | EncodeEvents(id: nat, events: seq<StreamEvent>, frames: Option<seq<seq<Byte>>>)
    | FinishStream(id: nat, frames: Option<seq<seq<Byte>>>, closes: bool)
    | Commit
    | Complete(id: nat)
    | CancelDelivery

  function Emit(s: System, next: DeliveryState, emitted: bool, id: nat, final: bool): System {
    s.(delivery := next, log := if emitted then s.log + [Emission(id, final)] else s.log)
  }

  /** One call. `decoder` gives each attempt its decoder. */
  function Apply(decoder: nat -> Decoder, limit: nat, s: System, c: Call): System {
    if c.New? then if c.id in s.attempts then s else s.(attempts := s.attempts[c.id := NewAttempt])
    else if c.Commit? then s.(delivery := s.delivery.Commit().0)
    else if c.CancelDelivery? then s.(delivery := s.delivery.Cancel())
    else if c.id !in s.attempts then s
    else
      var a := s.attempts[c.id];
      match c
      case Begin(id, format) => s.(attempts := s.attempts[id := a.Begin(format)])
      case Push(id, chunk) => s.(attempts := s.attempts[id := a.Push(decoder(id), limit, chunk).0])
      case Finish(id) =>
        var next := a.Finish(decoder(id));
        s.(attempts := s.attempts[id := next], validated := if next.Responds() then s.validated + {id} else s.validated)
      case CancelAttempt(id) => s.(attempts := s.attempts[id := a.Reject()])
      case EncodeJson(id, body) =>
        var (next, out) := s.delivery.EncodeJson(id, a, body);
        Emit(s, next, out.Some?, id, true)
      case EncodeEvents(id, events, frames) =>
        var (next, out) := s.delivery.EncodeEvents(id, a, events, frames);
        Emit(s, next, out.Some? && events != [], id, false)
      case FinishStream(id, frames, closes) =>
        var (next, out) := s.delivery.FinishStream(id, a, frames, closes);
        Emit(s, next, out.Some?, id, true)
      case Complete(id) =>
        var (next, ok) := s.delivery.Complete(id, a);
        s.(delivery := next, completions := if ok then s.completions + [id] else s.completions)
      case _ => s
  }

  function Run(decoder: nat -> Decoder, limit: nat, s: System, calls: seq<Call>): System {
    if calls == [] then s
    else Apply(decoder, limit, Run(decoder, limit, s, calls[..|calls| - 1]), calls[|calls| - 1])
  }

  // ---- The invariant ----

  ghost predicate LogOk(s: System) {
    && (forall i :: 0 <= i < |s.log| ==> s.log[i].attempt == s.log[0].attempt)
    && (forall i :: 0 <= i < |s.log| - 1 ==> !s.log[i].final)
    && (s.log != [] && s.log[|s.log| - 1].final <==> s.delivery.terminal)
    && (s.delivery.terminal ==> s.log[|s.log| - 1].attempt in s.validated)
    && (s.log != [] && !s.delivery.rejected ==> s.delivery.source == Some(s.log[0].attempt))
  }

  ghost predicate CompletionOk(s: System) {
    && |s.completions| <= 1
    && (s.completions != [] ==>
          s.log != [] && s.delivery.terminal && s.delivery.lifecycle == Terminal
            && s.completions[0] == s.log[0].attempt)
    && (s.delivery.lifecycle == Committed ==> s.delivery.rendered)
    && (s.delivery.lifecycle == Terminal ==> s.completions != [] || s.delivery.rejected)
  }

  ghost predicate AttemptsOk(s: System) {
    && (forall id :: id in s.attempts && s.attempts[id].decoded ==> id in s.validated)
    && (forall id :: id in s.attempts && s.attempts[id].rejected ==> s.attempts[id] == s.attempts[id].Reject())
  }

  ghost predicate Inv(s: System) { LogOk(s) && CompletionOk(s) && AttemptsOk(s) }

  predicate OnAttempt(c: Call) { c.New? || c.Begin? || c.Push? || c.Finish? || c.CancelAttempt? }

  lemma AttemptCall(decoder: nat -> Decoder, limit: nat, s: System, c: Call)
    requires Inv(s) && OnAttempt(c)
    ensures Inv(Apply(decoder, limit, s, c))
  {
    var s' := Apply(decoder, limit, s, c);
    assert s'.delivery == s.delivery && s'.log == s.log && s'.completions == s.completions
      && s.validated <= s'.validated;
  }

  /**
   An encoding either hands back output of the bound attempt from an open
   delivery, or changes nothing that was promised.
   */
  lemma EmitKeepsInv(s: System, next: DeliveryState, emitted: bool, id: nat, final: bool)
    requires Inv(s)
    requires next.lifecycle == s.delivery.lifecycle && (s.delivery.rendered ==> next.rendered)
    requires emitted ==>
               && s.delivery.Ready() && s.delivery.Binds(id)
               && next.source == Some(id) && !next.rejected && next.terminal == final
               && (final ==> id in s.validated)
    requires !emitted ==>
               && next.terminal == s.delivery.terminal
               && (next.rejected || (next.source == s.delivery.source && !s.delivery.rejected))
    ensures Inv(Emit(s, next, emitted, id, final))
  {
  }

  lemma EncodingCall(decoder: nat -> Decoder, limit: nat, s: System, c: Call)
    requires Inv(s) && (c.EncodeJson? || c.EncodeEvents? || c.FinishStream?)
    ensures Inv(Apply(decoder, limit, s, c))
  {
    if c.id in s.attempts {
      var a := s.attempts[c.id];
      match c {
        case EncodeJson(id, body) =>
          var (next, out) := s.delivery.EncodeJson(id, a, body);
          EmitKeepsInv(s, next, out.Some?, id, true);
        case EncodeEvents(id, events, frames) =>
          var (next, out) := s.delivery.EncodeEvents(id, a, events, frames);
          EmitKeepsInv(s, next, out.Some? && events != [], id, false);
        case FinishStream(id, frames, closes) =>
          var (next, out) := s.delivery.FinishStream(id, a, frames, closes);
          EmitKeepsInv(s, next, out.Some?, id, true);
      }
    }
  }

  lemma ClosingCall(decoder: nat -> Decoder, limit: nat, s: System, c: Call)
    requires Inv(s) && (c.Commit? || c.Complete? || c.CancelDelivery?)
    ensures Inv(Apply(decoder, limit, s, c))
  {
  }

  lemma StepKeepsInv(decoder: nat -> Decoder, limit: nat, s: System, c: Call)
    requires Inv(s)
    ensures Inv(Apply(decoder, limit, s, c))
  {
    if OnAttempt(c) {
      AttemptCall(decoder, limit, s, c);
    } else if c.Commit? || c.Complete? || c.CancelDelivery? {
      ClosingCall(decoder, limit, s, c);
    } else {
      EncodingCall(decoder, limit, s, c);
    }
  }

  lemma {:induction false} RunKeepsInv(decoder: nat -> Decoder, limit: nat, s: System, calls: seq<Call>)
    requires Inv(s)
    ensures Inv(Run(decoder, limit, s, calls))
  {
    if calls != [] {
      RunKeepsInv(decoder, limit, s, calls[..|calls| - 1]);
      StepKeepsInv(decoder, limit, Run(decoder, limit, s, calls[..|calls| - 1]), calls[|calls| - 1]);
    }
  }

  /**
   Over any sequence of calls all output belongs to one attempt, at most one
   output ends the response, it comes last, and it was encoded only after that
   attempt's end of input was validated; the delivery completes at most once,
   after that output and for that attempt.
   */
  lemma TerminalIsWithheld(decoder: nat -> Decoder, limit: nat, calls: seq<Call>)
    ensures var s := Run(decoder, limit, Fresh, calls);
            && (forall i, j :: 0 <= i < |s.log| && 0 <= j < |s.log| ==> s.log[i].attempt == s.log[j].attempt)
            && (forall i :: 0 <= i < |s.log| && s.log[i].final ==> i == |s.log| - 1 && s.log[i].attempt in s.validated)
            && |s.completions| <= 1
            && (s.completions != [] ==> s.log != [] && s.log[|s.log| - 1] == Emission(s.completions[0], true))
  {
    RunKeepsInv(decoder, limit, Fresh, calls);
  }

  /**
   A delivery that was rejected or cancelled, or has ended its response, emits
   nothing more; a rejected one never commits.
   */
  lemma {:induction false} ClosedDeliveryEmitsNothing(decoder: nat -> Decoder, limit: nat, s: System, calls: seq<Call>)
    requires s.delivery.rejected || s.delivery.terminal
    ensures var s' := Run(decoder, limit, s, calls);
            && s'.log == s.log
            && (s.delivery.rejected ==>
                  && s'.delivery.rejected && s'.completions == s.completions
                  && (s'.delivery.lifecycle == Committed ==> s.delivery.lifecycle == Committed))
            && (s.delivery.terminal ==> s'.delivery.terminal)
  {
    if calls != [] {
      ClosedDeliveryEmitsNothing(decoder, limit, s, calls[..|calls| - 1]);
    }
  }

  /** After an attempt was rejected or cancelled nothing of it is ever encoded or completed. */
  lemma {:induction false} RejectedAttemptIsNeverUsed(
      decoder: nat -> Decoder, limit: nat, s: System, calls: seq<Call>, id: nat)
    requires Inv(s) && id in s.attempts && s.attempts[id].rejected
    ensures var s' := Run(decoder, limit, s, calls);
            && id in s'.attempts && s'.attempts[id].rejected
            && |s.log| <= |s'.log| && s'.log[..|s.log|] == s.log
            && (forall i :: |s.log| <= i < |s'.log| ==> s'.log[i].attempt != id)
            && s.completions <= s'.completions
            && (forall i :: |s.completions| <= i < |s'.completions| ==> s'.completions[i] != id)
  {
    if calls != [] {
      var before := calls[..|calls| - 1];
      RejectedAttemptIsNeverUsed(decoder, limit, s, before, id);
      RunKeepsInv(decoder, limit, s, before);
      RejectedStep(decoder, limit, Run(decoder, limit, s, before), calls[|calls| - 1], id);
      StepKeepsInv(decoder, limit, Run(decoder, limit, s, before), calls[|calls| - 1]);
    }
  }

  lemma RejectedStep(decoder: nat -> Decoder, limit: nat, s: System, c: Call, id: nat)
    requires Inv(s) && id in s.attempts && s.attempts[id].rejected
    ensures var s' := Apply(decoder, limit, s, c);
            && id in s'.attempts && s'.attempts[id].rejected
            && (s'.log == s.log || (|s'.log| == |s.log| + 1 && s'.log[..|s.log|] == s.log
                  && s'.log[|s.log|].attempt != id))
            && (s'.completions == s.completions
                || (exists other :: other != id && s'.completions == s.completions + [other]))
  {
  }

  /** Completion follows a commit: nothing completes that no reader has begun to receive. */
  lemma CompletionFollowsCommit(decoder: nat -> Decoder, limit: nat, s: System, c: Call)
    requires Inv(s) && Apply(decoder, limit, s, c).completions != s.completions
    ensures s.delivery.lifecycle == Committed && s.delivery.rendered && !s.delivery.rejected
    ensures c.Complete? && s.delivery.Binds(c.id)
  {
  }
}
