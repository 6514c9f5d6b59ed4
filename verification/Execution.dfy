/**
 One attempt's intake and one downstream delivery (`attempt.rs`, `delivery.rs`,
 `lifecycle.rs`), as values and as the objects that update them. Decoders and
 encoders are abstract.
 */
module Execution {
  import opened Prelude

  type Byte = bv8

  /** Stream events matter here only by whether they end the stream. */
  datatype StreamEvent = Data(payload: nat) | Final(payload: nat)

  datatype Consumed = Consumed(n: nat, events: seq<StreamEvent>)

  /**
   A decoder by its answers: what it makes of a chunk after the bytes it has
   consumed, and whether it accepts their end.
   */
  datatype Decoder = Decoder(
    consume: (seq<Byte>, seq<Byte>) -> Option<Consumed>,
    closes: seq<Byte> -> bool)

  // ---- The attempt ----

  datatype Intake = Pending | Static | Stream | Closed

  /** `fed` is the body so far, or what the decoder has consumed. */
  datatype AttemptState = AttemptState(
    intake: Intake, fed: seq<Byte>, decoded: bool, terminal: Option<StreamEvent>, rejected: bool)
  {
    function Reject(): AttemptState { this.(rejected := true, intake := Closed, decoded := false, terminal := None) }

    /** `response` succeeds. */
    predicate Responds() { !rejected && decoded }

    /** `metadata` can be present. */
    predicate Described() { decoded || intake == Stream }

    /** `begin`; `format` is how status and media type resolve. */
    function Begin(format: Option<Intake>): AttemptState {
      if rejected || intake != Pending then this
      else if format.None? then Reject()
      else this.(intake := format.value)
    }

    /** `push`: the new state, and the bytes used with the events to project. */
    function Push(decoder: Decoder, limit: nat, chunk: seq<Byte>): (AttemptState, Option<Consumed>) {
      if rejected then (this, None)
      else
        match intake
        case Static =>
          if |fed| + |chunk| > limit then (Reject(), None)
          else (this.(fed := fed + chunk), Some(Consumed(|chunk|, [])))
        case Stream =>
          var step := decoder.consume(fed, chunk);
          if step.None? || step.value.n > |chunk| then (Reject(), None)
          else
            var next := this.(fed := fed + chunk[..step.value.n]);
            var events := step.value.events;
            if events != [] && events[|events| - 1].Final? then
              (next.(terminal := Some(events[|events| - 1])), Some(step.value.(events := events[..|events| - 1])))
            else (next, Some(step.value))
        case _ => (Reject(), None)
    }

    function Finish(decoder: Decoder): AttemptState {
      if rejected || decoded then this
      else if (intake == Static || intake == Stream) && decoder.closes(fed)
         then this.(decoded := true, intake := Closed)
      else Reject()
    }
  }

  const NewAttempt := AttemptState(Pending, [], false, None, false)

  // ---- The delivery ----

  datatype Lifecycle = Uncommitted | Committed | Terminal

  datatype DeliveryState = DeliveryState(
    encoding: bool, source: Option<nat>, lifecycle: Lifecycle, rendered: bool, terminal: bool, rejected: bool)
  {
    predicate Ready() { !rejected && !terminal }

    function Reject(): DeliveryState { this.(rejected := true) }

    predicate Binds(id: nat) { source == None || source == Some(id) }

    /** `encode_json`; `body` is the encoder's answer. */
    function EncodeJson(id: nat, attempt: AttemptState, body: Option<seq<Byte>>): (DeliveryState, Option<seq<Byte>>) {
      if !Ready() || encoding || !Binds(id) then (Reject(), None)
      else if !attempt.Responds() || body.None? then (this.(source := Some(id)).Reject(), None)
      else (this.(source := Some(id), rendered := true, terminal := true), body)
    }

    /** `encode`, shared by the two streaming calls. */
    function Encode(id: nat, attempt: AttemptState, frames: Option<seq<seq<Byte>>>)
      : (DeliveryState, Option<seq<seq<Byte>>>)
    {
      if !Binds(id) then (Reject(), None)
      else if !attempt.Described() || frames.None? then (this.(source := Some(id)).Reject(), None)
      else (this.(source := Some(id), encoding := true, rendered := rendered || frames.value != []), frames)
    }

    function EncodeEvents(id: nat, attempt: AttemptState, events: seq<StreamEvent>, frames: Option<seq<seq<Byte>>>)
      : (DeliveryState, Option<seq<seq<Byte>>>)
    {
      if !Ready() then (Reject(), None)
      else if events == [] then (this, Some([]))
      else if exists i :: 0 <= i < |events| && events[i].Final? then (Reject(), None)
      else Encode(id, attempt, frames)
    }

    /** `finish_stream`; `closes` is the encoder's own end check. */
    function FinishStream(id: nat, attempt: AttemptState, frames: Option<seq<seq<Byte>>>, closes: bool)
      : (DeliveryState, Option<seq<seq<Byte>>>)
    {
      if !Ready() || !attempt.Responds() || attempt.terminal.None? then (Reject(), None)
      else
        var (next, out) := Encode(id, attempt, frames);
        if out.None? then (next, None)
        else if !closes then (next.Reject(), None)
        else (next.(terminal := true), out)
    }

    function Commit(): (DeliveryState, bool) {
      if rejected || !rendered || lifecycle == Terminal then (this, false)
      else (this.(lifecycle := Committed), true)
    }

    function Complete(id: nat, attempt: AttemptState): (DeliveryState, bool) {
      if !Binds(id) then (Reject(), false)
      else
        var bound := this.(source := Some(id));
        if !attempt.Responds() || rejected || !terminal || lifecycle != Committed then (bound, false)
        else (bound.(lifecycle := Terminal), true)
    }

    function Cancel(): DeliveryState {
      this.(rejected := true, encoding := false, source := None, lifecycle := Terminal)
    }
  }

  const NewDelivery := DeliveryState(false, None, Uncommitted, false, false, false)

  // ---- The objects ----

  class Attempt {
    const id: nat
    const decoder: Decoder
    const limit: nat
    var intake: Intake
    var fed: seq<Byte>
    var decoded: bool
    var terminal: Option<StreamEvent>
    var rejected: bool

    function State(): AttemptState
      reads this
    {
      AttemptState(intake, fed, decoded, terminal, rejected)
    }

    constructor (id: nat, decoder: Decoder, limit: nat)
      ensures State() == NewAttempt && this.id == id && this.decoder == decoder && this.limit == limit
    {
      this.id, this.decoder, this.limit := id, decoder, limit;
      intake, fed, decoded, terminal, rejected := Pending, [], false, None, false;
    }

    method Begin(format: Option<Intake>) returns (ok: bool)
      modifies this
      ensures State() == old(State()).Begin(format)
      ensures ok == (old(!rejected && intake == Pending) && format.Some?)
    {
      if rejected || intake != Pending {
        return false;
      }
      match format {
        case None =>
          Cancel();
          return false;
        case Some(next) =>
          intake := next;
          return true;
      }
    }

    method Push(chunk: seq<Byte>) returns (r: Option<Consumed>)
      modifies this
      ensures (State(), r) == old(State()).Push(decoder, limit, chunk)
    {
      if rejected {
        return None;
      }
      match intake {
        case Static =>
          if |fed| + |chunk| > limit {
            Cancel();
            return None;
          }
          fed := fed + chunk;
          return Some(Consumed(|chunk|, []));
        case Stream =>
          var step := decoder.consume(fed, chunk);
          if step.None? || step.value.n > |chunk| {
            Cancel();
            return None;
          }
          fed := fed + chunk[..step.value.n];
          var events := step.value.events;
          if events != [] && events[|events| - 1].Final? {
            terminal := Some(events[|events| - 1]);
            events := events[..|events| - 1];
          }
          return Some(Consumed(step.value.n, events));
        case _ =>
          Cancel();
          return None;
      }
    }

    method Finish() returns (ok: bool)
      modifies this
      ensures State() == old(State()).Finish(decoder) && ok == State().Responds()
    {
      if rejected {
        return false;
      }
      if !decoded {
        if (intake == Static || intake == Stream) && decoder.closes(fed) {
          decoded := true;
          intake := Closed;
        } else {
          Cancel();
          return false;
        }
      }
      return true;
    }

    method Cancel()
      modifies this
      ensures State() == old(State()).Reject()
    {
      rejected := true;
      intake := Closed;
      decoded := false;
      terminal := None;
    }
  }

  class ResponseDelivery {
    var encoding: bool
    var source: Option<nat>
    var lifecycle: Lifecycle
    var rendered: bool
    var terminal: bool
    var rejected: bool

    function State(): DeliveryState
      reads this
    {
      DeliveryState(encoding, source, lifecycle, rendered, terminal, rejected)
    }

    constructor ()
      ensures State() == NewDelivery
    {
      encoding, source, lifecycle, rendered, terminal, rejected := false, None, Uncommitted, false, false, false;
    }

    method Bind(id: nat) returns (ok: bool)
      modifies this`source, this`rejected
      ensures ok == old(State()).Binds(id)
      ensures State() == if ok then old(State()).(source := Some(id)) else old(State()).Reject()
    {
      if source.Some? && source.value != id {
        rejected := true;
        return false;
      }
      source := Some(id);
      return true;
    }

    method EncodeJson(attempt: Attempt, body: Option<seq<Byte>>) returns (r: Option<seq<Byte>>)
      modifies this
      ensures (State(), r) == old(State()).EncodeJson(attempt.id, attempt.State(), body)
    {
      if rejected || terminal || encoding {
        rejected := true;
        return None;
      }
      var bound := Bind(attempt.id);
      if !bound || !attempt.State().Responds() || body.None? {
        rejected := true;
        return None;
      }
      rendered := true;
      terminal := true;
      return body;
    }

    method Encode(attempt: Attempt, frames: Option<seq<seq<Byte>>>) returns (r: Option<seq<seq<Byte>>>)
      modifies this
      ensures (State(), r) == old(State()).Encode(attempt.id, attempt.State(), frames)
    {
      var bound := Bind(attempt.id);
      if !bound || !attempt.State().Described() || frames.None? {
        rejected := true;
        return None;
      }
      encoding := true;
      rendered := rendered || frames.value != [];
      return frames;
    }

    method EncodeEvents(attempt: Attempt, events: seq<StreamEvent>, frames: Option<seq<seq<Byte>>>)
      returns (r: Option<seq<seq<Byte>>>)
      modifies this
      ensures (State(), r) == old(State()).EncodeEvents(attempt.id, attempt.State(), events, frames)
    {
      if rejected || terminal {
        rejected := true;
        return None;
      }
      if events == [] {
        return Some([]);
      }
      if exists i :: 0 <= i < |events| && events[i].Final? {
        rejected := true;
        return None;
      }
      r := Encode(attempt, frames);
    }

    method FinishStream(attempt: Attempt, frames: Option<seq<seq<Byte>>>, closes: bool)
      returns (r: Option<seq<seq<Byte>>>)
      modifies this
      ensures (State(), r) == old(State()).FinishStream(attempt.id, attempt.State(), frames, closes)
    {
      if rejected || terminal || !attempt.State().Responds() || attempt.terminal.None? {
        rejected := true;
        return None;
      }
      r := Encode(attempt, frames);
      if r.Some? {
        if closes {
          terminal := true;
        } else {
          rejected := true;
          r := None;
        }
      }
    }

    method Commit() returns (ok: bool)
      modifies this`lifecycle
      ensures (State(), ok) == old(State()).Commit()
    {
      if rejected || !rendered {
        return false;
      }
      match lifecycle {
        case Uncommitted => lifecycle := Committed;
        case Committed =>
        case Terminal => return false;
      }
      return true;
    }

    method Complete(attempt: Attempt) returns (ok: bool)
      modifies this
      ensures (State(), ok) == old(State()).Complete(attempt.id, attempt.State())
    {
      var bound := Bind(attempt.id);
      if !bound || !attempt.State().Responds() || rejected || !terminal || lifecycle == Uncommitted {
        return false;
      }
      if lifecycle == Terminal {
        return false;
      }
      lifecycle := Terminal;
      return true;
    }

    method Cancel()
      modifies this
      ensures State() == old(State()).Cancel()
    {
      rejected := true;
      encoding := false;
      source := None;
      lifecycle := Terminal;
    }
  }
}
