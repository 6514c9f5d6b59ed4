/** What attempts and deliveries bring about: events are handed on, and a response that is accepted completes. */
module CallProgress {
  import opened Prelude
  import opened Execution
  import opened CallRuns

  // ---- Events ----

  /** The event that ends what the decoder has emitted, if it does end there. */
  function Withheld(events: seq<StreamEvent>): seq<StreamEvent> {
    if events != [] && events[|events| - 1].Final? then [events[|events| - 1]] else []
  }

  /**
   An open stream takes exactly what its decoder consumes and hands on everything
   that the decoder emits but a final event, which it keeps; it is rejected
   exactly when the decoder fails or claims more than it was given.
   */
  lemma PushHandsOn(s: AttemptState, decoder: Decoder, limit: nat, chunk: seq<Byte>)
    requires s.intake == Stream && !s.rejected
    ensures var (next, r) := s.Push(decoder, limit, chunk);
            var step := decoder.consume(s.fed, chunk);
            && (r.Some? <==> step.Some? && step.value.n <= |chunk|)
            && (r.None? ==> next.rejected)
            && (r.Some? ==>
                  && !next.rejected && next.intake == Stream
                  && r.value.n == step.value.n && next.fed == s.fed + chunk[..step.value.n]
                  && r.value.events + Withheld(step.value.events) == step.value.events
                  && next.terminal == (if Withheld(step.value.events) == [] then s.terminal
                                       else Some(Withheld(step.value.events)[0])))
  {
  }

  /** A body that is read as a whole is collected up to the limit, and hands on no event. */
  lemma PushCollects(s: AttemptState, decoder: Decoder, limit: nat, chunk: seq<Byte>)
    requires s.intake == Static && !s.rejected
    ensures var (next, r) := s.Push(decoder, limit, chunk);
            && (r.Some? <==> |s.fed| + |chunk| <= limit)
            && (r.None? ==> next.rejected)
            && (r.Some? ==> next == s.(fed := s.fed + chunk) && r.value == Consumed(|chunk|, []))
  {
  }

  /** Bytes that come before a response has begun or after it has ended reject the attempt, and it begins only once. */
  lemma StrayBytesReject(s: AttemptState, decoder: Decoder, limit: nat, chunk: seq<Byte>, format: Option<Intake>)
    ensures s.intake in {Pending, Closed} ==>
              s.Push(decoder, limit, chunk).1.None? && s.Push(decoder, limit, chunk).0.rejected
    ensures s.rejected || s.intake != Pending ==> s.Begin(format) == s
    ensures !s.rejected && s.intake == Pending ==>
              s.Begin(format) == if format.Some? then s.(intake := format.value) else s.Reject()
  {
  }

  /**
   The end of input is accepted exactly of a body in progress that its decoder
   closes; to tell it again changes nothing.
   */
  lemma FinishDecodes(s: AttemptState, decoder: Decoder)
    ensures s.decoded || s.rejected ==> s.Finish(decoder) == s
    ensures !s.decoded ==>
              (s.Finish(decoder).Responds() <==> !s.rejected && s.intake in {Static, Stream} && decoder.closes(s.fed))
    ensures s.Finish(decoder).Responds() ==> s.Finish(decoder).fed == s.fed && s.Finish(decoder).terminal == s.terminal
  {
  }

  // ---- Encoding ----

  /** The attempt may be encoded by this delivery, which is still open. */
  predicate Encodable(d: DeliveryState, id: nat) {
    !d.rejected && !d.terminal && (d.source.None? || d.source == Some(id))
  }

  /**
   Events are encoded exactly if none of them is final, the attempt is the bound
   one and under way, and the encoder answers; any other call rejects the
   delivery for good. Without events nothing changes.
   */
  lemma EventsAreEncoded(
      d: DeliveryState, id: nat, attempt: AttemptState, events: seq<StreamEvent>, frames: Option<seq<seq<Byte>>>)
    ensures var (next, out) := d.EncodeEvents(id, attempt, events, frames);
            && (d.Ready() && events == [] ==> next == d && out == Some([]))
            && (!d.Ready() ==> out.None? && next.rejected)
            && (d.Ready() && events != [] ==>
                  && (out.Some? <==> && (forall i :: 0 <= i < |events| ==> !events[i].Final?) && Encodable(d, id)
                                     && (attempt.decoded || attempt.intake == Stream) && frames.Some?)
                  && (out.Some? ==> out == frames && next.source == Some(id) && next.Ready())
                  && (out.None? ==> next.rejected))
  {
  }

  /**
   The end of a stream is encoded exactly once its attempt was accepted with its
   final event and the encoder closes.
   */
  lemma EndsAreEncoded(
      d: DeliveryState, id: nat, attempt: AttemptState, frames: Option<seq<seq<Byte>>>, closes: bool)
    ensures var (next, out) := d.FinishStream(id, attempt, frames, closes);
            && (out.Some? <==> && Encodable(d, id) && attempt.decoded && !attempt.rejected && attempt.terminal.Some?
                               && frames.Some? && closes)
            && (out.Some? ==> out == frames && next.source == Some(id) && next.terminal && !next.rejected)
            && (out.None? ==> next.rejected)
  {
  }

  /** A whole body is encoded exactly once its attempt was accepted, and never after events. */
  lemma BodiesAreEncoded(d: DeliveryState, id: nat, attempt: AttemptState, body: Option<seq<Byte>>)
    ensures var (next, out) := d.EncodeJson(id, attempt, body);
            && (out.Some? <==> && Encodable(d, id) && !d.encoding && attempt.decoded && !attempt.rejected && body.Some?)
            && (out.Some? ==>
                  && out == body && next.source == Some(id)
                  && next.terminal && next.rendered && !next.rejected)
            && (out.None? ==> next.rejected)
  {
  }

  /**
   What was rendered can be committed until the delivery is rejected or completed,
   and a committed delivery completes exactly once its output has ended.
   */
  lemma RenderedIsCommitted(d: DeliveryState, id: nat, attempt: AttemptState)
    ensures var (next, ok) := d.Commit();
            && (ok <==> !d.rejected && d.rendered && d.lifecycle != Lifecycle.Terminal)
            && next == if ok then d.(lifecycle := Committed) else d
    ensures d.source == Some(id) && !d.rejected ==>
              var (next, ok) := d.Complete(id, attempt);
              && (ok <==> attempt.decoded && !attempt.rejected && d.terminal && d.lifecycle == Committed)
              && next == if ok then d.(lifecycle := Lifecycle.Terminal) else d
  {
  }

  // ---- Whole responses ----

  lemma {:induction false} RunOn(decoder: nat -> Decoder, limit: nat, s: System, first: seq<Call>, more: seq<Call>)
    ensures Run(decoder, limit, s, first + more) == Run(decoder, limit, Run(decoder, limit, s, first), more)
    decreases |more|
  {
    hide Apply;
    if more == [] {
      assert first + more == first;
    } else {
      RunOn(decoder, limit, s, first, more[..|more| - 1]);
      assert (first + more)[..|first + more| - 1] == first + more[..|more| - 1];
    }
  }

  lemma RunOne(decoder: nat -> Decoder, limit: nat, s: System, a: Call)
    ensures Run(decoder, limit, s, [a]) == Apply(decoder, limit, s, a)
  {
    hide Apply;
    assert [a][..0] == [];
  }

  lemma RunTwo(decoder: nat -> Decoder, limit: nat, s: System, a: Call, b: Call)
    ensures Run(decoder, limit, s, [a, b]) == Apply(decoder, limit, Apply(decoder, limit, s, a), b)
  {
    hide Apply;
    assert [a, b][..1] == [a];
    RunOne(decoder, limit, s, a);
  }

  lemma RunThree(decoder: nat -> Decoder, limit: nat, s: System, a: Call, b: Call, c: Call)
    ensures Run(decoder, limit, s, [a, b, c])
            == Apply(decoder, limit, Apply(decoder, limit, Apply(decoder, limit, s, a), b), c)
  {
    hide Apply, Run;
    RunOn(decoder, limit, s, [a, b], [c]);
    RunTwo(decoder, limit, s, a, b);
    RunOne(decoder, limit, Run(decoder, limit, s, [a, b]), c);
    assert [a, b] + [c] == [a, b, c];
  }

  /** A system with this attempt and this delivery, and what was emitted so far. */
  function Of(
      id: nat, attempt: AttemptState, delivery: DeliveryState, validated: set<nat>, log: seq<Emission>)
    : System
  {
    System(map[id := attempt], delivery, validated, log, [])
  }

  /** A new attempt that has begun to read a body in this way. */
  lemma Begins(decoder: nat -> Decoder, limit: nat, id: nat, format: Intake)
    ensures Run(decoder, limit, Fresh, [New(id), Begin(id, Some(format))])
            == Of(id, NewAttempt.(intake := format), NewDelivery, {}, [])
  {
    RunTwo(decoder, limit, Fresh, New(id), Begin(id, Some(format)));
  }

  lemma ReadsBody(decoder: nat -> Decoder, limit: nat, id: nat, body: seq<Byte>)
    requires |body| <= limit && decoder(id).closes(body)
    ensures Run(decoder, limit, Of(id, NewAttempt.(intake := Static), NewDelivery, {}, []),
                [Push(id, body), Finish(id)])
            == Of(id, AttemptState(Closed, body, true, None, false), NewDelivery, {id}, [])
  {
    RunTwo(decoder, limit, Of(id, NewAttempt.(intake := Static), NewDelivery, {}, []), Push(id, body), Finish(id));
    assert [] + body == body;
  }

  lemma AnswersBody(decoder: nat -> Decoder, limit: nat, id: nat, attempt: AttemptState, out: seq<Byte>)
    requires attempt.Responds()
    ensures var s := Run(decoder, limit, Of(id, attempt, NewDelivery, {id}, []),
                         [EncodeJson(id, Some(out)), Commit, Complete(id)]);
            s.log == [Emission(id, true)] && s.completions == [id]
  {
    RunThree(decoder, limit, Of(id, attempt, NewDelivery, {id}, []), EncodeJson(id, Some(out)), Commit, Complete(id));
  }

  /**
   A whole body that is within the limit and decodes is answered by the
   encoder's body, and the delivery completes.
   */
  lemma WholeBodyCompletes(decoder: nat -> Decoder, limit: nat, id: nat, body: seq<Byte>, out: seq<Byte>)
    requires |body| <= limit && decoder(id).closes(body)
    ensures var calls := [New(id), Begin(id, Some(Static))] + [Push(id, body), Finish(id)]
                         + [EncodeJson(id, Some(out)), Commit, Complete(id)];
            var s := Run(decoder, limit, Fresh, calls);
            s.log == [Emission(id, true)] && s.completions == [id]
  {
    hide Apply, Run, Of;
    var first, second := [New(id), Begin(id, Some(Static))], [Push(id, body), Finish(id)];
    RunOn(decoder, limit, Fresh, first + second, [EncodeJson(id, Some(out)), Commit, Complete(id)]);
    RunOn(decoder, limit, Fresh, first, second);
    Begins(decoder, limit, id, Static);
    ReadsBody(decoder, limit, id, body);
    AnswersBody(decoder, limit, id, AttemptState(Closed, body, true, None, false), out);
  }

  /** The events of a stream are handed on, and encoded and committed while the stream goes on. */
  lemma ReadsStream(
      decoder: nat -> Decoder, limit: nat, id: nat, body: seq<Byte>, events: seq<StreamEvent>, last: StreamEvent,
      frames: seq<seq<Byte>>)
    requires decoder(id).consume([], body) == Some(Consumed(|body|, events + [last])) && last.Final?
    requires events != [] && (forall i :: 0 <= i < |events| ==> !events[i].Final?) && frames != []
    ensures Run(decoder, limit, Of(id, NewAttempt.(intake := Stream), NewDelivery, {}, []),
                [Push(id, body), EncodeEvents(id, events, Some(frames)), Commit])
            == Of(id, AttemptState(Stream, body, false, Some(last), false),
                  DeliveryState(true, Some(id), Committed, true, false, false), {}, [Emission(id, false)])
  {
    var s := Of(id, NewAttempt.(intake := Stream), NewDelivery, {}, []);
    RunThree(decoder, limit, s, Push(id, body), EncodeEvents(id, events, Some(frames)), Commit);
    assert [] + body[..|body|] == body && (events + [last])[..|events|] == events;
  }

  lemma EndsStream(
      decoder: nat -> Decoder, limit: nat, id: nat, body: seq<Byte>, last: StreamEvent, frames: seq<seq<Byte>>)
    requires decoder(id).closes(body)
    ensures var s := Of(id, AttemptState(Stream, body, false, Some(last), false),
                        DeliveryState(true, Some(id), Committed, true, false, false), {}, [Emission(id, false)]);
            var t := Run(decoder, limit, s, [Finish(id), FinishStream(id, Some(frames), true), Complete(id)]);
            t.log == [Emission(id, false), Emission(id, true)] && t.completions == [id]
  {
    var s := Of(id, AttemptState(Stream, body, false, Some(last), false),
                DeliveryState(true, Some(id), Committed, true, false, false), {}, [Emission(id, false)]);
    RunThree(decoder, limit, s, Finish(id), FinishStream(id, Some(frames), true), Complete(id));
  }

  /**
   A stream whose decoder emits events and then a final one, and closes, is
   encoded as it comes, ended once its end was validated, and completed.
   */
  lemma StreamCompletes(
      decoder: nat -> Decoder, limit: nat, id: nat, body: seq<Byte>, events: seq<StreamEvent>, last: StreamEvent,
      frames: seq<seq<Byte>>, ending: seq<seq<Byte>>)
    requires decoder(id).consume([], body) == Some(Consumed(|body|, events + [last])) && last.Final?
    requires events != [] && (forall i :: 0 <= i < |events| ==> !events[i].Final?) && frames != []
    requires decoder(id).closes(body)
    ensures var calls := [New(id), Begin(id, Some(Stream))]
                         + [Push(id, body), EncodeEvents(id, events, Some(frames)), Commit]
                         + [Finish(id), FinishStream(id, Some(ending), true), Complete(id)];
            var s := Run(decoder, limit, Fresh, calls);
            s.log == [Emission(id, false), Emission(id, true)] && s.completions == [id]
  {
    hide Apply, Run, Of;
    var first := [New(id), Begin(id, Some(Stream))];
    var second := [Push(id, body), EncodeEvents(id, events, Some(frames)), Commit];
    RunOn(decoder, limit, Fresh, first + second, [Finish(id), FinishStream(id, Some(ending), true), Complete(id)]);
    RunOn(decoder, limit, Fresh, first, second);
    Begins(decoder, limit, id, Stream);
    ReadsStream(decoder, limit, id, body, events, last, frames);
    EndsStream(decoder, limit, id, body, last, ending);
  }
}
