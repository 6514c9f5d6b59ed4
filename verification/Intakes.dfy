/**
 The intake loop of `intake.rs`: chunks from upstream, through one attempt, to
 the acknowledged frames of one delivery.
 */
module Intakes {
  import opened Prelude
  import opened Execution

  /**
   What the surroundings answer: whether the upstream body ends without a
   transport error, what the k-th call of the encoder yields, whether the encoder
   closes, and how many frames the HTTP body acknowledges before it goes away.
   */
  datatype Surroundings = Surroundings(
    ends: bool,
    project: nat -> Option<seq<seq<Byte>>>,
    closes: bool,
    acknowledged: nat)

  /** The frames of the first `calls` calls of the encoder. */
  function Projected(around: Surroundings, calls: nat): seq<seq<Byte>> {
    if calls == 0 then []
    else
      var last := around.project(calls - 1);
      Projected(around, calls - 1) + (if last.Some? then last.value else [])
  }

  /** Every call of the encoder was answered, and all of its frames can be acknowledged. */
  predicate Yields(around: Surroundings, calls: nat) {
    (forall k: nat :: k < calls ==> around.project(k).Some?) && |Projected(around, calls)| <= around.acknowledged
  }

  lemma YieldsMore(around: Surroundings, calls: nat)
    ensures Yields(around, calls + 1)
            <==> Yields(around, calls) && around.project(calls).Some?
                 && |Projected(around, calls + 1)| <= around.acknowledged
    ensures Projected(around, calls) <= Projected(around, calls + 1)
  {
  }

  /** A delivery under way for this attempt: it has rendered, and committed, exactly if a frame was handed over. */
  predicate Going(s: DeliveryState, id: nat, handed: seq<seq<Byte>>) {
    && s.Ready() && s.Binds(id) && s.rendered == (handed != [])
    && s.lifecycle == if handed == [] then Uncommitted else Committed
  }

  /**
   `send_frames`: each frame is handed over, acknowledged and committed before the
   next one. Frames are refused exactly if the delivery cannot commit them or
   the body goes away before it has acknowledged them all.
   */
  method SendFrames(delivery: ResponseDelivery, frames: seq<seq<Byte>>, around: Surroundings, already: seq<seq<Byte>>)
    returns (ok: bool, handed: seq<seq<Byte>>)
    requires |already| <= around.acknowledged
    modifies delivery`lifecycle
    ensures already <= handed <= already + frames
    ensures ok ==> handed == already + frames
    ensures ok <==> frames == [] || (old(delivery.State()).Commit().1 && |already| + |frames| <= around.acknowledged)
    ensures !ok && old(delivery.State()).Commit().1 ==> |handed| == around.acknowledged
    ensures delivery.lifecycle == if handed == already || !old(delivery.State()).Commit().1
                                  then old(delivery.lifecycle) else Committed
    ensures |handed| <= around.acknowledged
  {
    handed := already;
    var i := 0;
    while i < |frames|
      invariant 0 <= i <= |frames|
      invariant handed == already + frames[..i] && |handed| <= around.acknowledged
      invariant i == 0 ==> delivery.lifecycle == old(delivery.lifecycle)
      invariant i > 0 ==> old(delivery.State()).Commit().1 && delivery.lifecycle == Committed
    {
      if |handed| >= around.acknowledged {
        return false, handed;
      }
      handed := handed + [frames[i]];
      var committed := delivery.Commit();
      if !committed {
        assert handed == already + frames[..i + 1];
        return false, handed;
      }
      i := i + 1;
    }
    ok := true;
  }

  /** None of the events is the withheld end of the stream. */
  predicate Projects(events: seq<StreamEvent>) { forall i :: 0 <= i < |events| ==> !events[i].Final? }

  /** The frames of the events that one push produced; without events the encoder is not called. */
  method EmitEvents(
      attempt: Attempt, delivery: ResponseDelivery, events: seq<StreamEvent>, around: Surroundings, first: nat,
      already: seq<seq<Byte>>)
    returns (ok: bool, calls: nat, handed: seq<seq<Byte>>)
    requires delivery.lifecycle != Terminal && |already| <= around.acknowledged && already == Projected(around, first)
    modifies delivery
    ensures delivery.lifecycle != Terminal && already <= handed && |handed| <= around.acknowledged
    ensures handed <= Projected(around, calls) && (ok ==> handed == Projected(around, calls))
    ensures calls == if events == [] then first else first + 1
    ensures old(Going(delivery.State(), attempt.id, already) && attempt.State().Described()) && Projects(events)
            ==> (ok <==> (calls == first || around.project(first).Some?)
                         && |Projected(around, calls)| <= around.acknowledged)
                && (ok ==> Going(delivery.State(), attempt.id, handed))
  {
    calls := if events == [] then first else first + 1;
    var frames := delivery.EncodeEvents(attempt, events, around.project(first));
    if frames.None? {
      return false, calls, already;
    }
    assert Projected(around, calls) == already + frames.value;
    ok, handed := SendFrames(delivery, frames.value, around, already);
  }

  lemma TakeMore<T>(fed: seq<T>, rest: seq<T>, used: nat)
    requires used <= |rest|
    ensures (fed + rest[..used]) + rest[used..] == fed + rest
  {
  }

  /** How far the attempt is, beside the bytes. */
  function Phase(s: AttemptState): (Intake, bool) { (s.intake, s.decoded) }

  /** What one push means for the bytes that the attempt has taken. */
  lemma PushFeeds(s: AttemptState, decoder: Decoder, limit: nat, chunk: seq<Byte>)
    ensures var (next, r) := s.Push(decoder, limit, chunk);
            && (r.Some? ==> r.value.n <= |chunk| && next.fed == s.fed + chunk[..r.value.n] && Phase(next) == Phase(s))
            && (r.None? ==> next.fed == s.fed)
  {
    assert chunk[..|chunk|] == chunk;
  }

  /** The decoder takes some of the chunk, and ends the stream exactly where the body ends. */
  predicate Obliges(decoder: Decoder, body: seq<Byte>, fed: seq<Byte>, chunk: seq<Byte>) {
    var step := decoder.consume(fed, chunk);
    && step.Some? && 0 < step.value.n <= |chunk|
    && var events := step.value.events;
       if fed + chunk[..step.value.n] == body
       then events != [] && events[|events| - 1].Final? && Projects(events[..|events| - 1])
       else Projects(events)
  }

  /** A decoder that gets through this body, in whatever chunks it comes. */
  ghost predicate Obliging(decoder: Decoder, body: seq<Byte>) {
    && decoder.closes(body)
    && forall fed, chunk :: chunk != [] && fed + chunk <= body ==> Obliges(decoder, body, fed, chunk)
  }

  /** An attempt that reads a stream and has met its end exactly if it has been fed all of the body. */
  predicate Reading(s: AttemptState, body: seq<Byte>) {
    && s.intake == Stream && !s.rejected && !s.decoded && s.fed <= body
    && (s.terminal.Some? <==> s.fed == body && body != [])
  }

  lemma ReadsOn(s: AttemptState, decoder: Decoder, limit: nat, body: seq<Byte>, chunk: seq<Byte>)
    requires Reading(s, body) && Obliging(decoder, body) && chunk != [] && s.fed + chunk <= body
    ensures var (next, r) := s.Push(decoder, limit, chunk);
            r.Some? && r.value.n > 0 && Projects(r.value.events) && Reading(next, body)
  {
    assert Obliges(decoder, body, s.fed, chunk);
    var n := decoder.consume(s.fed, chunk).value.n;
    assert s.fed + chunk[..n] <= s.fed + chunk;
  }

  /** An attempt that collects a body and is within its limit. */
  predicate Collecting(s: AttemptState, limit: nat) {
    s.intake == Static && !s.rejected && !s.decoded && s.terminal.None? && |s.fed| <= limit
  }

  lemma CollectsOn(s: AttemptState, decoder: Decoder, limit: nat, chunk: seq<Byte>)
    requires Collecting(s, limit)
    ensures var (next, r) := s.Push(decoder, limit, chunk);
            if |s.fed| + |chunk| <= limit then r == Some(Consumed(|chunk|, [])) && Collecting(next, limit) else r.None?
  {
  }

  /** A stream under way from a decoder to the HTTP body. */
  predicate Follows(
      attempt: Attempt, delivery: ResponseDelivery, around: Surroundings, calls: nat, handed: seq<seq<Byte>>,
      body: seq<Byte>)
    reads attempt, delivery
  {
    Reading(attempt.State(), body) && Going(delivery.State(), attempt.id, handed) && Yields(around, calls)
  }

  lemma FollowsYields(
      attempt: Attempt, delivery: ResponseDelivery, around: Surroundings, calls: nat, handed: seq<seq<Byte>>,
      body: seq<Byte>)
    requires Follows(attempt, delivery, around, calls, handed, body)
    ensures Yields(around, calls)
  {
  }

  /**
   One turn of the inner loop of `produce`: what the decoder takes of the
   rest of the chunk, or nothing once either side has failed.
   */
  method FeedSome(
      rest: seq<Byte>, attempt: Attempt, delivery: ResponseDelivery, streaming: bool, around: Surroundings, first: nat,
      already: seq<seq<Byte>>, ghost body: seq<Byte>)
    returns (used: nat, calls: nat, handed: seq<seq<Byte>>)
    requires rest != [] && delivery.lifecycle != Terminal && |already| <= around.acknowledged
    requires streaming ==> already == Projected(around, first)
    modifies attempt, delivery
    ensures used <= |rest| && old(attempt.fed) <= attempt.fed <= old(attempt.fed) + rest
    ensures used > 0 ==> attempt.fed == old(attempt.fed) + rest[..used]
    ensures used > 0 ==> Phase(attempt.State()) == old(Phase(attempt.State()))
    ensures delivery.lifecycle != Terminal && already <= handed && |handed| <= around.acknowledged
    ensures streaming ==> handed <= Projected(around, calls) && (used > 0 ==> handed == Projected(around, calls))
    ensures !streaming ==> calls == first && handed == already && delivery.State() == old(delivery.State())
    ensures streaming && old(Follows(attempt, delivery, around, first, already, body))
            && Obliging(attempt.decoder, body) && old(attempt.fed) + rest <= body
            ==> (used > 0 <==> Yields(around, calls))
                && (used > 0 ==> Follows(attempt, delivery, around, calls, handed, body))
    ensures !streaming && old(Reading(attempt.State(), body))
            && Obliging(attempt.decoder, body) && old(attempt.fed) + rest <= body
            ==> used > 0 && Reading(attempt.State(), body)
    ensures !streaming && old(Collecting(attempt.State(), attempt.limit))
            ==> used == if |old(attempt.fed) + rest| <= attempt.limit then |rest| else 0
    ensures old(Collecting(attempt.State(), attempt.limit)) && used > 0 ==> Collecting(attempt.State(), attempt.limit)
  {
    hide AttemptState.Push, Projected, Yields, Obliging, Going, Obliges;
    calls, handed := first, already;
    PushFeeds(attempt.State(), attempt.decoder, attempt.limit, rest);
    if Reading(attempt.State(), body) && Obliging(attempt.decoder, body) && attempt.fed + rest <= body {
      ReadsOn(attempt.State(), attempt.decoder, attempt.limit, body, rest);
    }
    if Collecting(attempt.State(), attempt.limit) {
      CollectsOn(attempt.State(), attempt.decoder, attempt.limit, rest);
    }
    var step := attempt.Push(rest);
    if step.None? {
      return 0, calls, handed;
    }
    used := step.value.n;
    if used > 0 && streaming {
      YieldsMore(around, calls);
      var ok;
      ok, calls, handed := EmitEvents(attempt, delivery, step.value.events, around, calls, handed);
      used := if ok then used else 0;
    }
  }

  /**
   The inner loop of `produce`: the decoder takes what it wants of the rest of the
   chunk until nothing is left. `body` is all that the upstream may send.
   */
  method FeedChunk(
      chunk: seq<Byte>, attempt: Attempt, delivery: ResponseDelivery, streaming: bool, around: Surroundings, first: nat,
      already: seq<seq<Byte>>, ghost body: seq<Byte>)
    returns (ok: bool, calls: nat, handed: seq<seq<Byte>>)
    requires delivery.lifecycle != Terminal && |already| <= around.acknowledged
    requires streaming ==> already == Projected(around, first)
    modifies attempt, delivery
    ensures old(attempt.fed) <= attempt.fed <= old(attempt.fed) + chunk
    ensures ok ==> attempt.fed == old(attempt.fed) + chunk
    ensures ok ==> Phase(attempt.State()) == old(Phase(attempt.State()))
    ensures delivery.lifecycle != Terminal && already <= handed && |handed| <= around.acknowledged
    ensures streaming ==> handed <= Projected(around, calls) && (ok ==> handed == Projected(around, calls))
    ensures !streaming ==> calls == first && handed == already && delivery.State() == old(delivery.State())
    ensures streaming && old(Follows(attempt, delivery, around, first, already, body))
            && Obliging(attempt.decoder, body) && old(attempt.fed) + chunk <= body
            ==> (ok <==> Yields(around, calls))
                && (ok ==> Follows(attempt, delivery, around, calls, handed, body))
    ensures !streaming && old(Reading(attempt.State(), body))
            && Obliging(attempt.decoder, body) && old(attempt.fed) + chunk <= body
            ==> ok && Reading(attempt.State(), body)
    ensures !streaming && old(Collecting(attempt.State(), attempt.limit))
            ==> (ok <==> |old(attempt.fed) + chunk| <= attempt.limit)
    ensures old(Collecting(attempt.State(), attempt.limit)) && ok ==> Collecting(attempt.State(), attempt.limit)
  {
    hide AttemptState.Push, Projected, Yields, Obliging, Follows, Reading;
    ghost var start := attempt.fed;
    ghost var obliged := Obliging(attempt.decoder, body) && start + chunk <= body;
    ghost var follows := obliged && streaming && Follows(attempt, delivery, around, first, already, body);
    ghost var decodes := obliged && !streaming && Reading(attempt.State(), body);
    ghost var collects := Collecting(attempt.State(), attempt.limit);
    if follows {
      FollowsYields(attempt, delivery, around, first, already, body);
    }
    calls, handed := first, already;
    var rest := chunk;
    while rest != []
      invariant start <= attempt.fed && attempt.fed + rest == start + chunk
      invariant Phase(attempt.State()) == old(Phase(attempt.State()))
      invariant delivery.lifecycle != Terminal && already <= handed && |handed| <= around.acknowledged
      invariant streaming ==> handed == Projected(around, calls)
      invariant !streaming ==> calls == first && handed == already && delivery.State() == old(delivery.State())
      invariant follows ==> Follows(attempt, delivery, around, calls, handed, body) && Yields(around, calls)
      invariant decodes ==> Reading(attempt.State(), body)
      invariant collects ==> Collecting(attempt.State(), attempt.limit)
      decreases |rest|
    {
      ghost var fed := attempt.fed;
      var used;
      used, calls, handed := FeedSome(rest, attempt, delivery, streaming, around, calls, handed, body);
      if used == 0 {
        return false, calls, handed;
      }
      TakeMore(fed, rest, used);
      rest := rest[used..];
    }
    ok := true;
  }

  /** The outer loop of `produce`: the chunks of the upstream body, up to the limit. */
  method Receive(
      chunks: seq<seq<Byte>>, attempt: Attempt, delivery: ResponseDelivery, streaming: bool, limit: nat,
      around: Surroundings)
    returns (ok: bool, calls: nat, handed: seq<seq<Byte>>)
    requires attempt.State() == NewAttempt.(intake := attempt.intake) && delivery.State() == NewDelivery
    modifies attempt, delivery
    ensures attempt.fed <= Concat(chunks) && |attempt.fed| <= limit
    ensures ok ==> attempt.fed == Concat(chunks) && around.ends
    ensures ok ==> Phase(attempt.State()) == old(Phase(attempt.State()))
    ensures delivery.lifecycle != Terminal && |handed| <= around.acknowledged
    ensures streaming ==> handed <= Projected(around, calls) && (ok ==> handed == Projected(around, calls))
    ensures !streaming ==> calls == 0 && handed == [] && delivery.State() == NewDelivery
    ensures streaming && old(attempt.intake) == Stream && Obliging(attempt.decoder, Concat(chunks))
            ==> (ok <==> |Concat(chunks)| <= limit && around.ends && Yields(around, calls))
                && (ok ==> Follows(attempt, delivery, around, calls, handed, Concat(chunks)))
    ensures !streaming && old(attempt.intake) == Stream && Obliging(attempt.decoder, Concat(chunks))
            ==> (ok <==> |Concat(chunks)| <= limit && around.ends)
                && (ok ==> Reading(attempt.State(), Concat(chunks)))
    ensures !streaming && old(attempt.intake) == Static
            ==> (ok <==> |Concat(chunks)| <= limit && |Concat(chunks)| <= attempt.limit && around.ends)
    ensures old(attempt.intake) == Static && ok ==> Collecting(attempt.State(), attempt.limit)
  {
    hide Projected, Yields, Obliging, Going;
    ghost var body := Concat(chunks);
    ghost var follows := streaming && attempt.intake == Stream && Obliging(attempt.decoder, body);
    ghost var decodes := !streaming && attempt.intake == Stream && Obliging(attempt.decoder, body);
    ghost var collects := attempt.intake == Static;
    calls, handed := 0, [];
    NothingProjected(around, attempt.id);
    var usedBytes := 0;
    var i := 0;
    while i < |chunks|
      invariant 0 <= i <= |chunks|
      invariant attempt.fed == Concat(chunks[..i]) && usedBytes == |attempt.fed| <= limit
      invariant Phase(attempt.State()) == old(Phase(attempt.State()))
      invariant delivery.lifecycle != Terminal && |handed| <= around.acknowledged
      invariant streaming ==> handed == Projected(around, calls)
      invariant !streaming ==> calls == 0 && handed == [] && delivery.State() == NewDelivery
      invariant follows ==> Follows(attempt, delivery, around, calls, handed, body)
      invariant decodes ==> Reading(attempt.State(), body)
      invariant collects ==> Collecting(attempt.State(), attempt.limit)
    {
      var chunk := chunks[i];
      ConcatPrefix(chunks, i);
      ConcatPrefix(chunks, i + 1);
      assert chunks[..i + 1][..i] == chunks[..i];
      usedBytes := usedBytes + |chunk|;
      if usedBytes > limit {
        return false, calls, handed;
      }
      ok, calls, handed := FeedChunk(chunk, attempt, delivery, streaming, around, calls, handed, body);
      if !ok {
        return false, calls, handed;
      }
      i := i + 1;
    }
    assert chunks[..i] == chunks;
    ok := around.ends;
  }

  lemma NothingProjected(around: Surroundings, id: nat)
    ensures Projected(around, 0) == [] && Yields(around, 0) && Going(NewDelivery, id, [])
  {
  }

  /**
   What is encoded at the end of a stream, and the completion of the delivery; the
   attempt to end the stream counts as a call.
   */
  method ConcludeStream(
      attempt: Attempt, delivery: ResponseDelivery, around: Surroundings, first: nat, already: seq<seq<Byte>>)
    returns (ok: bool, calls: nat, handed: seq<seq<Byte>>)
    requires |already| <= around.acknowledged && already == Projected(around, first)
    modifies delivery
    ensures ok ==> delivery.lifecycle == Terminal && delivery.terminal && !delivery.rejected
    ensures ok ==> delivery.source == Some(attempt.id) && attempt.State().Responds() && attempt.terminal.Some?
    ensures |handed| <= around.acknowledged && calls == first + 1
    ensures handed <= Projected(around, calls) && (ok ==> handed == Projected(around, calls))
    ensures old(Going(delivery.State(), attempt.id, already)) && attempt.State().Responds() && Yields(around, first)
            ==> (ok <==> && attempt.terminal.Some? && around.closes
                         && Yields(around, calls) && Projected(around, calls) != [])
  {
    YieldsMore(around, first);
    calls, handed := first + 1, already;
    var frames := delivery.FinishStream(attempt, around.project(first), around.closes);
    if frames.None? {
      return false, calls, handed;
    }
    assert Projected(around, calls) == handed + frames.value;
    ok, handed := SendFrames(delivery, frames.value, around, handed);
    if ok {
      ok := delivery.Complete(attempt);
    }
  }

  /** The encoder answers with one body within the limit. */
  predicate Answers(around: Surroundings, limit: nat) {
    var projection := around.project(0);
    projection.Some? && |projection.value| == 1 && |projection.value[0]| <= limit
  }

  /** The one body of an answer that is not a stream, and the completion of the delivery. */
  method ConcludeBody(attempt: Attempt, delivery: ResponseDelivery, limit: nat, around: Surroundings)
    returns (ok: bool, handed: seq<seq<Byte>>)
    modifies delivery
    ensures ok ==> delivery.lifecycle == Terminal && delivery.terminal && !delivery.rejected
    ensures ok ==> delivery.source == Some(attempt.id) && attempt.State().Responds()
    ensures |handed| <= around.acknowledged && |handed| <= 1
    ensures ok ==> Answers(around, limit) && around.project(0) == Some(handed)
    ensures old(delivery.State()) == NewDelivery
            ==> (ok <==> attempt.State().Responds() && Answers(around, limit) && around.acknowledged > 0)
  {
    handed := [];
    var projection := around.project(0);
    var encoded := if projection.Some? && |projection.value| == 1 then Some(projection.value[0]) else None;
    var body := delivery.EncodeJson(attempt, encoded);
    if body.None? || |body.value| > limit {
      return false, handed;
    }
    assert projection.value == [body.value] && handed + [body.value] == [body.value];
    ok, handed := SendFrames(delivery, [body.value], around, handed);
    if ok {
      ok := delivery.Complete(attempt);
    }
  }

  /**
   `produce`. The attempt is fed a prefix of the body, each byte once and in
   order, however little the decoder takes of a chunk at a time; success means
   that the whole body was fed within the limit, its end was accepted, and the
   delivery completed for this attempt. The frames handed over to a stream are
   a prefix of what the encoder has yielded so far, in the order of its `calls`,
   and on success all of it. A body that its decoder gets through succeeds
   exactly if it arrives whole and within the limit, the encoder answers and
   closes, and the client stays for all of its frames; a body that is collected
   also needs a decoder that accepts it, and never makes a stream.
   */
  method Produce(
      chunks: seq<seq<Byte>>, attempt: Attempt, delivery: ResponseDelivery, streaming: bool, limit: nat,
      around: Surroundings)
    returns (ok: bool, calls: nat, handed: seq<seq<Byte>>)
    requires attempt.State() == NewAttempt.(intake := attempt.intake) && delivery.State() == NewDelivery
    modifies attempt, delivery
    ensures attempt.fed <= Concat(chunks) && |attempt.fed| <= limit
    ensures ok ==> attempt.fed == Concat(chunks)
    ensures ok ==> attempt.State().Responds() && around.ends
    ensures ok ==> delivery.lifecycle == Terminal && delivery.terminal && !delivery.rejected
    ensures ok ==> delivery.source == Some(attempt.id)
    ensures |handed| <= around.acknowledged
    ensures streaming ==> handed <= Projected(around, calls) && (ok ==> handed == Projected(around, calls))
    ensures !streaming ==> |handed| <= 1
    ensures ok && !streaming ==> Answers(around, limit) && around.project(0) == Some(handed)
    ensures streaming && old(attempt.intake) == Stream && Obliging(attempt.decoder, Concat(chunks))
            ==> (ok <==> && Concat(chunks) != [] && |Concat(chunks)| <= limit && around.ends && around.closes
                         && Yields(around, calls) && Projected(around, calls) != [])
    ensures !streaming && old(attempt.intake) == Stream && Obliging(attempt.decoder, Concat(chunks))
            ==> (ok <==> && |Concat(chunks)| <= limit && around.ends
                         && Answers(around, limit) && around.acknowledged > 0)
    ensures !streaming && old(attempt.intake) == Static
            ==> (ok <==> && |Concat(chunks)| <= limit && |Concat(chunks)| <= attempt.limit && around.ends
                         && attempt.decoder.closes(Concat(chunks))
                         && Answers(around, limit) && around.acknowledged > 0)
    ensures ok && streaming ==> old(attempt.intake) == Stream
  {
    hide Projected, Yields, Answers, Going;
    ok, calls, handed := Receive(chunks, attempt, delivery, streaming, limit, around);
    if !ok {
      return;
    }
    ok := attempt.Finish();
    if !ok {
      return;
    }
    if streaming {
      ok, calls, handed := ConcludeStream(attempt, delivery, around, calls, handed);
    } else {
      ok, handed := ConcludeBody(attempt, delivery, limit, around);
    }
  }
}
