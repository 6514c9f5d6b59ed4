/** The observer as the object that `wire.py` updates field by field, proved against its state functions. */
module WireObservers {
  import opened Prelude
  import opened Frames
  import opened WireEvents
  import opened Wires

  class Wire {
    const config: Config
    var bytes: nat
    var frames: nat
    var closed: bool
    var failed: bool
    var terminal: Option<string>
    var done: bool
    var text: string
    var parts: map<Coordinates, string>
    var snapshot: Option<string>
    var finishSeen: bool
    var pending: string
    var held: seq<Byte>

    function Seen(): Progress
      reads this
    {
      Progress(terminal, done, text, parts, snapshot, finishSeen)
    }

    function Buffered(): Buffer<Progress>
      reads this
    {
      Buffer(pending, frames, Seen())
    }

    function State(): Reader
      reads this
    {
      Reader(bytes, held, Buffered())
    }

    constructor (config: Config)
      ensures this.config == config && State() == NewReader && !closed && !failed
    {
      this.config := config;
      bytes, frames, closed, failed := 0, 0, false, false;
      terminal, done, text, parts, snapshot, finishSeen := None, false, "", map[], None, false;
      pending, held := "", [];
    }

    method HandleChat(fields: map<string, Json>) returns (ok: bool)
      modifies this`text, this`terminal, this`finishSeen
      ensures ok <==> TakeChat(old(Seen()), fields).Some?
      ensures ok ==> Seen() == TakeChat(old(Seen()), fields).value
    {
      var choices := if "choices" in fields then fields["choices"] else List([]);
      if "error" in fields || !choices.List? || |choices.items| > 1 {
        return false;
      }
      for i := 0 to |choices.items|
        invariant i == 0 ==> Seen() == old(Seen())
        invariant i == 1 ==> TakeChat(old(Seen()), fields) == Some(Seen())
      {
        var choice := choices.items[i];
        if finishSeen || !choice.Object? || !IsZero(Get(choice.fields, "index")) {
          return false;
        }
        var delta := if "delta" in choice.fields then choice.fields["delta"] else Object(map[]);
        if !delta.Object? {
          return false;
        }
        var content := Get(delta.fields, "content");
        if !content.Null? {
          if !content.Str? {
            return false;
          }
          text := text + content.s;
        }
        var finish := Get(choice.fields, "finish_reason");
        if !finish.Null? {
          if !finish.Str? || finish.s !in {"stop", "tool_calls", "length", "content_filter"} {
            return false;
          }
          terminal, finishSeen := Some(finish.s), true;
        }
      }
      ok := true;
    }

    method HandleResponses(fields: map<string, Json>) returns (ok: bool)
      modifies this`parts, this`terminal, this`done, this`snapshot
      ensures ok <==> TakeResponses(old(Seen()), fields).Some?
      ensures ok ==> Seen() == TakeResponses(old(Seen()), fields).value
    {
      var kind := Get(fields, "type");
      if kind == Str("response.output_text.delta") {
        var output, content, delta := Get(fields, "output_index"), Get(fields, "content_index"), Get(fields, "delta");
        if !output.Int? || output.n < 0 || !content.Int? || content.n < 0 || !delta.Str? {
          return false;
        }
        var at: Coordinates := (output.n, content.n);
        parts := parts[at := (if at in parts then parts[at] else "") + delta.s];
      }
      if kind.Str? && kind.s in {"response.completed", "response.incomplete", "response.failed", "error"} {
        terminal, done := Some(kind.s), true;
        if kind.s == "response.completed" {
          snapshot := Snapshot(fields);
          if snapshot.None? || |snapshot.value| > TEXT_CHARS {
            return false;
          }
        }
      }
      ok := true;
    }

    /** The body of the frame loop, after the frame's limits. */
    method Handle(frame: string) returns (ok: bool)
      modifies this`text, this`terminal, this`finishSeen, this`parts, this`done, this`snapshot
      ensures ok <==> Take(config.chat, config.parse, old(Seen()), frame).Some?
      ensures ok ==> Seen() == Take(config.chat, config.parse, old(Seen()), frame).value
    {
      var data := Data(frame);
      if data == "" {
        return true;
      }
      if done {
        return false;
      }
      if data == "[DONE]" {
        if !config.chat || !finishSeen {
          return false;
        }
        done := true;
        return true;
      }
      var value := config.parse(data);
      if value.None? || !value.value.Object? {
        return false;
      }
      if config.chat {
        ok := HandleChat(value.value.fields);
      } else {
        ok := HandleResponses(value.value.fields);
      }
      ok := ok && |text| + |Joined(parts)| <= TEXT_CHARS;
    }

    /** The loop of `_push`: complete frames leave the pending text one by one. */
    method DrainPending() returns (ok: bool)
      modifies this`pending, this`frames, this`text, this`terminal, this`finishSeen,
        this`parts, this`done, this`snapshot
      ensures ok <==> Bounded(RulesOf(config), Drain(RulesOf(config), old(Buffered()))).Some?
      ensures ok ==> Buffered() == Drain(RulesOf(config), old(Buffered())).value
    {
      ghost var rules, start := RulesOf(config), Buffered();
      var cut := Cut(pending);
      while cut.Some?
        invariant cut == Cut(pending)
        invariant Drain(rules, Buffered()) == Drain(rules, start)
        decreases |pending|
      {
        ghost var before := Buffered();
        var frame := cut.value.frame;
        pending := cut.value.rest;
        if Width(frame) > FRAME_BYTES {
          return false;
        }
        frames := frames + 1;
        if frames > FRAMES {
          return false;
        }
        ok := Handle(frame);
        if !ok {
          return false;
        }
        DrainStep(rules, before, cut.value, Buffered());
        cut := Cut(pending);
      }
      ok := Width(pending) <= FRAME_BYTES + 3;
    }

    /** `push`. A refused push closes the observer to every later call. */
    method Push(raw: seq<Byte>) returns (ok: bool)
      modifies this
      ensures ok <==> !old(closed) && !old(failed) && PushOnce(config, old(State()), raw).Some?
      ensures ok ==> State() == PushOnce(config, old(State()), raw).value
      ensures closed == old(closed) && failed == !ok
    {
      hide Drain, Decode;
      failed, ok := closed || failed, false;
      if failed {
        return;
      }
      failed := true;
      bytes := bytes + |raw|;
      if bytes > config.limit {
        return;
      }
      if config.streaming {
        var decoded := Decode(config, held, raw);
        if decoded.None? {
          return;
        }
        held, pending := decoded.value.held, pending + decoded.value.text;
        ok := DrainPending();
        if !ok {
          return;
        }
      }
      failed, ok := false, true;
    }

    /** `finish`: the report of an accepted stream, once. */
    method Finish() returns (report: Option<Report>)
      modifies this
      ensures report == if old(closed) || old(failed) then None else Wires.Finish(config, old(State()))
      ensures report.Some? ==> closed && !failed && report.value == Report(terminal, text, snapshot)
      ensures report.None? ==> failed && closed == old(closed)
    {
      report := None;
      if closed || failed {
        failed := true;
        return;
      }
      if config.streaming {
        if held != [] || !Blank(pending) || !done {
          failed := true;
          return;
        }
        if !config.chat {
          text := Joined(parts);
          if snapshot.Some? && text != snapshot.value {
            failed := true;
            return;
          }
        }
      }
      closed := true;
      report := Some(Report(terminal, text, snapshot));
    }
  }

  /** The whole life of one observer: it reports what the whole-stream parser reports, however the stream was cut. */
  method ObserveStream(config: Config, chunks: seq<seq<Byte>>) returns (report: Option<Report>)
    ensures report == Parse(config, Concat(chunks))
  {
    var wire := new Wire(config);
    var i := 0;
    while i < |chunks|
      invariant 0 <= i <= |chunks| && wire.config == config && !wire.closed && !wire.failed && fresh(wire)
      invariant PushAll(config, chunks[..i]) == Some(wire.State())
    {
      assert chunks[..i + 1][..i] == chunks[..i];
      var ok := wire.Push(chunks[i]);
      if !ok {
        Refused(config, chunks, i + 1);
        CutIsIrrelevant(config, chunks);
        return None;
      }
      i := i + 1;
    }
    assert chunks[..i] == chunks;
    report := wire.Finish();
    CutIsIrrelevant(config, chunks);
  }

  lemma {:induction false} Refused(config: Config, chunks: seq<seq<Byte>>, n: nat)
    requires n <= |chunks| && PushAll(config, chunks[..n]).None?
    ensures PushAll(config, chunks).None?
    decreases |chunks|
  {
    if n < |chunks| {
      var before := chunks[..|chunks| - 1];
      assert before[..n] == chunks[..n];
      Refused(config, before, n);
    } else {
      assert chunks[..n] == chunks;
    }
  }
}
