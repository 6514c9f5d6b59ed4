/**
 What one frame of a probed stream does to the observer (`wire.py`): its data
 lines, and the chat or responses event in them.
 */
module WireEvents {
  import opened Prelude

  datatype Json =
    | Null
    | Bool(b: bool)
    | Int(n: int)
    | Real(x: real)
    | Str(s: string)
    | List(items: seq<Json>)
    | Object(fields: map<string, Json>)

  /** Coordinates of a text part: output index, then content index. */
  type Coordinates = (nat, nat)

  datatype Progress = Progress(
    terminal: Option<string>, done: bool, text: string, parts: map<Coordinates, string>, snapshot: Option<string>,
    finishSeen: bool)

  const Start := Progress(None, false, "", map[], None, false)

  const TEXT_CHARS := 65536

  // ---- Data lines ----

  /** `re.split(r"\r?\n", s)` */
  function Lines(s: string): seq<string> { LinesFrom(s, 0) }

  function LinesFrom(s: string, i: nat): seq<string>
    requires i <= |s|
    decreases |s|, |s| - i
  {
    if i == |s| then [s]
    else if s[i] != '\n' then LinesFrom(s, i + 1)
    else [if i > 0 && s[i - 1] == '\r' then s[..i - 1] else s[..i]] + LinesFrom(s[i + 1..], 0)
  }

  function DataOf(line: string): string
    requires "data:" <= line
  {
    if |line| > 5 && line[5] == ' ' then line[6..] else line[5..]
  }

  /** The data lines, joined by line feeds. */
  function DataLines(lines: seq<string>): (r: seq<string>) {
    if lines == [] then []
    else (if "data:" <= lines[0] then [DataOf(lines[0])] else []) + DataLines(lines[1..])
  }

  function Join(parts: seq<string>): string {
    if parts == [] then "" else if |parts| == 1 then parts[0] else parts[0] + "\n" + Join(parts[1..])
  }

  function Data(frame: string): string { Join(DataLines(Lines(frame))) }

  // ---- Text parts ----

  predicate UpTo(a: Coordinates, b: Coordinates) { a.0 < b.0 || (a.0 == b.0 && a.1 <= b.1) }

  lemma LeastOfMore(keys: set<Coordinates>, one: Coordinates, least: Coordinates)
    requires one in keys && least in keys && forall j :: j in keys - {one} ==> UpTo(least, j)
    ensures exists k :: k in keys && forall j :: j in keys ==> UpTo(k, j)
  {
    var k := if UpTo(one, least) then one else least;
    forall j | j in keys ensures UpTo(k, j) {
      if j != one {
        assert j in keys - {one};
      }
    }
  }

  lemma {:induction false} LeastExists(keys: set<Coordinates>)
    requires keys != {}
    ensures exists k :: k in keys && forall j :: j in keys ==> UpTo(k, j)
  {
    var one :| one in keys;
    if keys - {one} == {} {
      LeastOfMore(keys, one, one);
    } else {
      LeastExists(keys - {one});
      var least :| least in keys - {one} && forall j :: j in keys - {one} ==> UpTo(least, j);
      LeastOfMore(keys, one, least);
    }
  }

  function Least(keys: set<Coordinates>): (k: Coordinates)
    requires keys != {}
    ensures k in keys && forall j :: j in keys ==> UpTo(k, j)
  {
    LeastExists(keys);
    var k :| k in keys && forall j :: j in keys ==> UpTo(k, j);
    k
  }

  /** The parts in the order of their coordinates. */
  function Joined(parts: map<Coordinates, string>): string
    decreases |parts|
  {
    if parts == map[] then ""
    else
      var k := Least(parts.Keys);
      assert (parts - {k}).Keys == parts.Keys - {k};
      parts[k] + Joined(parts - {k})
  }

  // ---- Events ----

  function Get(fields: map<string, Json>, name: string): Json { if name in fields then fields[name] else Null }

  /** `== 0` */
  predicate IsZero(value: Json) { value == Int(0) || value == Real(0.0) || value == Bool(false) }

  function TakeChoice(p: Progress, choice: Json): Option<Progress> {
    if p.finishSeen || !choice.Object? || !IsZero(Get(choice.fields, "index")) then None
    else
      var delta := if "delta" in choice.fields then choice.fields["delta"] else Object(map[]);
      if !delta.Object? then None
      else
        var content, finish := Get(delta.fields, "content"), Get(choice.fields, "finish_reason");
        if !content.Null? && !content.Str? then None
        else
          var next := if content.Str? then p.(text := p.text + content.s) else p;
          if finish.Null? then Some(next)
          else if finish.Str? && finish.s in {"stop", "tool_calls", "length", "content_filter"}
            then Some(next.(terminal := Some(finish.s), finishSeen := true))
          else None
  }

  function TakeChat(p: Progress, fields: map<string, Json>): Option<Progress> {
    var choices := if "choices" in fields then fields["choices"] else List([]);
    if "error" in fields || !choices.List? || |choices.items| > 1 then None
    else if choices.items == [] then Some(p)
    else TakeChoice(p, choices.items[0])
  }

  /** The values of a loop over a JSON value whose members are then subscripted by name. */
  function Members(value: Json): Option<seq<Json>> {
    match value
    case List(items) => Some(items)
    case Object(fields) => if fields == map[] then Some([]) else None
    case Str(s) => if s == "" then Some([]) else None
    case _ => None
  }

  function PartText(part: Json): Option<string> {
    if !part.Object? || "type" !in part.fields then None
    else if part.fields["type"] != Str("output_text") then Some("")
    else if "text" !in part.fields || !part.fields["text"].Str? then None
    else Some(part.fields["text"].s)
  }

  function PartsText(parts: seq<Json>): Option<string> {
    if parts == [] then Some("")
    else
      var first, others := PartText(parts[0]), PartsText(parts[1..]);
      if first.None? || others.None? then None else Some(first.value + others.value)
  }

  function ItemText(item: Json): Option<string> {
    if !item.Object? || "type" !in item.fields then None
    else if item.fields["type"] != Str("message") then Some("")
    else if "content" !in item.fields then None
    else
      var parts := Members(item.fields["content"]);
      if parts.None? then None else PartsText(parts.value)
  }

  function ItemsText(items: seq<Json>): Option<string> {
    if items == [] then Some("")
    else
      var first, others := ItemText(items[0]), ItemsText(items[1..]);
      if first.None? || others.None? then None else Some(first.value + others.value)
  }

  /** The text of the completed response. */
  function Snapshot(fields: map<string, Json>): Option<string> {
    var response := Get(fields, "response");
    if !response.Object? || "output" !in response.fields then None
    else
      var items := Members(response.fields["output"]);
      if items.None? then None else ItemsText(items.value)
  }

  function TakeDelta(p: Progress, fields: map<string, Json>): Option<Progress> {
    var output, content, delta := Get(fields, "output_index"), Get(fields, "content_index"), Get(fields, "delta");
    if !output.Int? || output.n < 0 || !content.Int? || content.n < 0 || !delta.Str? then None
    else
      var at := (output.n as nat, content.n as nat);
      Some(p.(parts := p.parts[at := (if at in p.parts then p.parts[at] else "") + delta.s]))
  }

  function TakeResponses(p: Progress, fields: map<string, Json>): Option<Progress> {
    var kind := Get(fields, "type");
    if kind == Str("response.output_text.delta") then TakeDelta(p, fields)
    else if kind.Str? && kind.s in {"response.incomplete", "response.failed", "error"}
      then Some(p.(terminal := Some(kind.s), done := true))
    else if kind == Str("response.completed") then
      var snapshot := Snapshot(fields);
      if snapshot.None? || |snapshot.value| > TEXT_CHARS then None
      else Some(p.(terminal := Some("response.completed"), done := true, snapshot := snapshot))
    else Some(p)
  }

  /** The length of the joined parts is the sum of their lengths. */
  predicate WithinText(p: Progress) { |p.text| + |Joined(p.parts)| <= TEXT_CHARS }

  function TakeEvent(chat: bool, p: Progress, value: Json): Option<Progress> {
    if !value.Object? then None
    else
      var next := if chat then TakeChat(p, value.fields) else TakeResponses(p, value.fields);
      if next.Some? && WithinText(next.value) then next else None
  }

  /** The body of the frame loop. */
  function Take(chat: bool, parse: string -> Option<Json>, p: Progress, frame: string): Option<Progress> {
    var data := Data(frame);
    if data == "" then Some(p)
    else if p.done then None
    else if data == "[DONE]" then if chat && p.finishSeen then Some(p.(done := true)) else None
    else
      match parse(data)
      case None => None
      case Some(value) => TakeEvent(chat, p, value)
  }
}
