/** What the data of an event-stream frame is: lines end in either way, and the data that was put in comes out. */
module FrameData {
  import opened Prelude
  import opened WireEvents

  /** A line holds no line feed, and no carriage return that would be taken for part of its end. */
  predicate IsLine(s: string) { '\n' !in s && (s != "" ==> s[|s| - 1] != '\r') }

  function End(crlf: bool): string { if crlf then "\r\n" else "\n" }

  /** The text of these lines, each but the last ended in the way its flag says. */
  function Text(lines: seq<string>, crlf: seq<bool>): string
    requires lines != [] && |crlf| == |lines| - 1
  {
    if |lines| == 1 then lines[0] else lines[0] + End(crlf[0]) + Text(lines[1..], crlf[1..])
  }

  lemma {:induction false} LastLine(line: string, i: nat)
    requires '\n' !in line && i <= |line|
    ensures LinesFrom(line, i) == [line]
    decreases |line| - i
  {
    if i < |line| {
      LastLine(line, i + 1);
    }
  }

  lemma {:induction false} LineEnds(line: string, crlf: bool, rest: string, i: nat)
    requires IsLine(line) && i < |line + End(crlf)|
    ensures LinesFrom(line + End(crlf) + rest, i) == [line] + LinesFrom(rest, 0)
    decreases |line + End(crlf)| - i
  {
    var s, n := line + End(crlf) + rest, |line + End(crlf)| - 1;
    assert s[n] == '\n' && s[n + 1..] == rest;
    if i < n {
      assert s[i] == if i < |line| then line[i] else '\r';
      LineEnds(line, crlf, rest, i + 1);
    } else if crlf {
      assert s[n - 1] == '\r' && s[..n - 1] == line;
    } else {
      assert n > 0 ==> s[n - 1] == line[|line| - 1];
      assert s[..n] == line;
    }
  }

  /** Splitting a text into lines gives back the lines it was made of, however they end. */
  lemma {:induction false} LinesComeBack(lines: seq<string>, crlf: seq<bool>)
    requires lines != [] && |crlf| == |lines| - 1 && forall i :: 0 <= i < |lines| ==> IsLine(lines[i])
    ensures Lines(Text(lines, crlf)) == lines
    decreases |lines|
  {
    if |lines| == 1 {
      LastLine(lines[0], 0);
    } else {
      LineEnds(lines[0], crlf[0], Text(lines[1..], crlf[1..]), 0);
      LinesComeBack(lines[1..], crlf[1..]);
    }
  }

  /** Joining the data lines is one of these texts. */
  lemma {:induction false} JoinIsText(lines: seq<string>)
    requires lines != []
    ensures Join(lines) == Text(lines, seq(|lines| - 1, _ => false))
    decreases |lines|
  {
    if |lines| > 1 {
      JoinIsText(lines[1..]);
      assert seq(|lines| - 1, _ => false)[1..] == seq(|lines| - 2, _ => false);
    }
  }

  /** Data lines are taken in order; lines of other fields add nothing. */
  lemma {:induction false} DataLinesInOrder(a: seq<string>, b: seq<string>)
    ensures DataLines(a + b) == DataLines(a) + DataLines(b)
    decreases |a|
  {
    if a == [] {
      assert a + b == b;
    } else {
      DataLinesInOrder(a[1..], b);
      assert (a + b)[0] == a[0] && (a + b)[1..] == a[1..] + b;
    }
  }

  /** One line of data, with or without the space that may follow the colon. */
  lemma DataLine(line: string)
    ensures DataLines(["data: " + line]) == [line]
    ensures line == "" || line[0] != ' ' ==> DataLines(["data:" + line]) == [line]
    ensures !("data:" <= line) ==> DataLines([line]) == []
  {
    var spaced, tight := "data: " + line, "data:" + line;
    assert spaced[..5] == "data:" && spaced[5] == ' ' && spaced[6..] == line;
    assert tight[5..] == line && (line != "" ==> tight[5] == line[0]);
  }

  function Marked(lines: seq<string>): seq<string> { seq(|lines|, i requires 0 <= i < |lines| => "data: " + lines[i]) }

  lemma {:induction false} MarkedData(lines: seq<string>)
    ensures DataLines(Marked(lines)) == lines
    decreases |lines|
  {
    if lines == [] {
    } else {
      MarkedData(lines[1..]);
      assert Marked(lines)[1..] == Marked(lines[1..]);
      DataLinesInOrder([Marked(lines)[0]], Marked(lines)[1..]);
      assert Marked(lines) == [Marked(lines)[0]] + Marked(lines)[1..];
      DataLine(lines[0]);
    }
  }

  /** What is sent as the data lines of a frame is the frame's data, however the lines end. */
  lemma DataComesBack(lines: seq<string>, crlf: seq<bool>)
    requires lines != [] && |crlf| == |lines| - 1 && forall i :: 0 <= i < |lines| ==> IsLine(lines[i])
    ensures Data(Text(Marked(lines), crlf)) == Text(lines, seq(|lines| - 1, _ => false))
  {
    forall i | 0 <= i < |lines| ensures IsLine(Marked(lines)[i]) {
      MarkedIsLine(lines[i]);
    }
    LinesComeBack(Marked(lines), crlf);
    MarkedData(lines);
    JoinIsText(lines);
  }

  lemma MarkedIsLine(line: string)
    requires IsLine(line)
    ensures IsLine("data: " + line)
  {
    var marked := "data: " + line;
    assert marked[|marked| - 1] == if line == "" then ' ' else line[|line| - 1];
    forall c | c in marked ensures c != '\n' {
      assert c in "data: " || c in line;
    }
  }
}
