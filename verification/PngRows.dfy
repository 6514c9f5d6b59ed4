/**
 Row filters of PNG (section 6 of RFC 2083) and their reconstruction in place
 (`image_generation.py`).
 */
module PngRows {
  import opened Prelude

  type Sample = x: int | 0 <= x < 256

  type Row = seq<Sample>

  // ---- Predictors ----

  function Abs(x: int): nat { if x < 0 then -x else x }

  /** The Paeth predictor as the standard's pseudo-code breaks its ties: left, then above, then upper left. */
  function Paeth(a: Sample, b: Sample, c: Sample): Sample {
    var p := a + b - c;
    if Abs(p - a) <= Abs(p - b) && Abs(p - a) <= Abs(p - c) then a
    else if Abs(p - b) <= Abs(p - c) then b
    else c
  }

  /** Predictors of filters 0 to 4 from the raw samples to the left, above, and above left. */
  function Predictor(kind: nat, left: Sample, up: Sample, upperLeft: Sample): Sample
    requires kind <= 4
  {
    if kind == 0 then 0
    else if kind == 1 then left
    else if kind == 2 then up
    else if kind == 3 then (left + up) / 2
    else Paeth(left, up, upperLeft)
  }

  /** The sample one pixel to the left; outside the image it is zero. */
  function Before(row: Row, x: nat, channels: nat): Sample
    requires x <= |row| && channels > 0
  {
    if x >= channels then row[x - channels] else 0
  }

  // ---- The standard's filters ----

  /** What an encoder stores for one row. */
  function Filtered(kind: nat, channels: nat, raw: Row, above: Row): (r: Row)
    requires kind <= 4 && channels > 0 && |above| == |raw|
    ensures |r| == |raw|
  {
    seq(|raw|, x requires 0 <= x < |raw| =>
      (raw[x] - Predictor(kind, Before(raw, x, channels), above[x], Before(above, x, channels))) % 256)
  }

  /** Filters 3 and 4: the middle of two samples, rounded down, and the one of three that is nearest to their plane. */
  lemma PredictorsAreNear(left: Sample, up: Sample, upperLeft: Sample)
    ensures 2 * Predictor(3, left, up, upperLeft) <= left + up <= 2 * Predictor(3, left, up, upperLeft) + 1
    ensures var p, paeth := left + up - upperLeft, Predictor(4, left, up, upperLeft);
            && (paeth == left || paeth == up || paeth == upperLeft)
            && Abs(p - paeth) <= Abs(p - left) && Abs(p - paeth) <= Abs(p - up) && Abs(p - paeth) <= Abs(p - upperLeft)
  {
  }

  /**
   Filters 0 to 2 take for granted nothing, the pixel to the left, and the row
   above: all that is as it was taken for granted is stored as zero.
   */
  lemma FiltersPredict(channels: nat, raw: Row, above: Row)
    requires channels > 0 && |above| == |raw|
    ensures Filtered(0, channels, raw, above) == raw
    ensures forall x :: channels <= x < |raw| && raw[x] == raw[x - channels] ==>
              Filtered(1, channels, raw, above)[x] == 0
    ensures forall x :: 0 <= x < |raw| && raw[x] == above[x] ==> Filtered(2, channels, raw, above)[x] == 0
  {
    assert Filtered(0, channels, raw, above) == raw;
  }

  /** The first `n` samples of the row that these stored samples stand for. */
  function Rebuilt(kind: nat, channels: nat, stored: Row, above: Row, n: nat): (r: Row)
    requires kind <= 4 && channels > 0 && |above| == |stored| && n <= |stored|
    ensures |r| == n
  {
    if n == 0 then []
    else
      var r := Rebuilt(kind, channels, stored, above, n - 1);
      r + [(stored[n - 1] + Predictor(kind, Before(r, n - 1, channels), above[n - 1],
        Before(above, n - 1, channels))) % 256]
  }

  function Unfiltered(kind: nat, channels: nat, stored: Row, above: Row): (r: Row)
    requires kind <= 4 && channels > 0 && |above| == |stored|
    ensures |r| == |stored|
  {
    Rebuilt(kind, channels, stored, above, |stored|)
  }

  lemma {:induction false} RebuiltPrefix(kind: nat, channels: nat, stored: Row, above: Row, m: nat, n: nat)
    requires kind <= 4 && channels > 0 && |above| == |stored| && m <= n <= |stored|
    ensures Rebuilt(kind, channels, stored, above, n)[..m] == Rebuilt(kind, channels, stored, above, m)
  {
    if m < n {
      RebuiltPrefix(kind, channels, stored, above, m, n - 1);
    }
  }

  lemma Wraps(raw: Sample, p: Sample)
    ensures ((raw - p) % 256 + p) % 256 == raw && ((raw + p) % 256 - p) % 256 == raw
  {
  }

  lemma {:induction false} FilteredThenRebuilt(kind: nat, channels: nat, raw: Row, above: Row, n: nat)
    requires kind <= 4 && channels > 0 && |above| == |raw| && n <= |raw|
    ensures Rebuilt(kind, channels, Filtered(kind, channels, raw, above), above, n) == raw[..n]
  {
    if n > 0 {
      FilteredThenRebuilt(kind, channels, raw, above, n - 1);
      assert Before(raw[..n - 1], n - 1, channels) == Before(raw, n - 1, channels);
      Wraps(raw[n - 1], Predictor(kind, Before(raw, n - 1, channels), above[n - 1], Before(above, n - 1, channels)));
    }
  }

  lemma RebuiltSample(kind: nat, channels: nat, stored: Row, above: Row, x: nat)
    requires kind <= 4 && channels > 0 && |above| == |stored| && x < |stored|
    ensures var raw := Unfiltered(kind, channels, stored, above);
            raw[x] == (stored[x] + Predictor(kind, Before(raw, x, channels), above[x],
              Before(above, x, channels))) % 256
  {
    var raw, r := Unfiltered(kind, channels, stored, above), Rebuilt(kind, channels, stored, above, x);
    RebuiltPrefix(kind, channels, stored, above, x + 1, |stored|);
    RebuiltPrefix(kind, channels, stored, above, x, |stored|);
    assert raw[x] == raw[..x + 1][x];
    assert x >= channels ==> raw[x - channels] == raw[..x][x - channels];
  }

  lemma RebuiltThenFiltered(kind: nat, channels: nat, stored: Row, above: Row)
    requires kind <= 4 && channels > 0 && |above| == |stored|
    ensures Filtered(kind, channels, Unfiltered(kind, channels, stored, above), above) == stored
  {
    var raw := Unfiltered(kind, channels, stored, above);
    forall x | 0 <= x < |stored| ensures Filtered(kind, channels, raw, above)[x] == stored[x] {
      RebuiltSample(kind, channels, stored, above, x);
      Wraps(stored[x], Predictor(kind, Before(raw, x, channels), above[x], Before(above, x, channels)));
    }
  }

  /** For every filter and every row, reconstruction undoes filtering and filtering undoes reconstruction. */
  lemma FiltersInvert(kind: nat, channels: nat, row: Row, above: Row)
    requires kind <= 4 && channels > 0 && |above| == |row|
    ensures Unfiltered(kind, channels, Filtered(kind, channels, row, above), above) == row
    ensures Filtered(kind, channels, Unfiltered(kind, channels, row, above), above) == row
  {
    FilteredThenRebuilt(kind, channels, row, above, |row|);
    RebuiltThenFiltered(kind, channels, row, above);
  }

  // ---- Reconstruction in place ----

  /** `(left, up, upper_left)[distances.index(min(distances))]` */
  method Closest(left: Sample, up: Sample, upperLeft: Sample) returns (r: Sample)
    ensures r == Paeth(left, up, upperLeft)
  {
    var p: int := left + up - upperLeft;
    var values, distances := [left, up, upperLeft], [Abs(p - left), Abs(p - up), Abs(p - upperLeft)];
    var best, i := 0, 1;
    while i < 3
      invariant 0 <= best < i <= 3
      invariant forall j :: 0 <= j < i ==> distances[best] <= distances[j]
      invariant forall j :: 0 <= j < best ==> distances[best] < distances[j]
    {
      if distances[i] < distances[best] {
        best := i;
      }
      i := i + 1;
    }
    assert distances[best] <= distances[0] && distances[best] <= distances[1] && distances[best] <= distances[2];
    assert best > 0 ==> distances[best] < distances[0];
    assert best > 1 ==> distances[best] < distances[1];
    r := values[best];
  }

  lemma RebuildOne(kind: nat, channels: nat, stored: Row, above: Row, done: Row, x: nat)
    requires kind <= 4 && channels > 0 && |above| == |stored| && x < |stored|
    requires done == Rebuilt(kind, channels, stored, above, x)
    ensures Rebuilt(kind, channels, stored, above, x + 1)
            == done + [(stored[x] + Predictor(kind, Before(done, x, channels), above[x],
              Before(above, x, channels))) % 256]
  {
  }

  /** `predictor` of the row loop. */
  method Predict(kind: nat, left: Sample, up: Sample, upperLeft: Sample) returns (predictor: Sample)
    requires 1 <= kind <= 4
    ensures predictor == Predictor(kind, left, up, upperLeft)
  {
    if kind == 1 {
      predictor := left;
    } else if kind == 2 {
      predictor := up;
    } else if kind == 3 {
      var sum := left as int + up as int;
      predictor := sum / 2;
    } else {
      predictor := Closest(left, up, upperLeft);
    }
  }

  /** The loop that overwrites the stored samples of one row with the raw ones. */
  method ReconstructRow(kind: nat, channels: nat, row: array<Sample>, above: Row)
    requires kind <= 4 && channels > 0 && |above| == row.Length
    modifies row
    ensures row[..] == Unfiltered(kind, channels, old(row[..]), above)
  {
    ghost var stored := row[..];
    if kind == 0 {
      UnfilteredByNone(channels, stored, above, |stored|);
      return;
    }
    var x := 0;
    while x < row.Length
      invariant 0 <= x <= row.Length
      invariant row[..x] == Rebuilt(kind, channels, stored, above, x)
      invariant forall k :: x <= k < row.Length ==> row[k] == stored[k]
    {
      ghost var done := row[..x];
      var left := if x >= channels then row[x - channels] else 0;
      var upperLeft := if x >= channels then above[x - channels] else 0;
      var predictor := Predict(kind, left, above[x], upperLeft);
      RebuildOne(kind, channels, stored, above, done, x);
      var sum := row[x] as int + predictor as int;
      row[x] := sum % 256;
      assert row[..x + 1] == done + [row[x]];
      x := x + 1;
    }
    assert row[..x] == row[..];
  }

  lemma {:induction false} UnfilteredByNone(channels: nat, stored: Row, above: Row, n: nat)
    requires channels > 0 && |above| == |stored| && n <= |stored|
    ensures Rebuilt(0, channels, stored, above, n) == stored[..n]
  {
    if n > 0 {
      UnfilteredByNone(channels, stored, above, n - 1);
    }
  }

  // ---- Images ----

  /** One stored row: the filter byte and the samples. */
  datatype Line = Line(kind: Sample, stored: Row)

  function Zeros(n: nat): (r: Row)
    ensures |r| == n
  {
    seq(n, _ => 0)
  }

  ghost predicate Rectangular(rows: seq<Row>, stride: nat) { forall y :: 0 <= y < |rows| ==> |rows[y]| == stride }

  ghost predicate LinesFit(lines: seq<Line>, stride: nat) {
    forall y :: 0 <= y < |lines| ==> |lines[y].stored| == stride && lines[y].kind <= 4
  }

  /** The row above the next one. */
  function Above(rows: seq<Row>, stride: nat): Row { if rows == [] then Zeros(stride) else rows[|rows| - 1] }

  /** What an encoder stores for a whole image when it picks a filter for each row. */
  function Encoded(channels: nat, stride: nat, rows: seq<Row>, kinds: seq<Sample>): (lines: seq<Line>)
    requires channels > 0 && Rectangular(rows, stride) && |kinds| == |rows|
    requires forall y :: 0 <= y < |kinds| ==> kinds[y] <= 4
    ensures |lines| == |rows| && LinesFit(lines, stride)
  {
    if rows == [] then []
    else
      var n := |rows| - 1;
      Encoded(channels, stride, rows[..n], kinds[..n])
      + [Line(kinds[n], Filtered(kinds[n], channels, rows[n], Above(rows[..n], stride)))]
  }

  function Decoded(channels: nat, stride: nat, lines: seq<Line>): (rows: seq<Row>)
    requires channels > 0 && LinesFit(lines, stride)
    ensures |rows| == |lines| && Rectangular(rows, stride)
  {
    if lines == [] then []
    else
      var last, rows := lines[|lines| - 1], Decoded(channels, stride, lines[..|lines| - 1]);
      rows + [Unfiltered(last.kind, channels, last.stored, Above(rows, stride))]
  }

  lemma DecodedMore(channels: nat, stride: nat, lines: seq<Line>, line: Line)
    requires channels > 0 && LinesFit(lines, stride) && |line.stored| == stride && line.kind <= 4
    ensures LinesFit(lines + [line], stride)
    ensures var rows := Decoded(channels, stride, lines);
            Decoded(channels, stride, lines + [line])
              == rows + [Unfiltered(line.kind, channels, line.stored, Above(rows, stride))]
  {
    assert (lines + [line])[..|lines|] == lines;
  }

  lemma EncodedLast(channels: nat, stride: nat, rows: seq<Row>, kinds: seq<Sample>)
    requires rows != [] && channels > 0 && Rectangular(rows, stride) && |kinds| == |rows|
    requires forall y :: 0 <= y < |kinds| ==> kinds[y] <= 4
    ensures var n := |rows| - 1;
            && Rectangular(rows[..n], stride) && (forall y :: 0 <= y < n ==> kinds[..n][y] <= 4)
            && Encoded(channels, stride, rows, kinds)
               == Encoded(channels, stride, rows[..n], kinds[..n])
                  + [Line(kinds[n], Filtered(kinds[n], channels, rows[n], Above(rows[..n], stride)))]
  {
  }

  /** Any image, filtered row by row in any way, is reconstructed exactly. */
  lemma {:induction false} ImagesSurvive(channels: nat, stride: nat, rows: seq<Row>, kinds: seq<Sample>)
    requires channels > 0 && Rectangular(rows, stride) && |kinds| == |rows|
    requires forall y :: 0 <= y < |kinds| ==> kinds[y] <= 4
    ensures Decoded(channels, stride, Encoded(channels, stride, rows, kinds)) == rows
  {
    hide Encoded, Decoded, Filtered, Unfiltered, Above;
    if rows == [] {
      EmptyImage(channels, stride, kinds);
    } else {
      var n := |rows| - 1;
      var above := Above(rows[..n], stride);
      EncodedLast(channels, stride, rows, kinds);
      AboveFits(rows[..n], stride);
      ImagesSurvive(channels, stride, rows[..n], kinds[..n]);
      FiltersInvert(kinds[n], channels, rows[n], above);
      DecodedMore(channels, stride, Encoded(channels, stride, rows[..n], kinds[..n]),
                  Line(kinds[n], Filtered(kinds[n], channels, rows[n], above)));
      assert rows[..n] + [rows[n]] == rows;
    }
  }

  lemma AboveFits(rows: seq<Row>, stride: nat)
    requires Rectangular(rows, stride)
    ensures |Above(rows, stride)| == stride
  {
  }

  lemma EmptyImage(channels: nat, stride: nat, kinds: seq<Sample>)
    requires channels > 0 && kinds == []
    ensures Decoded(channels, stride, Encoded(channels, stride, [], kinds)) == []
  {
  }

  // ---- The row loop ----

  /** A raster as the inflated data hold it: per row the filter byte, then the samples. */
  function LineAt(raster: Row, stride: nat, y: nat): Line
    requires (y + 1) * (stride + 1) <= |raster|
  {
    var start := y * (stride + 1);
    Line(raster[start], raster[start + 1..start + 1 + stride])
  }

  lemma RowIsInside(stride: nat, y: nat, height: nat)
    requires y < height
    ensures 0 <= (y + 1) * (stride + 1) <= height * (stride + 1)
  {
    assert (height - y - 1) * (stride + 1) >= 0;
  }

  function LinesOf(raster: Row, stride: nat, height: nat): (lines: seq<Line>)
    requires |raster| == height * (stride + 1)
    ensures |lines| == height
  {
    seq(height, y requires 0 <= y < height => (RowIsInside(stride, y, height); LineAt(raster, stride, y)))
  }

  /** A pixel that clearly shows the wanted colour; nearly transparent ones do not. */
  predicate Shows(blue: bool, channels: nat, row: Row, x: nat)
    requires 3 <= channels <= 4 && x + channels <= |row|
  {
    var target: int, other: int := if blue then row[x + 2] else row[x], if blue then row[x] else row[x + 2];
    (channels == 4 ==> row[x + 3] >= 128) && target >= 150 && target * 2 > row[x + 1] as int * 3
      && target * 2 > other * 3
  }

  /** No pixel shows both colours. */
  lemma OneColourAtMost(channels: nat, row: Row, x: nat)
    requires 3 <= channels <= 4 && x + channels <= |row|
    ensures !(Shows(true, channels, row, x) && Shows(false, channels, row, x))
  {
  }

  /** How many pixels of the row show the colour, from sample `x` on. */
  function ShownInRow(blue: bool, channels: nat, row: Row, x: nat): nat
    requires 3 <= channels <= 4
    decreases |row| - x
  {
    if x + channels > |row| then 0
    else (if Shows(blue, channels, row, x) then 1 else 0) + ShownInRow(blue, channels, row, x + channels)
  }

  function Shown(blue: bool, channels: nat, rows: seq<Row>): nat
    requires 3 <= channels <= 4
  {
    if rows == [] then 0
    else Shown(blue, channels, rows[..|rows| - 1]) + ShownInRow(blue, channels, rows[|rows| - 1], 0)
  }

  method CountRow(blue: bool, channels: nat, row: array<Sample>) returns (count: nat)
    requires 3 <= channels <= 4
    ensures count == ShownInRow(blue, channels, row[..], 0)
  {
    count := 0;
    var x := 0;
    while x + channels <= row.Length
      invariant count + ShownInRow(blue, channels, row[..], x) == ShownInRow(blue, channels, row[..], 0)
      decreases row.Length - x
    {
      var red, green, blueness := row[x], row[x + 1], row[x + 2];
      if channels == 3 || row[x + 3] >= 128 {
        var target: int, other: int := if blue then blueness else red, if blue then red else blueness;
        var most: int := if green >= other then green else other;
        if target >= 150 && target * 2 > most * 3 {
          count := count + 1;
        }
      }
      x := x + channels;
    }
  }

  lemma ShownMore(blue: bool, channels: nat, rows: seq<Row>, row: Row)
    requires 3 <= channels <= 4
    ensures Shown(blue, channels, rows + [row]) == Shown(blue, channels, rows) + ShownInRow(blue, channels, row, 0)
  {
    assert (rows + [row])[..|rows|] == rows;
  }

  /** The raw samples of one stored line, and how many pixels of it show the colour. */
  method ReadLine(blue: bool, channels: nat, line: Line, above: Row) returns (raw: Row, shown: nat)
    requires line.kind <= 4 && 3 <= channels <= 4 && |above| == |line.stored|
    ensures raw == Unfiltered(line.kind, channels, line.stored, above) && shown == ShownInRow(blue, channels, raw, 0)
  {
    var row := new Sample[|line.stored|](i requires 0 <= i < |line.stored| => line.stored[i]);
    assert row[..] == line.stored;
    ReconstructRow(line.kind, channels, row, above);
    shown := CountRow(blue, channels, row);
    raw := row[..];
  }

  datatype Scanned = Scanned(previous: Row, colored: nat)

  /** The row loop: the last raw row and the running count; `None` once a row names an unknown filter. */
  function Scan(blue: bool, channels: nat, stride: nat, lines: seq<Line>): (r: Option<Scanned>)
    requires 3 <= channels <= 4 && forall y :: 0 <= y < |lines| ==> |lines[y].stored| == stride
    ensures r.Some? ==> |r.value.previous| == stride
  {
    if lines == [] then Some(Scanned(Zeros(stride), 0))
    else
      var last := lines[|lines| - 1];
      match Scan(blue, channels, stride, lines[..|lines| - 1])
      case None => None
      case Some(s) =>
        if last.kind > 4 then None
        else
          var row := Unfiltered(last.kind, channels, last.stored, s.previous);
          Some(Scanned(row, s.colored + ShownInRow(blue, channels, row, 0)))
  }

  /** The loop succeeds exactly when every filter is known, and then counts over the reconstructed image. */
  lemma {:induction false} ScanCounts(blue: bool, channels: nat, stride: nat, lines: seq<Line>)
    requires 3 <= channels <= 4 && forall y :: 0 <= y < |lines| ==> |lines[y].stored| == stride
    ensures Scan(blue, channels, stride, lines).Some? <==> LinesFit(lines, stride)
    ensures LinesFit(lines, stride) ==>
              var rows := Decoded(channels, stride, lines);
              Scan(blue, channels, stride, lines) == Some(Scanned(Above(rows, stride), Shown(blue, channels, rows)))
  {
    hide Unfiltered, ShownInRow, Zeros, Decoded, Shown, Above;
    if lines == [] {
      NothingScanned(channels, stride);
    } else {
      var init, last := lines[..|lines| - 1], lines[|lines| - 1];
      assert init + [last] == lines;
      ScanCounts(blue, channels, stride, init);
      assert LinesFit(lines, stride) <==> LinesFit(init, stride) && last.kind <= 4;
      if LinesFit(lines, stride) {
        var rows := Decoded(channels, stride, init);
        AboveFits(rows, stride);
        DecodedMore(channels, stride, init, last);
        var row := Unfiltered(last.kind, channels, last.stored, Above(rows, stride));
        ShownMore(blue, channels, rows, row);
        AboveMore(rows, row, stride);
      }
    }
  }

  lemma NothingScanned(channels: nat, stride: nat)
    requires channels > 0
    ensures Decoded(channels, stride, []) == [] && Above([], stride) == Zeros(stride)
    ensures 3 <= channels <= 4 ==> Shown(true, channels, []) == 0 && Shown(false, channels, []) == 0
  {
  }

  lemma AboveMore(rows: seq<Row>, row: Row, stride: nat)
    ensures Above(rows + [row], stride) == row
  {
  }

  method CountColored(blue: bool, channels: nat, stride: nat, lines: seq<Line>) returns (ok: bool, colored: nat)
    requires 3 <= channels <= 4 && forall y :: 0 <= y < |lines| ==> |lines[y].stored| == stride
    ensures ok <==> LinesFit(lines, stride)
    ensures ok ==> colored == Shown(blue, channels, Decoded(channels, stride, lines))
  {
    hide Unfiltered, ShownInRow, Decoded, Shown;
    ScanCounts(blue, channels, stride, lines);
    var previous := Zeros(stride);
    colored := 0;
    var y := 0;
    while y < |lines|
      invariant 0 <= y <= |lines|
      invariant Scan(blue, channels, stride, lines[..y]) == Some(Scanned(previous, colored))
    {
      assert lines[..y + 1][..y] == lines[..y];
      if lines[y].kind > 4 {
        ScanFails(blue, channels, stride, lines, y + 1);
        return false, colored;
      }
      var row, shown := ReadLine(blue, channels, lines[y], previous);
      colored, previous := colored + shown, row;
      y := y + 1;
    }
    assert lines[..y] == lines;
    ok := true;
  }

  lemma {:induction false} ScanFails(blue: bool, channels: nat, stride: nat, lines: seq<Line>, n: nat)
    requires 3 <= channels <= 4 && forall y :: 0 <= y < |lines| ==> |lines[y].stored| == stride
    requires n <= |lines| && Scan(blue, channels, stride, lines[..n]).None?
    ensures Scan(blue, channels, stride, lines).None?
  {
    if n < |lines| {
      assert lines[..|lines| - 1][..n] == lines[..n];
      ScanFails(blue, channels, stride, lines[..|lines| - 1], n);
    } else {
      assert lines[..n] == lines;
    }
  }
}
