/**
  * Scanline unfiltering of 8-bit non-interlaced RGBA images (section 9 of the W3C PNG specification), and the
  * bounding box of the selected pixels.
  */
module Png {
  import opened Wrappers

  const BPP := 4

  // ---- the filters ----

  function Abs(n: int): int { if n < 0 then -n else n }

  /** The first of the two that is no farther from `to` than the other. */
  function Nearer(to: int, x: Byte, y: Byte): Byte { if Abs(to - x) <= Abs(to - y) then x else y }

  function Paeth(a: Byte, b: Byte, c: Byte): Byte {
    var to := a as int + b - c;
    Nearer(to, a, Nearer(to, b, c))
  }

  /** p is the first of a, b, c among those nearest to a + b - c. */
  predicate NearestInOrder(a: Byte, b: Byte, c: Byte, p: Byte) {
    var order := [a, b, c];
    var to := a as int + b - c;
    exists k | 0 <= k < 3 :: p == order[k] && FirstNearest(to, order, k)
  }

  predicate FirstNearest(to: int, order: seq<Byte>, k: nat)
    requires k < |order|
  {
    && (forall j | 0 <= j < |order| :: Abs(to - order[k]) <= Abs(to - order[j]))
    && (forall j | 0 <= j < k :: Abs(to - order[k]) < Abs(to - order[j]))
  }

  /** What each filter type predicts from the bytes to the left, above, and above left. */
  predicate IsPrediction(filter: int, a: Byte, b: Byte, c: Byte, p: Byte) {
    match filter
    case 1 => p == a
    case 2 => p == b
    case 3 => 2 * p <= a as int + b < 2 * (p + 1)
    case 4 => NearestInOrder(a, b, c, p)
    case _ => p == 0
  }

  function Predict(filter: int, a: Byte, b: Byte, c: Byte): (p: Byte) {
    if filter == 1 then a
    else if filter == 2 then b
    else if filter == 3 then (a as int + b) / 2
    else if filter == 4 then Paeth(a, b, c)
    else 0
  }

  lemma PaethIsNearest(a: Byte, b: Byte, c: Byte, p: Byte)
    ensures NearestInOrder(a, b, c, p) <==> p == Paeth(a, b, c)
  {
    hide FirstNearest, Abs;
    var order := [a, b, c];
    FirstOfThree(a as int + b - c, order);
    assert order[0] == a && order[1] == b && order[2] == c;
  }

  lemma FirstOfThree(to: int, order: seq<Byte>)
    requires |order| == 3
    ensures var from0, from1, from2 := Abs(to - order[0]), Abs(to - order[1]), Abs(to - order[2]);
            && (FirstNearest(to, order, 0) <==> from0 <= from1 && from0 <= from2)
            && (FirstNearest(to, order, 1) <==> from1 < from0 && from1 <= from2)
            && (FirstNearest(to, order, 2) <==> from2 < from0 && from2 < from1)
  {
    hide Abs;
  }

  /** The prediction of every filter type is unique, and it is the one computed. */
  lemma PredictionIs(filter: int, a: Byte, b: Byte, c: Byte, p: Byte)
    ensures IsPrediction(filter, a, b, c, p) <==> p == Predict(filter, a, b, c)
  {
    hide NearestInOrder, Paeth;
    PaethIsNearest(a, b, c, p);
  }

  /** The byte one pixel to the left of place i, 0 before the first pixel. */
  function Left(line: seq<Byte>, i: nat): Byte
    requires i <= |line|
  {
    if i >= BPP then line[i - BPP] else 0
  }

  function Wrap(n: int): Byte { n % 256 }

  /** What an encoder writes: each byte minus its prediction. */
  function Filter(filter: int, line: seq<Byte>, prev: seq<Byte>): (r: seq<Byte>)
    requires |prev| == |line|
    ensures |r| == |line|
  {
    seq(|line|, i requires 0 <= i < |line| => Wrap(line[i] as int - Predict(filter, Left(line, i), prev[i],
                                                                            Left(prev, i))))
  }

  /** The first n bytes a decoder reconstructs. */
  function Unfiltered(filter: int, coded: seq<Byte>, prev: seq<Byte>, n: nat): (r: seq<Byte>)
    requires |prev| == |coded| && n <= |coded|
    ensures |r| == n
  {
    if n == 0 then []
    else
      var before := Unfiltered(filter, coded, prev, n - 1);
      before + [Wrap(coded[n - 1] as int + Predict(filter, Left(before, n - 1), prev[n - 1], Left(prev, n - 1)))]
  }

  function Unfilter(filter: int, coded: seq<Byte>, prev: seq<Byte>): (r: seq<Byte>)
    requires |prev| == |coded|
    ensures |r| == |coded|
  {
    Unfiltered(filter, coded, prev, |coded|)
  }

  /** Each coded byte is the byte of the line minus a prediction from the bytes before it, modulo 256. */
  predicate FilteredBy(filter: int, line: seq<Byte>, prev: seq<Byte>, coded: seq<Byte>) {
    && |coded| == |line| == |prev|
    && forall i | 0 <= i < |line| :: CodedAs(filter, line, prev, coded[i], i)
  }

  predicate CodedAs(filter: int, line: seq<Byte>, prev: seq<Byte>, code: Byte, i: nat)
    requires i < |line| == |prev|
  {
    exists p: Byte | IsPrediction(filter, Left(line, i), prev[i], Left(prev, i), p) :: code == Wrap(line[i] as int - p)
  }

  lemma CodedIs(filter: int, line: seq<Byte>, prev: seq<Byte>, code: Byte, i: nat)
    requires i < |line| == |prev|
    ensures CodedAs(filter, line, prev, code, i)
       <==> code == Wrap(line[i] as int - Predict(filter, Left(line, i), prev[i], Left(prev, i)))
  {
    hide IsPrediction, Predict, Wrap;
    forall p: Byte
      ensures IsPrediction(filter, Left(line, i), prev[i], Left(prev, i), p)
         <==> p == Predict(filter, Left(line, i), prev[i], Left(prev, i))
    {
      PredictionIs(filter, Left(line, i), prev[i], Left(prev, i), p);
    }
    var predicted := Predict(filter, Left(line, i), prev[i], Left(prev, i));
    assert IsPrediction(filter, Left(line, i), prev[i], Left(prev, i), predicted);
  }

  /** Every line can be filtered with every filter type. */
  lemma FilterFilters(filter: int, line: seq<Byte>, prev: seq<Byte>)
    requires |prev| == |line|
    ensures FilteredBy(filter, line, prev, Filter(filter, line, prev))
  {
    hide CodedAs, Predict, Wrap;
    forall i | 0 <= i < |line| ensures CodedAs(filter, line, prev, Filter(filter, line, prev)[i], i) {
      CodedIs(filter, line, prev, Filter(filter, line, prev)[i], i);
    }
  }

  lemma WrapUndoes(x: Byte, y: Byte, p: Byte)
    ensures x == Wrap(y as int - p) <==> Wrap(x as int + p) == y
  {
    var d := y as int - p;
    assert Wrap(d) == if d < 0 then d + 256 else d;
    var e := x as int + p;
    assert Wrap(e) == if e >= 256 then e - 256 else e;
  }

  /** The first n bytes are reconstructed exactly when the first n were filtered from them. */
  lemma {:induction false} UnfilterUndoes(filter: int, line: seq<Byte>, prev: seq<Byte>, coded: seq<Byte>, n: nat)
    requires |prev| == |line| == |coded| && n <= |line|
    ensures Unfiltered(filter, coded, prev, n) == line[..n]
       <==> forall i | 0 <= i < n :: CodedAs(filter, line, prev, coded[i], i)
    decreases n
  {
    hide Predict, Wrap, CodedAs;
    if n > 0 {
      var k := n - 1;
      UnfilterUndoes(filter, line, prev, coded, k);
      CodedIs(filter, line, prev, coded[k], k);
      assert Left(line[..k], k) == Left(line, k);
      WrapUndoes(coded[k], line[k], Predict(filter, Left(line, k), prev[k], Left(prev, k)));
      var before := Unfiltered(filter, coded, prev, k);
      assert line[..k] + [line[k]] == line[..n];
      assert Unfiltered(filter, coded, prev, n)[..k] == before && line[..n][..k] == line[..k];
      assert Unfiltered(filter, coded, prev, n)[k] == line[..n][k] ==> before == line[..k] ==>
            Unfiltered(filter, coded, prev, n) == line[..n];
    }
  }

  /** Reconstruction gives a line exactly when the data was filtered from it. */
  lemma UnfilterInvertsFilter(filter: int, line: seq<Byte>, prev: seq<Byte>, coded: seq<Byte>)
    requires |prev| == |line| == |coded|
    ensures Unfilter(filter, coded, prev) == line <==> FilteredBy(filter, line, prev, coded)
  {
    hide CodedAs;
    UnfilterUndoes(filter, line, prev, coded, |line|);
    assert line[..|line|] == line;
  }

  // ---- one scanline in place ----

  lemma UnfilteredStep(filter: int, coded: seq<Byte>, prev: seq<Byte>, n: nat)
    requires |prev| == |coded| && n < |coded|
    ensures var before := Unfiltered(filter, coded, prev, n);
            var next := Wrap(coded[n] as int + Predict(filter, Left(before, n), prev[n], Left(prev, n)));
            Unfiltered(filter, coded, prev, n + 1) == before + [next]
  {
  }

  /** The first pixel and unfiltered lines come out as they are. */
  lemma {:induction false} UnfilteredPlain(filter: int, coded: seq<Byte>, prev: seq<Byte>, n: nat)
    requires |prev| == |coded| && n <= |coded|
    requires filter !in {1, 2, 3, 4} || (filter == 1 && n <= BPP)
    ensures Unfiltered(filter, coded, prev, n) == coded[..n]
    decreases n
  {
    if n > 0 {
      UnfilteredPlain(filter, coded, prev, n - 1);
      assert coded[..n - 1] + [coded[n - 1]] == coded[..n];
    }
  }

  // Each filter type has its own loop, in place: the bytes to the left are already reconstructed.

  method UnfilterSub(line: array<Byte>, prev: array<Byte>)
    requires line != prev && line.Length == prev.Length
    modifies line
    ensures line[..] == Unfilter(1, old(line[..]), prev[..])
  {
    hide Paeth, Unfiltered, Wrap;
    ghost var coded, above := line[..], prev[..];
    var i := if line.Length < BPP then line.Length else BPP;
    UnfilteredPlain(1, coded, above, i);
    while i < line.Length
      invariant 0 <= i <= line.Length && (i >= BPP || i == line.Length) && prev[..] == above
      invariant line[..i] == Unfiltered(1, coded, above, i) && line[i..] == coded[i..]
    {
      UnfilteredStep(1, coded, above, i);
      Unfinished(line, coded, i);
      line[i] := Wrap(line[i] as int + line[i - BPP]);
      i := i + 1;
    }
    assert line[..line.Length] == line[..];
  }

  method UnfilterUp(line: array<Byte>, prev: array<Byte>)
    requires line != prev && line.Length == prev.Length
    modifies line
    ensures line[..] == Unfilter(2, old(line[..]), prev[..])
  {
    hide Paeth, Unfiltered, Wrap;
    ghost var coded, above := line[..], prev[..];
    UnfilteredNone(2, coded, above);
    var i := 0;
    while i < line.Length
      invariant 0 <= i <= line.Length && prev[..] == above
      invariant line[..i] == Unfiltered(2, coded, above, i) && line[i..] == coded[i..]
    {
      UnfilteredStep(2, coded, above, i);
      Unfinished(line, coded, i);
      line[i] := Wrap(line[i] as int + prev[i]);
      i := i + 1;
    }
    assert line[..line.Length] == line[..];
  }

  method UnfilterAverage(line: array<Byte>, prev: array<Byte>)
    requires line != prev && line.Length == prev.Length
    modifies line
    ensures line[..] == Unfilter(3, old(line[..]), prev[..])
  {
    hide Paeth, Unfiltered, Wrap;
    ghost var coded, above := line[..], prev[..];
    UnfilteredNone(3, coded, above);
    var i := 0;
    while i < line.Length
      invariant 0 <= i <= line.Length && prev[..] == above
      invariant line[..i] == Unfiltered(3, coded, above, i) && line[i..] == coded[i..]
    {
      UnfilteredStep(3, coded, above, i);
      Unfinished(line, coded, i);
      var a: Byte := if i >= BPP then line[i - BPP] else 0;
      line[i] := Wrap(line[i] as int + (a as int + prev[i]) / 2);
      i := i + 1;
    }
    assert line[..line.Length] == line[..];
  }

  /** The comparisons of the Paeth loop find the nearest in order. */
  lemma SourcePaeth(a: Byte, b: Byte, c: Byte, pr: Byte)
    requires var p := a as int + b - c;
             var pa, pb, pc := Abs(p - a), Abs(p - b), Abs(p - c);
             pr == if pa <= pb && pa <= pc then a else if pb <= pc then b else c
    ensures NearestInOrder(a, b, c, pr) && pr == Paeth(a, b, c)
  {
    hide NearestInOrder;
    PaethIsNearest(a, b, c, pr);
  }

  method UnfilterPaeth(line: array<Byte>, prev: array<Byte>)
    requires line != prev && line.Length == prev.Length
    modifies line
    ensures line[..] == Unfilter(4, old(line[..]), prev[..])
  {
    hide Paeth, Unfiltered, Wrap;
    ghost var coded, above := line[..], prev[..];
    UnfilteredNone(4, coded, above);
    var i := 0;
    while i < line.Length
      invariant 0 <= i <= line.Length && prev[..] == above
      invariant line[..i] == Unfiltered(4, coded, above, i) && line[i..] == coded[i..]
    {
      UnfilteredStep(4, coded, above, i);
      Unfinished(line, coded, i);
      var a: Byte := if i >= BPP then line[i - BPP] else 0;
      var c: Byte := if i >= BPP then prev[i - BPP] else 0;
      var p := a as int + prev[i] - c;
      var pa, pb, pc := Abs(p - a), Abs(p - prev[i]), Abs(p - c);
      var pr: Byte := if pa <= pb && pa <= pc then a else if pb <= pc then prev[i] else c;
      SourcePaeth(a, prev[i], c, pr);
      line[i] := Wrap(line[i] as int + pr);
      i := i + 1;
    }
    assert line[..line.Length] == line[..];
  }

  method UnfilterLine(filter: int, line: array<Byte>, prev: array<Byte>)
    requires line != prev && line.Length == prev.Length
    modifies line
    ensures line[..] == Unfilter(filter, old(line[..]), prev[..])
  {
    if filter == 1 {
      UnfilterSub(line, prev);
    } else if filter == 2 {
      UnfilterUp(line, prev);
    } else if filter == 3 {
      UnfilterAverage(line, prev);
    } else if filter == 4 {
      UnfilterPaeth(line, prev);
    } else {
      UnfilteredPlain(filter, line[..], prev[..], line.Length);
      assert line[..][..line.Length] == line[..];
    }
  }

  lemma UnfilteredNone(filter: int, coded: seq<Byte>, prev: seq<Byte>)
    requires |prev| == |coded|
    ensures Unfiltered(filter, coded, prev, 0) == []
  {
  }

  lemma Unfinished(line: array<Byte>, coded: seq<Byte>, i: nat)
    requires i < line.Length == |coded| && line[i..] == coded[i..]
    ensures line[i] == coded[i] && line[i + 1..] == coded[i + 1..]
  {
    assert line[i] == line[i..][0] && coded[i] == coded[i..][0];
    assert line[i + 1..] == line[i..][1..] && coded[i + 1..] == coded[i..][1..];
  }

  // ---- the whole image ----

  datatype Scanline = Scanline(filter: Byte, bytes: seq<Byte>)

  predicate Wide(lines: seq<Scanline>, stride: nat) { forall i :: 0 <= i < |lines| ==> |lines[i].bytes| == stride }

  function Zeros(n: nat): (r: seq<Byte>)
    ensures |r| == n && forall i :: 0 <= i < n ==> r[i] == 0
  {
    seq(n, _ => 0)
  }

  /** Each line is reconstructed from the one above it; the first has zeros above. */
  function UnfilterRows(lines: seq<Scanline>, stride: nat): (rows: seq<seq<Byte>>)
    requires Wide(lines, stride)
    ensures |rows| == |lines| && forall i :: 0 <= i < |rows| ==> |rows[i]| == stride
  {
    if lines == [] then []
    else
      var n := |lines| - 1;
      var before := UnfilterRows(lines[..n], stride);
      before + [Unfilter(lines[n].filter, lines[n].bytes, Above(before, stride))]
  }

  function Above(rows: seq<seq<Byte>>, stride: nat): seq<Byte> {
    if rows == [] then Zeros(stride) else rows[|rows| - 1]
  }

  /** What an encoder makes of an image with a filter type of its choice for each row. */
  function FilterRows(filters: seq<Byte>, rows: seq<seq<Byte>>, stride: nat): (lines: seq<Scanline>)
    requires |filters| == |rows| && forall i :: 0 <= i < |rows| ==> |rows[i]| == stride
    ensures |lines| == |rows| && Wide(lines, stride)
  {
    if rows == [] then []
    else
      var n := |rows| - 1;
      FilterRows(filters[..n], rows[..n], stride)
      + [Scanline(filters[n], Filter(filters[n], rows[n], Above(rows[..n], stride)))]
  }

  /** Each line is filtered from its row and the row above, with the filter type it names. */
  predicate Encodes(lines: seq<Scanline>, rows: seq<seq<Byte>>, stride: nat) {
    && |lines| == |rows|
    && forall y | 0 <= y < |rows| ::
         FilteredBy(lines[y].filter, rows[y], Above(rows[..y], stride), lines[y].bytes)
  }

  lemma EncodesLast(lines: seq<Scanline>, rows: seq<seq<Byte>>, stride: nat)
    requires |lines| == |rows| > 0
    ensures var n := |rows| - 1;
            (Encodes(lines, rows, stride) <==>
             (Encodes(lines[..n], rows[..n], stride)
              && FilteredBy(lines[n].filter, rows[n], Above(rows[..n], stride), lines[n].bytes)))
  {
    hide FilteredBy, Above;
    var n := |rows| - 1;
    assert forall y | 0 <= y < n :: rows[..n][..y] == rows[..y];
  }

  /** Every image can be encoded with any choice of filter types. */
  lemma {:induction false} FilterRowsEncodes(filters: seq<Byte>, rows: seq<seq<Byte>>, stride: nat)
    requires |filters| == |rows| && forall i :: 0 <= i < |rows| ==> |rows[i]| == stride
    ensures Encodes(FilterRows(filters, rows, stride), rows, stride)
    decreases |rows|
  {
    hide FilteredBy, Filter, Encodes;
    if rows == [] {
      assert Encodes([], rows, stride) by { NothingEncodes(stride); }
    } else {
      var n := |rows| - 1;
      FilterRowsEncodes(filters[..n], rows[..n], stride);
      FilterFilters(filters[n], rows[n], Above(rows[..n], stride));
      var lines := FilterRows(filters, rows, stride);
      assert lines[..n] == FilterRows(filters[..n], rows[..n], stride);
      EncodesLast(lines, rows, stride);
    }
  }

  lemma NothingEncodes(stride: nat)
    ensures Encodes([], [], stride)
  {
  }

  /** Reconstruction gives exactly the rows the lines encode, whatever filters were chosen. */
  lemma {:induction false} RowsRoundTrip(lines: seq<Scanline>, rows: seq<seq<Byte>>, stride: nat)
    requires |lines| == |rows| && Wide(lines, stride) && forall i :: 0 <= i < |rows| ==> |rows[i]| == stride
    ensures UnfilterRows(lines, stride) == rows <==> Encodes(lines, rows, stride)
    decreases |rows|
  {
    hide FilteredBy, Unfilter, Encodes;
    if rows == [] {
      NothingEncodes(stride);
    } else {
      var n := |rows| - 1;
      RowsRoundTrip(lines[..n], rows[..n], stride);
      EncodesLast(lines, rows, stride);
      UnfilterInvertsFilter(lines[n].filter, rows[n], Above(rows[..n], stride), lines[n].bytes);
      assert rows == rows[..n] + [rows[n]];
      assert UnfilterRows(lines, stride)[..n] == UnfilterRows(lines[..n], stride);
    }
  }

  /** The decompressed data: a filter type and the bytes of each line. */
  function Serialize(lines: seq<Scanline>): seq<Byte> {
    if lines == [] then []
    else Serialize(lines[..|lines| - 1]) + [lines[|lines| - 1].filter] + lines[|lines| - 1].bytes
  }

  function Concat(rows: seq<seq<Byte>>): seq<Byte> {
    if rows == [] then [] else Concat(rows[..|rows| - 1]) + rows[|rows| - 1]
  }

  lemma {:induction false} ConcatLength(rows: seq<seq<Byte>>, stride: nat)
    requires forall i :: 0 <= i < |rows| ==> |rows[i]| == stride
    ensures |Concat(rows)| == |rows| * stride
    decreases |rows|
  {
    if rows != [] {
      var n := |rows| - 1;
      ConcatLength(rows[..n], stride);
      assert |rows| * stride == n * stride + stride;
    }
  }

  /** Where line y of the data starts. */
  lemma {:induction false} SerializePrefix(lines: seq<Scanline>, y: nat)
    requires y <= |lines|
    ensures Serialize(lines[..y]) <= Serialize(lines)
    decreases |lines|
  {
    if y == |lines| {
      assert lines[..y] == lines;
    } else {
      var n := |lines| - 1;
      SerializePrefix(lines[..n], y);
      assert lines[..n][..y] == lines[..y];
    }
  }

  lemma LineAt(raw: seq<Byte>, lines: seq<Scanline>, stride: nat, y: nat)
    requires Wide(lines, stride) && y < |lines| && Serialize(lines) <= raw
    ensures var pos := |Serialize(lines[..y])|;
            && pos + 1 + stride <= |raw| && |Serialize(lines[..y + 1])| == pos + 1 + stride
            && raw[pos] == lines[y].filter && raw[pos + 1..pos + 1 + stride] == lines[y].bytes
  {
    SerializePrefix(lines, y + 1);
    assert lines[..y + 1][..y] == lines[..y];
    var front := Serialize(lines[..y]);
    assert Serialize(lines[..y + 1]) == front + [lines[y].filter] + lines[y].bytes;
    var pos := |front|;
    assert raw[pos] == Serialize(lines[..y + 1])[pos];
    assert raw[..pos + 1 + stride] == Serialize(lines[..y + 1]);
    assert raw[pos + 1..pos + 1 + stride] == raw[..pos + 1 + stride][pos + 1..];
  }

  /** One line of the data, unfiltered in a buffer of its own. */
  method ReadLine(raw: seq<Byte>, pos: nat, stride: nat, prev: array<Byte>) returns (line: array<Byte>)
    requires pos + 1 + stride <= |raw| && prev.Length == stride
    ensures fresh(line) && line.Length == stride
    ensures line[..] == Unfilter(raw[pos], raw[pos + 1..pos + 1 + stride], prev[..])
  {
    line := new Byte[stride](i requires 0 <= i < stride && pos + 1 + stride <= |raw| => raw[pos + 1 + i]);
    assert line[..] == raw[pos + 1..pos + 1 + stride];
    UnfilterLine(raw[pos], line, prev);
  }

  /** `px[at:at + stride] = line`. */
  method CopyRow(px: array<Byte>, at: nat, line: array<Byte>)
    requires px != line && at + line.Length <= px.Length
    modifies px
    ensures px[..at + line.Length] == old(px[..at]) + line[..]
  {
    forall i | 0 <= i < line.Length {
      px[at + i] := line[i];
    }
  }

  /** The loop over the scanlines. */
  method ReadRows(stride: nat, height: nat, raw: seq<Byte>, px: array<Byte>, ghost lines: seq<Scanline>)
    requires |lines| == height && Wide(lines, stride) && Serialize(lines) <= raw
    requires px.Length == |Concat(UnfilterRows(lines, stride))|
    modifies px
    ensures px[..] == Concat(UnfilterRows(lines, stride))
  {
    hide Unfilter, Serialize, UnfilterRows, Concat, Wide;
    var prev := new Byte[stride](_ => 0);
    var pos, at, y := 0, 0, 0;
    ghost var rows: seq<seq<Byte>> := [];
    NoRows(stride);
    RowsGrow(lines, stride, 0);
    assert lines[..0] == [] && prev[..] == Zeros(stride);
    while y < height
      invariant 0 <= y <= height && pos == |Serialize(lines[..y])| && at == |Concat(rows)| <= px.Length
      invariant Wide(lines[..y], stride) && rows == UnfilterRows(lines[..y], stride)
      invariant prev != px && fresh(prev) && prev.Length == stride && prev[..] == Above(rows, stride)
      invariant px[..at] == Concat(rows)
    {
      LineAt(raw, lines, stride, y);
      NextRow(lines, stride, y);
      var line := ReadLine(raw, pos, stride, prev);
      ConcatPush(rows, line[..]);
      RowsGrow(lines, stride, y + 1);
      CopyRow(px, at, line);
      rows := rows + [line[..]];
      pos, at, prev, y := pos + 1 + stride, at + stride, line, y + 1;
    }
    assert lines[..y] == lines && px[..at] == px[..];
  }

  /** The scanline loop of `read_png`, on data that starts with any sequence of scanlines. */
  method ReadScanlines(width: nat, height: nat, raw: seq<Byte>, ghost lines: seq<Scanline>) returns (px: array<Byte>)
    requires |lines| == height && Wide(lines, width * BPP) && Serialize(lines) <= raw
    ensures fresh(px) && px[..] == Concat(UnfilterRows(lines, width * BPP))
  {
    hide Serialize, UnfilterRows, Concat;
    px := new Byte[height * (width * BPP)];
    ConcatLength(UnfilterRows(lines, width * BPP), width * BPP);
    ReadRows(width * BPP, height, raw, px, lines);
  }

  lemma {:induction false} RowsGrow(lines: seq<Scanline>, stride: nat, y: nat)
    requires Wide(lines, stride) && y <= |lines|
    ensures Wide(lines[..y], stride)
            && |Concat(UnfilterRows(lines[..y], stride))| <= |Concat(UnfilterRows(lines, stride))|
    decreases |lines|
  {
    hide Unfilter;
    if y == |lines| {
      assert lines[..y] == lines;
    } else {
      var n := |lines| - 1;
      RowsGrow(lines[..n], stride, y);
      assert lines[..n][..y] == lines[..y];
      NextRow(lines, stride, n);
      assert lines[..n + 1] == lines;
    }
  }

  lemma ConcatPush(rows: seq<seq<Byte>>, row: seq<Byte>)
    ensures Concat(rows + [row]) == Concat(rows) + row
  {
    assert (rows + [row])[..|rows|] == rows;
  }

  lemma NoRows(stride: nat)
    ensures UnfilterRows([], stride) == [] && Concat([]) == [] && Serialize([]) == []
  {
  }

  lemma NextRow(lines: seq<Scanline>, stride: nat, y: nat)
    requires Wide(lines, stride) && y < |lines|
    ensures Wide(lines[..y + 1], stride)
    ensures var before := UnfilterRows(lines[..y], stride);
            UnfilterRows(lines[..y + 1], stride)
            == before + [Unfilter(lines[y].filter, lines[y].bytes, Above(before, stride))]
  {
    assert lines[..y + 1][..y] == lines[..y];
  }

  /** Reading gives an image exactly from the data that encodes it, and every choice of filters gives such data. */
  lemma ImageRoundTrip(filters: seq<Byte>, rows: seq<seq<Byte>>, width: nat)
    requires |filters| == |rows| && forall i :: 0 <= i < |rows| ==> |rows[i]| == width * BPP
    ensures Encodes(FilterRows(filters, rows, width * BPP), rows, width * BPP)
    ensures forall lines | Wide(lines, width * BPP) && |lines| == |rows| ::
              Encodes(lines, rows, width * BPP) <==> UnfilterRows(lines, width * BPP) == rows
  {
    hide Encodes, UnfilterRows, FilterRows;
    FilterRowsEncodes(filters, rows, width * BPP);
    forall lines | Wide(lines, width * BPP) && |lines| == |rows|
      ensures Encodes(lines, rows, width * BPP) <==> UnfilterRows(lines, width * BPP) == rows
    {
      RowsRoundTrip(lines, rows, width * BPP);
    }
  }

  // ---- the bounding box ----

  datatype Mode = AlphaMode | WhiteMode | DarkMode

  datatype Box = Box(x0: int, x1: int, y0: int, y1: int)

  const FAR := 1000000000

  /** A pixel the mode selects; the luminance is the exact mean of its colours. */
  predicate SelectsPixel(mode: Mode, r: Byte, g: Byte, b: Byte, a: Byte) {
    var lum := (r as int + g + b) as real / 3.0;
    match mode
    case WhiteMode => a > 200 && lum > 150.0
    case DarkMode => a > 200 && lum < 100.0
    case AlphaMode => a > 8
  }

  /** The luminance limits on the sum of the colours. */
  lemma SelectsBySum(mode: Mode, r: Byte, g: Byte, b: Byte, a: Byte)
    ensures SelectsPixel(mode, r, g, b, a)
       <==> match mode
            case WhiteMode => a > 200 && r as int + g + b > 450
            case DarkMode => a > 200 && r as int + g + b < 300
            case AlphaMode => a > 8
  {
  }

  /** Where the pixel (x, y) starts. */
  function OffsetOf(width: nat, x: nat, y: nat): nat { y * width * BPP + x * BPP }

  lemma OffsetFits(width: nat, height: nat, x: nat, y: nat)
    requires x < width && y < height
    ensures OffsetOf(width, x, y) + BPP <= height * (width * BPP)
  {
    assert y * width + x + 1 <= (y + 1) * width <= height * width;
    assert height * (width * BPP) == height * width * BPP;
  }

  /** Whether the pixel (x, y) is selected. */
  predicate Selected(px: seq<Byte>, width: nat, mode: Mode, x: nat, y: nat) {
    var o := OffsetOf(width, x, y);
    o + BPP <= |px| && SelectsPixel(mode, px[o], px[o + 1], px[o + 2], px[o + 3])
  }

  predicate Hit(px: seq<Byte>, width: nat, height: nat, mode: Mode, x: nat, y: nat) {
    x < width && y < height && Selected(px, width, mode, x, y)
  }

  /** Read before the pixel (x1, y1), row by row. */
  predicate Before(x: int, y: int, x1: int, y1: int) { y < y1 || (y == y1 && x < x1) }

  predicate Inside(box: Box, x: int, y: int) { box.x0 <= x <= box.x1 && box.y0 <= y <= box.y1 }

  const NO_BOX := Box(FAR, -1, FAR, -1)

  /** Holds all the points, and each side is one of theirs or still where it started. */
  ghost predicate Around(box: Box, points: set<(nat, nat)>) {
    && (forall p | p in points :: Inside(box, p.0, p.1))
    && (box.x0 == FAR || exists p | p in points :: p.0 == box.x0)
    && (box.x1 == -1 || exists p | p in points :: p.0 == box.x1)
    && (box.y0 == FAR || exists p | p in points :: p.1 == box.y0)
    && (box.y1 == -1 || exists p | p in points :: p.1 == box.y1)
    && box.x0 <= FAR && box.y0 <= FAR && box.x1 >= -1 && box.y1 >= -1
  }

  /** The box after one more point. */
  function Widened(box: Box, x: nat, y: nat): Box {
    Box(if x < box.x0 then x else box.x0, if x > box.x1 then x else box.x1,
        if y < box.y0 then y else box.y0, if y > box.y1 then y else box.y1)
  }

  lemma WidenedAround(box: Box, points: set<(nat, nat)>, x: nat, y: nat)
    requires Around(box, points)
    ensures Around(Widened(box, x, y), points + {(x, y)})
  {
    var after, more := Widened(box, x, y), points + {(x, y)};
    assert (x, y) in more;
    assert forall p | p in points :: p in more;
    if after.x0 != FAR && after.x0 != x {
      var p :| p in points && p.0 == box.x0;
      assert p in more;
    }
    if after.x1 != -1 && after.x1 != x {
      var p :| p in points && p.0 == box.x1;
      assert p in more;
    }
    if after.y0 != FAR && after.y0 != y {
      var p :| p in points && p.1 == box.y0;
      assert p in more;
    }
    if after.y1 != -1 && after.y1 != y {
      var p :| p in points && p.1 == box.y1;
      assert p in more;
    }
  }

  /** A pixel on each side: the box cannot be made smaller. */
  ghost predicate Tight(px: seq<Byte>, width: nat, height: nat, mode: Mode, box: Box) {
    && (exists x: nat, y: nat :: Hit(px, width, height, mode, x, y) && x == box.x0)
    && (exists x: nat, y: nat :: Hit(px, width, height, mode, x, y) && x == box.x1)
    && (exists x: nat, y: nat :: Hit(px, width, height, mode, x, y) && y == box.y0)
    && (exists x: nat, y: nat :: Hit(px, width, height, mode, x, y) && y == box.y1)
  }

  ghost predicate IsHits(
    px: seq<Byte>, width: nat, height: nat, mode: Mode, toX: nat, toY: nat, points: set<(nat, nat)>) {
    forall x: nat, y: nat :: (x, y) in points <==> Hit(px, width, height, mode, x, y) && Before(x, y, toX, toY)
  }

  lemma OneMoreHit(px: seq<Byte>, width: nat, height: nat, mode: Mode, x: nat, y: nat, points: set<(nat, nat)>)
    requires IsHits(px, width, height, mode, x, y, points)
    ensures IsHits(px, width, height, mode, x + 1, y, if Hit(px, width, height, mode, x, y) then points + {(x, y)}
                   else points)
  {
    hide Hit;
    forall i: nat, j: nat ensures Before(i, j, x + 1, y) <==> Before(i, j, x, y) || (i, j) == (x, y) {
    }
  }

  lemma NextRowHits(px: seq<Byte>, width: nat, height: nat, mode: Mode, y: nat, points: set<(nat, nat)>)
    requires IsHits(px, width, height, mode, width, y, points)
    ensures IsHits(px, width, height, mode, 0, y + 1, points)
  {
    hide Selected;
    forall i: nat, j: nat | i < width ensures Before(i, j, 0, y + 1) <==> Before(i, j, width, y) {
    }
  }

  /**
    * `bbox`: None when no pixel is selected; otherwise a box that holds every selected pixel, and is tight for
    * images no wider or taller than the starting value of the search.
    */
  method BoundingBox(width: nat, height: nat, px: array<Byte>, mode: Mode) returns (found: Option<Box>)
    requires px.Length == height * (width * BPP)
    ensures found.None? <==> forall x: nat, y: nat :: !Hit(px[..], width, height, mode, x, y)
    ensures found.Some? ==>
              && (forall x: nat, y: nat :: Hit(px[..], width, height, mode, x, y) ==> Inside(found.value, x, y))
              && (width <= FAR && height <= FAR ==> Tight(px[..], width, height, mode, found.value))
  {
    hide Around, SelectsPixel, OffsetOf, Tight;
    var box := NO_BOX;
    ghost var points: set<(nat, nat)> := {};
    assert Around(box, points) by { NothingAround(); }
    var y := 0;
    while y < height
      invariant 0 <= y <= height && Around(box, points) && IsHits(px[..], width, height, mode, 0, y, points)
    {
      var x := 0;
      while x < width
        invariant 0 <= x <= width && Around(box, points) && IsHits(px[..], width, height, mode, x, y, points)
      {
        OffsetFits(width, height, x, y);
        OneMoreHit(px[..], width, height, mode, x, y, points);
        var o := OffsetOf(width, x, y);
        if SelectsPixel(mode, px[o], px[o + 1], px[o + 2], px[o + 3]) {
          WidenedAround(box, points, x, y);
          points := points + {(x, y)};
          if x < box.x0 { box := box.(x0 := x); }
          if x > box.x1 { box := box.(x1 := x); }
          if y < box.y0 { box := box.(y0 := y); }
          if y > box.y1 { box := box.(y1 := y); }
        }
        x := x + 1;
      }
      NextRowHits(px[..], width, height, mode, y, points);
      y := y + 1;
    }
    found := if box.x1 < box.x0 then None else Some(box);
    BoxFound(px[..], width, height, mode, points, box);
  }

  lemma NothingAround()
    ensures Around(NO_BOX, {})
  {
  }

  lemma HitFits(px: seq<Byte>, width: nat, height: nat, mode: Mode, x: nat, y: nat)
    ensures Hit(px, width, height, mode, x, y) ==> x < width && y < height
  {
  }

  lemma BoxFound(px: seq<Byte>, width: nat, height: nat, mode: Mode, points: set<(nat, nat)>, box: Box)
    requires Around(box, points) && IsHits(px, width, height, mode, 0, height, points)
    ensures box.x1 < box.x0 <==> forall x: nat, y: nat :: !Hit(px, width, height, mode, x, y)
    ensures forall x: nat, y: nat :: Hit(px, width, height, mode, x, y) ==> Inside(box, x, y)
    ensures box.x0 <= box.x1 && width <= FAR && height <= FAR ==> Tight(px, width, height, mode, box)
  {
    hide Hit;
    forall x: nat, y: nat | Hit(px, width, height, mode, x, y) ensures Inside(box, x, y) {
      HitFits(px, width, height, mode, x, y);
      assert (x, y) in points;
    }
    if p :| p in points {
      assert Hit(px, width, height, mode, p.0, p.1) && Inside(box, p.0, p.1);
      HitFits(px, width, height, mode, p.0, p.1);
      if width <= FAR && height <= FAR {
        var a :| a in points && a.0 == box.x0;
        var b :| b in points && b.0 == box.x1;
        var c :| c in points && c.1 == box.y0;
        var d :| d in points && d.1 == box.y1;
        assert Hit(px, width, height, mode, a.0, a.1) && Hit(px, width, height, mode, b.0, b.1);
        assert Hit(px, width, height, mode, c.0, c.1) && Hit(px, width, height, mode, d.0, d.1);
      }
    } else {
      assert box.x0 == FAR;
    }
  }
}
