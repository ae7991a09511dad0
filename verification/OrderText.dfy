/**
 Reading order of the boxes of one frame (`_order_text` in worker/subextractor/pipeline.py:375-403):
 boxes fall into rows around a running mean height, rows go from top to bottom, boxes from left
 to right.
 */
module OrderText {
  import opened Sequences
  import opened Text
  import opened Wrappers

  datatype Line = Line(text: string, x1: real, y1: real, x2: real, y2: real)

  /** A row as it is built: running mean of the centres, number of lines, lines. */
  datatype Row = Row(mean: real, count: nat, lines: seq<Line>)

  function Centre(l: Line): real { (l.y1 + l.y2) / 2.0 }

  function Centres(lines: seq<Line>): real {
    if lines == [] then 0.0 else Centres(lines[..|lines| - 1]) + Centre(lines[|lines| - 1])
  }

  predicate Within(a: real, b: real, tol: real) { -tol <= a - b <= tol }

  /** The mean is the exact mean of its lines, kept up to date one line at a time. */
  predicate MeanOk(row: Row) {
    row.count == |row.lines| > 0 && row.mean * row.count as real == Centres(row.lines)
  }

  /** Each line was within tolerance of the mean of the lines before it. */
  predicate Gathered(lines: seq<Line>, tol: real) {
    forall k :: 0 < k < |lines| ==> CloseTo(lines[..k], lines[k], tol)
  }

  predicate CloseTo(before: seq<Line>, l: Line, tol: real) {
    before != [] && Within(Centre(l) * |before| as real, Centres(before), tol * |before| as real)
  }

  predicate RowOk(row: Row, tol: real) { MeanOk(row) && Gathered(row.lines, tol) }

  function Joined(row: Row, l: Line): Row {
    var count := row.count + 1;
    Row(row.mean + (Centre(l) - row.mean) / count as real, count, row.lines + [l])
  }

  lemma MeanKept(mean: real, n: nat, c: real)
    requires n > 0
    ensures (mean + (c - mean) / (n + 1) as real) * (n + 1) as real == mean * n as real + c
  {
    var d := (c - mean) / (n + 1) as real;
    assert d * (n + 1) as real == c - mean;
  }

  lemma ScaledWithin(a: real, b: real, tol: real, n: nat)
    requires n > 0
    ensures Within(a, b, tol) <==> Within(a * n as real, b * n as real, tol * n as real)
  {
    var m := n as real;
    assert (a - b <= tol) <==> ((a - b) * m <= tol * m);
    assert (-tol <= a - b) <==> ((-tol) * m <= (a - b) * m);
    assert (a - b) * m == a * m - b * m && (-tol) * m == -(tol * m);
  }

  lemma CloseWhenNear(row: Row, l: Line, tol: real)
    requires MeanOk(row) && Within(Centre(l), row.mean, tol)
    ensures CloseTo(row.lines, l, tol)
  {
    hide Centres, Centre;
    var n := |row.lines|;
    ScaledWithin(Centre(l), row.mean, tol, n);
    assert row.mean * n as real == Centres(row.lines);
  }

  lemma JoinedMean(row: Row, l: Line)
    requires MeanOk(row)
    ensures MeanOk(Joined(row, l))
  {
    var after := Joined(row, l);
    assert after.lines[..|row.lines|] == row.lines;
    MeanKept(row.mean, row.count, Centre(l));
    hide Centre;
  }

  lemma JoinedOk(row: Row, l: Line, tol: real)
    requires RowOk(row, tol) && Within(Centre(l), row.mean, tol)
    ensures RowOk(Joined(row, l), tol)
  {
    hide Within;
    JoinedMean(row, l);
    var after := Joined(row, l);
    CloseWhenNear(row, l, tol);
    hide CloseTo, Centre, Centres;
    forall k | 0 < k < |after.lines| ensures CloseTo(after.lines[..k], after.lines[k], tol) {
      if k < |row.lines| {
        assert after.lines[..k] == row.lines[..k] && CloseTo(row.lines[..k], row.lines[k], tol);
      } else {
        assert after.lines[..k] == row.lines && after.lines[k] == l;
      }
    }
  }

  function LinesOf(rows: seq<Row>): seq<seq<Line>> { seq(|rows|, i requires 0 <= i < |rows| => rows[i].lines) }

  lemma {:induction false} FlattenUpdate<T>(parts: seq<seq<T>>, i: nat, x: T)
    requires i < |parts|
    ensures multiset(Flatten(parts[i := parts[i] + [x]])) == multiset(Flatten(parts)) + multiset{x}
    decreases |parts|
  {
    hide Flatten;
    var n := |parts| - 1;
    var after := parts[i := parts[i] + [x]];
    assert parts == parts[..n] + [parts[n]] && after == after[..n] + [after[n]];
    FlattenSnoc(parts[..n], parts[n]);
    FlattenSnoc(after[..n], after[n]);
    if i < n {
      assert after[..n] == parts[..n][i := parts[i] + [x]];
      FlattenUpdate(parts[..n], i, x);
    } else {
      assert after[..n] == parts[..n];
    }
  }

  /** One line goes into the first row near it, or starts a row of its own. */
  function Placed(rows: seq<Row>, l: Line, tol: real): seq<Row> {
    if rows == [] then [Row(Centre(l), 1, [l])]
    else if Within(Centre(l), rows[0].mean, tol) then [Joined(rows[0], l)] + rows[1..]
    else [rows[0]] + Placed(rows[1..], l, tol)
  }

  /** The rows of boxes taken in order. */
  function Built(boxes: seq<Line>, tol: real): seq<Row> {
    if boxes == [] then [] else Placed(Built(boxes[..|boxes| - 1], tol), boxes[|boxes| - 1], tol)
  }

  lemma {:induction false} PlacedAt(rows: seq<Row>, i: nat, l: Line, tol: real)
    requires i <= |rows| && forall k :: 0 <= k < i ==> !Within(Centre(l), rows[k].mean, tol)
    ensures i == |rows| ==> Placed(rows, l, tol) == rows + [Row(Centre(l), 1, [l])]
    ensures i < |rows| && Within(Centre(l), rows[i].mean, tol) ==> Placed(rows, l, tol) == rows[i := Joined(rows[i], l)]
    decreases i
  {
    hide Within, Joined;
    if i > 0 {
      PlacedAt(rows[1..], i - 1, l, tol);
      assert rows == [rows[0]] + rows[1..];
    }
  }

  method Place(rows: seq<Row>, l: Line, tol: real) returns (after: seq<Row>)
    ensures after == Placed(rows, l, tol)
  {
    hide Joined, Within, Placed;
    for i := 0 to |rows|
      invariant forall k :: 0 <= k < i ==> !Within(Centre(l), rows[k].mean, tol)
    {
      PlacedAt(rows, i, l, tol);
      if Within(Centre(l), rows[i].mean, tol) {
        var count := rows[i].count + 1;
        after := rows[i := Row(rows[i].mean + (Centre(l) - rows[i].mean) / count as real, count, rows[i].lines + [l])];
        assert Joined(rows[i], l) == after[i] by { JoinedIs(rows[i], l); }
        return;
      }
    }
    PlacedAt(rows, |rows|, l, tol);
    after := rows + [Row(Centre(l), 1, [l])];
  }

  lemma JoinedIs(row: Row, l: Line)
    ensures Joined(row, l) ==
        Row(row.mean + (Centre(l) - row.mean) / (row.count + 1) as real, row.count + 1, row.lines + [l])
  {
  }

  /** Placing a line keeps every row's mean and tolerance, and adds that line only. */
  lemma {:induction false} PlacedKeeps(rows: seq<Row>, l: Line, tol: real)
    requires forall r :: r in rows ==> RowOk(r, tol)
    ensures forall r :: r in Placed(rows, l, tol) ==> RowOk(r, tol)
    ensures multiset(Flatten(LinesOf(Placed(rows, l, tol)))) == multiset(Flatten(LinesOf(rows))) + multiset{l}
  {
    hide RowOk, Joined, Within, Placed;
    var i := 0;
    while i < |rows| && !Within(Centre(l), rows[i].mean, tol)
      invariant i <= |rows| && forall k :: 0 <= k < i ==> !Within(Centre(l), rows[k].mean, tol)
    {
      i := i + 1;
    }
    PlacedAt(rows, i, l, tol);
    var after := Placed(rows, l, tol);
    if i < |rows| {
      assert RowOk(rows[i], tol);
      JoinedOk(rows[i], l, tol);
      JoinedLines(rows[i], l);
      assert LinesOf(after) == LinesOf(rows)[i := LinesOf(rows)[i] + [l]];
      FlattenUpdate(LinesOf(rows), i, l);
    } else {
      assert LinesOf(after) == LinesOf(rows) + [[l]];
      FlattenSnoc(LinesOf(rows), [l]);
      OwnRow(l, tol);
    }
  }

  lemma {:induction false} BuiltKeeps(boxes: seq<Line>, tol: real)
    ensures forall r :: r in Built(boxes, tol) ==> RowOk(r, tol)
    ensures multiset(Flatten(LinesOf(Built(boxes, tol)))) == multiset(boxes)
  {
    hide RowOk, Placed, Flatten, LinesOf;
    if boxes == [] {
      NoLines();
    } else {
      var n := |boxes| - 1;
      BuiltKeeps(boxes[..n], tol);
      PlacedKeeps(Built(boxes[..n], tol), boxes[n], tol);
      assert boxes == boxes[..n] + [boxes[n]];
    }
  }

  lemma JoinedLines(row: Row, l: Line)
    ensures Joined(row, l).lines == row.lines + [l]
  {
  }

  lemma OwnRow(l: Line, tol: real)
    ensures RowOk(Row(Centre(l), 1, [l]), tol)
  {
    assert [l][..0] == [];
  }

  function Spoken(lines: seq<Line>): seq<Line> {
    if lines == [] then [] else (if PyStrip(lines[0].text) != "" then [lines[0]] else []) + Spoken(lines[1..])
  }

  function Texts(lines: seq<Line>): seq<string> { seq(|lines|, i requires 0 <= i < |lines| => lines[i].text) }

  function Height(l: Line): real { l.y2 - l.y1 }

  /** Sixty per cent of the median height, which counts as one when it is zero. */
  function RowTolerance(items: seq<Line>): real
    requires items != []
  {
    SortSorts(items, Height);
    var median := Height(SortBy(items, Height)[|items| / 2]);
    0.6 * if median == 0.0 then 1.0 else median
  }

  function RowText(row: Row): string { Join(Texts(SortBy(row.lines, (l: Line) => l.x1)), " ") }

  function RowTexts(rows: seq<Row>): seq<string> { seq(|rows|, i requires 0 <= i < |rows| => RowText(rows[i])) }

  /**
   Every spoken box is in exactly one row, each row's mean is the mean of its boxes and each box
   was near it when it joined; the text is the rows from top to bottom.
   */
  predicate Arranges(rows: seq<Row>, items: seq<Line>)
    requires items != []
  {
    && multiset(Flatten(LinesOf(rows))) == multiset(items)
    && (forall r :: r in rows ==> RowOk(r, RowTolerance(items)))
  }

  lemma ArrangedRows(items: seq<Line>)
    requires items != []
    ensures Arranges(Built(SortBy(items, Centre), RowTolerance(items)), items)
  {
    hide RowOk, SortBy, RowTolerance, Flatten, LinesOf, Centre, Built;
    SortSorts(items, Centre);
    BuiltKeeps(SortBy(items, Centre), RowTolerance(items));
  }

  /** The rows of two boxes and more, from top to bottom. */
  function Lines(items: seq<Line>): seq<Row>
    requires items != []
  {
    SortBy(Built(SortBy(items, Centre), RowTolerance(items)), (r: Row) => r.mean)
  }

  method OrderText(lines: seq<Line>) returns (text: string)
    ensures var items := Spoken(lines);
      && (items == [] ==> text == "")
      && (|items| == 1 ==> text == items[0].text)
      && (|items| > 1 ==>
            && Arranges(Built(SortBy(items, Centre), RowTolerance(items)), items)
            && text == Join(RowTexts(Lines(items)), "\n"))
  {
    hide Arranges, SortBy, RowText, Spoken, Join, RowTolerance, Placed;
    var items := Spoken(lines);
    if items == [] {
      return "";
    }
    if |items| == 1 {
      return items[0].text;
    }
    var tol := RowTolerance(items);
    var sorted := SortBy(items, Centre);
    var rows: seq<Row> := [];
    for n := 0 to |sorted|
      invariant rows == Built(sorted[..n], tol)
    {
      assert sorted[..n + 1][..n] == sorted[..n];
      rows := Place(rows, sorted[n], tol);
    }
    assert sorted[..|sorted|] == sorted;
    ArrangedRows(items);
    text := Join(RowTexts(SortBy(rows, (r: Row) => r.mean)), "\n");
  }

  lemma NoLines()
    ensures Flatten(LinesOf([])) == []
  {
  }

  /** Boxes of a row go from left to right, and none is lost. */
  lemma RowInOrder(row: Row)
    ensures var sorted := SortBy(row.lines, (l: Line) => l.x1);
      multiset(sorted) == multiset(row.lines) && forall i, j :: 0 <= i < j < |sorted| ==> sorted[i].x1 <= sorted[j].x1
  {
    var key := (l: Line) => l.x1;
    SortSorts(row.lines, key);
    hide SortBy;
    var sorted := SortBy(row.lines, key);
    forall i, j | 0 <= i < j < |sorted| ensures sorted[i].x1 <= sorted[j].x1 {
      assert key(sorted[i]) <= key(sorted[j]);
    }
  }

  // ------------------------------------------------------------- what a reader sees

  /** The boxes that hold more than white space are the spoken ones, in their order. */
  lemma {:induction false} SpokenAppend(a: seq<Line>, l: Line)
    ensures Spoken(a + [l]) == Spoken(a) + (if PyStrip(l.text) == "" then [] else [l])
  {
    hide PyStrip;
    if a == [] {
      assert a + [l] == [l] && [l][1..] == [];
    } else {
      assert (a + [l])[1..] == a[1..] + [l];
      SpokenAppend(a[1..], l);
    }
  }

  /** The boxes in a list from left to right, those at one place in their old order. */
  predicate LeftToRight(lines: seq<Line>, sorted: seq<Line>) {
    && (forall i, j :: 0 <= i < j < |sorted| ==> sorted[i].x1 <= sorted[j].x1)
    && multiset(sorted) == multiset(lines)
    && (forall i, j :: 0 <= i < j < |lines| && lines[i].x1 == lines[j].x1 ==> lines[i] == lines[j])
  }

  /** A row reads as its texts from left to right with blanks between. */
  lemma RowReads(row: Row, sorted: seq<Line>)
    requires LeftToRight(row.lines, sorted)
    ensures RowText(row) == Join(Texts(sorted), " ")
  {
    var key := (l: Line) => l.x1;
    SortSorts(row.lines, key);
    forall i, j | 0 <= i < j < |sorted| ensures key(sorted[i]) <= key(sorted[j]) {
    }
    forall k ensures WithKey(sorted, key, k) == WithKey(row.lines, key, k) {
      SamePlace(row.lines, sorted, key, k);
    }
    hide SortBy, WithKey;
    SortIs(row.lines, sorted, key);
  }

  /** Elements of one key that are all the same are the same list in any order. */
  lemma SamePlace<T>(a: seq<T>, b: seq<T>, key: T -> real, k: real)
    requires multiset(a) == multiset(b)
    requires forall i, j :: 0 <= i < j < |a| && key(a[i]) == key(a[j]) ==> a[i] == a[j]
    ensures WithKey(a, key, k) == WithKey(b, key, k)
  {
    if exists i :: 0 <= i < |a| && key(a[i]) == k {
      var i :| 0 <= i < |a| && key(a[i]) == k;
      var x := a[i];
      forall y | y in a && key(y) == k ensures y == x {
        var j :| 0 <= j < |a| && a[j] == y;
        assert i < j || j < i || i == j;
      }
      forall y | y in b && key(y) == k ensures y == x {
        assert y in multiset(b) && y in multiset(a);
      }
      KeyCount(a, key, k, x);
      KeyCount(b, key, k, x);
    } else {
      forall y | y in b ensures key(y) != k {
        assert y in multiset(b) && y in multiset(a);
        var j :| 0 <= j < |a| && a[j] == y;
      }
      forall y | y in a ensures key(y) != k {
        var j :| 0 <= j < |a| && a[j] == y;
      }
      NoKey(a, key, k);
      NoKey(b, key, k);
    }
  }

  lemma {:induction false} NoKey<T>(s: seq<T>, key: T -> real, k: real)
    requires forall y :: y in s ==> key(y) != k
    ensures WithKey(s, key, k) == []
  {
    if s != [] {
      assert s[0] in s && forall y :: y in s[1..] ==> y in s;
      NoKey(s[1..], key, k);
    }
  }

  lemma {:induction false} KeyCount<T>(s: seq<T>, key: T -> real, k: real, x: T)
    requires key(x) == k && forall y :: y in s && key(y) == k ==> y == x
    ensures |WithKey(s, key, k)| == multiset(s)[x] && forall i :: 0 <= i < multiset(s)[x] ==> WithKey(s, key, k)[i] == x
  {
    if s != [] {
      assert s[0] in s && forall y :: y in s[1..] ==> y in s;
      KeyCount(s[1..], key, k, x);
      assert s == [s[0]] + s[1..];
    }
  }

  /** The tolerance is sixty per cent of the median height, the upper one of two; no height counts as one. */
  lemma ToleranceIsMedian(items: seq<Line>) returns (sorted: seq<Line>)
    requires items != []
    ensures multiset(sorted) == multiset(items) && |sorted| == |items|
    ensures forall i, j :: 0 <= i < j < |sorted| ==> sorted[i].y2 - sorted[i].y1 <= sorted[j].y2 - sorted[j].y1
    ensures var l := sorted[|sorted| / 2];
      RowTolerance(items) == if l.y1 == l.y2 then 0.6 else 0.6 * (l.y2 - l.y1)
  {
    sorted := SortBy(items, Height);
    SortSorts(items, Height);
    hide SortBy;
    forall i, j | 0 <= i < j < |sorted| ensures sorted[i].y2 - sorted[i].y1 <= sorted[j].y2 - sorted[j].y1 {
      assert Height(sorted[i]) <= Height(sorted[j]);
    }
  }

  lemma {:induction false} OneRowBuilt(boxes: seq<Line>, tol: real, c: real)
    requires boxes != [] && tol >= 0.0 && forall b :: b in boxes ==> Centre(b) == c
    ensures Built(boxes, tol) == [Row(c, |boxes|, boxes)]
    decreases |boxes|
  {
    hide Centre;
    var n := |boxes| - 1;
    assert boxes[n] in boxes && forall b :: b in boxes[..n] ==> b in boxes;
    assert boxes == boxes[..n] + [boxes[n]];
    if n > 0 {
      OneRowBuilt(boxes[..n], tol, c);
      SameMean(Row(c, n, boxes[..n]), boxes[n], c);
    } else {
      assert Built(boxes[..n], tol) == [];
    }
  }

  lemma SameMean(row: Row, l: Line, c: real)
    requires row.mean == c == Centre(l)
    ensures Joined(row, l) == Row(c, row.count + 1, row.lines + [l])
  {
    hide Centre;
    assert (c - c) / (row.count + 1) as real == 0.0;
  }

  lemma {:induction false} SortConstant<T>(s: seq<T>, key: T -> real, c: real)
    requires forall x :: x in s ==> key(x) == c
    ensures SortBy(s, key) == s
  {
    if s != [] {
      assert s[0] in s && forall x :: x in s[1..] ==> x in s;
      SortConstant(s[1..], key, c);
      assert s == [s[0]] + s[1..];
    }
  }

  lemma RowTolerancePositive(items: seq<Line>)
    requires items != [] && forall l :: l in items ==> l.y1 < l.y2
    ensures RowTolerance(items) > 0.0
  {
    var sorted := ToleranceIsMedian(items);
    var l := sorted[|sorted| / 2];
    assert l in multiset(sorted) && l in multiset(items);
  }

  /** Boxes at one height are one row: the text is their texts from left to right with blanks between. */
  lemma OneLine(items: seq<Line>, sorted: seq<Line>, c: real)
    requires |items| > 1 && (forall l :: l in items ==> l.y1 + l.y2 == 2.0 * c && l.y1 < l.y2)
    requires LeftToRight(items, sorted)
    ensures Join(RowTexts(Lines(items)), "\n") == Join(Texts(sorted), " ")
  {
    hide RowTolerance, Built, RowText;
    assert forall l :: l in items ==> Centre(l) == c;
    hide Centre;
    RowTolerancePositive(items);
    SortConstant(items, Centre, c);
    OneRowBuilt(items, RowTolerance(items), c);
    var row := Row(c, |items|, items);
    var key := (r: Row) => r.mean;
    SortConstant([row], key, c);
    assert RowTexts([row]) == [RowText(row)];
    RowReads(row, sorted);
  }

  // Boxes far from each other.

  /** Each box on its own. */
  function Alone(boxes: seq<Line>): seq<Row> {
    seq(|boxes|, i requires 0 <= i < |boxes| => Row(Centre(boxes[i]), 1, [boxes[i]]))
  }

  lemma {:induction false} AloneBuilt(boxes: seq<Line>, tol: real)
    requires forall i, j :: 0 <= i < j < |boxes| ==> Centre(boxes[i]) + tol < Centre(boxes[j])
    ensures Built(boxes, tol) == Alone(boxes)
    decreases |boxes|
  {
    hide Placed, Centre;
    if boxes != [] {
      var n := |boxes| - 1;
      AloneBuilt(boxes[..n], tol);
      PlacedAt(Alone(boxes[..n]), n, boxes[n], tol);
      assert Alone(boxes) == Alone(boxes[..n]) + [Row(Centre(boxes[n]), 1, [boxes[n]])];
    }
  }

  lemma {:induction false} SortAscending<T>(s: seq<T>, key: T -> real)
    requires Ascending(s, key)
    ensures SortBy(s, key) == s
  {
    if s != [] {
      SortAscending(s[1..], key);
      assert s == [s[0]] + s[1..];
    }
  }

  /** One box is that much lower than another, from middle to middle. */
  predicate Under(a: Line, b: Line, gap: real) { (b.y1 + b.y2) / 2.0 - (a.y1 + a.y2) / 2.0 > gap }

  /** Boxes further apart than the tolerance are rows of their own: the text is their texts from top to bottom. */
  lemma Column(items: seq<Line>, sorted: seq<Line>)
    requires |items| > 1 && multiset(sorted) == multiset(items)
    requires forall l :: l in items ==> l.y1 < l.y2
    requires forall i, j :: 0 <= i < j < |sorted| ==> Under(sorted[i], sorted[j], RowTolerance(items))
    ensures Join(RowTexts(Lines(items)), "\n") == Join(Texts(sorted), "\n")
  {
    hide RowTolerance, Built, RowText, SortBy, WithKey;
    forall i, j | 0 <= i < j < |sorted| ensures Centre(sorted[i]) + RowTolerance(items) < Centre(sorted[j]) {
      assert Under(sorted[i], sorted[j], RowTolerance(items));
    }
    hide Centre;
    RowTolerancePositive(items);
    SortedByCentre(items, sorted);
    AloneBuilt(sorted, RowTolerance(items));
    var key := (r: Row) => r.mean;
    forall i, j | 0 <= i < j < |sorted| ensures key(Alone(sorted)[i]) <= key(Alone(sorted)[j]) {
    }
    SortAscending(Alone(sorted), key);
    var texts := RowTexts(Alone(sorted));
    forall i | 0 <= i < |sorted| ensures texts[i] == sorted[i].text {
      AloneReads(sorted[i]);
    }
    assert texts == Texts(sorted);
  }

  lemma AloneReads(l: Line)
    ensures RowText(Row(Centre(l), 1, [l])) == l.text
  {
    hide RowText;
    RowReads(Row(Centre(l), 1, [l]), [l]);
    assert Texts([l]) == [l.text];
  }

  lemma SortedByCentre(items: seq<Line>, sorted: seq<Line>)
    requires multiset(sorted) == multiset(items)
    requires forall i, j :: 0 <= i < j < |sorted| ==> Centre(sorted[i]) < Centre(sorted[j])
    ensures SortBy(items, Centre) == sorted
  {
    hide Centre, SortBy, WithKey;
    forall k ensures WithKey(sorted, Centre, k) == WithKey(items, Centre, k) {
      SamePlace(sorted, items, Centre, k);
    }
    SortIs(items, sorted, Centre);
  }
}
