/**
 Automatic subtitle bands (worker/subextractor/pipeline.py:246-372): text boxes of sampled
 frames clustered by height on the screen, the best supported clusters turned into zones.

 Coordinates are reals; `round4`, the rounding to four places, is a parameter.
 */
module AutoZone {
  import opened Wrappers
  import opened Sequences

  /** A box normalized to the frame: y centre, height and x extent. */
  datatype Box = Box(yc: real, bh: real, x1: real, x2: real)

  datatype RawBox = RawBox(x1: real, y1: real, x2: real, y2: real)

  datatype Zone = Zone(x: real, y: real, w: real, h: real)

  // ------------------------------------------------------------------- clustering

  /** Neighbours in the list that belong together. */
  predicate Near(a: Box, b: Box, tol: real) { b.yc - a.yc <= tol }

  predicate Chained(c: seq<Box>, tol: real) { forall k :: 0 < k < |c| ==> Near(c[k - 1], c[k], tol) }

  predicate GapBetween(a: seq<Box>, b: seq<Box>, tol: real) { a != [] && b != [] && !Near(a[|a| - 1], b[0], tol) }

  /** Cut exactly where two neighbours are too far apart. */
  predicate CutAtGaps(boxes: seq<Box>, clusters: seq<seq<Box>>, tol: real) {
    && Flatten(clusters) == boxes
    && (forall c :: 0 <= c < |clusters| ==> clusters[c] != [] && Chained(clusters[c], tol))
    && (forall c :: 0 < c < |clusters| ==> GapBetween(clusters[c - 1], clusters[c], tol))
  }

  /** The clusters finished and the one that may go on, after some boxes. */
  predicate SoFar(boxes: seq<Box>, clusters: seq<seq<Box>>, cur: seq<Box>, tol: real) {
    && Flatten(clusters) + cur == boxes && Chained(cur, tol)
    && (forall c :: 0 <= c < |clusters| ==> clusters[c] != [] && Chained(clusters[c], tol))
    && (forall c :: 0 < c < |clusters| ==> GapBetween(clusters[c - 1], clusters[c], tol))
    && (clusters != [] ==> GapBetween(clusters[|clusters| - 1], cur, tol))
  }

  lemma GrowCluster(boxes: seq<Box>, clusters: seq<seq<Box>>, cur: seq<Box>, b: Box, tol: real)
    requires SoFar(boxes, clusters, cur, tol) && (cur == [] || Near(cur[|cur| - 1], b, tol))
    requires cur == [] ==> clusters == []
    ensures SoFar(boxes + [b], clusters, cur + [b], tol)
  {
    hide Flatten;
    assert Flatten(clusters) + (cur + [b]) == boxes + [b];
  }

  lemma CloseCluster(boxes: seq<Box>, clusters: seq<seq<Box>>, cur: seq<Box>, tol: real)
    requires SoFar(boxes, clusters, cur, tol) && cur != []
    ensures CutAtGaps(boxes, clusters + [cur], tol)
  {
    assert (clusters + [cur])[..|clusters|] == clusters;
  }

  lemma StartCluster(boxes: seq<Box>, clusters: seq<seq<Box>>, b: Box, tol: real)
    requires CutAtGaps(boxes, clusters, tol) && clusters != [] && GapBetween(clusters[|clusters| - 1], [b], tol)
    ensures SoFar(boxes + [b], clusters, [b], tol)
  {
    hide Flatten;
  }

  /** The scan over the boxes in order. */
  method Scan(boxes: seq<Box>, tol: real) returns (clusters: seq<seq<Box>>)
    ensures CutAtGaps(boxes, clusters, tol)
  {
    hide SoFar, CutAtGaps;
    clusters := [];
    var cur: seq<Box> := [];
    var lastYc: Option<real> := None;
    assert SoFar(boxes[..0], clusters, cur, tol) by { NothingScanned(boxes, tol); }
    for n := 0 to |boxes|
      invariant SoFar(boxes[..n], clusters, cur, tol)
      invariant (cur == [] <==> n == 0) && (n == 0 ==> clusters == [])
      invariant lastYc == if n == 0 then None else Some(cur[|cur| - 1].yc)
    {
      assert boxes[..n + 1] == boxes[..n] + [boxes[n]];
      if lastYc.None? || boxes[n].yc - lastYc.value <= tol {
        GrowCluster(boxes[..n], clusters, cur, boxes[n], tol);
        cur := cur + [boxes[n]];
      } else {
        CloseCluster(boxes[..n], clusters, cur, tol);
        clusters := clusters + [cur];
        StartCluster(boxes[..n], clusters, boxes[n], tol);
        cur := [boxes[n]];
      }
      lastYc := Some(boxes[n].yc);
    }
    assert boxes[..|boxes|] == boxes;
    if cur != [] {
      CloseCluster(boxes, clusters, cur, tol);
      clusters := clusters + [cur];
    } else {
      assert CutAtGaps(boxes, clusters, tol) by { NoClusters(tol); }
    }
  }

  lemma NothingScanned(boxes: seq<Box>, tol: real)
    ensures SoFar(boxes[..0], [], [], tol)
  {
  }

  lemma NoClusters(tol: real)
    ensures CutAtGaps([], [], tol)
  {
  }

  /** Every box is in exactly one cluster. */
  lemma EveryBoxOnce(boxes: seq<Box>, clusters: seq<seq<Box>>, tol: real, i: nat) returns (c: nat)
    requires CutAtGaps(boxes, clusters, tol) && i < |boxes|
    ensures Holds(clusters, c, i) && forall d: nat :: Holds(clusters, d, i) ==> d == c
  {
    FlattenLength(clusters);
    c := OneHolds(clusters, i, |clusters|);
    forall d: nat | Holds(clusters, d, i) ensures d == c {
      if d < c {
        OffsetsAscend(clusters, d + 1, c);
      } else if c < d {
        OffsetsAscend(clusters, c + 1, d);
      }
    }
  }

  /** Two boxes within tolerance of each other, in either order. */
  predicate Linked(a: Box, b: Box, tol: real) { -tol <= b.yc - a.yc <= tol }

  /** A path of boxes each within tolerance of the next. */
  predicate Path(boxes: seq<Box>, path: seq<nat>, tol: real) {
    && (forall k :: 0 <= k < |path| ==> path[k] < |boxes|)
    && (forall k :: 0 <= k < |path| - 1 ==> Linked(boxes[path[k]], boxes[path[k + 1]], tol))
  }

  ghost predicate Connected(boxes: seq<Box>, i: nat, j: nat, tol: real) {
    exists path: seq<nat> :: path != [] && path[0] == i && path[|path| - 1] == j && Path(boxes, path, tol)
  }

  predicate ByHeight(boxes: seq<Box>) { forall i, j :: 0 <= i < j < |boxes| ==> boxes[i].yc <= boxes[j].yc }

  /** Neighbouring boxes within one cluster are near. */
  lemma NearInside(boxes: seq<Box>, clusters: seq<seq<Box>>, tol: real, c: nat, k: nat)
    requires CutAtGaps(boxes, clusters, tol) && c < |clusters|
    requires Offset(clusters, c) < k < Offset(clusters, c + 1)
    ensures k < |boxes| && Near(boxes[k - 1], boxes[k], tol)
  {
    FlattenAt(clusters, c);
    var o := Offset(clusters, c);
    assert clusters[c][k - o] == boxes[k] && clusters[c][k - o - 1] == boxes[k - 1];
    assert Chained(clusters[c], tol);
  }

  /** Before the first box of a cluster there is a gap. */
  lemma GapBefore(boxes: seq<Box>, clusters: seq<seq<Box>>, tol: real, c: nat)
    requires CutAtGaps(boxes, clusters, tol) && 0 < c < |clusters|
    ensures 0 < Offset(clusters, c) < |boxes|
    ensures !Near(boxes[Offset(clusters, c) - 1], boxes[Offset(clusters, c)], tol)
  {
    FlattenAt(clusters, c);
    FlattenAt(clusters, c - 1);
    var o := Offset(clusters, c);
    assert clusters[c - 1] != [] && clusters[c] != [];
    assert clusters[c][0] == boxes[o];
    assert clusters[c - 1][|clusters[c - 1]| - 1] == boxes[o - 1];
    assert GapBetween(clusters[c - 1], clusters[c], tol);
  }

  lemma {:induction false} WalkUp(boxes: seq<Box>, clusters: seq<seq<Box>>, tol: real, c: nat, i: nat, j: nat)
    returns (path: seq<nat>)
    requires CutAtGaps(boxes, clusters, tol) && ByHeight(boxes) && tol >= 0.0
    requires Holds(clusters, c, i) && Holds(clusters, c, j) && i <= j && j < |boxes|
    ensures path != [] && path[0] == i && path[|path| - 1] == j && Path(boxes, path, tol)
    decreases j - i
  {
    if i == j {
      path := [i];
    } else {
      var before := WalkUp(boxes, clusters, tol, c, i, j - 1);
      NearInside(boxes, clusters, tol, c, j);
      path := before + [j];
      assert Linked(boxes[j - 1], boxes[j], tol);
      forall k | 0 <= k < |path| - 1 ensures Linked(boxes[path[k]], boxes[path[k + 1]], tol) {
        if k < |before| - 1 {
          assert Linked(boxes[before[k]], boxes[before[k + 1]], tol);
        }
      }
    }
  }

  lemma PathBack(boxes: seq<Box>, path: seq<nat>, tol: real) returns (back: seq<nat>)
    requires path != [] && Path(boxes, path, tol)
    ensures |back| == |path| && back[0] == path[|path| - 1] && back[|back| - 1] == path[0] && Path(boxes, back, tol)
  {
    back := seq(|path|, k requires 0 <= k < |path| => path[|path| - 1 - k]);
    forall k | 0 <= k < |back| - 1 ensures Linked(boxes[back[k]], boxes[back[k + 1]], tol) {
      assert Linked(boxes[path[|path| - 2 - k]], boxes[path[|path| - 2 - k + 1]], tol);
    }
  }

  /** No path crosses a gap. */
  lemma {:induction false} NoCrossing(boxes: seq<Box>, tol: real, cut: nat, path: seq<nat>)
    requires ByHeight(boxes) && 0 < cut < |boxes| && !Near(boxes[cut - 1], boxes[cut], tol)
    requires path != [] && Path(boxes, path, tol)
    ensures path[0] < cut <==> path[|path| - 1] < cut
    decreases |path|
  {
    if |path| > 1 {
      assert Linked(boxes[path[0]], boxes[path[0 + 1]], tol);
      assert path[1..][0] == path[1];
      forall k | 0 <= k < |path[1..]| - 1 ensures Linked(boxes[path[1..][k]], boxes[path[1..][k + 1]], tol) {
        assert Linked(boxes[path[k + 1]], boxes[path[k + 1 + 1]], tol);
      }
      NoCrossing(boxes, tol, cut, path[1..]);
    }
  }

  /**
   The scan yields exactly the connected components: two boxes of the sorted list are in the
   same cluster if and only if a chain of boxes within tolerance leads from one to the other.
   */
  lemma ClustersAreComponents(boxes: seq<Box>, clusters: seq<seq<Box>>, tol: real, c: nat, d: nat, i: nat, j: nat)
    requires CutAtGaps(boxes, clusters, tol) && ByHeight(boxes) && tol >= 0.0
    requires Holds(clusters, c, i) && Holds(clusters, d, j) && i < |boxes| && j < |boxes|
    ensures c == d <==> Connected(boxes, i, j, tol)
  {
    if c == d {
      if i <= j {
        var path := WalkUp(boxes, clusters, tol, c, i, j);
      } else {
        var path := WalkUp(boxes, clusters, tol, c, j, i);
        var back := PathBack(boxes, path, tol);
      }
    } else {
      var hi := if c < d then d else c;
      GapBefore(boxes, clusters, tol, hi);
      OffsetsAscend(clusters, (if c < d then c else d) + 1, hi);
      forall path: seq<nat> | path != [] && path[0] == i && path[|path| - 1] == j && Path(boxes, path, tol)
        ensures false
      {
        NoCrossing(boxes, tol, Offset(clusters, hi), path);
      }
    }
  }

  // ------------------------------------------------------------------------ zones

  function Highest(s: seq<real>): (m: real)
    requires s != []
    ensures m in s && forall k :: 0 <= k < |s| ==> s[k] <= m
  {
    if |s| == 1 then s[0]
    else
      var rest := Highest(s[1..]);
      assert forall k :: 1 <= k < |s| ==> s[k] == s[1..][k - 1];
      Max(s[0], rest)
  }

  function Lowest(s: seq<real>): (m: real)
    requires s != []
    ensures m in s && forall k :: 0 <= k < |s| ==> m <= s[k]
  {
    if |s| == 1 then s[0]
    else
      var rest := Lowest(s[1..]);
      assert forall k :: 1 <= k < |s| ==> s[k] == s[1..][k - 1];
      Min(s[0], rest)
  }

  function Centres(c: seq<Box>): seq<real> { seq(|c|, i requires 0 <= i < |c| => c[i].yc) }

  function Heights(c: seq<Box>): seq<real> { seq(|c|, i requires 0 <= i < |c| => c[i].bh) }

  function Lefts(c: seq<Box>): seq<real> { seq(|c|, i requires 0 <= i < |c| => c[i].x1) }

  function Rights(c: seq<Box>): seq<real> { seq(|c|, i requires 0 <= i < |c| => c[i].x2) }

  /** The zone of a cluster before rounding; none when the cluster lies off the frame. */
  function ZoneOf(c: seq<Box>): Option<Zone>
    requires c != []
  {
    var bandH := Highest(Heights(c));
    var yTop := Lowest(Centres(c)) - bandH / 2.0;
    var yBot := Highest(Centres(c)) + bandH / 2.0;
    var padV := Max(bandH, 0.04);
    var y := Max(0.0, yTop - padV);
    var h := Min(1.0 - y, yBot - yTop + 2.0 * padV);
    var x := Max(0.0, Lowest(Lefts(c)) - 0.02);
    var w := Min(1.0 - x, Highest(Rights(c)) - Lowest(Lefts(c)) + 0.04);
    if h <= 0.0 || w <= 0.0 then None else Some(Zone(x, y, w, h))
  }

  /** A point of the box that lies in the frame. */
  predicate InBox(b: Box, x: real, y: real) {
    b.x1 <= x <= b.x2 && b.yc - b.bh / 2.0 <= y <= b.yc + b.bh / 2.0 && 0.0 <= x <= 1.0 && 0.0 <= y <= 1.0
  }

  predicate InZone(z: Zone, x: real, y: real) { z.x <= x <= z.x + z.w && z.y <= y <= z.y + z.h }

  lemma Extremes(c: seq<Box>, b: Box)
    requires b in c
    ensures Lowest(Centres(c)) <= b.yc <= Highest(Centres(c)) && b.bh <= Highest(Heights(c))
    ensures Lowest(Lefts(c)) <= b.x1 && b.x2 <= Highest(Rights(c))
  {
    var i :| 0 <= i < |c| && c[i] == b;
    assert Centres(c)[i] == b.yc && Heights(c)[i] == b.bh && Lefts(c)[i] == b.x1 && Rights(c)[i] == b.x2;
  }

  /** A zone lies in the unit square and covers what of its cluster's boxes is in the frame. */
  lemma ZoneCovers(c: seq<Box>, b: Box, x: real, y: real)
    requires b in c && (forall k :: k in c ==> k.bh > 0.0) && InBox(b, x, y)
    ensures ZoneOf(c).Some? && InZone(ZoneOf(c).value, x, y)
  {
    Extremes(c, b);
    hide Highest, Lowest, Centres, Heights, Lefts, Rights;
  }

  /** Leftmost and rightmost edge, lowest and highest centre, and height of the tallest box. */
  predicate Edges(c: seq<Box>, left: real, right: real, top: real, bottom: real, tallest: real) {
    && (forall b :: b in c ==> left <= b.x1 && b.x2 <= right && top <= b.yc <= bottom && b.bh <= tallest)
    && (exists b :: b in c && b.x1 == left) && (exists b :: b in c && b.x2 == right)
    && (exists b :: b in c && b.yc == top) && (exists b :: b in c && b.yc == bottom)
    && (exists b :: b in c && b.bh == tallest)
  }

  lemma HasEdges(c: seq<Box>)
    requires c != []
    ensures Edges(c, Lowest(Lefts(c)), Highest(Rights(c)), Lowest(Centres(c)), Highest(Centres(c)), Highest(Heights(c)))
  {
    forall b | b in c ensures
      && Lowest(Centres(c)) <= b.yc <= Highest(Centres(c)) && b.bh <= Highest(Heights(c))
      && Lowest(Lefts(c)) <= b.x1 && b.x2 <= Highest(Rights(c))
    {
      Extremes(c, b);
    }
    EdgeMet(c, Lefts(c), Lowest(Lefts(c)));
    EdgeMet(c, Rights(c), Highest(Rights(c)));
    EdgeMet(c, Centres(c), Lowest(Centres(c)));
    EdgeMet(c, Centres(c), Highest(Centres(c)));
    EdgeMet(c, Heights(c), Highest(Heights(c)));
    hide Highest, Lowest;
  }

  lemma EdgeMet(c: seq<Box>, values: seq<real>, v: real)
    requires |values| == |c| && v in values
    ensures exists i :: 0 <= i < |c| && values[i] == v && c[i] in c
  {
    var i :| 0 <= i < |values| && values[i] == v;
    assert c[i] in c;
  }

  /**
   How far a zone reaches, with a margin of the tallest box or 0.04 above and below and 0.02 at both sides.
   A side that the frame does not cut is reached exactly. Where the upper or the left side is cut, the zone keeps
   its height or width as far as the frame allows, so that the opposite side lies further out by what was cut off.
   */
  predicate Hugs(z: Zone, left: real, right: real, top: real, bottom: real, tallest: real) {
    var margin := if tallest >= 0.04 then tallest else 0.04;
    var upper, lower := top - tallest / 2.0 - margin, bottom + tallest / 2.0 + margin;
    && (if upper >= 0.0 then z.y == upper else z.y == 0.0)
    && (upper >= 0.0 ==> z.y + z.h == if lower <= 1.0 then lower else 1.0)
    && (upper < 0.0 ==> z.y + z.h == if lower - upper <= 1.0 then lower - upper else 1.0)
    && (z.y + z.h <= lower <==> upper >= 0.0 || lower >= 1.0)
    && (if left >= 0.02 then z.x == left - 0.02 else z.x == 0.0)
    && (left >= 0.02 ==> z.x + z.w == if right + 0.02 <= 1.0 then right + 0.02 else 1.0)
    && (left < 0.02 ==> z.x + z.w == if right - left + 0.04 <= 1.0 then right - left + 0.04 else 1.0)
    && (z.x + z.w <= right + 0.02 <==> left >= 0.02 || right + 0.02 >= 1.0)
    && (left >= 0.0 ==> z.x + z.w <= right + 0.04)
  }

  lemma EdgesUnique(c: seq<Box>, l: real, r: real, t: real, b: real, h: real)
    requires c != [] && Edges(c, l, r, t, b, h)
    ensures l == Lowest(Lefts(c)) && r == Highest(Rights(c)) && t == Lowest(Centres(c)) && b == Highest(Centres(c))
    ensures h == Highest(Heights(c))
  {
    HasEdges(c);
    hide Highest, Lowest, Lefts, Rights, Centres, Heights;
  }

  /** A zone reaches beyond the boxes of its cluster by the margins and no further. */
  lemma ZoneHugs(c: seq<Box>, l: real, r: real, t: real, b: real, h: real)
    requires c != [] && Edges(c, l, r, t, b, h) && ZoneOf(c).Some?
    ensures Hugs(ZoneOf(c).value, l, r, t, b, h)
  {
    EdgesUnique(c, l, r, t, b, h);
    hide Highest, Lowest, Lefts, Rights, Centres, Heights, Edges;
  }

  /** A band at the top of the frame: its zone goes twice as far below the box as the padding says. */
  lemma TopBandReachesFurther()
    ensures
      var c := [Box(0.02, 0.04, 0.3, 0.7)];
      Edges(c, 0.3, 0.7, 0.02, 0.02, 0.04)
      && ZoneOf(c) == Some(Zone(0.28, 0.0, 0.44, 0.12)) && 0.12 > 0.02 + 0.04 / 2.0 + 0.04
  {
    var c := [Box(0.02, 0.04, 0.3, 0.7)];
    assert c[0] in c;
    EdgesUnique(c, 0.3, 0.7, 0.02, 0.02, 0.04);
  }

  lemma ZoneInUnitSquare(c: seq<Box>)
    requires c != []
    ensures ZoneOf(c).Some? ==>
      var z := ZoneOf(c).value;
      0.0 <= z.x && 0.0 <= z.y && 0.0 < z.w && 0.0 < z.h && z.x + z.w <= 1.0 && z.y + z.h <= 1.0
  {
    hide Highest, Lowest, Centres, Heights, Lefts, Rights;
  }

  // ------------------------------------------------------------------ the pipeline

  /** A fifth of the frames, to the nearest whole number, and at least two. */
  function MinSupport(nFrames: nat): nat {
    var fifth := (nFrames + 2) / 5;
    if fifth >= 2 then fifth else 2
  }

  lemma MinSupportIsFifth(nFrames: nat)
    ensures MinSupport(nFrames) >= 2
    ensures nFrames >= 8 ==>
        2 * (5 * MinSupport(nFrames)) <= 2 * nFrames + 5 && 2 * nFrames - 5 <= 2 * (5 * MinSupport(nFrames))
  {
  }

  function Supported(clusters: seq<seq<Box>>, n: nat): (kept: seq<seq<Box>>)
    ensures forall c :: c in kept <==> c in clusters && |c| >= n
  {
    if clusters == [] then []
    else
      var rest := Supported(clusters[1..], n);
      if |clusters[0]| >= n then [clusters[0]] + rest else rest
  }

  /** The clusters kept: the two with most support, the upper one first among equals. */
  function Kept(clusters: seq<seq<Box>>, n: nat): seq<seq<Box>> {
    var sorted := SortBy(Supported(clusters, n), (c: seq<Box>) => -(|c| as real));
    if |sorted| > 2 then sorted[..2] else sorted
  }

  lemma SortedSupported(clusters: seq<seq<Box>>, n: nat) returns (sorted: seq<seq<Box>>)
    ensures Kept(clusters, n) == if |sorted| > 2 then sorted[..2] else sorted
    ensures forall c :: c in sorted <==> c in clusters && |c| >= n
    ensures forall i, j :: 0 <= i < j < |sorted| ==> |sorted[i]| >= |sorted[j]|
  {
    var key := (c: seq<Box>) => -(|c| as real);
    var kept := Supported(clusters, n);
    sorted := SortBy(kept, key);
    SortSorts(kept, key);
    hide SortBy, WithKey, Supported;
    forall c ensures c in sorted <==> c in kept {
      assert c in multiset(sorted) <==> c in multiset(kept);
    }
    forall i, j | 0 <= i < j < |sorted| ensures |sorted[i]| >= |sorted[j]| {
      assert key(sorted[i]) <= key(sorted[j]);
    }
  }

  /** At most two, each with enough support, and none dropped that has more. */
  lemma KeptAreDensest(clusters: seq<seq<Box>>, n: nat)
    ensures |Kept(clusters, n)| <= 2
    ensures forall c :: c in Kept(clusters, n) ==> c in clusters && |c| >= n
    ensures forall k, d :: k in Kept(clusters, n) && d in clusters && d !in Kept(clusters, n) && |d| >= n ==> |k| >= |d|
    ensures |Kept(clusters, n)| < 2 ==> forall c :: c in clusters && |c| >= n ==> c in Kept(clusters, n)
  {
    var sorted := SortedSupported(clusters, n);
    hide Kept;
    var kept := Kept(clusters, n);
    assert forall q :: 0 <= q < |kept| ==> sorted[q] == kept[q];
    forall k, d | k in kept && d in clusters && d !in kept && |d| >= n ensures |k| >= |d| {
      assert d in sorted;
      var i :| 0 <= i < |sorted| && sorted[i] == d;
      var m :| 0 <= m < |kept| && kept[m] == k;
      assert m < |sorted| && sorted[m] == k;
    }
  }

  /** What the detector saw, normalized; degenerate boxes are skipped. */
  function Normalize(raw: seq<RawBox>, width: real, height: real): (boxes: seq<Box>)
    requires width > 0.0 && height > 0.0
    ensures forall b :: b in boxes ==> b.bh > 0.0
  {
    if raw == [] then []
    else
      var r := raw[0];
      var rest := Normalize(raw[1..], width, height);
      if r.x2 <= r.x1 || r.y2 <= r.y1 then rest
      else [Box((r.y1 + r.y2) / 2.0 / height, Quotient(r.y2 - r.y1, height), r.x1 / width, r.x2 / width)] + rest
  }

  function Quotient(a: real, b: real): (q: real)
    requires b > 0.0
    ensures a > 0.0 ==> q > 0.0
    ensures q * b == a
  {
    a / b
  }

  function AllBoxes(frames: seq<seq<RawBox>>, width: real, height: real): (boxes: seq<Box>)
    requires width > 0.0 && height > 0.0
    ensures forall b :: b in boxes ==> b.bh > 0.0
  {
    if frames == [] then [] else Normalize(frames[0], width, height) + AllBoxes(frames[1..], width, height)
  }

  function Tolerance(boxes: seq<Box>): (tol: real)
    requires boxes != []
    ensures tol >= 0.02
  {
    var heights := SortBy(Heights(boxes), h => h);
    SortSorts(Heights(boxes), h => h);
    var median := heights[|heights| / 2];
    Max(if median == 0.0 then 0.02 else median, 0.02)
  }

  /** The tolerance is the median of the heights, the upper one of two, and at least 0.02. */
  lemma ToleranceIsMedian(boxes: seq<Box>) returns (sorted: seq<real>)
    requires boxes != []
    ensures multiset(sorted) == multiset(Heights(boxes)) && |sorted| == |boxes|
    ensures forall i, j :: 0 <= i < j < |sorted| ==> sorted[i] <= sorted[j]
    ensures
      var median := sorted[|sorted| / 2];
      median > 0.0 ==> Tolerance(boxes) == if median >= 0.02 then median else 0.02
  {
    var key := (h: real) => h;
    sorted := SortBy(Heights(boxes), key);
    SortSorts(Heights(boxes), key);
    forall i, j | 0 <= i < j < |sorted| ensures sorted[i] <= sorted[j] {
      assert key(sorted[i]) <= key(sorted[j]);
    }
  }

  function ByCentre(boxes: seq<Box>): seq<Box> { SortBy(boxes, (b: Box) => b.yc) }

  function Rounded(z: Zone, round4: real -> real): Zone { Zone(round4(z.x), round4(z.y), round4(z.w), round4(z.h)) }

  function ZonesOf(kept: seq<seq<Box>>, round4: real -> real): (zones: seq<Zone>)
    requires forall c :: c in kept ==> c != []
    ensures |zones| <= |kept|
    ensures forall z :: z in zones <==>
      exists c :: c in kept && ZoneOf(c).Some? && z == Rounded(ZoneOf(c).value, round4)
  {
    if kept == [] then []
    else
      assert kept == [kept[0]] + kept[1..];
      assert kept[0] in kept && forall c :: c in kept[1..] ==> c in kept;
      var rest := ZonesOf(kept[1..], round4);
      var z := ZoneOf(kept[0]);
      if z.None? then rest else [Rounded(z.value, round4)] + rest
  }

  /** The frames looked at: some more than asked for, in case the sampling overshoots. */
  function Sampled(frames: seq<seq<RawBox>>, nSamples: nat): seq<seq<RawBox>> {
    if |frames| > nSamples + 2 then frames[..nSamples + 2] else frames
  }

  method CollectBoxes(frames: seq<seq<RawBox>>, width: real, height: real, nSamples: nat)
    returns (boxes: seq<Box>, nFrames: nat)
    requires width > 0.0 && height > 0.0
    ensures nFrames == |Sampled(frames, nSamples)| && boxes == AllBoxes(Sampled(frames, nSamples), width, height)
  {
    hide Normalize;
    boxes, nFrames := [], 0;
    var used := Sampled(frames, nSamples);
    while nFrames < |frames| && nFrames < nSamples + 2
      invariant nFrames <= |used| && AllBoxes(used, width, height) == boxes + AllBoxes(used[nFrames..], width, height)
    {
      assert used[nFrames..][0] == frames[nFrames] && used[nFrames..][1..] == used[nFrames + 1..];
      var found := Normalize(frames[nFrames], width, height);
      boxes := boxes + found;
      nFrames := nFrames + 1;
    }
    assert used[nFrames..] == [];
  }

  /**
   The whole detection. The clusters are the gap-free stretches of the boxes sorted by centre;
   the zones are those of the kept clusters, rounded, from top to bottom.
   */
  method AutoDetectZones(frames: seq<seq<RawBox>>, width: int, height: int, nSamples: nat, round4: real -> real)
    returns (zones: Option<seq<Zone>>, ghost sorted: seq<Box>, ghost clusters: seq<seq<Box>>)
    ensures width <= 0 || height <= 0 ==> zones == None
    ensures width > 0 && height > 0 ==>
      var used := Sampled(frames, nSamples);
      var boxes := AllBoxes(used, width as real, height as real);
      && sorted == ByCentre(boxes)
      && (boxes == [] ==> zones == None)
      && (boxes != [] ==>
            && CutAtGaps(sorted, clusters, Tolerance(sorted))
            && (forall c :: c in Kept(clusters, MinSupport(|used|)) ==> c != [])
            && var found := SortBy(ZonesOf(Kept(clusters, MinSupport(|used|)), round4), (z: Zone) => z.y);
               zones == if found == [] then None else Some(found))
  {
    hide CutAtGaps, Kept, ZonesOf, SortBy, AllBoxes, Tolerance;
    zones, sorted, clusters := None, [], [];
    if width <= 0 || height <= 0 {
      return;
    }
    var boxes, nFrames := CollectBoxes(frames, width as real, height as real, nSamples);
    var ordered := ByCentre(boxes);
    sorted := ordered;
    if nFrames == 0 || boxes == [] {
      assert nFrames == 0 ==> boxes == [] by { NoFrames(frames, width as real, height as real, nSamples); }
      return;
    }
    SortSorts(boxes, (b: Box) => b.yc);
    var tol := Tolerance(ordered);
    var found := Scan(ordered, tol);
    clusters := found;
    ClustersNonempty(ordered, found, tol);
    var kept := Kept(found, MinSupport(nFrames));
    KeptAreDensest(found, MinSupport(nFrames));
    if kept == [] {
      NoZones(round4);
      return;
    }
    var sortedZones := SortBy(ZonesOf(kept, round4), (z: Zone) => z.y);
    zones := if sortedZones == [] then None else Some(sortedZones);
  }

  lemma NoFrames(frames: seq<seq<RawBox>>, width: real, height: real, nSamples: nat)
    requires width > 0.0 && height > 0.0
    ensures |Sampled(frames, nSamples)| == 0 ==> AllBoxes(Sampled(frames, nSamples), width, height) == []
  {
  }

  lemma NoZones(round4: real -> real)
    ensures SortBy(ZonesOf([], round4), (z: Zone) => z.y) == []
  {
  }

  lemma ClustersNonempty(boxes: seq<Box>, clusters: seq<seq<Box>>, tol: real)
    requires CutAtGaps(boxes, clusters, tol)
    ensures forall c :: c in clusters ==> c != []
  {
    hide Flatten, Chained;
  }

  /**
   Every zone found: it is the rounded zone of one of at most two clusters, that cluster has enough
   support, its zone lies in the unit square, covers what of its boxes is in the frame and reaches beyond
   them by the margins and no further.
   */
  lemma ZonesAreSound(boxes: seq<Box>, clusters: seq<seq<Box>>, nFrames: nat, round4: real -> real, z: Zone)
    requires boxes != [] && (forall b :: b in boxes ==> b.bh > 0.0)
    requires CutAtGaps(ByCentre(boxes), clusters, Tolerance(ByCentre(boxes)))
    requires forall c :: c in Kept(clusters, MinSupport(nFrames)) ==> c != []
    requires z in ZonesOf(Kept(clusters, MinSupport(nFrames)), round4)
    ensures exists c :: Explains(c, clusters, nFrames, z, round4)
    ensures ByHeight(ByCentre(boxes))
  {
    hide Tolerance, Kept, ZoneOf, ZonesOf, CutAtGaps;
    var c :| c in Kept(clusters, MinSupport(nFrames)) && ZoneOf(c).Some? && z == Rounded(ZoneOf(c).value, round4);
    KeptAreDensest(clusters, MinSupport(nFrames));
    ZoneInUnitSquare(c);
    SortSorts(boxes, (b: Box) => b.yc);
    SortedByHeight(boxes);
    BoxesOfClusters(ByCentre(boxes), clusters, Tolerance(ByCentre(boxes)), c);
    forall b | b in c ensures b.bh > 0.0 {
      assert b in multiset(ByCentre(boxes));
      assert b in multiset(boxes);
    }
    forall b, x, y | b in c && InBox(b, x, y) ensures InZone(ZoneOf(c).value, x, y) {
      ZoneCovers(c, b, x, y);
    }
    SomeHug(c);
    assert Explains(c, clusters, nFrames, z, round4);
  }

  lemma SomeHug(c: seq<Box>)
    requires c != [] && ZoneOf(c).Some?
    ensures exists l, r, t, b, h :: Edges(c, l, r, t, b, h) && Hugs(ZoneOf(c).value, l, r, t, b, h)
  {
    hide Edges, Hugs, ZoneOf, Highest, Lowest, Lefts, Rights, Centres, Heights;
    HasEdges(c);
    var l, r, h := Lowest(Lefts(c)), Highest(Rights(c)), Highest(Heights(c));
    var t, b := Lowest(Centres(c)), Highest(Centres(c));
    ZoneHugs(c, l, r, t, b, h);
  }

  ghost predicate Explains(c: seq<Box>, clusters: seq<seq<Box>>, nFrames: nat, z: Zone, round4: real -> real) {
    && c in clusters && |c| >= MinSupport(nFrames) && ZoneOf(c).Some?
    && var exact := ZoneOf(c).value;
       && z == Rounded(exact, round4)
       && 0.0 <= exact.x && 0.0 <= exact.y && exact.x + exact.w <= 1.0 && exact.y + exact.h <= 1.0
       && (forall b, x, y :: b in c && InBox(b, x, y) ==> InZone(exact, x, y))
       && (exists l, r, t, b, h :: Edges(c, l, r, t, b, h) && Hugs(exact, l, r, t, b, h))
  }

  lemma SortedByHeight(boxes: seq<Box>)
    ensures ByHeight(ByCentre(boxes))
  {
    SortSorts(boxes, (b: Box) => b.yc);
    hide SortBy;
    var key := (b: Box) => b.yc;
    var sorted := ByCentre(boxes);
    forall i, j | 0 <= i < j < |sorted| ensures sorted[i].yc <= sorted[j].yc {
      assert key(sorted[i]) <= key(sorted[j]);
    }
  }

  lemma BoxesOfClusters(boxes: seq<Box>, clusters: seq<seq<Box>>, tol: real, c: seq<Box>)
    requires CutAtGaps(boxes, clusters, tol) && c in clusters
    ensures forall b :: b in c ==> b in boxes
  {
    var k :| 0 <= k < |clusters| && clusters[k] == c;
    FlattenAt(clusters, k);
    forall b | b in c ensures b in boxes {
      var i :| 0 <= i < |c| && c[i] == b;
      assert boxes[Offset(clusters, k)..Offset(clusters, k + 1)][i] == b;
    }
  }

  // ------------------------------------------------------- one frame is enough

  function Copies<T>(x: T, n: nat): (s: seq<T>)
    ensures |s| == n && forall i :: 0 <= i < n ==> s[i] == x
  {
    seq(n, i => x)
  }

  /** All boxes in the first frame, and none in the others. */
  function OneFrame(r: RawBox, n: nat): seq<seq<RawBox>>
    requires n > 0
  {
    [Copies(r, MinSupport(n))] + Copies([], n - 1)
  }

  function NormalBox(r: RawBox, width: real, height: real): Box
    requires width > 0.0 && height > 0.0
  {
    Box((r.y1 + r.y2) / 2.0 / height, Quotient(r.y2 - r.y1, height), r.x1 / width, r.x2 / width)
  }

  /** The box is this detection, measured by the frame. */
  predicate Measures(r: RawBox, b: Box, width: real, height: real) {
    && b.x1 * width == r.x1 && b.x2 * width == r.x2
    && (b.yc - b.bh / 2.0) * height == r.y1 && (b.yc + b.bh / 2.0) * height == r.y2
  }

  /** The detections that have an extent, frame by frame in order. */
  function Proper(raw: seq<RawBox>): seq<RawBox> {
    if raw == [] then []
    else (if raw[0].x1 < raw[0].x2 && raw[0].y1 < raw[0].y2 then [raw[0]] else []) + Proper(raw[1..])
  }

  function Detected(frames: seq<seq<RawBox>>): seq<RawBox> {
    if frames == [] then [] else Proper(frames[0]) + Detected(frames[1..])
  }

  predicate MeasuresAll(raw: seq<RawBox>, boxes: seq<Box>, width: real, height: real) {
    |boxes| == |raw| && forall k :: 0 <= k < |raw| ==> Measures(raw[k], boxes[k], width, height)
  }

  lemma Halves(y1: real, y2: real, q: real, c: real, height: real)
    requires height > 0.0 && q * height == y2 - y1 && c * height == (y1 + y2) / 2.0
    ensures (c - q / 2.0) * height == y1 && (c + q / 2.0) * height == y2
  {
    assert (c - q / 2.0) * height == c * height - q * height / 2.0;
    assert (c + q / 2.0) * height == c * height + q * height / 2.0;
  }

  lemma NormalMeasures(r: RawBox, width: real, height: real)
    requires width > 0.0 && height > 0.0
    ensures Measures(r, NormalBox(r, width, height), width, height)
  {
    var b := NormalBox(r, width, height);
    Halves(r.y1, r.y2, b.bh, b.yc, height);
  }

  lemma {:induction false} NormalizeMeasures(raw: seq<RawBox>, width: real, height: real)
    requires width > 0.0 && height > 0.0
    ensures MeasuresAll(Proper(raw), Normalize(raw, width, height), width, height)
  {
    hide Measures;
    if raw != [] {
      NormalizeMeasures(raw[1..], width, height);
      NormalMeasures(raw[0], width, height);
    }
  }

  /** Each detection with an extent is a box, at its place in the frame, and there are no others. */
  lemma {:induction false} BoxesAreDetected(frames: seq<seq<RawBox>>, width: real, height: real)
    requires width > 0.0 && height > 0.0
    ensures MeasuresAll(Detected(frames), AllBoxes(frames, width, height), width, height)
  {
    hide Measures, Normalize, Proper;
    if frames != [] {
      NormalizeMeasures(frames[0], width, height);
      BoxesAreDetected(frames[1..], width, height);
    }
  }

  lemma {:induction false} NormalCopies(r: RawBox, n: nat, width: real, height: real)
    requires width > 0.0 && height > 0.0 && r.x1 < r.x2 && r.y1 < r.y2
    ensures Normalize(Copies(r, n), width, height) == Copies(NormalBox(r, width, height), n)
  {
    if n > 0 {
      NormalCopies(r, n - 1, width, height);
      assert Copies(r, n)[1..] == Copies(r, n - 1);
      var b := NormalBox(r, width, height);
      assert [b] + Copies(b, n - 1) == Copies(b, n);
    }
  }

  lemma {:induction false} EmptyFrames(n: nat, width: real, height: real)
    requires width > 0.0 && height > 0.0
    ensures AllBoxes(Copies([], n), width, height) == []
  {
    if n > 0 {
      EmptyFrames(n - 1, width, height);
      assert Copies<seq<RawBox>>([], n)[1..] == Copies([], n - 1);
    }
  }

  lemma {:induction false} SortCopies<T>(x: T, n: nat, key: T -> real)
    ensures SortBy(Copies(x, n), key) == Copies(x, n)
  {
    if n > 0 {
      SortCopies(x, n - 1, key);
      assert Copies(x, n)[1..] == Copies(x, n - 1);
      assert [x] + Copies(x, n - 1) == Copies(x, n);
    }
  }

  /** Boxes at one height make one cluster. */
  lemma OneCluster(b: Box, n: nat, clusters: seq<seq<Box>>, tol: real)
    requires n > 0 && tol >= 0.0 && CutAtGaps(Copies(b, n), clusters, tol)
    ensures clusters == [Copies(b, n)]
  {
    hide Flatten;
    assert Flatten<Box>([]) == [] by { FlattenNothing(); }
    forall c | 0 <= c < |clusters| ensures forall x :: x in clusters[c] ==> x == b {
      BoxesOfClusters(Copies(b, n), clusters, tol, clusters[c]);
    }
    var second := if |clusters| > 1 then 1 else 0;
    SameNear(clusters[0], clusters[second], b, tol);
    assert |clusters| == 1;
    FlattenSnoc([], clusters[0]);
    assert [] + [clusters[0]] == clusters && [] + clusters[0] == clusters[0];
  }

  lemma SameNear(a: seq<Box>, d: seq<Box>, b: Box, tol: real)
    requires a != [] && d != [] && tol >= 0.0 && forall x :: x in a || x in d ==> x == b
    ensures !GapBetween(a, d, tol)
  {
    assert a[|a| - 1] in a && d[0] in d;
  }

  lemma FlattenNothing()
    ensures Flatten<Box>([]) == []
  {
  }

  lemma KeepOnly(c: seq<Box>, n: nat)
    requires |c| >= n
    ensures Kept([c], n) == [c]
  {
    hide SortBy;
    assert [c][1..] == [];
    assert Supported([c], n) == [c] + Supported([], n) == [c];
    var key := (d: seq<Box>) => -(|d| as real);
    SortCopies(c, 1, key);
    assert Copies(c, 1) == [c];
  }

  /**
   The support of a band is its number of boxes, not of frames: however many frames are sampled, the
   boxes of a single one can make a band that is kept.
   */
  lemma OneFrameSupports(r: RawBox, n: nat, width: real, height: real, clusters: seq<seq<Box>>)
    requires n > 0 && width > 0.0 && height > 0.0 && r.x1 < r.x2 && r.y1 < r.y2
    requires
      var sorted := ByCentre(AllBoxes(OneFrame(r, n), width, height));
      sorted != [] ==> CutAtGaps(sorted, clusters, Tolerance(sorted))
    ensures |OneFrame(r, n)| == n && forall i :: 0 < i < n ==> OneFrame(r, n)[i] == []
    ensures Kept(clusters, MinSupport(n)) == [Copies(NormalBox(r, width, height), MinSupport(n))]
  {
    hide Normalize, SortBy, Tolerance, CutAtGaps, NormalBox, Kept;
    var k, b := MinSupport(n), NormalBox(r, width, height);
    var frames := OneFrame(r, n);
    assert frames[0] == Copies(r, k) && frames[1..] == Copies([], n - 1);
    NormalCopies(r, k, width, height);
    EmptyFrames(n - 1, width, height);
    assert AllBoxes(frames, width, height) == Copies(b, k) + [] == Copies(b, k);
    SortCopies(b, k, (b: Box) => b.yc);
    OneCluster(b, k, clusters, Tolerance(Copies(b, k)));
    KeepOnly(Copies(b, k), k);
  }

  /** The frames in which a box was found. */
  function WithBoxes(frames: seq<seq<RawBox>>, width: real, height: real): nat
    requires width > 0.0 && height > 0.0
  {
    if frames == [] then 0
    else (if Normalize(frames[0], width, height) != [] then 1 else 0) + WithBoxes(frames[1..], width, height)
  }

  lemma {:induction false} OneBoxEach(frames: seq<seq<RawBox>>, width: real, height: real)
    requires width > 0.0 && height > 0.0 && forall f :: f in frames ==> |Normalize(f, width, height)| <= 1
    ensures |AllBoxes(frames, width, height)| == WithBoxes(frames, width, height)
  {
    hide Normalize;
    if frames != [] {
      assert frames[0] in frames && forall f :: f in frames[1..] ==> f in frames;
      OneBoxEach(frames[1..], width, height);
    }
  }

  lemma ClusterWithin(boxes: seq<Box>, clusters: seq<seq<Box>>, tol: real, c: seq<Box>)
    requires CutAtGaps(boxes, clusters, tol) && c in clusters
    ensures |c| <= |boxes|
  {
    var k :| 0 <= k < |clusters| && clusters[k] == c;
    FlattenAt(clusters, k);
    hide Flatten, Offset;
  }

  /** Where no frame has more than one box, a band that is kept recurs in enough frames. */
  lemma OneBoxEachSupports(frames: seq<seq<RawBox>>, width: real, height: real, clusters: seq<seq<Box>>, c: seq<Box>)
    requires width > 0.0 && height > 0.0 && forall f :: f in frames ==> |Normalize(f, width, height)| <= 1
    requires
      var sorted := ByCentre(AllBoxes(frames, width, height));
      sorted != [] && CutAtGaps(sorted, clusters, Tolerance(sorted))
    requires c in Kept(clusters, MinSupport(|frames|))
    ensures MinSupport(|frames|) <= WithBoxes(frames, width, height)
  {
    hide Normalize, CutAtGaps, Kept, Tolerance, SortBy, WithBoxes, AllBoxes;
    var boxes := AllBoxes(frames, width, height);
    OneBoxEach(frames, width, height);
    KeptAreDensest(clusters, MinSupport(|frames|));
    SortSorts(boxes, (b: Box) => b.yc);
    ClusterWithin(ByCentre(boxes), clusters, Tolerance(ByCentre(boxes)), c);
  }
}
