/**
 The text similarity of the browser pipeline (`levRatio` in
 web/src/clientside/clientOcr.ts): a one-row dynamic program and the edit distance it
 computes.
 */
module EditDistance {
  function Min(a: nat, b: nat): nat { if a <= b then a else b }

  function Max(a: nat, b: nat): nat { if a <= b then b else a }

  function Cost(x: char, y: char): nat { if x == y then 0 else 1 }

  /** Fewest insertions, deletions and replacements that turn a into b. */
  function Distance(a: string, b: string): nat {
    if a == "" then |b|
    else if b == "" then |a|
    else
      var a', b' := a[..|a| - 1], b[..|b| - 1];
      Min(Min(Distance(a', b) + 1, Distance(a, b') + 1), Distance(a', b') + Cost(a[|a| - 1], b[|b| - 1]))
  }

  // ------------------------------------------------------------ the distance itself

  lemma {:induction false} DistanceSymmetric(a: string, b: string)
    ensures Distance(a, b) == Distance(b, a)
    decreases |a| + |b|
  {
    if a != "" && b != "" {
      var a', b' := a[..|a| - 1], b[..|b| - 1];
      DistanceSymmetric(a', b);
      DistanceSymmetric(a, b');
      DistanceSymmetric(a', b');
    }
  }

  /** At least the difference of the lengths, at most the longer length. */
  lemma {:induction false} DistanceBounds(a: string, b: string)
    ensures |a| - |b| <= Distance(a, b) && |b| - |a| <= Distance(a, b) <= Max(|a|, |b|)
    decreases |a| + |b|
  {
    if a != "" && b != "" {
      var a', b' := a[..|a| - 1], b[..|b| - 1];
      DistanceBounds(a', b);
      DistanceBounds(a, b');
      DistanceBounds(a', b');
    }
  }

  lemma {:induction false} DistanceZero(a: string, b: string)
    ensures Distance(a, b) == 0 <==> a == b
    decreases |a| + |b|
  {
    if a != "" && b != "" {
      var a', b' := a[..|a| - 1], b[..|b| - 1];
      DistanceZero(a', b');
      assert a == a' + [a[|a| - 1]] && b == b' + [b[|b| - 1]];
    }
  }

  /** Going by way of another string is never shorter. */
  lemma {:induction false} DistanceTriangle(a: string, b: string, c: string)
    ensures Distance(a, c) <= Distance(a, b) + Distance(b, c)
    decreases |a| + |b| + |c|
  {
    if a == "" {
      DistanceBounds(b, c);
    } else if c == "" {
      DistanceBounds(a, b);
    } else if b == "" {
      DistanceBounds(a, c);
    } else {
      var a', b', c' := a[..|a| - 1], b[..|b| - 1], c[..|c| - 1];
      var x, y, z := a[|a| - 1], b[|b| - 1], c[|c| - 1];
      if Distance(a, b) == Distance(a', b) + 1 {
        DistanceTriangle(a', b, c);
      } else if Distance(b, c) == Distance(b, c') + 1 {
        DistanceTriangle(a, b, c');
      } else if Distance(a, b) == Distance(a, b') + 1 {
        if Distance(b, c) == Distance(b', c) + 1 {
          DistanceTriangle(a, b', c);
        } else {
          DistanceTriangle(a, b', c');
        }
      } else if Distance(b, c) == Distance(b', c) + 1 {
        DistanceTriangle(a', b', c);
      } else {
        DistanceTriangle(a', b', c');
        assert Cost(x, z) <= Cost(x, y) + Cost(y, z);
      }
    }
  }

  // -------------------------------------------------------------------- edit scripts

  /** A character put in, taken out or replaced at a position. */
  datatype Edit = Insert(at: nat, c: char) | Delete(at: nat) | Replace(at: nat, c: char)

  predicate Fits(s: string, e: Edit) { if e.Insert? then e.at <= |s| else e.at < |s| }

  function Edited(s: string, e: Edit): string
    requires Fits(s, e)
  {
    match e
    case Insert(i, c) => s[..i] + [c] + s[i..]
    case Delete(i) => s[..i] + s[i + 1..]
    case Replace(i, c) => s[i := c]
  }

  /** The edits turn a into b, one after the other. */
  predicate Turns(a: string, edits: seq<Edit>, b: string)
    decreases |edits|
  {
    if edits == [] then a == b else Fits(a, edits[0]) && Turns(Edited(a, edits[0]), edits[1..], b)
  }

  lemma {:induction false} TurnsOn(a: string, edits: seq<Edit>, b: string, e: Edit)
    requires Turns(a, edits, b) && Fits(b, e)
    ensures Turns(a, edits + [e], Edited(b, e))
    decreases |edits|
  {
    if edits == [] {
      assert ([] + [e])[1..] == [];
    } else {
      assert (edits + [e])[1..] == edits[1..] + [e];
      TurnsOn(Edited(a, edits[0]), edits[1..], b, e);
    }
  }

  /** A character behind both is in nobody's way. */
  lemma {:induction false} TurnsBefore(a: string, edits: seq<Edit>, b: string, x: char)
    requires Turns(a, edits, b)
    ensures Turns(a + [x], edits, b + [x])
    decreases |edits|
  {
    if edits != [] {
      assert Edited(a + [x], edits[0]) == Edited(a, edits[0]) + [x];
      TurnsBefore(Edited(a, edits[0]), edits[1..], b, x);
    }
  }

  lemma PutLast(a: string, edits: seq<Edit>, b: string, y: char) returns (more: seq<Edit>)
    requires Turns(a, edits, b)
    ensures Turns(a, more, b + [y]) && |more| == |edits| + 1
  {
    TurnsOn(a, edits, b, Insert(|b|, y));
    assert b[..|b|] + [y] + b[|b|..] == b + [y];
    more := edits + [Insert(|b|, y)];
  }

  lemma TakeLast(a: string, x: char, edits: seq<Edit>, b: string)
    requires Turns(a, edits, b)
    ensures Turns(a + [x], [Delete(|a|)] + edits, b)
  {
    assert (a + [x])[..|a|] + (a + [x])[|a| + 1..] == a;
    assert ([Delete(|a|)] + edits)[1..] == edits;
  }

  lemma ChangeLast(a: string, x: char, edits: seq<Edit>, b: string, y: char) returns (more: seq<Edit>)
    requires Turns(a, edits, b)
    ensures Turns(a + [x], more, b + [y]) && |more| == |edits| + Cost(x, y)
  {
    TurnsBefore(a, edits, b, x);
    more := edits;
    if x != y {
      TurnsOn(a + [x], edits, b + [x], Replace(|b|, y));
      assert (b + [x])[|b| := y] == b + [y];
      more := edits + [Replace(|b|, y)];
    }
  }

  /** As many edits as the distance turn one string into the other. */
  lemma {:induction false} DistanceIsReached(a: string, b: string) returns (edits: seq<Edit>)
    ensures Turns(a, edits, b) && |edits| == Distance(a, b)
    decreases |a| + |b|
  {
    hide Turns, Edited, Fits;
    var a', b' := if a == "" then "" else a[..|a| - 1], if b == "" then "" else b[..|b| - 1];
    assert a != "" ==> a == a' + [a[|a'|]];
    assert b != "" ==> b == b' + [b[|b'|]];
    if a == "" && b == "" {
      edits := [];
      Nothing(a);
    } else if a != "" && (b == "" || Distance(a, b) == Distance(a', b) + 1) {
      edits := DistanceIsReached(a', b);
      TakeLast(a', a[|a'|], edits, b);
      edits := [Delete(|a'|)] + edits;
    } else if a == "" || Distance(a, b) == Distance(a, b') + 1 {
      edits := DistanceIsReached(a, b');
      edits := PutLast(a, edits, b', b[|b'|]);
    } else {
      edits := DistanceIsReached(a', b');
      edits := ChangeLast(a', a[|a'|], edits, b', b[|b'|]);
    }
  }

  lemma Nothing(a: string)
    ensures Turns(a, [], a)
  {
  }

  lemma DistanceBefore(a: string, b: string, x: char)
    ensures Distance(a + [x], b + [x]) <= Distance(a, b)
  {
    assert (a + [x])[..|a|] == a && (b + [x])[..|b|] == b;
  }

  /** An edit before the last character leaves that alone. */
  lemma EditedBefore(s: string, x: char, e: Edit)
    requires Fits(s, e)
    ensures Edited(s + [x], e) == Edited(s, e) + [x]
  {
  }

  lemma LastEditNear(s: string, e: Edit)
    requires Fits(s, e) && e.at == if e.Insert? then |s| else |s| - 1
    ensures Distance(s, Edited(s, e)) <= 1
  {
    var t := Edited(s, e);
    DistanceZero(s, s);
    if e.Insert? {
      assert s != "" ==> t[..|s|] == s;
    } else {
      var n := |s| - 1;
      DistanceZero(s[..n], s[..n]);
      assert e.Replace? ==> t[..n] == s[..n];
      assert e.Delete? ==> t == s[..n];
    }
  }

  /** One edit makes a distance of at most one. */
  lemma {:induction false} OneEditNear(s: string, e: Edit)
    requires Fits(s, e)
    ensures Distance(s, Edited(s, e)) <= 1
    decreases |s|
  {
    hide Distance;
    if e.at == (if e.Insert? then |s| else |s| - 1) {
      LastEditNear(s, e);
    } else {
      var n := |s| - 1;
      assert s == s[..n] + [s[n]];
      OneEditNear(s[..n], e);
      EditedBefore(s[..n], s[n], e);
      hide Edited;
      DistanceBefore(s[..n], Edited(s[..n], e), s[n]);
    }
  }

  /** No edits fewer than the distance do. */
  lemma {:induction false} NoFewerEdits(a: string, edits: seq<Edit>, b: string)
    requires Turns(a, edits, b)
    ensures Distance(a, b) <= |edits|
    decreases |edits|
  {
    hide Distance;
    if edits == [] {
      DistanceZero(a, b);
    } else {
      var next := Edited(a, edits[0]);
      OneEditNear(a, edits[0]);
      NoFewerEdits(next, edits[1..], b);
      DistanceTriangle(a, next, b);
    }
  }

  // ------------------------------------------------------------------- the one row

  /** `levRatio`: equal strings, then an empty one, then the row overwritten line by line. */
  method LevRatio(a: string, b: string) returns (r: real)
    ensures r == Ratio(a, b)
  {
    hide Distance, Ratio;
    ShortCuts(a, b);
    if a == b { return 1.0; }
    if a == "" || b == "" {
      return 0.0;
    }
    var m, n := |a|, |b|;
    var dp := new nat[n + 1];
    for j := 0 to n + 1
      invariant forall k :: 0 <= k < j ==> dp[k] == k
    {
      dp[j] := j;
    }
    Row0(b);
    assert a[..0] == "";
    for i := 1 to m + 1
      invariant dp.Length == n + 1
      invariant forall k :: 0 <= k <= n ==> dp[k] == Distance(a[..i - 1], b[..k])
    {
      var prev := dp[0];
      dp[0] := i;
      Column0(a, i);
      assert b[..0] == "";
      for j := 1 to n + 1
        invariant dp.Length == n + 1
        invariant prev == Distance(a[..i - 1], b[..j - 1])
        invariant forall k :: 0 <= k < j ==> dp[k] == Distance(a[..i], b[..k])
        invariant forall k :: j <= k <= n ==> dp[k] == Distance(a[..i - 1], b[..k])
      {
        var tmp := dp[j];
        Cell(a, b, i, j);
        dp[j] := Min(Min(dp[j] + 1, dp[j - 1] + 1), prev + (if a[i - 1] == b[j - 1] then 0 else 1));
        prev := tmp;
      }
    }
    assert a[..m] == a && b[..n] == b;
    r := 1.0 - dp[n] as real / Max(m, n) as real;
  }

  lemma ShortCuts(a: string, b: string)
    ensures a == b ==> Ratio(a, b) == 1.0
    ensures a != b && (a == "" || b == "") ==> Ratio(a, b) == 0.0
    ensures a != "" && b != "" ==> Ratio(a, b) == 1.0 - Distance(a, b) as real / Max(|a|, |b|) as real
  {
    hide Distance;
    RatioRange(a, b);
    if a != b && (a == "" || b == "") {
      DistanceBounds(a, b);
      WholeFraction(Max(|a|, |b|));
    }
  }

  lemma WholeFraction(n: nat)
    requires n > 0
    ensures n as real / n as real == 1.0
  {
  }

  lemma Column0(a: string, i: nat)
    requires i <= |a|
    ensures Distance(a[..i], "") == i
  {
  }

  lemma Row0(b: string)
    ensures forall k :: 0 <= k <= |b| ==> Distance("", b[..k]) == k
  {
  }

  lemma Cell(a: string, b: string, i: nat, j: nat)
    requires 1 <= i <= |a| && 1 <= j <= |b|
    ensures Distance(a[..i], b[..j]) ==
      Min(Min(Distance(a[..i - 1], b[..j]) + 1, Distance(a[..i], b[..j - 1]) + 1),
          Distance(a[..i - 1], b[..j - 1]) + Cost(a[i - 1], b[j - 1]))
  {
    assert a[..i][..i - 1] == a[..i - 1];
    assert b[..j][..j - 1] == b[..j - 1];
  }

  /** One minus the distance over the longer length. */
  function Ratio(a: string, b: string): real {
    if a == "" && b == "" then 1.0 else 1.0 - Distance(a, b) as real / Max(|a|, |b|) as real
  }

  /** A ratio lies between 0 and 1, is 1 for equal strings only, and does not depend on the order. */
  lemma RatioRange(a: string, b: string)
    ensures 0.0 <= Ratio(a, b) <= 1.0
    ensures Ratio(a, b) == 1.0 <==> a == b
    ensures Ratio(a, b) == Ratio(b, a)
  {
    DistanceBounds(a, b);
    DistanceZero(a, b);
    DistanceSymmetric(a, b);
    if a != "" || b != "" {
      FractionRange(Distance(a, b), Max(|a|, |b|));
    }
  }

  lemma FractionRange(d: nat, n: nat)
    requires d <= n && n > 0
    ensures 0.0 <= d as real / n as real <= 1.0
    ensures d as real / n as real == 0.0 <==> d == 0
  {
    var x := d as real / n as real;
    assert x * n as real == d as real;
  }
}
