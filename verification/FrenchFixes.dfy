/**
 Which fix the French normalizer chooses for a letter run (`_fix_run` in
 worker/subextractor/normalize_fr.py): the first prefix that can elide, then the best split, else none.
 */
module FrenchFixes {
  import opened Wrappers
  import opened Sequences
  import opened Segment
  import opened NormalizeFr

  /** The prefixes in the order in which they are tried; those from the ninth on elide before some words only. */
  function Prefix(i: nat): string
    requires i < 13
  {
    ["jusqu", "lorsqu", "puisqu", "quoiqu", "qu", "j", "d", "l", "n", "c", "s", "m", "t"][i]
  }

  /** The rest of a run is a word that the i-th prefix elides before. */
  predicate Follows(rest: string, i: nat, words: set<string>) {
    rest != "" && Vowel(rest[0]) && rest in words && (i >= 8 ==> rest in StrictContinuations())
  }

  /** The run is the prefix and such a word. */
  predicate Elided(low: string, i: nat, words: set<string>)
    requires i < 13
  {
    Prefix(i) <= low && Follows(low[|Prefix(i)|..], i, words)
  }

  /** The run is the prefix, an apostrophe read as `i`, and such a word. */
  predicate Misread(low: string, i: nat, words: set<string>)
    requires i < 13
  {
    && Prefix(i) <= low && |low| > |Prefix(i)| && low[|Prefix(i)|] == 'i'
    && Follows(low[|Prefix(i)| + 1..], i, words)
  }

  predicate Elides(low: string, i: nat, words: set<string>)
    requires i < 13
  {
    Elided(low, i, words) || Misread(low, i, words)
  }

  lemma PrefixesTried()
    ensures |OpenPrefixes()| == 8 && |StrictPrefixes()| == 5
    ensures forall i :: 0 <= i < 8 ==> OpenPrefixes()[i] == Prefix(i)
    ensures forall i :: 0 <= i < 5 ==> StrictPrefixes()[i] == Prefix(8 + i)
  {
  }

  lemma PlanOfPrefix(low: string, i: nat, words: set<string>)
    requires i < 13
    ensures
      PlanAt(low, Prefix(i), words, i >= 8) ==
      if Elided(low, i, words) then Insert(|Prefix(i)|)
      else if Misread(low, i, words) then Replace(|Prefix(i)|) else Keep
  {
    hide StrictContinuations, Vowel, Prefix;
  }

  lemma {:induction false} NoPlan(low: string, prefixes: seq<string>, words: set<string>, strict: bool)
    requires forall i :: 0 <= i < |prefixes| ==> PlanAt(low, prefixes[i], words, strict).Keep?
    ensures FirstPlan(low, prefixes, words, strict).Keep?
  {
    hide PlanAt;
    if prefixes != [] {
      NoPlan(low, prefixes[1..], words, strict);
    }
  }

  lemma OpenPlans(low: string, words: set<string>, k: nat)
    requires k <= 8 && (forall i :: 0 <= i < k ==> !Elides(low, i, words)) && (k < 8 ==> Elides(low, k, words))
    ensures FirstPlan(low, OpenPrefixes(), words, false)
         == if k < 8 then PlanAt(low, Prefix(k), words, false) else Keep
  {
    hide PlanAt, FirstPlan, Elided, Misread, Prefix, OpenPrefixes, StrictPrefixes;
    PrefixesTried();
    forall i: nat | i < 8 && i <= k ensures PlanAt(low, Prefix(i), words, false).Keep? <==> !Elides(low, i, words) {
      PlanOfPrefix(low, i, words);
    }
    if k < 8 {
      FirstPlanAt(low, OpenPrefixes(), k, words, false);
    } else {
      NoPlan(low, OpenPrefixes(), words, false);
    }
  }

  lemma StrictPlans(low: string, words: set<string>, k: nat)
    requires 8 <= k <= 13 && (forall i :: 8 <= i < k ==> !Elides(low, i, words)) && (k < 13 ==> Elides(low, k, words))
    ensures FirstPlan(low, StrictPrefixes(), words, true)
         == if k < 13 then PlanAt(low, Prefix(k), words, true) else Keep
  {
    hide PlanAt, FirstPlan, Elided, Misread, Prefix, OpenPrefixes, StrictPrefixes;
    PrefixesTried();
    forall i: nat | 8 <= i < 13 && i <= k
      ensures PlanAt(low, Prefix(i), words, true).Keep? <==> !Elides(low, i, words)
    {
      PlanOfPrefix(low, i, words);
    }
    forall i: nat | i < 5 && 8 + i <= k
      ensures PlanAt(low, StrictPrefixes()[i], words, true).Keep? <==> !Elides(low, 8 + i, words)
    {
      assert StrictPrefixes()[i] == Prefix(8 + i);
    }
    if k < 13 {
      FirstPlanAt(low, StrictPrefixes(), k - 8, words, true);
    } else {
      NoPlan(low, StrictPrefixes(), words, true);
    }
  }

  /** A run that is no word is elided at the first prefix that can, with the `i` turned only where the rest needs it. */
  lemma FirstElision(low: string, words: set<string>, k: nat)
    requires low !in words && k < 13 && Elides(low, k, words) && forall i :: 0 <= i < k ==> !Elides(low, i, words)
    ensures PlanOf(low, words) == if Elided(low, k, words) then Insert(|Prefix(k)|) else Replace(|Prefix(k)|)
  {
    hide PlanAt, FirstPlan, Elided, Misread, Prefix, OpenPrefixes, StrictPrefixes, SegmentOf;
    PlanOfPrefix(low, k, words);
    if k < 8 {
      OpenPlans(low, words, k);
    } else {
      OpenPlans(low, words, 8);
      StrictPlans(low, words, k);
    }
  }

  // ------------------------------------------------------------------ there is a best split

  lemma OffsetSame(a: seq<string>, b: seq<string>, k: nat)
    requires k <= |a| && k <= |b| && a[..k] == b[..k]
    ensures Offset(a, k) == Offset(b, k)
  {
    OffsetPrefix(a, k, k);
    OffsetPrefix(b, k, k);
  }

  /** Of two splits of one run with as many pieces one comes first. */
  lemma {:induction false} FirstDiffers(low: string, a: seq<string>, b: seq<string>, n: nat) returns (k: nat)
    requires Flatten(a) == Flatten(b) == low && |a| == |b| && n < |a| && a[..n + 1] != b[..n + 1]
    ensures k <= n && (DiffersAt(a, b, k) || DiffersAt(b, a, k))
  {
    if a[..n] == b[..n] {
      k := n;
      OffsetSame(a, b, n);
      FlattenAt(a, n);
      FlattenAt(b, n);
      assert a[..n + 1] == a[..n] + [a[n]] && b[..n + 1] == b[..n] + [b[n]];
      assert a[n] == low[Offset(a, n)..Offset(a, n + 1)] && b[n] == low[Offset(b, n)..Offset(b, n + 1)];
      hide Flatten;
    } else {
      k := FirstDiffers(low, a, b, n - 1);
    }
  }

  lemma OneComesFirst(low: string, a: seq<string>, b: seq<string>, words: set<string>, most: nat)
    requires Candidate(low, a, words, most) && Candidate(low, b, words, most) && |a| == |b| && a != b
    ensures Before(a, b) || Before(b, a)
  {
    hide DiffersAt, Flatten;
    assert a[..|a|] == a && b[..|b|] == b;
    var k := FirstDiffers(low, a, b, |a| - 1);
  }

  function Size(q: seq<string>, k: nat): nat { if k < |q| then |q[k]| else 0 }

  lemma SizesDescend(q: seq<string>, r: seq<string>)
    requires Before(q, r) && |q| == |r| <= 3
    ensures
      || Size(q, 0) < Size(r, 0)
      || (Size(q, 0) == Size(r, 0) && Size(q, 1) < Size(r, 1))
      || (Size(q, 0) == Size(r, 0) && Size(q, 1) == Size(r, 1) && Size(q, 2) < Size(r, 2))
  {
    var k: nat :| k < |q| && DiffersAt(q, r, k);
    assert forall i :: 0 <= i < k ==> q[i] == q[..k][i] == r[..k][i] == r[i];
  }

  /** Where there is a split there is a best one. */
  lemma {:induction false} BestExists(low: string, r: seq<string>, words: set<string>) returns (best: seq<string>)
    requires Candidate(low, r, words, 3)
    ensures Best(low, best, words, 3)
    decreases |r|, Size(r, 0), Size(r, 1), Size(r, 2)
  {
    if Best(low, r, words, 3) {
      best := r;
    } else {
      var q :| Candidate(low, q, words, 3) && !(|r| < |q| || (|r| == |q| && (r == q || Before(r, q))));
      assert |q| <= |r| <= 3;
      hide Candidate, Best, Before;
      if |q| == |r| {
        OneComesFirst(low, r, q, words, 3);
        SizesDescend(q, r);
      }
      best := BestExists(low, q, words);
    }
  }

  /**
   A run that is no word and cannot be elided is split, into as few words as possible, at most three of
   two letters or more, if it has five letters and there is such a split; else it stays.
   */
  lemma SplitOrStays(low: string, words: set<string>)
    requires low !in words && forall i :: 0 <= i < 13 ==> !Elides(low, i, words)
    ensures
      var plan := PlanOf(low, words);
      if |low| >= 5 && exists q :: Candidate(low, q, words, 3) then plan.Space? && Best(low, plan.pieces, words, 3)
      else plan.Keep?
  {
    hide PlanAt, FirstPlan, Elides, Prefix, OpenPrefixes, StrictPrefixes, Candidate, Best;
    OpenPlans(low, words, 8);
    StrictPlans(low, words, 13);
    if q :| Candidate(low, q, words, 3) {
      var best := BestExists(low, q, words);
    }
    assert forall r :: Best(low, r, words, 3) ==> Candidate(low, r, words, 3) by { BestSplits(low, words); }
  }

  lemma BestSplits(low: string, words: set<string>)
    ensures forall r :: Best(low, r, words, 3) ==> Candidate(low, r, words, 3)
  {
    hide Candidate, Before;
  }

  /** Two words that were read as one are parted again, or an earlier pair is. */
  lemma GluedWords(u: string, v: string, words: set<string>)
    requires u in words && v in words && |u| >= 2 && |v| >= 2 && |u + v| >= 5 && u + v !in words
    requires forall i :: 0 <= i < 13 ==> !Elides(u + v, i, words)
    ensures
      var plan := PlanOf(u + v, words);
      && plan.Space? && |plan.pieces| == 2 && plan.pieces[0] + plan.pieces[1] == u + v
      && plan.pieces[0] in words && plan.pieces[1] in words && 2 <= |plan.pieces[0]| <= |u| && |plan.pieces[1]| >= 2
  {
    var q := [u, v];
    assert q[..1] == [u] && Flatten([u]) == u by { assert [u][..0] == []; assert "" + u == u; }
    assert Candidate(u + v, q, words, 3);
    hide Elides, PlanOf;
    SplitOrStays(u + v, words);
    var pieces := PlanOf(u + v, words).pieces;
    assert Best(u + v, pieces, words, 3);
    assert pieces[..1] == [pieces[0]] && Flatten([pieces[0]]) == pieces[0] by {
      assert [pieces[0]][..0] == [];
      assert "" + pieces[0] == pieces[0];
    }
    if pieces != q {
      var k: nat :| k < |pieces| && DiffersAt(pieces, q, k);
      assert q[..1] == [u];
    }
  }

  lemma CutInTwo(run: string, pieces: seq<string>)
    requires |pieces| == 2 && |pieces[0]| + |pieces[1]| == |run|
    ensures Cut(run, pieces) == run[..|pieces[0]|] + " " + run[|pieces[0]|..]
  {
    var rest := run[|pieces[0]|..];
    assert pieces[1..] == [pieces[1]];
    assert Cut(rest, [pieces[1]]) == rest[..|pieces[1]|] == rest;
  }

  /** The two words stand apart in the text, letters and capitals as they were. */
  lemma GluedText(run: string, u: string, v: string, words: set<string>) returns (n: nat)
    requires Lower(run) == u + v && u in words && v in words && |u| >= 2 && |v| >= 2 && |u + v| >= 5
    requires u + v !in words && forall i :: 0 <= i < 13 ==> !Elides(u + v, i, words)
    ensures 2 <= n <= |u| && (u + v)[..n] in words && (u + v)[n..] in words
    ensures FixedRun(run, words) == run[..n] + " " + run[n..]
  {
    hide Elides, PlanOf;
    GluedWords(u, v, words);
    var pieces := PlanOf(u + v, words).pieces;
    n := |pieces[0]|;
    assert (u + v)[..n] == pieces[0] && (u + v)[n..] == pieces[1];
    CutInTwo(run, pieces);
  }
}
