/**
 The word break of a letter run (worker/subextractor/normalize_fr.py:122-143): a
 depth-first search over a stack of pieces that keeps the first split with the fewest pieces.
 */
module Segment {
  import opened Sequences
  import opened Wrappers

  const MIN_PIECE := 2

  /** A cut of the string into words of at least two letters. */
  predicate Splits(low: string, pieces: seq<string>, words: set<string>) {
    && Flatten(pieces) == low
    && forall i :: 0 <= i < |pieces| ==> |pieces[i]| >= MIN_PIECE && pieces[i] in words
  }

  /** A split the search may return. */
  predicate Candidate(low: string, pieces: seq<string>, words: set<string>, most: nat) {
    2 <= |pieces| <= most && Splits(low, pieces, words)
  }

  /** Where they first differ, a has the shorter piece. */
  predicate DiffersAt(a: seq<string>, b: seq<string>, k: nat) {
    k < |a| && k < |b| && a[..k] == b[..k] && |a[k]| < |b[k]|
  }

  /** Earlier in shortest-first order. */
  predicate Before(a: seq<string>, b: seq<string>) { exists k: nat | k < |a| :: DiffersAt(a, b, k) }

  /** Fewest pieces, and the earliest of those. */
  ghost predicate Best(low: string, r: seq<string>, words: set<string>, most: nat) {
    && Candidate(low, r, words, most)
    && forall q :: Candidate(low, q, words, most) ==> |r| < |q| || (|r| == |q| && (r == q || Before(r, q)))
  }

  /** What the search is to return. */
  ghost function SegmentOf(low: string, words: set<string>, most: nat): (r: Option<seq<string>>)
    ensures r.Some? ==> Best(low, r.value, words, most)
  {
    if exists r :: Best(low, r, words, most) then
      var r :| Best(low, r, words, most);
      Some(r)
    else None
  }

  lemma OneWay(a: seq<string>, b: seq<string>, i: nat, k: nat)
    requires DiffersAt(a, b, i)
    ensures !DiffersAt(b, a, k)
  {
    if i < k && k <= |a| && k <= |b| {
      assert a[..k][i] == a[i] && b[..k][i] == b[i];
    } else if k < i {
      assert a[..i][k] == a[k] && b[..i][k] == b[k];
    }
  }

  lemma BeforeOneWay(a: seq<string>, b: seq<string>)
    requires Before(a, b)
    ensures !Before(b, a) && a != b
  {
    hide DiffersAt;
    var i: nat :| i < |a| && DiffersAt(a, b, i);
    forall k: nat ensures !DiffersAt(b, a, k) {
      OneWay(a, b, i, k);
    }
    OneWay(a, b, i, i);
  }

  lemma BestUnique(low: string, a: seq<string>, b: seq<string>, words: set<string>, most: nat)
    requires Best(low, a, words, most) && Best(low, b, words, most)
    ensures a == b
  {
    hide Candidate, Before;
    if Before(a, b) {
      BeforeOneWay(a, b);
    }
  }

  // ------------------------------------------------------------------- the search

  /** Candidates that go on from the pieces on the stack. */
  predicate Extends(low: string, q: seq<string>, stack: seq<string>, words: set<string>, most: nat) {
    stack <= q && Candidate(low, q, words, most)
  }

  /** Those whose next piece ends before `limit`. */
  predicate ExtendsBelow(low: string, q: seq<string>, stack: seq<string>, limit: int, words: set<string>, most: nat) {
    Extends(low, q, stack, words, most) && |q| > |stack| && |Flatten(stack)| + |q[|stack|]| < limit
  }

  /** The next piece of a split that goes on. */
  lemma NextPiece(low: string, q: seq<string>, stack: seq<string>, words: set<string>, most: nat)
    requires Extends(low, q, stack, words, most) && |Flatten(stack)| < |low|
    ensures |q| > |stack|
    ensures
      var start := |Flatten(stack)|;
      var end := start + |q[|stack|]|;
      start + MIN_PIECE <= end <= |low| && q[|stack|] == low[start..end] && q[|stack|] in words
      && Extends(low, q, stack + [low[start..end]], words, most)
  {
    hide Flatten;
    assert |q| == |stack| ==> q == stack;
    assert Flatten(q) == low;
    var next := stack + [q[|stack|]];
    assert q[..|stack| + 1] == next;
    FlattenPrefix(next, q);
    FlattenSnoc(stack, q[|stack|]);
    assert Flatten(next) == low[..|Flatten(next)|];
  }

  lemma NothingAfter(low: string, q: seq<string>, stack: seq<string>, words: set<string>, most: nat)
    requires Extends(low, q, stack, words, most) && Flatten(stack) == low
    ensures q == stack
  {
    if |q| > |stack| {
      var next := stack + [q[|stack|]];
      assert q[..|stack| + 1] == next;
      FlattenPrefix(next, q);
      FlattenSnoc(stack, q[|stack|]);
    }
  }

  /** The best so far against a family of candidates met since `was`. */
  predicate Beats(best: Option<seq<string>>, was: Option<seq<string>>, q: seq<string>) {
    best.Some? && |best.value| <= |q| &&
      (best != was && |best.value| == |q| ==> best.value == q || Before(best.value, q))
  }

  /** Only better ones replace it. */
  predicate Improves(low: string, best: Option<seq<string>>, was: Option<seq<string>>, stack: seq<string>,
          words: set<string>, most: nat) {
    best != was ==>
      best.Some? && Extends(low, best.value, stack, words, most) && (was.Some? ==> |best.value| < |was.value|)
  }

  /** What replaced it has a next piece that ends before `limit`. */
  predicate FoundBelow(low: string, best: Option<seq<string>>, was: Option<seq<string>>, stack: seq<string>,
          limit: int, words: set<string>, most: nat) {
    best != was ==> best.Some? && ExtendsBelow(low, best.value, stack, limit, words, most)
  }

  class Search {
    const low: string
    const words: set<string>
    const most: nat
    var pieces: seq<string>
    var best: Option<seq<string>>

    constructor (low: string, words: set<string>, most: nat)
      ensures this.low == low && this.words == words && this.most == most && pieces == [] && best == None
    {
      this.low, this.words, this.most, pieces, best := low, words, most, [], None;
    }

    method Rec(start: nat)
      requires start <= |low| && Flatten(pieces) == low[..start] && |pieces| <= most
      requires forall i :: 0 <= i < |pieces| ==> |pieces[i]| >= MIN_PIECE && pieces[i] in words
      modifies this
      ensures pieces == old(pieces)
      ensures Improves(low, best, old(best), pieces, words, most)
      ensures forall q :: Extends(low, q, pieces, words, most) ==> Beats(best, old(best), q)
      decreases |low| - start
    {
      hide Before;
      if |pieces| >= most && start < |low| {
        forall q | Extends(low, q, pieces, words, most) ensures false {
          NextPiece(low, q, pieces, words, most);
        }
        return;
      }
      if start == |low| {
        assert low[..start] == low;
        forall q | Extends(low, q, pieces, words, most) ensures q == pieces {
          NothingAfter(low, q, pieces, words, most);
        }
        if |pieces| >= 2 && (best.None? || |pieces| < |best.value|) {
          best := Some(pieces);
        }
        return;
      }
      Explore(start);
    }

    /** The loop over the ends of the next piece. */
    method Explore(start: nat)
      requires start < |low| && Flatten(pieces) == low[..start] && |pieces| < most
      requires forall i :: 0 <= i < |pieces| ==> |pieces[i]| >= MIN_PIECE && pieces[i] in words
      modifies this
      ensures pieces == old(pieces)
      ensures Improves(low, best, old(best), pieces, words, most)
      ensures forall q :: Extends(low, q, pieces, words, most) ==> Beats(best, old(best), q)
      decreases |low| - start, 0
    {
      hide Extends, Before, Beats, Improves, ExtendsBelow, FoundBelow, Flatten;
      ghost var stack, was := pieces, best;
      var end := start + MIN_PIECE;
      Unexplored(low, stack, start, end, was, words, most);
      while end < |low| + 1
        invariant start + MIN_PIECE <= end && pieces == stack
        invariant Improves(low, best, was, stack, words, most)
        invariant FoundBelow(low, best, was, stack, end, words, most)
        invariant forall q :: ExtendsBelow(low, q, stack, end, words, most) ==> Beats(best, was, q)
        decreases |low| + 1 - end
      {
        ghost var before := best;
        ghost var next := stack + [low[start..end]];
        if low[start..end] in words {
          pieces := pieces + [low[start..end]];
          FlattenSnoc(stack, low[start..end]);
          assert low[..start] + low[start..end] == low[..end];
          Rec(end);
          pieces := pieces[..|pieces| - 1];
          assert pieces == stack;
        }
        FoundOn(low, best, before, was, stack, start, end, words, most);
        ImprovesOn(low, best, before, was, stack, low[start..end], words, most);
        forall q | ExtendsBelow(low, q, stack, end + 1, words, most) ensures Beats(best, was, q) {
          OneMoreEnd(low, q, best, before, was, stack, start, end, words, most);
        }
        end := end + 1;
      }
      forall q | Extends(low, q, stack, words, most) ensures Beats(best, was, q) {
        AllBelow(low, q, stack, start, end, words, most);
      }
    }
  }

  lemma Unexplored(low: string, stack: seq<string>, start: nat, limit: int, was: Option<seq<string>>,
          words: set<string>, most: nat)
    requires start < |low| && Flatten(stack) == low[..start] && limit == start + MIN_PIECE
    ensures forall q :: !ExtendsBelow(low, q, stack, limit, words, most)
    ensures Improves(low, was, was, stack, words, most) && FoundBelow(low, was, was, stack, limit, words, most)
  {
    forall q | ExtendsBelow(low, q, stack, limit, words, most) ensures false {
      NextPiece(low, q, stack, words, most);
    }
  }

  lemma AllBelow(low: string, q: seq<string>, stack: seq<string>, start: nat, end: int, words: set<string>, most: nat)
    requires start < |low| && Flatten(stack) == low[..start] && end > |low| && Extends(low, q, stack, words, most)
    ensures ExtendsBelow(low, q, stack, end, words, most)
  {
    NextPiece(low, q, stack, words, most);
  }

  lemma FoundOn(low: string, best: Option<seq<string>>, before: Option<seq<string>>, was: Option<seq<string>>,
                stack: seq<string>, start: nat, end: nat, words: set<string>, most: nat)
    requires start < end <= |low| && Flatten(stack) == low[..start]
    requires FoundBelow(low, before, was, stack, end, words, most)
    requires best == before || Improves(low, best, before, stack + [low[start..end]], words, most)
    ensures FoundBelow(low, best, was, stack, end + 1, words, most)
  {
    if best != before {
      var next := stack + [low[start..end]];
      assert stack <= next <= best.value;
      assert best.value[|stack|] == next[|stack|];
    }
    hide Candidate;
  }

  lemma ImprovesOn(low: string, best: Option<seq<string>>, before: Option<seq<string>>, was: Option<seq<string>>,
                   stack: seq<string>, piece: string, words: set<string>, most: nat)
    requires Improves(low, before, was, stack, words, most)
    requires best == before || Improves(low, best, before, stack + [piece], words, most)
    ensures Improves(low, best, was, stack, words, most)
  {
    if best != before {
      assert stack <= stack + [piece] <= best.value;
    }
  }

  /** A candidate whose next piece ends at `end` or before. */
  lemma OneMoreEnd(low: string, q: seq<string>, best: Option<seq<string>>, before: Option<seq<string>>,
          was: Option<seq<string>>, stack: seq<string>, start: nat, end: nat, words: set<string>, most: nat)
    requires start < end <= |low| && Flatten(stack) == low[..start] && ExtendsBelow(low, q, stack, end + 1, words, most)
    requires Improves(low, before, was, stack, words, most)
    requires forall p :: ExtendsBelow(low, p, stack, end, words, most) ==> Beats(before, was, p)
    requires
      var next := stack + [low[start..end]];
      if low[start..end] in words then
        Improves(low, best, before, next, words, most)
        && (forall p :: Extends(low, p, next, words, most) ==> Beats(best, before, p))
      else best == before
    requires FoundBelow(low, before, was, stack, end, words, most)
    ensures Beats(best, was, q)
  {
    NextPiece(low, q, stack, words, most);
    var next := stack + [low[start..end]];
    if |Flatten(stack)| + |q[|stack|]| < end {
      assert Beats(before, was, q);
    } else {
      assert Extends(low, q, next, words, most);
      assert Beats(best, before, q);
      if best == before && before != was && |best.value| == |q| {
        ShorterFirst(best.value, q, stack);
      }
    }
  }

  lemma ShorterFirst(a: seq<string>, b: seq<string>, stack: seq<string>)
    requires stack <= a && stack <= b && |a| > |stack| && |b| > |stack| && |a[|stack|]| < |b[|stack|]|
    ensures Before(a, b)
  {
    assert DiffersAt(a, b, |stack|);
  }

  /** `_segment`. */
  method SegmentRun(low: string, words: set<string>, most: nat) returns (r: Option<seq<string>>)
    ensures r == SegmentOf(low, words, most)
    ensures r.None? <==> forall q :: !Candidate(low, q, words, most)
  {
    hide Candidate, Before, Flatten;
    var search := new Search(low, words, most);
    assert Flatten<char>([]) == low[..0] by { EmptyFlatten(); }
    search.Rec(0);
    r := search.best;
    forall q | Candidate(low, q, words, most) ensures Extends(low, q, [], words, most) {
    }
    if r.Some? {
      assert Best(low, r.value, words, most);
      var s := SegmentOf(low, words, most);
      BestUnique(low, r.value, s.value, words, most);
    }
  }

  lemma EmptyFlatten()
    ensures Flatten<char>([]) == ""
  {
  }
}
