/** Pieces of a list put together, and a stable sort by a number, as `list.sort(key=...)` does it. */
module Sequences {
  function Flatten<T>(parts: seq<seq<T>>): seq<T> {
    if parts == [] then [] else Flatten(parts[..|parts| - 1]) + parts[|parts| - 1]
  }

  lemma FlattenSnoc<T>(parts: seq<seq<T>>, p: seq<T>)
    ensures Flatten(parts + [p]) == Flatten(parts) + p
  {
    assert (parts + [p])[..|parts|] == parts;
  }

  lemma {:induction false} FlattenPrefix<T>(a: seq<seq<T>>, q: seq<seq<T>>)
    requires a <= q
    ensures Flatten(a) <= Flatten(q)
    decreases |q|
  {
    if |a| < |q| {
      FlattenPrefix(a, q[..|q| - 1]);
    } else {
      assert a == q;
    }
  }

  lemma {:induction false} FlattenFront<T>(parts: seq<seq<T>>)
    requires parts != []
    ensures Flatten(parts) == parts[0] + Flatten(parts[1..])
    decreases |parts|
  {
    var n := |parts| - 1;
    if n > 0 {
      FlattenFront(parts[..n]);
      assert parts[..n][1..] == parts[1..][..n - 1];
      assert parts[1..][n - 1] == parts[n];
    } else {
      assert parts == [] + [parts[0]];
    }
  }

  /** Where a part begins in the whole. */
  function Offset<T>(parts: seq<seq<T>>, c: nat): nat
    requires c <= |parts|
  {
    if c == 0 then 0 else Offset(parts, c - 1) + |parts[c - 1]|
  }

  /** The part that holds the i-th element. */
  predicate Holds<T>(parts: seq<seq<T>>, c: nat, i: nat) {
    c < |parts| && Offset(parts, c) <= i < Offset(parts, c + 1)
  }

  lemma {:induction false} OffsetPrefix<T>(parts: seq<seq<T>>, n: nat, c: nat)
    requires c <= n <= |parts|
    ensures Offset(parts[..n], c) == Offset(parts, c)
    decreases c
  {
    if c > 0 {
      OffsetPrefix(parts, n, c - 1);
    }
  }

  /** Parts are stretches of the whole, one after the other. */
  lemma {:induction false} FlattenAt<T>(parts: seq<seq<T>>, c: nat)
    requires c < |parts|
    ensures Offset(parts, c + 1) <= |Flatten(parts)| == Offset(parts, |parts|)
    ensures Flatten(parts)[Offset(parts, c)..Offset(parts, c + 1)] == parts[c]
    decreases |parts|
  {
    var n := |parts| - 1;
    FlattenLength(parts);
    FlattenLength(parts[..n]);
    OffsetPrefix(parts, n, n);
    if c < n {
      FlattenAt(parts[..n], c);
      OffsetPrefix(parts, n, c);
      OffsetPrefix(parts, n, c + 1);
    }
  }

  lemma {:induction false} FlattenLength<T>(parts: seq<seq<T>>)
    ensures |Flatten(parts)| == Offset(parts, |parts|)
    decreases |parts|
  {
    if parts != [] {
      FlattenLength(parts[..|parts| - 1]);
      OffsetPrefix(parts, |parts| - 1, |parts| - 1);
    }
  }

  lemma {:induction false} OffsetsAscend<T>(parts: seq<seq<T>>, a: nat, b: nat)
    requires a <= b <= |parts|
    ensures Offset(parts, a) <= Offset(parts, b)
    decreases b
  {
    if a < b {
      OffsetsAscend(parts, a, b - 1);
    }
  }

  /** Every element is in some part. */
  lemma {:induction false} OneHolds<T>(parts: seq<seq<T>>, i: nat, n: nat) returns (c: nat)
    requires n <= |parts| && i < Offset(parts, n)
    ensures c < n && Holds(parts, c, i)
    decreases n
  {
    if i < Offset(parts, n - 1) {
      c := OneHolds(parts, i, n - 1);
    } else {
      c := n - 1;
    }
  }

  function InsertBy<T>(x: T, s: seq<T>, key: T -> real): seq<T> {
    if s == [] || key(x) <= key(s[0]) then [x] + s else [s[0]] + InsertBy(x, s[1..], key)
  }

  function SortBy<T>(s: seq<T>, key: T -> real): seq<T> {
    if s == [] then [] else InsertBy(s[0], SortBy(s[1..], key), key)
  }

  predicate Ascending<T>(s: seq<T>, key: T -> real) { forall i, j :: 0 <= i < j < |s| ==> key(s[i]) <= key(s[j]) }

  /** The elements of one key, in order. */
  function WithKey<T>(s: seq<T>, key: T -> real, k: real): seq<T> {
    if s == [] then [] else (if key(s[0]) == k then [s[0]] else []) + WithKey(s[1..], key, k)
  }

  lemma {:induction false} InsertContents<T>(x: T, s: seq<T>, key: T -> real)
    ensures multiset(InsertBy(x, s, key)) == multiset([x]) + multiset(s)
  {
    if s != [] && key(x) > key(s[0]) {
      InsertContents(x, s[1..], key);
      assert s == [s[0]] + s[1..];
    }
  }

  lemma {:induction false} InsertAscending<T>(x: T, s: seq<T>, key: T -> real)
    requires Ascending(s, key)
    ensures Ascending(InsertBy(x, s, key), key)
  {
    if s != [] && key(x) > key(s[0]) {
      InsertAscending(x, s[1..], key);
      InsertContents(x, s[1..], key);
      var rest := InsertBy(x, s[1..], key);
      forall i | 0 <= i < |rest| ensures key(s[0]) <= key(rest[i]) {
        assert rest[i] in multiset(rest);
        if rest[i] != x {
          assert rest[i] in multiset(s[1..]);
        }
      }
    }
  }

  lemma {:induction false} InsertStable<T>(x: T, s: seq<T>, key: T -> real, k: real)
    requires Ascending(s, key)
    ensures WithKey(InsertBy(x, s, key), key, k) == (if key(x) == k then [x] else []) + WithKey(s, key, k)
  {
    if s != [] && key(x) > key(s[0]) {
      InsertStable(x, s[1..], key, k);
      assert ([s[0]] + InsertBy(x, s[1..], key))[1..] == InsertBy(x, s[1..], key);
      if key(x) == k {
        assert WithKey(s, key, k) == WithKey(s[1..], key, k);
      }
    } else {
      assert ([x] + s)[1..] == s;
    }
  }

  /** The same elements in ascending order, equal ones in their old order. */
  lemma {:induction false} SortSorts<T>(s: seq<T>, key: T -> real)
    ensures Ascending(SortBy(s, key), key)
    ensures multiset(SortBy(s, key)) == multiset(s) && |SortBy(s, key)| == |s|
    ensures forall k :: WithKey(SortBy(s, key), key, k) == WithKey(s, key, k)
  {
    if s != [] {
      var rest := SortBy(s[1..], key);
      SortSorts(s[1..], key);
      InsertAscending(s[0], rest, key);
      InsertContents(s[0], rest, key);
      assert s == [s[0]] + s[1..];
      forall k ensures WithKey(SortBy(s, key), key, k) == WithKey(s, key, k) {
        InsertStable(s[0], rest, key, k);
      }
      assert |multiset(SortBy(s, key))| == |multiset(s)|;
    }
  }

  // ------------------------------------------------------------- counting, bounds

  /** How often an element occurs. */
  function Count<T(==)>(s: seq<T>, x: T): nat {
    if s == [] then 0 else Count(s[..|s| - 1], x) + if s[|s| - 1] == x then 1 else 0
  }

  function Min(a: real, b: real): real { if a <= b then a else b }

  function Max(a: real, b: real): real { if a >= b then a else b }

  // ------------------------------------------------------- there is one stable sort

  lemma {:induction false} WithKeyIn<T>(s: seq<T>, key: T -> real, k: real, x: T)
    ensures x in WithKey(s, key, k) <==> x in s && key(x) == k
  {
    if s != [] {
      WithKeyIn(s[1..], key, k, x);
      assert s == [s[0]] + s[1..];
    }
  }

  lemma WithKeyFirst<T>(s: seq<T>, key: T -> real)
    requires s != []
    ensures WithKey(s, key, key(s[0])) != [] && WithKey(s, key, key(s[0]))[0] == s[0]
  {
  }

  lemma AscendingFirst<T>(s: seq<T>, key: T -> real, x: T)
    requires Ascending(s, key) && x in s
    ensures key(s[0]) <= key(x)
  {
    var i :| 0 <= i < |s| && s[i] == x;
  }

  /** Two ascending lists that hold the same elements of every key, in the same order, are equal. */
  lemma {:induction false} StableSortUnique<T>(a: seq<T>, b: seq<T>, key: T -> real)
    requires Ascending(a, key) && Ascending(b, key) && forall k :: WithKey(a, key, k) == WithKey(b, key, k)
    ensures a == b
    decreases |a|
  {
    hide WithKey, Ascending;
    if a == [] {
      if b != [] {
        WithKeyFirst(b, key);
        WithKeyIn(a, key, key(b[0]), b[0]);
      }
    } else {
      WithKeyFirst(a, key);
      assert a[0] in WithKey(b, key, key(a[0]));
      WithKeyIn(b, key, key(a[0]), a[0]);
      WithKeyFirst(b, key);
      assert b[0] in WithKey(a, key, key(b[0]));
      WithKeyIn(a, key, key(b[0]), b[0]);
      AscendingFirst(a, key, b[0]);
      AscendingFirst(b, key, a[0]);
      assert key(a[0]) == key(b[0]) && a[0] == b[0];
      forall k ensures WithKey(a[1..], key, k) == WithKey(b[1..], key, k) {
        WithKeyTail(a, key, k);
        WithKeyTail(b, key, k);
      }
      AscendingTail(a, key);
      AscendingTail(b, key);
      StableSortUnique(a[1..], b[1..], key);
      assert a == [a[0]] + a[1..] && b == [b[0]] + b[1..];
    }
  }

  lemma WithKeyTail<T>(s: seq<T>, key: T -> real, k: real)
    requires s != []
    ensures WithKey(s, key, k) == (if key(s[0]) == k then [s[0]] else []) + WithKey(s[1..], key, k)
    ensures WithKey(s[1..], key, k) == WithKey(s, key, k)[if key(s[0]) == k then 1 else 0..]
  {
  }

  lemma AscendingTail<T>(s: seq<T>, key: T -> real)
    requires s != [] && Ascending(s, key)
    ensures Ascending(s[1..], key)
  {
  }

  /** The sort is the only ascending list that keeps elements of one key in their order. */
  lemma SortIs<T>(s: seq<T>, sorted: seq<T>, key: T -> real)
    requires Ascending(sorted, key) && forall k :: WithKey(sorted, key, k) == WithKey(s, key, k)
    ensures SortBy(s, key) == sorted
  {
    hide WithKey, Ascending, SortBy;
    SortSorts(s, key);
    StableSortUnique(SortBy(s, key), sorted, key);
  }
}
