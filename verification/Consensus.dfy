/**
 Character voting over repeated readings of one subtitle line (`_align_to_anchor` and
 `consensus_text` in worker/subextractor/dedup.py).

 The string matching library is a parameter: `ratio` is its similarity, never negative,
 and `opcodes` its edit script, whose blocks cover both strings in order.
 */
module Consensus {
  import opened Wrappers

  datatype Tag = Equal | Replace | Delete | Insert

  /** Block of an edit script: positions [i1, i2) of the first string against [j1, j2) of the second. */
  datatype Block = Block(tag: Tag, i1: nat, i2: nat, j1: nat, j2: nat)

  type Opcodes = (string, string) -> seq<Block>

  type Similarity = (string, string) -> real

  predicate BlockOk(b: Block, a: string, t: string) {
    && b.i1 <= b.i2 <= |a| && b.j1 <= b.j2 <= |t|
    && (b.tag == Equal ==> a[b.i1..b.i2] == t[b.j1..b.j2])
    && (b.tag == Delete ==> b.j1 == b.j2)
    && (b.tag == Insert ==> b.i1 == b.i2)
  }

  /** The blocks run from (i, j) to the ends of both strings without a gap. */
  predicate Covers(ops: seq<Block>, a: string, t: string, i: nat, j: nat) {
    if ops == [] then i == |a| && j == |t|
    else
      && BlockOk(ops[0], a, t) && ops[0].i1 == i && ops[0].j1 == j
      && Covers(ops[1..], a, t, ops[0].i2, ops[0].j2)
  }

  // ------------------------------------------------------------------ alignment

  /** What a block puts at each of its positions: a character of t, or None for a deletion. */
  function BlockChars(b: Block, t: string): seq<Option<char>>
    requires b.i1 <= b.i2 && b.j1 <= b.j2 <= |t|
    requires b.tag == Equal ==> b.i2 - b.i1 == b.j2 - b.j1
  {
    seq(b.i2 - b.i1, k requires 0 <= k < b.i2 - b.i1 =>
      if (b.tag == Equal || b.tag == Replace) && b.j1 + k < b.j2 then Some(t[b.j1 + k]) else None)
  }

  /** The blocks' characters one after the other. */
  function Aligned(ops: seq<Block>, a: string, t: string, i: nat, j: nat): (r: seq<Option<char>>)
    requires Covers(ops, a, t, i, j) && i <= |a|
    ensures |r| == |a| - i
  {
    if ops == [] then [] else BlockChars(ops[0], t) + Aligned(ops[1..], a, t, ops[0].i2, ops[0].j2)
  }

  function Align(opcodes: Opcodes, a: string, t: string): (r: seq<Option<char>>)
    requires Covers(opcodes(a, t), a, t, 0, 0)
    ensures |r| == |a|
  {
    Aligned(opcodes(a, t), a, t, 0, 0)
  }

  /** One block of the script, and what is left of it. */
  lemma AlignedStep(ops: seq<Block>, n: nat, a: string, t: string, i: nat, j: nat)
    requires n < |ops| && i <= |a| && Covers(ops[n..], a, t, i, j)
    ensures var b := ops[n];
      && BlockOk(b, a, t) && b.i1 == i && Covers(ops[n + 1..], a, t, b.i2, b.j2)
      && Aligned(ops[n..], a, t, i, j) == BlockChars(b, t) + Aligned(ops[n + 1..], a, t, b.i2, b.j2)
  {
    assert ops[n..][1..] == ops[n + 1..];
  }

  /** The inner loops: one block written into the list. */
  method WriteBlock(res: array<Option<char>>, b: Block, anchor: string, t: string)
    requires BlockOk(b, anchor, t) && res.Length == |anchor|
    requires forall k :: b.i1 <= k < b.i2 ==> res[k] == None
    modifies res
    ensures res[b.i1..b.i2] == BlockChars(b, t)
    ensures res[..b.i1] == old(res[..b.i1]) && res[b.i2..] == old(res[b.i2..])
  {
    BlockLengths(b, anchor, t);
    ghost var chars := BlockChars(b, t);
    if b.tag == Equal || b.tag == Replace {
      for off := 0 to b.i2 - b.i1
        invariant forall k :: 0 <= k < |anchor| && !(b.i1 <= k < b.i2) ==> res[k] == old(res[k])
        invariant forall k :: 0 <= k < off ==> res[b.i1 + k] == chars[k]
      {
        res[b.i1 + off] := if b.j1 + off < b.j2 then Some(t[b.j1 + off]) else None;
      }
    }
  }

  lemma BlockLengths(b: Block, a: string, t: string)
    requires BlockOk(b, a, t)
    ensures b.tag == Equal ==> b.i2 - b.i1 == b.j2 - b.j1
  {
    if b.tag == Equal {
      assert |a[b.i1..b.i2]| == |t[b.j1..b.j2]|;
    }
  }

  /** `_align_to_anchor`: the result list is filled block by block. */
  method AlignToAnchor(opcodes: Opcodes, anchor: string, t: string) returns (res: array<Option<char>>)
    requires Covers(opcodes(anchor, t), anchor, t, 0, 0)
    ensures fresh(res) && res[..] == Align(opcodes, anchor, t)
  {
    hide Covers, Aligned, BlockChars;
    res := new Option<char>[|anchor|](_ => None);
    var ops := opcodes(anchor, t);
    ghost var i: nat, j: nat := 0, 0;
    assert ops[0..] == ops;
    assert res[..0] == [];
    for n := 0 to |ops|
      invariant res.Length == |anchor| && i <= |anchor|
      invariant Covers(ops[n..], anchor, t, i, j)
      invariant Align(opcodes, anchor, t) == res[..i] + Aligned(ops[n..], anchor, t, i, j)
      invariant forall k :: i <= k < |anchor| ==> res[k] == None
    {
      var b := ops[n];
      AlignedStep(ops, n, anchor, t, i, j);
      ghost var done := res[..i];
      WriteBlock(res, b, anchor, t);
      assert res[..b.i2] == done + BlockChars(b, t);
      assert forall k :: b.i2 <= k < |anchor| ==> res[k] == res[b.i2..][k - b.i2];
      assert done + BlockChars(b, t) + Aligned(ops[n + 1..], anchor, t, b.i2, b.j2)
          == done + (BlockChars(b, t) + Aligned(ops[n + 1..], anchor, t, b.i2, b.j2));
      i, j := b.i2, b.j2;
    }
    NothingLeft(ops[|ops|..], anchor, t, i, j);
    assert res[..i] == res[..];
  }

  lemma NothingLeft(ops: seq<Block>, a: string, t: string, i: nat, j: nat)
    requires ops == [] && i <= |a| && Covers(ops, a, t, i, j)
    ensures i == |a| && Aligned(ops, a, t, i, j) == []
  {
  }

  /** The characters of an alignment, deletions left out. */
  function Letters(r: seq<Option<char>>): (s: string)
    ensures |s| <= |r|
  {
    if r == [] then "" else (if r[0].Some? then [r[0].value] else "") + Letters(r[1..])
  }

  lemma {:induction false} LettersAppend(a: seq<Option<char>>, b: seq<Option<char>>)
    ensures Letters(a + b) == Letters(a) + Letters(b)
  {
    if a == [] {
      assert a + b == b;
    } else {
      assert (a + b)[1..] == a[1..] + b && (a + b)[0] == a[0];
      LettersAppend(a[1..], b);
      var first := if a[0].Some? then [a[0].value] else [];
      assert Letters(a + b) == first + Letters(a[1..] + b);
      assert Letters(a) == first + Letters(a[1..]);
    }
  }

  /** x can be had from y by leaving characters out. */
  predicate Subsequence(x: string, y: string) {
    if x == "" then true
    else if y == "" then false
    else if x[0] == y[0] then Subsequence(x[1..], y[1..])
    else Subsequence(x, y[1..])
  }

  lemma {:induction false} SubsequenceAppend(x1: string, y1: string, x2: string, y2: string)
    requires Subsequence(x1, y1) && Subsequence(x2, y2)
    ensures Subsequence(x1 + x2, y1 + y2)
    decreases |y1|
  {
    if y1 == "" {
      assert x1 + x2 == x2 && y1 + y2 == y2;
    } else if x1 == "" {
      assert (y1 + y2)[1..] == y1[1..] + y2;
      SubsequenceAppend("", y1[1..], x2, y2);
      assert x1 + x2 == x2 == "" + x2;
      if x2 != "" && x2[0] == y1[0] {
        SubsequenceTail(x2, y1[1..] + y2);
      }
    } else {
      assert (y1 + y2)[1..] == y1[1..] + y2 && (x1 + x2)[0] == x1[0];
      if x1[0] == y1[0] {
        assert (x1 + x2)[1..] == x1[1..] + x2;
        SubsequenceAppend(x1[1..], y1[1..], x2, y2);
      } else {
        SubsequenceAppend(x1, y1[1..], x2, y2);
      }
    }
  }

  lemma {:induction false} SubsequenceTail(x: string, y: string)
    requires x != "" && Subsequence(x, y)
    ensures Subsequence(x[1..], y)
    decreases |y|
  {
    if x[0] == y[0] {
      if x[1..] != "" {
        if x[1] == y[0] {
          SubsequenceTail(x[1..], y[1..]);
        }
      }
    } else {
      SubsequenceTail(x, y[1..]);
      if x[1..] != "" && x[1] == y[0] {
        SubsequenceTail(x[1..], y[1..]);
      }
    }
  }

  lemma {:induction false} PrefixLetters(t: string, j1: nat, j2: nat, n: nat, r: seq<Option<char>>)
    requires j1 <= j2 <= |t| && |r| == n
    requires forall k :: 0 <= k < n ==> r[k] == if j1 + k < j2 then Some(t[j1 + k]) else None
    ensures Subsequence(Letters(r), t[j1..j2])
    decreases n
  {
    if n > 0 {
      if j1 < j2 {
        PrefixLetters(t, j1 + 1, j2, n - 1, r[1..]);
        assert t[j1..j2][1..] == t[j1 + 1..j2];
        assert Letters(r)[1..] == Letters(r[1..]);
      } else {
        PrefixLetters(t, j1, j2, n - 1, r[1..]);
      }
    }
  }

  lemma {:induction false} NoLetters(r: seq<Option<char>>)
    requires forall k :: 0 <= k < |r| ==> r[k] == None
    ensures Letters(r) == ""
  {
    if r != [] {
      NoLetters(r[1..]);
    }
  }

  /** An alignment invents nothing: its characters are characters of the reading, in order. */
  lemma {:induction false} AlignedIsSubsequence(ops: seq<Block>, a: string, t: string, i: nat, j: nat)
    requires Covers(ops, a, t, i, j) && i <= |a| && j <= |t|
    ensures Subsequence(Letters(Aligned(ops, a, t, i, j)), t[j..])
  {
    if ops != [] {
      var b := ops[0];
      var chars, rest := BlockChars(b, t), Aligned(ops[1..], a, t, b.i2, b.j2);
      AlignedIsSubsequence(ops[1..], a, t, b.i2, b.j2);
      if b.tag == Equal || b.tag == Replace {
        PrefixLetters(t, b.j1, b.j2, b.i2 - b.i1, chars);
      } else {
        NoLetters(chars);
      }
      LettersAppend(chars, rest);
      assert t[j..] == t[b.j1..b.j2] + t[b.j2..];
      SubsequenceAppend(Letters(chars), t[b.j1..b.j2], Letters(rest), t[b.j2..]);
    }
  }

  // --------------------------------------------------------------------- voting

  /** A reading and the weight of its votes. */
  datatype Reading = Reading(text: string, weight: real)

  type Votes = map<Option<char>, real>

  function Get(votes: Votes, ch: Option<char>): real { if ch in votes then votes[ch] else 0.0 }

  ghost predicate Scripted(opcodes: Opcodes, anchor: string, readings: seq<Reading>) {
    forall r :: r in readings ==> Covers(opcodes(anchor, r.text), anchor, r.text, 0, 0)
  }

  /** What a reading says at a position of the anchor. */
  function Voice(opcodes: Opcodes, anchor: string, r: Reading, k: nat): Option<char>
    requires Covers(opcodes(anchor, r.text), anchor, r.text, 0, 0) && k < |anchor|
  {
    Align(opcodes, anchor, r.text)[k]
  }

  /** The votes at a position, the readings counted in order. */
  ghost function VotesAt(opcodes: Opcodes, anchor: string, readings: seq<Reading>, k: nat): Votes
    requires Scripted(opcodes, anchor, readings) && k < |anchor|
  {
    if readings == [] then map[]
    else
      var last := readings[|readings| - 1];
      var votes := VotesAt(opcodes, anchor, readings[..|readings| - 1], k);
      assert last in readings;
      var ch := Voice(opcodes, anchor, last, k);
      votes[ch := Get(votes, ch) + last.weight]
  }

  /** The weight of the readings that say ch at a position. */
  ghost function WeightFor(opcodes: Opcodes, anchor: string, readings: seq<Reading>, k: nat, ch: Option<char>): real
    requires Scripted(opcodes, anchor, readings) && k < |anchor|
  {
    if readings == [] then 0.0
    else
      assert readings[0] in readings;
      (if Voice(opcodes, anchor, readings[0], k) == ch then readings[0].weight else 0.0)
      + WeightFor(opcodes, anchor, readings[1..], k, ch)
  }

  function TotalWeight(readings: seq<Reading>): real {
    if readings == [] then 0.0 else readings[0].weight + TotalWeight(readings[1..])
  }

  lemma {:induction false} WeightForAppend(opcodes: Opcodes, anchor: string, a: seq<Reading>, b: seq<Reading>,
          k: nat, ch: Option<char>)
    requires Scripted(opcodes, anchor, a + b) && k < |anchor|
    ensures Scripted(opcodes, anchor, a) && Scripted(opcodes, anchor, b)
    ensures WeightFor(opcodes, anchor, a + b, k, ch) ==
        WeightFor(opcodes, anchor, a, k, ch) + WeightFor(opcodes, anchor, b, k, ch)
  {
    assert forall r :: r in a ==> r in a + b;
    assert forall r :: r in b ==> r in a + b;
    if a == [] {
      assert a + b == b;
    } else {
      assert (a + b)[1..] == a[1..] + b;
      WeightForAppend(opcodes, anchor, a[1..], b, k, ch);
    }
  }

  lemma {:induction false} TotalWeightAppend(a: seq<Reading>, b: seq<Reading>)
    ensures TotalWeight(a + b) == TotalWeight(a) + TotalWeight(b)
  {
    if a == [] {
      assert a + b == b;
    } else {
      assert (a + b)[1..] == a[1..] + b;
      TotalWeightAppend(a[1..], b);
    }
  }

  /** Each entry of the votes is the weight of the readings that say so. */
  lemma {:induction false} VotesAreWeights(opcodes: Opcodes, anchor: string, readings: seq<Reading>, k: nat)
    requires Scripted(opcodes, anchor, readings) && k < |anchor|
    ensures var votes := VotesAt(opcodes, anchor, readings, k);
      forall ch :: Get(votes, ch) == WeightFor(opcodes, anchor, readings, k, ch)
    decreases |readings|
  {
    hide Align, Covers;
    if readings != [] {
      var front, last := readings[..|readings| - 1], readings[|readings| - 1];
      assert readings == front + [last];
      VotesAreWeights(opcodes, anchor, front, k);
      var votes := VotesAt(opcodes, anchor, readings, k);
      forall ch ensures Get(votes, ch) == WeightFor(opcodes, anchor, readings, k, ch) {
        WeightForAppend(opcodes, anchor, front, [last], k, ch);
        assert [last][1..] == [];
      }
    }
  }

  // Sums over the votes.

  ghost function Sum(votes: Votes): real {
    if votes == map[] then 0.0 else var ch :| ch in votes; votes[ch] + Sum(votes - {ch})
  }

  lemma {:induction false} SumWithout(votes: Votes, ch: Option<char>)
    requires ch in votes
    ensures Sum(votes) == votes[ch] + Sum(votes - {ch})
    decreases |votes|
  {
    var first :| first in votes && Sum(votes) == votes[first] + Sum(votes - {first});
    if first != ch {
      SumWithout(votes - {first}, ch);
      SumWithout(votes - {ch}, first);
      assert votes - {first} - {ch} == votes - {ch} - {first};
    }
  }

  lemma SumAdd(votes: Votes, ch: Option<char>, w: real)
    ensures Sum(votes[ch := Get(votes, ch) + w]) == Sum(votes) + w
  {
    var more := votes[ch := Get(votes, ch) + w];
    SumWithout(more, ch);
    assert more - {ch} == votes - {ch};
    if ch in votes {
      SumWithout(votes, ch);
    } else {
      assert votes - {ch} == votes;
    }
  }

  lemma {:induction false} SumNotNegative(votes: Votes)
    requires forall ch :: ch in votes ==> votes[ch] >= 0.0
    ensures Sum(votes) >= 0.0
    decreases |votes|
  {
    if votes != map[] {
      var ch :| ch in votes && Sum(votes) == votes[ch] + Sum(votes - {ch});
      SumNotNegative(votes - {ch});
    }
  }

  /** Every reading casts one vote at every position: the votes there add up to the total weight. */
  lemma {:induction false} VotesAddUp(opcodes: Opcodes, anchor: string, readings: seq<Reading>, k: nat)
    requires Scripted(opcodes, anchor, readings) && k < |anchor|
    ensures Sum(VotesAt(opcodes, anchor, readings, k)) == TotalWeight(readings)
    decreases |readings|
  {
    hide Align, Covers;
    if readings != [] {
      var front, last := readings[..|readings| - 1], readings[|readings| - 1];
      assert readings == front + [last] && last in readings;
      VotesAddUp(opcodes, anchor, front, k);
      SumAdd(VotesAt(opcodes, anchor, front, k), Voice(opcodes, anchor, last, k), last.weight);
      TotalWeightAppend(front, [last]);
      assert [last][1..] == [];
    }
  }

  // --------------------------------------------------------------------- winner

  /** `-ord(ch)`, with deletion above every character. */
  function Rank(ch: Option<char>): int { if ch.Some? then -(ch.value as int) else 1 }

  /** The order of the sort keys: weight, then the anchor's own character, then the lowest code point. */
  predicate Beats(votes: Votes, own: char, x: Option<char>, y: Option<char>)
    requires x in votes && y in votes
  {
    || votes[x] > votes[y]
    || (votes[x] == votes[y] && x == Some(own) && y != Some(own))
    || (votes[x] == votes[y] && (x == Some(own) <==> y == Some(own)) && Rank(x) > Rank(y))
  }

  predicate Wins(votes: Votes, own: char, x: Option<char>) {
    x in votes && forall y :: y in votes && y != x ==> Beats(votes, own, x, y)
  }

  /** Two different entries never tie. */
  lemma BeatsTotal(votes: Votes, own: char, x: Option<char>, y: Option<char>)
    requires x in votes && y in votes && x != y
    ensures Beats(votes, own, x, y) <==> !Beats(votes, own, y, x)
  {
    if x.Some? && y.Some? {
      assert x.value != y.value;
    }
  }

  lemma BeatsTransitive(votes: Votes, own: char, x: Option<char>, y: Option<char>, z: Option<char>)
    requires x in votes && y in votes && z in votes
    requires Beats(votes, own, x, y) && Beats(votes, own, y, z)
    ensures Beats(votes, own, x, z)
  {
  }

  /** `max(votes.items(), key=...)`: whatever order the entries come in, the same one is found. */
  method Winner(votes: Votes, own: char) returns (best: Option<char>)
    requires votes != map[]
    ensures Wins(votes, own, best)
  {
    best :| best in votes;
    var rest := votes.Keys - {best};
    while rest != {}
      invariant best in votes && rest <= votes.Keys && best !in rest
      invariant forall y :: y in votes && y != best && y !in rest ==> Beats(votes, own, best, y)
      decreases |rest|
    {
      var y :| y in rest;
      ghost var left := rest - {y};
      assert rest == left + {y};
      if Beats(votes, own, y, best) {
        forall z | z in votes && z != y && z !in left ensures Beats(votes, own, y, z) {
          if z != best {
            BeatsTransitive(votes, own, y, best, z);
          }
        }
        best := y;
      } else {
        BeatsTotal(votes, own, best, y);
      }
      rest := rest - {y};
    }
  }

  lemma WinnerUnique(votes: Votes, own: char, x: Option<char>, y: Option<char>)
    requires Wins(votes, own, x) && Wins(votes, own, y)
    ensures x == y
  {
    if x != y {
      BeatsTotal(votes, own, x, y);
    }
  }

  /** A character, or a deletion, with more than half of the weight wins. */
  lemma MajorityWins(opcodes: Opcodes, anchor: string, readings: seq<Reading>, k: nat, ch: Option<char>,
          x: Option<char>)
    requires Scripted(opcodes, anchor, readings) && k < |anchor|
    requires forall r :: r in readings ==> r.weight > 0.0
    requires 2.0 * WeightFor(opcodes, anchor, readings, k, ch) > TotalWeight(readings)
    requires Wins(VotesAt(opcodes, anchor, readings, k), anchor[k], x)
    ensures x == ch
  {
    var votes := VotesAt(opcodes, anchor, readings, k);
    VotesAreWeights(opcodes, anchor, readings, k);
    VotesAddUp(opcodes, anchor, readings, k);
    WeightsPositive(opcodes, anchor, readings, k);
    SumNotNegative(votes);
    assert Get(votes, ch) == WeightFor(opcodes, anchor, readings, k, ch);
    if x != ch {
      SumWithout(votes, ch);
      SumWithout(votes - {ch}, x);
      SumNotNegative(votes - {ch} - {x});
    }
  }

  predicate AllPositive(votes: Votes) { forall ch :: ch in votes ==> votes[ch] > 0.0 }

  lemma {:induction false} WeightsPositive(opcodes: Opcodes, anchor: string, readings: seq<Reading>, k: nat)
    requires Scripted(opcodes, anchor, readings) && k < |anchor|
    requires forall r :: r in readings ==> r.weight > 0.0
    ensures AllPositive(VotesAt(opcodes, anchor, readings, k))
    decreases |readings|
  {
    hide Align, Covers;
    if readings != [] {
      var front := readings[..|readings| - 1];
      assert readings[|readings| - 1] in readings;
      assert forall r :: r in front ==> r in readings;
      WeightsPositive(opcodes, anchor, front, k);
      var before, after := VotesAt(opcodes, anchor, front, k), VotesAt(opcodes, anchor, readings, k);
      var ch := Voice(opcodes, anchor, readings[|readings| - 1], k);
      assert after == before[ch := Get(before, ch) + readings[|readings| - 1].weight];
    }
  }

  /** The votes depend on which readings there are, not on their order. */
  lemma OrderIrrelevant(opcodes: Opcodes, anchor: string, a: seq<Reading>, b: seq<Reading>, k: nat)
    requires Scripted(opcodes, anchor, a) && Scripted(opcodes, anchor, b) && k < |anchor|
    requires forall r :: r in a ==> r.weight > 0.0
    requires multiset(a) == multiset(b)
    ensures VotesAt(opcodes, anchor, a, k) == VotesAt(opcodes, anchor, b, k)
  {
    hide Align, Covers;
    var x, y := VotesAt(opcodes, anchor, a, k), VotesAt(opcodes, anchor, b, k);
    VotesAreWeights(opcodes, anchor, a, k);
    VotesAreWeights(opcodes, anchor, b, k);
    forall r | r in b ensures r.weight > 0.0 {
      assert r in multiset(b);
      assert r in multiset(a);
    }
    WeightsPositive(opcodes, anchor, a, k);
    WeightsPositive(opcodes, anchor, b, k);
    forall ch ensures Get(x, ch) == Get(y, ch) {
      WeightsPermute(opcodes, anchor, a, b, k, ch);
    }
    SameEntries(x, y);
  }

  lemma SameEntries(x: Votes, y: Votes)
    requires AllPositive(x) && AllPositive(y) && forall ch :: Get(x, ch) == Get(y, ch)
    ensures x == y
  {
    forall ch ensures ch in x <==> ch in y {
      assert Get(x, ch) == Get(y, ch);
    }
    forall ch | ch in x ensures x[ch] == y[ch] {
      assert Get(x, ch) == Get(y, ch);
    }
  }

  /** Taking one reading out of both lists. */
  lemma TakenOut(a: seq<Reading>, b: seq<Reading>, i: nat)
    requires multiset(a) == multiset(b) && a != [] && i < |b| && b[i] == a[0]
    ensures multiset(a[1..]) == multiset(b[..i] + b[i + 1..])
  {
    var left, right := b[..i], b[i + 1..];
    assert a == [a[0]] + a[1..];
    assert b == left + [a[0]] + right;
    assert multiset(a[1..]) == multiset(a) - multiset([a[0]]);
    assert multiset(left + right) == multiset(b) - multiset([a[0]]);
  }

  lemma {:induction false} WeightsPermute(opcodes: Opcodes, anchor: string, a: seq<Reading>, b: seq<Reading>,
          k: nat, ch: Option<char>)
    requires Scripted(opcodes, anchor, a) && Scripted(opcodes, anchor, b) && k < |anchor|
    requires multiset(a) == multiset(b)
    ensures WeightFor(opcodes, anchor, a, k, ch) == WeightFor(opcodes, anchor, b, k, ch)
    decreases |a|
  {
    hide Align, Covers;
    if a == [] {
      assert |multiset(a)| == |a| && |multiset(b)| == |b|;
    } else {
      assert a[0] in multiset(b);
      var i :| 0 <= i < |b| && b[i] == a[0];
      var left, right := b[..i], b[i + 1..];
      TakenOut(a, b, i);
      assert Scripted(opcodes, anchor, left + right);
      WeightsPermute(opcodes, anchor, a[1..], left + right, k, ch);
      WeightForAppend(opcodes, anchor, left, right, k, ch);
      assert b == left + ([a[0]] + right);
      WeightForAppend(opcodes, anchor, left, [a[0]] + right, k, ch);
      assert ([a[0]] + right)[1..] == right;
    }
  }

  lemma {:induction false} WinnerExists(votes: Votes, own: char)
    requires votes != map[]
    ensures exists x :: Wins(votes, own, x)
    decreases |votes|
  {
    var y :| y in votes;
    var rest := votes - {y};
    if rest == map[] {
      assert forall z :: z in votes && z != y ==> z in rest;
      assert Wins(votes, own, y);
    } else {
      WinnerExists(rest, own);
      var x :| Wins(rest, own, x);
      if Beats(votes, own, y, x) {
        forall z | z in votes && z != y ensures Beats(votes, own, y, z) {
          assert z in rest;
          if z != x {
            assert Beats(rest, own, x, z);
            BeatsTransitive(votes, own, y, x, z);
          }
        }
        assert Wins(votes, own, y);
      } else {
        BeatsTotal(votes, own, x, y);
        forall z | z in votes && z != x ensures Beats(votes, own, x, z) {
          if z != y {
            assert z in rest && Beats(rest, own, x, z);
          }
        }
        assert Wins(votes, own, x);
      }
    }
  }

  ghost function WinnerOf(votes: Votes, own: char): (x: Option<char>)
    requires votes != map[]
    ensures Wins(votes, own, x)
  {
    WinnerExists(votes, own);
    var x :| Wins(votes, own, x);
    x
  }

  // --------------------------------------------------------------------- anchor

  /** Weighted similarity of reading i to readings j and on, its own place left out. */
  function Score(ratio: Similarity, readings: seq<Reading>, i: nat, j: nat): real
    requires i < |readings| && j <= |readings|
    decreases |readings| - j
  {
    if j == |readings| then 0.0
    else (if j == i then 0.0 else readings[j].weight * ratio(readings[i].text, readings[j].text))
         + Score(ratio, readings, i, j + 1)
  }

  /** The first of the readings up to n with the highest score. */
  function Best(ratio: Similarity, readings: seq<Reading>, n: nat): (best: nat)
    requires 0 < n <= |readings|
    ensures best < n
  {
    if n == 1 then 0
    else
      var b := Best(ratio, readings, n - 1);
      if Score(ratio, readings, n - 1, 0) > Score(ratio, readings, b, 0) then n - 1 else b
  }

  /** No reading is more similar to the others than the anchor, and none before it as similar. */
  lemma {:induction false} AnchorIsBest(ratio: Similarity, readings: seq<Reading>, n: nat)
    requires 0 < n <= |readings|
    ensures var best := Best(ratio, readings, n);
      forall i :: 0 <= i < n ==>
        && Score(ratio, readings, i, 0) <= Score(ratio, readings, best, 0)
        && (i < best ==> Score(ratio, readings, i, 0) < Score(ratio, readings, best, 0))
  {
    if n > 1 {
      AnchorIsBest(ratio, readings, n - 1);
    }
  }

  lemma {:induction false} ScoreNotNegative(ratio: Similarity, readings: seq<Reading>, i: nat, j: nat)
    requires i < |readings| && j <= |readings|
    requires forall r :: r in readings ==> r.weight > 0.0
    requires forall x, y :: ratio(x, y) >= 0.0
    ensures Score(ratio, readings, i, j) >= 0.0
    decreases |readings| - j
  {
    if j < |readings| {
      ScoreNotNegative(ratio, readings, i, j + 1);
      assert readings[j] in readings;
      ProductNotNegative(readings[j].weight, ratio(readings[i].text, readings[j].text));
    }
  }

  lemma ProductNotNegative(a: real, b: real)
    requires a >= 0.0 && b >= 0.0
    ensures a * b >= 0.0
  {
  }

  // ------------------------------------------------------------------ consensus

  /** The readings that are not empty. */
  function Kept(texts: seq<string>): seq<string> {
    if texts == [] then []
    else (if texts[0] != "" then [texts[0]] else []) + Kept(texts[1..])
  }

  /** Readings with their weights: all one when no weights fit, and never less than a millionth. */
  function Readings(texts: seq<string>, weights: Option<seq<real>>): (r: seq<Reading>)
    ensures |r| == |Kept(texts)| && forall x :: x in r ==> x.weight > 0.0
  {
    var kept := Kept(texts);
    var fits := weights.Some? && |weights.value| == |kept|;
    seq(|kept|, i requires 0 <= i < |kept| =>
      Reading(kept[i], var w := if fits then weights.value[i] else 1.0; if w < 0.000001 then 0.000001 else w))
  }

  predicate Agree(readings: seq<Reading>) {
    forall i, j :: 0 <= i < |readings| && 0 <= j < |readings| ==> readings[i].text == readings[j].text
  }

  /** The winners of positions k and on. */
  ghost function Winners(opcodes: Opcodes, anchor: string, readings: seq<Reading>, k: nat): (r: seq<Option<char>>)
    requires Scripted(opcodes, anchor, readings) && readings != [] && k <= |anchor|
    ensures |r| == |anchor| - k
    decreases |anchor| - k
  {
    if k == |anchor| then []
    else
      var votes := VotesAt(opcodes, anchor, readings, k);
      assert votes != map[] by { VotesNotEmpty(opcodes, anchor, readings, k); }
      [WinnerOf(votes, anchor[k])] + Winners(opcodes, anchor, readings, k + 1)
  }

  lemma VotesNotEmpty(opcodes: Opcodes, anchor: string, readings: seq<Reading>, k: nat)
    requires Scripted(opcodes, anchor, readings) && readings != [] && k < |anchor|
    ensures VotesAt(opcodes, anchor, readings, k) != map[]
  {
    hide Align, Covers;
    var last := readings[|readings| - 1];
    assert last in readings;
    assert Voice(opcodes, anchor, last, k) in VotesAt(opcodes, anchor, readings, k);
  }

  /** Edit scripts between any two strings cover both. */
  ghost predicate Library(ratio: Similarity, opcodes: Opcodes) {
    && (forall x, y :: ratio(x, y) >= 0.0)
    && (forall x, y :: Covers(opcodes(x, y), x, y, 0, 0))
  }

  ghost function ConsensusOf(ratio: Similarity, opcodes: Opcodes, texts: seq<string>,
          weights: Option<seq<real>>): string
    requires Library(ratio, opcodes)
  {
    var readings := Readings(texts, weights);
    if readings == [] then ""
    else if Agree(readings) then readings[0].text
    else Letters(Winners(opcodes, readings[Best(ratio, readings, |readings|)].text, readings, 0))
  }

  /** The consensus is never longer than the reading it is anchored on. */
  lemma ConsensusLength(ratio: Similarity, opcodes: Opcodes, texts: seq<string>, weights: Option<seq<real>>)
    requires Library(ratio, opcodes)
    ensures var readings := Readings(texts, weights);
      readings != [] ==>
        |ConsensusOf(ratio, opcodes, texts, weights)| <= |readings[Best(ratio, readings, |readings|)].text|
  {
    hide Best, Winners;
  }

  /** `consensus_text`. */
  method ConsensusText(ratio: Similarity, opcodes: Opcodes, texts: seq<string>, weights: Option<seq<real>>)
    returns (r: string)
    requires Library(ratio, opcodes)
    ensures r == ConsensusOf(ratio, opcodes, texts, weights)
  {
    hide VotesAt, Winners, Letters, Covers, Score;
    var readings := Readings(texts, weights);
    if readings == [] { return ""; }
    if Agree(readings) { return readings[0].text; }

    var bestI, bestScore := 0, -1.0;
    for i := 0 to |readings|
      invariant i > 0 ==> bestI == Best(ratio, readings, i) && bestScore == Score(ratio, readings, bestI, 0)
      invariant i == 0 ==> bestScore == -1.0
      invariant bestI < |readings|
    {
      var score := Score(ratio, readings, i, 0);
      ScoreNotNegative(ratio, readings, i, 0);
      if score > bestScore {
        bestScore, bestI := score, i;
      }
    }
    var anchor := readings[bestI].text;
    var posVotes := CastVotes(opcodes, anchor, readings);

    r := "";
    ghost var all := Winners(opcodes, anchor, readings, 0);
    NoneLeft(opcodes, anchor, readings);
    for k := 0 to |anchor|
      invariant posVotes.Length == |anchor|
      invariant forall p :: 0 <= p < |anchor| ==> posVotes[p] == VotesAt(opcodes, anchor, readings, p)
      invariant r + Letters(Winners(opcodes, anchor, readings, k)) == Letters(all)
    {
      VotesNotEmpty(opcodes, anchor, readings, k);
      var best := Winner(posVotes[k], anchor[k]);
      NextWinner(opcodes, anchor, readings, k, best);
      r := r + (if best.Some? then [best.value] else "");
    }
  }

  lemma NoneLeft(opcodes: Opcodes, anchor: string, readings: seq<Reading>)
    requires Scripted(opcodes, anchor, readings) && readings != []
    ensures Letters(Winners(opcodes, anchor, readings, |anchor|)) == ""
    ensures forall s: string :: "" + s == s && s + "" == s
  {
  }

  lemma NextWinner(opcodes: Opcodes, anchor: string, readings: seq<Reading>, k: nat, best: Option<char>)
    requires Scripted(opcodes, anchor, readings) && readings != [] && k < |anchor|
    requires Wins(VotesAt(opcodes, anchor, readings, k), anchor[k], best)
    ensures Letters(Winners(opcodes, anchor, readings, k))
         == (if best.Some? then [best.value] else "") + Letters(Winners(opcodes, anchor, readings, k + 1))
  {
    hide VotesAt;
    var votes := VotesAt(opcodes, anchor, readings, k);
    VotesNotEmpty(opcodes, anchor, readings, k);
    WinnerUnique(votes, anchor[k], best, WinnerOf(votes, anchor[k]));
    var rest := Winners(opcodes, anchor, readings, k + 1);
    assert Winners(opcodes, anchor, readings, k) == [best] + rest;
    assert ([best] + rest)[1..] == rest;
  }

  /** The vote maps, one a position, filled reading by reading. */
  method CastVotes(opcodes: Opcodes, anchor: string, readings: seq<Reading>) returns (posVotes: array<Votes>)
    requires Scripted(opcodes, anchor, readings)
    ensures fresh(posVotes) && posVotes.Length == |anchor|
    ensures forall k :: 0 <= k < |anchor| ==> posVotes[k] == VotesAt(opcodes, anchor, readings, k)
  {
    hide Covers, Align;
    posVotes := new Votes[|anchor|](_ => map[]);
    assert readings[..0] == [];
    for n := 0 to |readings|
      invariant posVotes.Length == |anchor|
      invariant Scripted(opcodes, anchor, readings[..n])
      invariant forall k :: 0 <= k < |anchor| ==> posVotes[k] == VotesAt(opcodes, anchor, readings[..n], k)
    {
      var reading := readings[n];
      var aligned := AlignToAnchor(opcodes, anchor, reading.text);
      ghost var front := readings[..n];
      assert readings[..n + 1] == front + [reading];
      assert readings[..n + 1][..n] == front;
      for k := 0 to |anchor|
        invariant posVotes.Length == |anchor| && aligned[..] == Align(opcodes, anchor, reading.text)
        invariant forall p :: k <= p < |anchor| ==> posVotes[p] == VotesAt(opcodes, anchor, front, p)
        invariant forall p :: 0 <= p < k ==> posVotes[p] == VotesAt(opcodes, anchor, readings[..n + 1], p)
      {
        var ch := aligned[k];
        posVotes[k] := posVotes[k][ch := (if ch in posVotes[k] then posVotes[k][ch] else 0.0) + reading.weight];
      }
    }
    assert readings[..|readings|] == readings;
  }

  /** With the anchor fixed, the order of the readings does not matter to the text. */
  lemma {:induction false} WinnersOrderIrrelevant(opcodes: Opcodes, anchor: string, a: seq<Reading>,
          b: seq<Reading>, k: nat)
    requires Scripted(opcodes, anchor, a) && Scripted(opcodes, anchor, b) && k <= |anchor|
    requires forall r :: r in a ==> r.weight > 0.0
    requires multiset(a) == multiset(b) && a != [] && b != []
    ensures Winners(opcodes, anchor, a, k) == Winners(opcodes, anchor, b, k)
    decreases |anchor| - k
  {
    hide VotesAt, Covers;
    if k < |anchor| {
      OrderIrrelevant(opcodes, anchor, a, b, k);
      WinnersOrderIrrelevant(opcodes, anchor, a, b, k + 1);
    }
  }

  /** A line that more than half of the weight agrees on, position by position, is the consensus. */
  lemma {:induction false} MajorityText(opcodes: Opcodes, anchor: string, readings: seq<Reading>, line: string, k: nat)
    requires Scripted(opcodes, anchor, readings) && readings != [] && k <= |anchor| == |line|
    requires forall r :: r in readings ==> r.weight > 0.0
    requires forall i: nat :: i < |anchor| ==>
        2.0 * WeightFor(opcodes, anchor, readings, i, Some(line[i])) > TotalWeight(readings)
    ensures Letters(Winners(opcodes, anchor, readings, k)) == line[k..]
    decreases |anchor| - k
  {
    hide VotesAt, Covers, WeightFor, TotalWeight;
    if k < |anchor| {
      VotesNotEmpty(opcodes, anchor, readings, k);
      var best := WinnerOf(VotesAt(opcodes, anchor, readings, k), anchor[k]);
      MajorityWins(opcodes, anchor, readings, k, Some(line[k]), best);
      NextWinner(opcodes, anchor, readings, k, best);
      MajorityText(opcodes, anchor, readings, line, k + 1);
      assert line[k..] == [line[k]] + line[k + 1..];
    }
  }
}
