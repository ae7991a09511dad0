/**
 The consensus of some readings in terms of what the caller passes (`consensus_text` in
 worker/subextractor/dedup.py:267-308): the texts and the list of weights.
 */
module ConsensusTexts {
  import opened Consensus
  import opened Wrappers

  predicate NoneEmpty(texts: seq<string>) { forall t :: t in texts ==> t != "" }

  // --------------------------------------------------------------------- readings

  /** Texts that are not empty are all read. */
  lemma {:induction false} KeptWhole(texts: seq<string>)
    requires NoneEmpty(texts)
    ensures Kept(texts) == texts
  {
    if texts != [] {
      assert texts[0] in texts && forall t :: t in texts[1..] ==> t in texts;
      KeptWhole(texts[1..]);
      assert texts == [texts[0]] + texts[1..];
    }
  }

  lemma {:induction false} KeptAppend(a: seq<string>, b: seq<string>)
    ensures Kept(a + b) == Kept(a) + Kept(b)
  {
    if a == [] {
      assert a + b == b;
    } else {
      assert (a + b)[1..] == a[1..] + b;
      KeptAppend(a[1..], b);
    }
  }

  /** An empty text makes no difference. */
  lemma EmptyTextIgnored(ratio: Similarity, opcodes: Opcodes, a: seq<string>, b: seq<string>,
                         weights: Option<seq<real>>)
    requires Library(ratio, opcodes)
    ensures ConsensusOf(ratio, opcodes, a + [""] + b, weights) == ConsensusOf(ratio, opcodes, a + b, weights)
  {
    KeptAppend(a + [""], b);
    KeptAppend(a, [""]);
    KeptAppend(a, b);
    assert Kept([""]) == [];
    SameReadings(a + [""] + b, a + b, weights);
  }

  lemma SameReadings(a: seq<string>, b: seq<string>, weights: Option<seq<real>>)
    requires Kept(a) == Kept(b)
    ensures Readings(a, weights) == Readings(b, weights)
  {
    hide Kept;
  }

  /** A list of weights that does not fit the texts that are not empty counts as all ones. */
  lemma UnfitWeights(ratio: Similarity, opcodes: Opcodes, texts: seq<string>, weights: Option<seq<real>>,
                     ones: seq<real>)
    requires Library(ratio, opcodes) && (weights.None? || |weights.value| != |Kept(texts)|)
    requires |ones| == |Kept(texts)| && forall w :: w in ones ==> w == 1.0
    ensures ConsensusOf(ratio, opcodes, texts, weights) == ConsensusOf(ratio, opcodes, texts, Some(ones))
  {
    UnfitReadings(texts, weights, ones);
    hide Readings, Kept;
  }

  lemma UnfitReadings(texts: seq<string>, weights: Option<seq<real>>, ones: seq<real>)
    requires weights.None? || |weights.value| != |Kept(texts)|
    requires |ones| == |Kept(texts)| && forall w :: w in ones ==> w == 1.0
    ensures Readings(texts, weights) == Readings(texts, Some(ones))
  {
    hide Kept;
    var a, b := Readings(texts, weights), Readings(texts, Some(ones));
    forall i | 0 <= i < |a| ensures a[i] == b[i] {
      assert ones[i] in ones;
    }
  }

  /** A weight below a millionth counts as a millionth. */
  lemma SmallWeights(ratio: Similarity, opcodes: Opcodes, texts: seq<string>, weights: seq<real>,
                     floored: seq<real>)
    requires Library(ratio, opcodes) && |weights| == |floored| == |Kept(texts)|
    requires forall i :: 0 <= i < |weights| ==> floored[i] == if weights[i] < 0.000001 then 0.000001 else weights[i]
    ensures ConsensusOf(ratio, opcodes, texts, Some(weights)) == ConsensusOf(ratio, opcodes, texts, Some(floored))
  {
    hide Kept;
    assert Readings(texts, Some(weights)) == Readings(texts, Some(floored));
  }

  /** Weights of at least a millionth, one a text, are the weights of the readings. */
  predicate Fit(texts: seq<string>, weights: seq<real>) {
    |weights| == |texts| > 0 && NoneEmpty(texts) && forall w :: w in weights ==> w >= 0.000001
  }

  lemma WeightsCount(texts: seq<string>, weights: seq<real>)
    requires Fit(texts, weights)
    ensures
      var readings := Readings(texts, Some(weights));
      |readings| == |texts| && forall i :: 0 <= i < |texts| ==> readings[i] == Reading(texts[i], weights[i])
  {
    KeptWhole(texts);
    hide Kept;
    forall i | 0 <= i < |texts| ensures Readings(texts, Some(weights))[i] == Reading(texts[i], weights[i]) {
      assert weights[i] in weights;
    }
  }

  // ---------------------------------------------------------- sums over the caller's lists

  /** What a text says at a place of the anchor. */
  function Says(opcodes: Opcodes, anchor: string, text: string, k: nat): Option<char>
    requires Covers(opcodes(anchor, text), anchor, text, 0, 0) && k < |anchor|
  {
    Align(opcodes, anchor, text)[k]
  }

  /** The weight, of texts i and on, of those that say ch at a place. */
  ghost function Support(ratio: Similarity, opcodes: Opcodes, anchor: string, texts: seq<string>, weights: seq<real>,
                         k: nat, ch: Option<char>, i: nat): real
    requires Library(ratio, opcodes) && |weights| == |texts| && k < |anchor| && i <= |texts|
    decreases |texts| - i
  {
    if i == |texts| then 0.0
    else
      (if Says(opcodes, anchor, texts[i], k) == ch then weights[i] else 0.0)
      + Support(ratio, opcodes, anchor, texts, weights, k, ch, i + 1)
  }

  function Total(weights: seq<real>, i: nat): real
    requires i <= |weights|
    decreases |weights| - i
  {
    if i == |weights| then 0.0 else weights[i] + Total(weights, i + 1)
  }

  /** The similarity of text i to the other texts from j on, each counted with its weight. */
  function Closeness(ratio: Similarity, texts: seq<string>, weights: seq<real>, i: nat, j: nat): real
    requires |weights| == |texts| && i < |texts| && j <= |texts|
    decreases |texts| - j
  {
    if j == |texts| then 0.0
    else (if j == i then 0.0 else weights[j] * ratio(texts[i], texts[j])) + Closeness(ratio, texts, weights, i, j + 1)
  }

  lemma {:induction false} CountedSupport(ratio: Similarity, opcodes: Opcodes, anchor: string, texts: seq<string>,
          weights: seq<real>, k: nat, ch: Option<char>, i: nat)
    requires Library(ratio, opcodes) && Fit(texts, weights) && k < |anchor| && i <= |texts|
    ensures
      var readings := Readings(texts, Some(weights));
      i <= |readings| && Scripted(opcodes, anchor, readings[i..])
      && WeightFor(opcodes, anchor, readings[i..], k, ch) == Support(ratio, opcodes, anchor, texts, weights, k, ch, i)
    decreases |texts| - i
  {
    hide Readings, Align, Covers;
    WeightsCount(texts, weights);
    var readings := Readings(texts, Some(weights));
    if i < |texts| {
      CountedSupport(ratio, opcodes, anchor, texts, weights, k, ch, i + 1);
      assert readings[i..][0] == readings[i] && readings[i..][1..] == readings[i + 1..];
    }
  }

  lemma {:induction false} CountedTotal(texts: seq<string>, weights: seq<real>, i: nat)
    requires Fit(texts, weights) && i <= |texts|
    ensures
      var readings := Readings(texts, Some(weights));
      i <= |readings| && TotalWeight(readings[i..]) == Total(weights, i)
    decreases |texts| - i
  {
    hide Readings;
    WeightsCount(texts, weights);
    var readings := Readings(texts, Some(weights));
    if i < |texts| {
      CountedTotal(texts, weights, i + 1);
      assert readings[i..][0] == readings[i] && readings[i..][1..] == readings[i + 1..];
    }
  }

  lemma {:induction false} CountedCloseness(ratio: Similarity, texts: seq<string>, weights: seq<real>, i: nat, j: nat)
    requires Fit(texts, weights) && i < |texts| && j <= |texts|
    ensures
      var readings := Readings(texts, Some(weights));
      |readings| == |texts| && Score(ratio, readings, i, j) == Closeness(ratio, texts, weights, i, j)
    decreases |texts| - j
  {
    hide Readings;
    WeightsCount(texts, weights);
    if j < |texts| {
      CountedCloseness(ratio, texts, weights, i, j + 1);
    }
  }

  // ------------------------------------------------------------------- the consensus

  predicate AllSame(texts: seq<string>) { forall t, u :: t in texts && u in texts ==> t == u }

  /** Equal texts are their own consensus, whatever they weigh; no text at all gives none. */
  lemma SameTexts(ratio: Similarity, opcodes: Opcodes, texts: seq<string>, weights: Option<seq<real>>)
    requires Library(ratio, opcodes) && NoneEmpty(texts) && AllSame(texts)
    ensures ConsensusOf(ratio, opcodes, texts, weights) == if texts == [] then "" else texts[0]
  {
    KeptWhole(texts);
    hide Kept;
    var readings := Readings(texts, weights);
    assert forall i :: 0 <= i < |readings| ==> readings[i].text == texts[i] && texts[i] in texts;
    assert Agree(readings);
  }

  /** One answer is before another: more weight, then the anchor's own character, then the lowest code point. */
  predicate Precedes(own: char, x: Option<char>, wx: real, y: Option<char>, wy: real) {
    || wx > wy
    || (wx == wy && (x == Some(own) || (y != Some(own) && (x.None? || (y.Some? && x.value < y.value)))))
  }

  /** The result at a place of the anchor: what comes before everything else that some text says there. */
  ghost predicate Elected(ratio: Similarity, opcodes: Opcodes, anchor: string, texts: seq<string>, weights: seq<real>,
                          k: nat, x: Option<char>)
    requires Library(ratio, opcodes) && |weights| == |texts| && k < |anchor|
  {
    forall y :: y != x && Support(ratio, opcodes, anchor, texts, weights, k, y, 0) > 0.0 ==>
      Precedes(anchor[k], x, Support(ratio, opcodes, anchor, texts, weights, k, x, 0),
               y, Support(ratio, opcodes, anchor, texts, weights, k, y, 0))
  }

  lemma {:induction false} WinnersAt(opcodes: Opcodes, anchor: string, readings: seq<Reading>, i: nat, k: nat)
    requires Scripted(opcodes, anchor, readings) && readings != [] && i <= k < |anchor|
    ensures Wins(VotesAt(opcodes, anchor, readings, k), anchor[k], Winners(opcodes, anchor, readings, i)[k - i])
    decreases k - i
  {
    hide VotesAt, Covers;
    VotesNotEmpty(opcodes, anchor, readings, i);
    if i < k {
      WinnersAt(opcodes, anchor, readings, i + 1, k);
    }
  }

  lemma WinnerIsElected(ratio: Similarity, opcodes: Opcodes, anchor: string, texts: seq<string>, weights: seq<real>,
          k: nat, x: Option<char>)
    requires Library(ratio, opcodes) && Fit(texts, weights) && k < |anchor|
    requires Scripted(opcodes, anchor, Readings(texts, Some(weights)))
    requires Wins(VotesAt(opcodes, anchor, Readings(texts, Some(weights)), k), anchor[k], x)
    ensures Elected(ratio, opcodes, anchor, texts, weights, k, x)
  {
    hide VotesAt, Covers, Align, WeightFor, Support, Readings;
    var readings := Readings(texts, Some(weights));
    assert readings[0..] == readings;
    VotesAreWeights(opcodes, anchor, readings, k);
    forall y ensures Get(VotesAt(opcodes, anchor, readings, k), y)
        == Support(ratio, opcodes, anchor, texts, weights, k, y, 0)
    {
      CountedSupport(ratio, opcodes, anchor, texts, weights, k, y, 0);
    }
    forall y | y != x && Support(ratio, opcodes, anchor, texts, weights, k, y, 0) > 0.0
      ensures Precedes(anchor[k], x, Support(ratio, opcodes, anchor, texts, weights, k, x, 0),
               y, Support(ratio, opcodes, anchor, texts, weights, k, y, 0))
    {
      assert y in VotesAt(opcodes, anchor, readings, k);
      assert Beats(VotesAt(opcodes, anchor, readings, k), anchor[k], x, y);
    }
  }

  /**
   The consensus of texts that differ, by the weights given: there is an anchor, the first of the texts
   closest to the others, and the result is, place by place of the anchor, what is elected there.
   What more than half of the weight agrees on is elected.
   */
  lemma ConsensusByWeight(ratio: Similarity, opcodes: Opcodes, texts: seq<string>, weights: seq<real>)
    returns (b: nat, r: seq<Option<char>>)
    requires Library(ratio, opcodes) && Fit(texts, weights) && !AllSame(texts)
    ensures b < |texts| && |r| == |texts[b]|
    ensures ConsensusOf(ratio, opcodes, texts, Some(weights)) == Letters(r)
    ensures forall i :: 0 <= i < |texts| ==>
      && Closeness(ratio, texts, weights, i, 0) <= Closeness(ratio, texts, weights, b, 0)
      && (i < b ==> Closeness(ratio, texts, weights, i, 0) < Closeness(ratio, texts, weights, b, 0))
    ensures forall k :: 0 <= k < |texts[b]| ==> Elected(ratio, opcodes, texts[b], texts, weights, k, r[k])
    ensures forall k: nat, ch ::
      k < |texts[b]| && 2.0 * Support(ratio, opcodes, texts[b], texts, weights, k, ch, 0) > Total(weights, 0) ==>
        r[k] == ch
  {
    hide VotesAt, Covers, Readings, Support, Total, Elected, Winners, Letters, Score, Best, Closeness, Align;
    var readings := Readings(texts, Some(weights));
    WeightsCount(texts, weights);
    DifferentTexts(texts, weights);
    b := Best(ratio, readings, |readings|);
    var anchor := texts[b];
    AllScripted(ratio, opcodes, anchor, readings);
    r := Winners(opcodes, anchor, readings, 0);
    AnchorIsBest(ratio, readings, |readings|);
    forall i | 0 <= i < |texts| ensures Score(ratio, readings, i, 0) == Closeness(ratio, texts, weights, i, 0) {
      CountedCloseness(ratio, texts, weights, i, 0);
    }
    forall k | 0 <= k < |anchor| ensures Elected(ratio, opcodes, anchor, texts, weights, k, r[k]) {
      WinnersAt(opcodes, anchor, readings, 0, k);
      WinnerIsElected(ratio, opcodes, anchor, texts, weights, k, r[k]);
    }
    forall k: nat, ch | k < |anchor|
      && 2.0 * Support(ratio, opcodes, anchor, texts, weights, k, ch, 0) > Total(weights, 0)
      ensures r[k] == ch
    {
      WinnersAt(opcodes, anchor, readings, 0, k);
      MajorityCounts(ratio, opcodes, anchor, texts, weights, k, ch, r[k]);
    }
  }

  lemma MajorityCounts(ratio: Similarity, opcodes: Opcodes, anchor: string, texts: seq<string>, weights: seq<real>,
          k: nat, ch: Option<char>, x: Option<char>)
    requires Library(ratio, opcodes) && Fit(texts, weights) && k < |anchor|
    requires Scripted(opcodes, anchor, Readings(texts, Some(weights)))
    requires Wins(VotesAt(opcodes, anchor, Readings(texts, Some(weights)), k), anchor[k], x)
    requires 2.0 * Support(ratio, opcodes, anchor, texts, weights, k, ch, 0) > Total(weights, 0)
    ensures x == ch
  {
    hide VotesAt, Covers, Align, WeightFor, Support, Readings, TotalWeight;
    var readings := Readings(texts, Some(weights));
    assert readings[0..] == readings;
    CountedSupport(ratio, opcodes, anchor, texts, weights, k, ch, 0);
    CountedTotal(texts, weights, 0);
    MajorityWins(opcodes, anchor, readings, k, ch, x);
  }

  lemma AllScripted(ratio: Similarity, opcodes: Opcodes, anchor: string, readings: seq<Reading>)
    requires Library(ratio, opcodes)
    ensures Scripted(opcodes, anchor, readings)
  {
    hide Covers;
  }

  lemma DifferentTexts(texts: seq<string>, weights: seq<real>)
    requires Fit(texts, weights) && !AllSame(texts)
    ensures !Agree(Readings(texts, Some(weights)))
  {
    hide Readings;
    WeightsCount(texts, weights);
    var t, u :| t in texts && u in texts && t != u;
    var i :| 0 <= i < |texts| && texts[i] == t;
    var j :| 0 <= j < |texts| && texts[j] == u;
    var readings := Readings(texts, Some(weights));
    assert readings[i].text != readings[j].text;
  }

  // -------------------------------------------------------------------- alignment

  /** What a block of the edit script says of its places. */
  predicate BlockSays(b: Block, a: string, t: string, k: nat, c: Option<char>)
    requires BlockOk(b, a, t) && b.i1 <= k < b.i2
  {
    && (b.tag == Equal ==> c == Some(a[k]))
    && (b.tag == Replace ==> c == if b.j1 + (k - b.i1) < b.j2 then Some(t[b.j1 + (k - b.i1)]) else None)
    && (b.tag == Delete ==> c == None)
  }

  lemma BlockAt(b: Block, a: string, t: string, k: nat)
    requires BlockOk(b, a, t) && b.i1 <= k < b.i2
    requires b.tag == Equal ==> b.i2 - b.i1 == b.j2 - b.j1
    ensures BlockSays(b, a, t, k, BlockChars(b, t)[k - b.i1])
  {
    if b.tag == Equal {
      assert a[b.i1..b.i2][k - b.i1] == t[b.j1..b.j2][k - b.i1];
    }
  }

  lemma FirstBlock(ops: seq<Block>, a: string, t: string, i: nat, j: nat)
    requires Covers(ops, a, t, i, j) && i <= |a| && ops != []
    ensures
      var b := ops[0];
      && BlockOk(b, a, t) && b.i1 == i && Covers(ops[1..], a, t, b.i2, b.j2)
      && (b.tag == Equal ==> b.i2 - b.i1 == b.j2 - b.j1)
      && Aligned(ops, a, t, i, j) == BlockChars(b, t) + Aligned(ops[1..], a, t, b.i2, b.j2)
  {
    BlockLengths(ops[0], a, t);
    hide BlockChars;
  }

  /** What an alignment has at a place of the anchor is what the block of that place says. */
  lemma {:induction false} AlignedAt(ops: seq<Block>, a: string, t: string, i: nat, j: nat, n: nat, k: nat)
    requires Covers(ops, a, t, i, j) && i <= |a| && n < |ops|
    requires BlockOk(ops[n], a, t) && ops[n].i1 <= k < ops[n].i2 && i <= k
    ensures BlockSays(ops[n], a, t, k, Aligned(ops, a, t, i, j)[k - i])
    decreases n
  {
    FirstBlock(ops, a, t, i, j);
    hide Aligned, BlockChars, Covers, BlockSays;
    if n == 0 {
      BlockAt(ops[0], a, t, k);
    } else {
      LaterBlock(ops, a, t, i, j, n);
      AlignedAt(ops[1..], a, t, ops[0].i2, ops[0].j2, n - 1, k);
    }
  }

  lemma {:induction false} LaterBlock(ops: seq<Block>, a: string, t: string, i: nat, j: nat, n: nat)
    requires Covers(ops, a, t, i, j) && i <= |a| && 0 < n < |ops|
    ensures BlockOk(ops[0], a, t) && ops[0].i1 == i && ops[0].i2 <= ops[n].i1
    decreases n
  {
    if n > 1 {
      LaterBlock(ops[1..], a, t, ops[0].i2, ops[0].j2, n - 1);
    }
  }
}
