/**
 What `merge_into_cues` of worker/subextractor/dedup.py makes of the samples: which groups are kept,
 which cues are bridged, and when what was read is shown.
 */
module Merging {
  import opened Wrappers
  import opened Sequences
  import opened Text
  import Tidy
  import Consensus
  import opened Cues

  // --------------------------------------------------------------------- bridging

  /** Cue i reads like the cue at lo and begins soon after the one before it ends. */
  predicate Near(cues: seq<Cue>, lo: nat, i: nat, o: Options)
    requires 0 < i < |cues| && lo < |cues|
  {
    o.ratio(cues[i].text, cues[lo].text) >= o.simThreshold && cues[i].start - cues[i - 1].end <= o.minGap
  }

  /** Stretches that make up the first n cues, one after the other. */
  predicate Stretches(spans: seq<Run>, n: nat) {
    && (spans == [] <==> n == 0)
    && (spans != [] ==> spans[0].lo == 0 && spans[|spans| - 1].hi == n)
    && (forall k :: 0 <= k < |spans| ==> spans[k].lo < spans[k].hi <= n)
    && (forall k :: 0 < k < |spans| ==> spans[k - 1].hi == spans[k].lo)
    && (forall k, l :: 0 <= k < l < |spans| ==> spans[k].hi <= spans[l].lo)
  }

  predicate NearInside(cues: seq<Cue>, r: Run, o: Options)
    requires r.lo < r.hi <= |cues|
  {
    forall i :: r.lo < i < r.hi ==> Near(cues, r.lo, i, o)
  }

  /** Every cue of a stretch is near its first, and no stretch begins with one near the first of the stretch before. */
  predicate Joined(cues: seq<Cue>, spans: seq<Run>, n: nat, o: Options)
    requires n <= |cues|
  {
    && Stretches(spans, n)
    && (forall k :: 0 <= k < |spans| ==> NearInside(cues, spans[k], o))
    && (forall k :: 0 < k < |spans| ==> !Near(cues, spans[k - 1].lo, spans[k].lo, o))
  }

  lemma JoinedGrows(cues: seq<Cue>, spans: seq<Run>, n: nat, o: Options)
    requires n < |cues| && Joined(cues, spans, n, o)
    requires n > 0 && Near(cues, spans[|spans| - 1].lo, n, o)
    ensures Joined(cues, spans[..|spans| - 1] + [spans[|spans| - 1].(hi := n + 1)], n + 1, o)
  {
    hide Near;
  }

  lemma JoinedOneMore(cues: seq<Cue>, spans: seq<Run>, n: nat, o: Options)
    requires n < |cues| && Joined(cues, spans, n, o)
    requires n > 0 ==> !Near(cues, spans[|spans| - 1].lo, n, o)
    ensures Joined(cues, spans + [Run(n, n + 1)], n + 1, o)
  {
    hide Near;
  }

  /** The stretches of the bridging loop are such a cut. */
  lemma {:induction false} SpansJoined(cues: seq<Cue>, n: nat, o: Options)
    requires n <= |cues|
    ensures Joined(cues, Spans(cues, n, o), n, o)
  {
    hide Spans, Joined;
    SpansNone(cues, o);
    if n > 0 {
      SpansJoined(cues, n - 1, o);
      SpansStep(cues, n, o);
      var before := Spans(cues, n - 1, o);
      if n > 1 && Near(cues, before[|before| - 1].lo, n - 1, o) {
        JoinedGrows(cues, before, n - 1, o);
      } else {
        JoinedOneMore(cues, before, n - 1, o);
      }
    }
  }

  lemma SpansNone(cues: seq<Cue>, o: Options)
    ensures Spans(cues, 0, o) == [] && Joined(cues, [], 0, o)
  {
  }

  predicate Nonempty(spans: seq<Run>) { spans != [] && spans[|spans| - 1].lo < spans[|spans| - 1].hi }

  /** The cut without the last cue. */
  function Shorter(spans: seq<Run>): seq<Run>
    requires Nonempty(spans)
  {
    var front, last := spans[..|spans| - 1], spans[|spans| - 1];
    if last.lo + 1 == last.hi then front else front + [Run(last.lo, last.hi - 1)]
  }

  lemma ShorterJoined(cues: seq<Cue>, spans: seq<Run>, n: nat, o: Options)
    requires 0 < n <= |cues| && Joined(cues, spans, n, o)
    ensures Nonempty(spans) && Joined(cues, Shorter(spans), n - 1, o)
  {
    hide Near;
    var less, last := Shorter(spans), spans[|spans| - 1];
    if |spans| > 1 {
      assert spans[|spans| - 1 - 1].hi == last.lo && spans[|spans| - 2].lo < spans[|spans| - 2].hi;
    }
    forall k | 0 <= k < |less| ensures NearInside(cues, less[k], o) {
      assert NearInside(cues, spans[k], o);
    }
    forall k | 0 < k < |less| ensures !Near(cues, less[k - 1].lo, less[k].lo, o) {
      assert less[k - 1].lo == spans[k - 1].lo && less[k].lo == spans[k].lo;
    }
  }

  /** Taking back what was cut off. */
  lemma ShorterEnds(spans: seq<Run>, n: nat)
    requires n > 0 && Stretches(spans, n)
    ensures Nonempty(spans) && (Shorter(spans) == [] <==> n == 1)
    ensures
      var less, last := Shorter(spans), spans[|spans| - 1];
      if last.lo + 1 == n then
        less == spans[..|spans| - 1] && spans == less + [Run(n - 1, n)]
      else less != [] && less[|less| - 1].lo == last.lo && spans == less[..|less| - 1] + [Run(last.lo, n)]
  {
    var last := spans[|spans| - 1];
    assert spans == spans[..|spans| - 1] + [last];
    if |spans| > 1 {
      assert spans[|spans| - 1 - 1].hi == last.lo && spans[|spans| - 2].lo < spans[|spans| - 2].hi;
    }
  }

  /** Whether the last cue goes on with the stretch before decides the rest of the cut. */
  predicate GoesOn(cues: seq<Cue>, less: seq<Run>, n: nat, o: Options)
    requires 0 < n < |cues|
  {
    less != [] && less[|less| - 1].lo < |cues| && Near(cues, less[|less| - 1].lo, n, o)
  }

  /** A stretch of its own is not near the one before; a longer stretch has its last cue near its first. */
  lemma LastNear(cues: seq<Cue>, spans: seq<Run>, n: nat, o: Options)
    requires 1 < n <= |cues| && Joined(cues, spans, n, o)
    ensures Nonempty(spans) && spans[|spans| - 1].hi == n
    ensures
      var last := spans[|spans| - 1];
      if last.lo + 1 == n then |spans| > 1 && spans[|spans| - 2].lo < n && !Near(cues, spans[|spans| - 2].lo, n - 1, o)
      else Near(cues, last.lo, n - 1, o)
  {
    hide Near;
    var last := spans[|spans| - 1];
    if last.lo + 1 == n {
      assert spans[|spans| - 1 - 1].lo == spans[|spans| - 2].lo;
    } else {
      assert NearInside(cues, last, o);
    }
  }

  lemma ShorterDecides(cues: seq<Cue>, spans: seq<Run>, n: nat, o: Options)
    requires 1 < n <= |cues| && Joined(cues, spans, n, o)
    ensures Nonempty(spans) && Shorter(spans) != []
    ensures
      var less := Shorter(spans);
      spans == if GoesOn(cues, less, n - 1, o) then less[..|less| - 1] + [Run(less[|less| - 1].lo, n)]
               else less + [Run(n - 1, n)]
  {
    ShorterEnds(spans, n);
    LastNear(cues, spans, n, o);
    hide Near, Shorter, Joined;
  }

  /** There is only one such cut. */
  lemma {:induction false} JoinedUnique(cues: seq<Cue>, a: seq<Run>, b: seq<Run>, n: nat, o: Options)
    requires n <= |cues| && Joined(cues, a, n, o) && Joined(cues, b, n, o)
    ensures a == b
    decreases n
  {
    if n > 1 {
      hide Near, NearInside, Joined, Shorter, GoesOn, Nonempty;
      ShorterJoined(cues, a, n, o);
      ShorterJoined(cues, b, n, o);
      ShorterDecides(cues, a, n, o);
      ShorterDecides(cues, b, n, o);
      JoinedUnique(cues, Shorter(a), Shorter(b), n - 1, o);
    } else if n == 1 {
      ShorterEnds(a, n);
      ShorterEnds(b, n);
    }
  }

  /**
   Bridging: the cues are cut, in the only way, into stretches of cues near their first, and each
   stretch becomes one cue with the text and position of its first, from where the first begins to where
   the last ends, with all their frames.
   */
  lemma BridgeIs(cues: seq<Cue>, spans: seq<Run>, o: Options)
    requires Joined(cues, spans, |cues|, o)
    ensures |Bridge(cues, o)| == |spans|
    ensures forall k :: 0 <= k < |spans| ==>
      var c, first, last := Bridge(cues, o)[k], cues[spans[k].lo], cues[spans[k].hi - 1];
      && c.start == first.start && c.end == last.end && c.text == first.text && c.an == first.an
      && c.frames == Frames(cues, spans[k].lo, spans[k].hi)
  {
    hide Spans, Combined, Near, NearInside;
    SpansJoined(cues, |cues|, o);
    JoinedUnique(cues, spans, Spans(cues, |cues|, o), |cues|, o);
    forall k | 0 <= k < |spans|
      ensures
        var c, first, last := Bridge(cues, o)[k], cues[spans[k].lo], cues[spans[k].hi - 1];
        && c.start == first.start && c.end == last.end && c.text == first.text && c.an == first.an
        && c.frames == Frames(cues, spans[k].lo, spans[k].hi)
    {
      CombinedEnds(cues, spans[k].lo, spans[k].hi);
      CombinedFrames(cues, spans[k].lo, spans[k].hi);
    }
  }

  // ------------------------------------------------------------ the groups that pass

  /** What is asked of a group: enough frames, long enough, and a text that is not junk where junk is dropped. */
  ghost predicate Asked(g: Group, o: Options)
    requires Usable(o)
  {
    && g.texts != [] && |g.texts| >= o.minFrames && g.end + o.frameInterval - g.start >= o.minDuration
    && (o.dropJunk ==>
          var text := if o.charVoting then Consensus.ConsensusOf(o.ratio, o.opcodes, g.texts, Some(g.confs))
                      else MostCommon(g.texts, |g.texts|);
          !IsJunk(Tidy.Normalize(text), o.isLetter))
  }

  lemma PassesIff(g: Group, o: Options)
    requires Usable(o) && g.texts != []
    ensures CueFor(g, o).Some? <==> Asked(g, o)
    ensures CueFor(g, o).Some? ==>
      var c := CueFor(g, o).value;
      c.start == g.start && c.end == g.end + o.frameInterval && c.an == g.an && c.frames == |g.texts|
  {
    hide SumOf, Least, Furthest, Tidy.Normalize, Consensus.ConsensusOf, IsJunk, MostCommon;
  }

  /** The indices of the groups that pass, among the first n. */
  ghost predicate PassingAt(groups: seq<Group>, n: nat, o: Options, at: seq<int>)
    requires Usable(o) && AllRead(groups) && n <= |groups|
  {
    && (forall k, m :: 0 <= k < m < |at| ==> at[k] < at[m])
    && (forall k :: 0 <= k < |at| ==> 0 <= at[k] < n)
    && (forall i :: 0 <= i < n ==> (i in at <==> Asked(groups[i], o)))
  }

  lemma PassingStep(groups: seq<Group>, n: nat, o: Options, at: seq<int>)
    requires Usable(o) && AllRead(groups) && n < |groups| && PassingAt(groups, n, o, at)
    ensures PassingAt(groups, n + 1, o, if Asked(groups[n], o) then at + [n] else at)
  {
    hide Asked;
    var more := if Asked(groups[n], o) then at + [n] else at;
    assert n !in at;
    forall i | 0 <= i < n + 1 ensures i in more <==> Asked(groups[i], o) {
      assert i < n ==> (i in more <==> i in at);
    }
  }

  lemma KeptStep(groups: seq<Group>, n: nat, o: Options)
    requires Usable(o) && n < |groups| && AllRead(groups)
    ensures AllRead(groups[..n]) && AllRead(groups[..n + 1])
    ensures KeptGroups(groups[..n + 1], o)
         == if Asked(groups[n], o) then KeptGroups(groups[..n], o) + [groups[n]] else KeptGroups(groups[..n], o)
  {
    hide CueFor, Asked;
    PassesIff(groups[n], o);
    assert groups[..n + 1][..n] == groups[..n];
  }

  /** The groups at these indices, in order. */
  predicate PickedAt(groups: seq<Group>, at: seq<int>, kept: seq<Group>) {
    |kept| == |at| && forall k :: 0 <= k < |at| ==> 0 <= at[k] < |groups| && kept[k] == groups[at[k]]
  }

  lemma NonePass(groups: seq<Group>, o: Options)
    requires Usable(o) && AllRead(groups)
    ensures AllRead(groups[..0]) && PassingAt(groups, 0, o, []) && PickedAt(groups, [], KeptGroups(groups[..0], o))
  {
  }

  lemma OnePicked(groups: seq<Group>, at: seq<int>, kept: seq<Group>, n: nat)
    requires PickedAt(groups, at, kept) && n < |groups|
    ensures PickedAt(groups, at + [n], kept + [groups[n]])
  {
  }

  /** Just the groups that pass are kept, in order. */
  lemma {:induction false} KeptArePassing(groups: seq<Group>, n: nat, o: Options) returns (at: seq<int>)
    requires Usable(o) && AllRead(groups) && n <= |groups|
    ensures AllRead(groups[..n]) && PassingAt(groups, n, o, at) && PickedAt(groups, at, KeptGroups(groups[..n], o))
  {
    hide CueFor, Asked, KeptGroups, PassingAt, PickedAt;
    if n == 0 {
      at := [];
      NonePass(groups, o);
    } else {
      at := KeptArePassing(groups, n - 1, o);
      PassingStep(groups, n - 1, o, at);
      KeptStep(groups, n - 1, o);
      OnePicked(groups, at, KeptGroups(groups[..n - 1], o), n - 1);
      if Asked(groups[n - 1], o) {
        at := at + [n - 1];
      }
    }
  }

  // ---------------------------------------------------------------------- in time

  /** A sample of a group lies in its time. */
  lemma InGroup(samples: seq<Sample>, r: Run, i: nat, d: real)
    requires WellSpaced(samples, d) && d > 0.0 && r.lo <= i < r.hi <= |samples|
    ensures var g := GroupAt(samples, |samples|, r); g.start <= samples[i].ts <= g.end
  {
    var e := GroupEnds(samples, r, d);
    if r.lo < i {
      SamplesSpaced(samples, d, r.lo, i);
    }
    if i < e {
      SamplesSpaced(samples, d, i, e);
    }
  }

  /** A cue lies in the time of the cue it is bridged into. */
  lemma InBridged(cues: seq<Cue>, o: Options, m: nat) returns (k: nat)
    requires m < |cues| && Disjoint(cues)
    ensures k < |Bridge(cues, o)|
    ensures Bridge(cues, o)[k].start <= cues[m].start && cues[m].end <= Bridge(cues, o)[k].end
  {
    hide Bridge, Spans, NearInside, Near;
    var spans := Spans(cues, |cues|, o);
    SpansJoined(cues, |cues|, o);
    BridgeIs(cues, spans, o);
    k := SpanOfCue(spans, |cues|, m);
    var r := spans[k];
    assert r.lo < m ==> cues[r.lo].end <= cues[m].start;
    assert m < r.hi - 1 ==> cues[m].end <= cues[r.hi - 1].start;
  }

  lemma {:induction false} SpanOfCue(spans: seq<Run>, n: nat, m: nat) returns (k: nat)
    requires Stretches(spans, n) && m < n
    ensures k < |spans| && spans[k].lo <= m < spans[k].hi
  {
    k := |spans| - 1;
    while m < spans[k].lo
      invariant k < |spans| && m < spans[k].hi
    {
      k := k - 1;
    }
  }

  /** A maximal run of readings. */
  predicate IsRun(samples: seq<Sample>, o: Options, r: Run) {
    r.lo < r.hi <= |samples| && r in Runs(samples, |samples|, o)
  }

  /** The group of a run that passes has a cue before bridging. */
  lemma RunHasCue(samples: seq<Sample>, o: Options, r: Run) returns (m: nat)
    requires Usable(o) && IsRun(samples, o, r) && Asked(GroupAt(samples, |samples|, r), o)
    ensures m < |Unbridged(samples, o)|
    ensures
      var g, c := GroupAt(samples, |samples|, r), Unbridged(samples, o)[m];
      c.start == g.start && c.end == g.end + o.frameInterval
  {
    hide Runs, Asked, CueFor, KeptGroups, PassingAt, Partition, AllRead;
    GroupsAllRead(samples, o);
    RunsArePartition(samples, |samples|, o);
    var groups := Groups(samples, o);
    var n: nat :| n < |Runs(samples, |samples|, o)| && Runs(samples, |samples|, o)[n] == r;
    assert groups[n] == GroupAt(samples, |samples|, r);
    assert groups[..|groups|] == groups;
    var at := KeptArePassing(groups, |groups|, o);
    m := IndexPassing(groups, n, o, at);
    PassesIff(groups[n], o);
  }

  lemma IndexPassing(groups: seq<Group>, n: nat, o: Options, at: seq<int>) returns (m: nat)
    requires Usable(o) && AllRead(groups) && n < |groups| && PassingAt(groups, |groups|, o, at) && Asked(groups[n], o)
    ensures m < |at| && at[m] == n
  {
    hide Asked;
    m :| m < |at| && at[m] == n;
  }

  /**
   What is read is shown: for samples an interval apart, every sample of a run whose group passes lies,
   with its interval, in the time of a returned cue.
   */
  lemma SpokenIsShown(samples: seq<Sample>, o: Options, r: Run, i: nat) returns (k: nat)
    requires Usable(o) && o.frameInterval > 0.0 && WellSpaced(samples, o.frameInterval)
    requires IsRun(samples, o, r) && r.lo <= i < r.hi && Asked(GroupAt(samples, |samples|, r), o)
    ensures k < |Merged(samples, o)|
    ensures Merged(samples, o)[k].start <= samples[i].ts
    ensures samples[i].ts + o.frameInterval <= Merged(samples, o)[k].end
  {
    hide Asked, Unbridged, Bridge, WellSpaced, Disjoint, Runs;
    var m := RunHasCue(samples, o, r);
    InGroup(samples, r, i, o.frameInterval);
    hide GroupAt;
    UnbridgedDisjoint(samples, o);
    k := InBridged(Unbridged(samples, o), o, m);
  }

  /** The times of a group: its first sample, and its last or the silent one behind it. */
  predicate Times(samples: seq<Sample>, start: real, end: real, i: nat, e: nat) {
    && i <= e < |samples| && start == samples[i].ts && end == samples[e].ts && !Blank(samples[i])
    && (Blank(samples[e]) ==> e > 0 && !Blank(samples[e - 1]))
  }

  lemma GroupTimes(samples: seq<Sample>, o: Options, r: Run) returns (i: nat, e: nat)
    requires Unbroken(samples, o, r) && r.lo < r.hi
    ensures var g := GroupAt(samples, |samples|, r); Times(samples, g.start, g.end, i, e)
  {
    hide TextsOf, ConfsOf, ExtentsOf, Blank;
    i := r.lo;
    e := if r.hi < |samples| && Blank(samples[r.hi]) then r.hi else r.hi - 1;
  }

  lemma KeptTimes(samples: seq<Sample>, o: Options, m: nat) returns (i: nat, e: nat)
    requires Usable(o) && m < |Unbridged(samples, o)|
    ensures var c := Unbridged(samples, o)[m]; Times(samples, c.start, c.end - o.frameInterval, i, e)
  {
    hide CueFor, KeptGroups, PassingAt, GroupAt, Asked, Times;
    GroupsAllRead(samples, o);
    RunsArePartition(samples, |samples|, o);
    var groups, runs := Groups(samples, o), Runs(samples, |samples|, o);
    assert groups[..|groups|] == groups;
    var at := KeptArePassing(groups, |groups|, o);
    var n := at[m];
    assert groups[n] == GroupAt(samples, |samples|, runs[n]);
    assert Unbroken(samples, o, runs[n]);
    hide Runs, Groups, Unbroken;
    i, e := GroupTimes(samples, o, runs[n]);
    PassesIff(groups[n], o);
  }

  /**
   A returned cue begins when a sample is read, and ends an interval after a sample that is read or the
   silent one behind it: it is never drawn out.
   */
  lemma CueTimes(samples: seq<Sample>, o: Options, k: nat) returns (i: nat, e: nat)
    requires Usable(o) && k < |Merged(samples, o)|
    ensures i < |samples| && e < |samples| && !Blank(samples[i]) && Merged(samples, o)[k].start == samples[i].ts
    ensures Merged(samples, o)[k].end == samples[e].ts + o.frameInterval
    ensures !Blank(samples[e]) || (e > 0 && !Blank(samples[e - 1]))
  {
    hide Unbridged, Spans, Joined, Blank;
    var cues := Unbridged(samples, o);
    var spans := Spans(cues, |cues|, o);
    SpansJoined(cues, |cues|, o);
    BridgeIs(cues, spans, o);
    JoinedBounds(cues, spans, o, k);
    hide Bridge;
    var first, last: nat;
    i, last := KeptTimes(samples, o, spans[k].lo);
    first, e := KeptTimes(samples, o, spans[k].hi - 1);
  }

  lemma JoinedBounds(cues: seq<Cue>, spans: seq<Run>, o: Options, k: nat)
    requires Joined(cues, spans, |cues|, o) && k < |spans|
    ensures spans[k].lo < spans[k].hi <= |cues|
  {
    hide Near;
  }

  // --------------------------------------------------------------- the common text

  /** The first of the texts that occur most often. */
  predicate FirstOfMost(texts: seq<string>, n: nat, i: nat)
    requires i < n <= |texts|
  {
    && (forall j :: 0 <= j < n ==> Count(texts, texts[j]) <= Count(texts, texts[i]))
    && (forall j :: 0 <= j < i ==> Count(texts, texts[j]) < Count(texts, texts[i]))
  }

  lemma {:induction false} MostCommonIs(texts: seq<string>, n: nat) returns (i: nat)
    requires 0 < n <= |texts|
    ensures i < n && MostCommon(texts, n) == texts[i] && FirstOfMost(texts, n, i)
  {
    hide Count;
    i := 0;
    if n > 1 {
      i := MostCommonIs(texts, n - 1);
      if Count(texts, texts[n - 1]) > Count(texts, texts[i]) {
        i := n - 1;
      }
    }
  }
}
