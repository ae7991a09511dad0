/**
 From per-frame readings to timed cues (`merge_into_cues` in
 worker/subextractor/dedup.py): grouping, filtering and bridging. Times, confidences and
 extents are reals.
 */
module Cues {
  import opened Wrappers
  import opened Sequences
  import opened Text
  import opened Tidy
  import Consensus
  import ConsensusTexts

  /** One sampled frame. A missing confidence counts as 1.0. */
  datatype Sample = Sample(ts: real, text: string, an: int, conf: Option<real>, extent: Option<Extent>)

  /** Left edge and width, relative to the zone. */
  datatype Extent = Extent(x: real, w: real)

  datatype Group = Group(start: real, end: real, an: int, texts: seq<string>, confs: seq<real>, extents: seq<Extent>)

  datatype Cue = Cue(start: real, end: real, text: string, an: int, frames: nat, confidence: real, x: real, w: real)

  /** The options, and the library functions the code calls into. */
  datatype Options = Options(
    frameInterval: real, simThreshold: real, minGap: real, minDuration: real, minFrames: int,
    dropJunk: bool, charVoting: bool,
    ratio: (string, string) -> real, opcodes: Consensus.Opcodes, isLetter: char -> bool)

  function Stripped(s: Sample): string { PyStrip(s.text) }

  predicate Blank(s: Sample) { Stripped(s) == "" }

  function Confidence(s: Sample): real { if s.conf.Some? then s.conf.value else 1.0 }

  /** The later reading continues the earlier one. */
  predicate Continues(samples: seq<Sample>, i: nat, o: Options)
    requires 0 < i < |samples|
  {
    o.ratio(Stripped(samples[i]), Stripped(samples[i - 1])) >= o.simThreshold
  }

  // ------------------------------------------------------------------- grouping

  /** Samples [lo, hi). */
  datatype Run = Run(lo: nat, hi: nat)

  /** The maximal runs of samples that are not blank and continue each other, among the first n. */
  function Runs(samples: seq<Sample>, n: nat, o: Options): (r: seq<Run>)
    requires n <= |samples|
    ensures r != [] ==> r[|r| - 1].lo < r[|r| - 1].hi <= n
    ensures n > 0 && !Blank(samples[n - 1]) ==> r != [] && r[|r| - 1].hi == n
  {
    if n == 0 then []
    else
      var before := Runs(samples, n - 1, o);
      if Blank(samples[n - 1]) then before
      else if n > 1 && !Blank(samples[n - 2]) && Continues(samples, n - 1, o) then
        before[..|before| - 1] + [before[|before| - 1].(hi := n)]
      else before + [Run(n - 1, n)]
  }

  /** Runs among the first n samples, not empty, one after the other. */
  predicate InOrder(n: nat, runs: seq<Run>) {
    && (forall k :: 0 <= k < |runs| ==> runs[k].lo < runs[k].hi <= n)
    && (forall k, l :: 0 <= k < l < |runs| ==> runs[k].hi <= runs[l].lo)
  }

  /** No blank in a run, and every sample of it but the first continues the one before. */
  predicate Unbroken(samples: seq<Sample>, o: Options, r: Run) {
    && r.hi <= |samples|
    && (forall i :: r.lo <= i < r.hi ==> !Blank(samples[i]))
    && (forall i :: r.lo < i < r.hi ==> Continues(samples, i, o))
  }

  predicate AllUnbroken(samples: seq<Sample>, o: Options, runs: seq<Run>) {
    forall k :: 0 <= k < |runs| ==> Unbroken(samples, o, runs[k])
  }

  predicate InSome(runs: seq<Run>, i: nat) { exists k :: 0 <= k < |runs| && runs[k].lo <= i < runs[k].hi }

  /** Every sample that is not blank is in a run. */
  predicate Complete(samples: seq<Sample>, n: nat, runs: seq<Run>)
    requires n <= |samples|
  {
    forall i :: 0 <= i < n && !Blank(samples[i]) ==> InSome(runs, i)
  }

  /** A run that touches the one before does not continue it. */
  predicate ApartFrom(samples: seq<Sample>, o: Options, before: Run, r: Run) {
    before.hi == r.lo ==> 0 < r.lo < |samples| && !Continues(samples, r.lo, o)
  }

  predicate Apart(samples: seq<Sample>, o: Options, runs: seq<Run>) {
    forall k :: 0 < k < |runs| ==> ApartFrom(samples, o, runs[k - 1], runs[k])
  }

  /**
   What a partition into maximal runs is: the runs are in order and hold just the samples
   that are not blank; inside a run each sample continues the one before; between two runs
   there is a blank, or a sample that does not continue the one before.
   */
  predicate Partition(samples: seq<Sample>, n: nat, o: Options, runs: seq<Run>)
    requires n <= |samples|
  {
    InOrder(n, runs) && AllUnbroken(samples, o, runs) && Complete(samples, n, runs) && Apart(samples, o, runs)
  }

  // Each part of the definition, taken apart at the last run.

  predicate AllBlank(samples: seq<Sample>, lo: nat, hi: nat)
    requires hi <= |samples|
  {
    forall i :: lo <= i < hi ==> Blank(samples[i])
  }

  lemma InOrderSnoc(n: nat, front: seq<Run>, r: Run)
    ensures InOrder(n, front + [r]) <==> InOrder(r.lo, front) && r.lo < r.hi <= n
  {
    var runs := front + [r];
    assert runs[|front|] == r;
    if InOrder(n, runs) {
      forall k | 0 <= k < |front| ensures front[k].lo < front[k].hi <= r.lo {
        assert runs[k].hi <= runs[|front|].lo;
      }
      forall k, l | 0 <= k < l < |front| ensures front[k].hi <= front[l].lo {
        assert runs[k].hi <= runs[l].lo;
      }
    }
  }

  lemma AllUnbrokenSnoc(samples: seq<Sample>, o: Options, front: seq<Run>, r: Run)
    ensures AllUnbroken(samples, o, front + [r]) <==> AllUnbroken(samples, o, front) && Unbroken(samples, o, r)
  {
    hide Unbroken;
    var runs := front + [r];
    assert runs[|front|] == r;
    assert forall k :: 0 <= k < |front| ==> runs[k] == front[k];
  }

  lemma InSomeSnoc(front: seq<Run>, r: Run, i: nat)
    ensures InSome(front + [r], i) <==> InSome(front, i) || r.lo <= i < r.hi
  {
    var runs := front + [r];
    if InSome(front, i) {
      var k :| 0 <= k < |front| && front[k].lo <= i < front[k].hi;
      assert runs[k].lo <= i < runs[k].hi;
    }
    assert runs[|front|] == r;
  }

  lemma CompleteSnoc(samples: seq<Sample>, n: nat, front: seq<Run>, r: Run)
    requires r.lo < r.hi <= n <= |samples| && InOrder(r.lo, front)
    ensures Complete(samples, n, front + [r])
        <==> Complete(samples, r.lo, front) && AllBlank(samples, r.hi, n)
  {
    hide Blank;
    forall i: nat ensures InSome(front + [r], i) <==> InSome(front, i) || r.lo <= i < r.hi {
      InSomeSnoc(front, r, i);
    }
    assert forall i: nat :: InSome(front, i) ==> i < r.lo;
  }

  lemma ApartSnoc(samples: seq<Sample>, o: Options, front: seq<Run>, r: Run)
    ensures Apart(samples, o, front + [r])
        <==> Apart(samples, o, front) && (front != [] ==> ApartFrom(samples, o, front[|front| - 1], r))
  {
    hide ApartFrom;
    var runs := front + [r];
    if Apart(samples, o, front) && (front != [] ==> ApartFrom(samples, o, front[|front| - 1], r)) {
      forall k | 0 < k < |runs| ensures ApartFrom(samples, o, runs[k - 1], runs[k]) {
        if k < |front| {
          assert ApartFrom(samples, o, front[k - 1], front[k]);
        }
      }
    }
    if Apart(samples, o, runs) {
      forall k | 0 < k < |front| ensures ApartFrom(samples, o, front[k - 1], front[k]) {
        assert ApartFrom(samples, o, runs[k - 1], runs[k]);
      }
      if front != [] {
        assert ApartFrom(samples, o, runs[|front| - 1], runs[|front|]);
      }
    }
  }

  /** A partition seen from its last run. */
  predicate LastRun(samples: seq<Sample>, n: nat, o: Options, front: seq<Run>, r: Run)
    requires n <= |samples|
  {
    && r.lo < r.hi <= n && Partition(samples, r.lo, o, front)
    && Unbroken(samples, o, r) && AllBlank(samples, r.hi, n)
    && (front != [] ==> ApartFrom(samples, o, front[|front| - 1], r))
  }

  lemma PartitionSnoc(samples: seq<Sample>, n: nat, o: Options, front: seq<Run>, r: Run)
    requires n <= |samples|
    ensures Partition(samples, n, o, front + [r]) <==> LastRun(samples, n, o, front, r)
  {
    hide InOrder, AllUnbroken, Complete, Apart, Unbroken, ApartFrom, AllBlank;
    InOrderSnoc(n, front, r);
    AllUnbrokenSnoc(samples, o, front, r);
    ApartSnoc(samples, o, front, r);
    if InOrder(r.lo, front) && r.lo < r.hi <= n {
      CompleteSnoc(samples, n, front, r);
    }
  }

  lemma PartitionNone(samples: seq<Sample>, n: nat, o: Options)
    requires n <= |samples|
    ensures Partition(samples, n, o, []) <==> AllBlank(samples, 0, n)
  {
    hide Blank;
    assert forall i: nat :: !InSome([], i);
  }

  lemma SampleBlank(samples: seq<Sample>, n: nat, o: Options, before: seq<Run>)
    requires 0 < n <= |samples| && Partition(samples, n - 1, o, before) && Blank(samples[n - 1])
    ensures Partition(samples, n, o, before)
  {
    hide Blank, Continues, Partition, Unbroken, ApartFrom;
    if before == [] {
      PartitionNone(samples, n - 1, o);
      PartitionNone(samples, n, o);
    } else {
      var front, r := before[..|before| - 1], before[|before| - 1];
      assert before == front + [r];
      PartitionSnoc(samples, n - 1, o, front, r);
      PartitionSnoc(samples, n, o, front, r);
    }
  }

  lemma SampleContinues(samples: seq<Sample>, n: nat, o: Options, front: seq<Run>, r: Run)
    requires 0 < n <= |samples| && Partition(samples, n - 1, o, front + [r]) && !Blank(samples[n - 1])
    requires r.hi == n - 1 && n > 1 && Continues(samples, n - 1, o)
    ensures Partition(samples, n, o, front + [r.(hi := n)])
  {
    hide Blank, Continues, Partition;
    PartitionSnoc(samples, n - 1, o, front, r);
    PartitionSnoc(samples, n, o, front, r.(hi := n));
  }

  lemma SampleStarts(samples: seq<Sample>, n: nat, o: Options, before: seq<Run>)
    requires 0 < n <= |samples| && Partition(samples, n - 1, o, before) && !Blank(samples[n - 1])
    requires n > 1 && !Blank(samples[n - 2]) ==> !Continues(samples, n - 1, o)
    ensures Partition(samples, n, o, before + [Run(n - 1, n)])
  {
    hide Blank, Continues, Partition;
    if before != [] {
      var front, r := before[..|before| - 1], before[|before| - 1];
      assert before == front + [r];
      PartitionSnoc(samples, n - 1, o, front, r);
    }
    PartitionSnoc(samples, n, o, before, Run(n - 1, n));
  }

  /** The runs the loop builds are such a partition. */
  lemma {:induction false} RunsArePartition(samples: seq<Sample>, n: nat, o: Options)
    requires n <= |samples|
    ensures Partition(samples, n, o, Runs(samples, n, o))
  {
    hide Blank, Continues, Partition;
    if n == 0 {
      PartitionNone(samples, 0, o);
    } else {
      RunsArePartition(samples, n - 1, o);
      var before := Runs(samples, n - 1, o);
      if Blank(samples[n - 1]) {
        SampleBlank(samples, n, o, before);
      } else if n > 1 && !Blank(samples[n - 2]) && Continues(samples, n - 1, o) {
        assert before == before[..|before| - 1] + [before[|before| - 1]];
        SampleContinues(samples, n, o, before[..|before| - 1], before[|before| - 1]);
      } else {
        SampleStarts(samples, n, o, before);
      }
    }
  }

  /** There is only one such partition. */
  lemma {:induction false} PartitionUnique(samples: seq<Sample>, n: nat, o: Options, runs: seq<Run>)
    requires n <= |samples| && Partition(samples, n, o, runs)
    ensures runs == Runs(samples, n, o)
    decreases n
  {
    hide Blank, Continues, Partition;
    if runs == [] {
      PartitionNone(samples, n, o);
      AllBlankRuns(samples, n, o);
    } else {
      var front, r := runs[..|runs| - 1], runs[|runs| - 1];
      assert runs == front + [r];
      PartitionSnoc(samples, n, o, front, r);
      PartitionUnique(samples, r.lo, o, front);
      RunAfter(samples, r.hi, o, r);
      BlanksAfter(samples, r.hi, n, o);
    }
  }

  lemma {:induction false} AllBlankRuns(samples: seq<Sample>, n: nat, o: Options)
    requires n <= |samples| && AllBlank(samples, 0, n)
    ensures Runs(samples, n, o) == []
  {
    hide Blank, Continues;
    if n > 0 {
      AllBlankRuns(samples, n - 1, o);
    }
  }

  lemma {:induction false} BlanksAfter(samples: seq<Sample>, lo: nat, n: nat, o: Options)
    requires lo <= n <= |samples| && AllBlank(samples, lo, n)
    ensures Runs(samples, n, o) == Runs(samples, lo, o)
  {
    hide Blank, Continues;
    if n > lo {
      BlanksAfter(samples, lo, n - 1, o);
    }
  }

  /** The loop's runs grow by an unbroken run that is apart from what was there. */
  lemma {:induction false} RunAfter(samples: seq<Sample>, n: nat, o: Options, r: Run)
    requires r.lo < n <= r.hi && Unbroken(samples, o, r)
    requires var before := Runs(samples, r.lo, o);
      before != [] ==> ApartFrom(samples, o, before[|before| - 1], r)
    ensures Runs(samples, n, o) == Runs(samples, r.lo, o) + [Run(r.lo, n)]
    decreases n
  {
    hide Blank, Continues;
    if n > r.lo + 1 {
      RunAfter(samples, n - 1, o, r);
    }
  }

  // --------------------------------------------------------------------- groups

  function TextsOf(samples: seq<Sample>, lo: nat, hi: nat): seq<string>
    requires lo <= hi <= |samples|
  {
    if lo == hi then [] else TextsOf(samples, lo, hi - 1) + [Stripped(samples[hi - 1])]
  }

  function ConfsOf(samples: seq<Sample>, lo: nat, hi: nat): (r: seq<real>)
    requires lo <= hi <= |samples|
    ensures |r| == hi - lo == |TextsOf(samples, lo, hi)|
  {
    if lo == hi then [] else ConfsOf(samples, lo, hi - 1) + [Confidence(samples[hi - 1])]
  }

  function ExtentsOf(samples: seq<Sample>, lo: nat, hi: nat): seq<Extent>
    requires lo <= hi <= |samples|
  {
    if lo == hi then []
    else ExtentsOf(samples, lo, hi - 1)
         + (if samples[hi - 1].extent.Some? then [samples[hi - 1].extent.value] else [])
  }

  /** The group of a run once n samples are read: a blank sample behind the run ends the group. */
  function GroupAt(samples: seq<Sample>, n: nat, r: Run): Group
    requires r.lo < r.hi <= n <= |samples|
  {
    Group(samples[r.lo].ts,
          if r.hi < n && Blank(samples[r.hi]) then samples[r.hi].ts else samples[r.hi - 1].ts,
          samples[r.lo].an, TextsOf(samples, r.lo, r.hi), ConfsOf(samples, r.lo, r.hi), ExtentsOf(samples, r.lo, r.hi))
  }

  /** The groups of the maximal runs. */
  function GroupsOf(samples: seq<Sample>, runs: seq<Run>): seq<Group>
    requires forall k :: 0 <= k < |runs| ==> runs[k].lo < runs[k].hi <= |samples|
  {
    seq(|runs|, k requires 0 <= k < |runs| => GroupAt(samples, |samples|, runs[k]))
  }

  function Groups(samples: seq<Sample>, o: Options): seq<Group> {
    RunsArePartition(samples, |samples|, o);
    GroupsOf(samples, Runs(samples, |samples|, o))
  }

  /** The loop's state after i samples: the closed groups, and the open one when the last sample had text. */
  ghost predicate Open(samples: seq<Sample>, i: nat, o: Options, groups: seq<Group>, cur: Option<Group>)
    requires i <= |samples|
  {
    var runs := Runs(samples, i, o);
    && InOrder(i, runs)
    && (cur.Some? <==> i > 0 && !Blank(samples[i - 1]))
    && |groups| == (if cur.Some? then |runs| - 1 else |runs|)
    && (forall k :: 0 <= k < |groups| ==> groups[k] == GroupAt(samples, |samples|, runs[k]))
    && (cur.Some? ==> runs != [] && runs[|runs| - 1].hi == i && cur.value == GroupAt(samples, i, runs[|runs| - 1]))
  }

  lemma NextRuns(samples: seq<Sample>, i: nat, o: Options)
    requires i < |samples|
    ensures InOrder(i, Runs(samples, i, o)) && InOrder(i + 1, Runs(samples, i + 1, o))
  {
    RunsArePartition(samples, i, o);
    RunsArePartition(samples, i + 1, o);
  }

  lemma OpenBlank(samples: seq<Sample>, i: nat, o: Options, groups: seq<Group>, cur: Option<Group>)
    requires i < |samples| && Blank(samples[i]) && Open(samples, i, o, groups, cur)
    ensures Open(samples, i + 1, o, if cur.Some? then groups + [cur.value.(end := samples[i].ts)] else groups, None)
  {
    hide Blank, Continues, InOrder, Runs, GroupAt;
    NextRuns(samples, i, o);
    SameRuns(samples, i, o);
    var runs := Runs(samples, i, o);
    if cur.Some? {
      BlankCloses(samples, runs[|runs| - 1]);
    }
  }

  lemma BlankCloses(samples: seq<Sample>, r: Run)
    requires r.lo < r.hi < |samples| && Blank(samples[r.hi])
    ensures GroupAt(samples, |samples|, r) == GroupAt(samples, r.hi, r).(end := samples[r.hi].ts)
  {
    hide Blank, TextsOf, ConfsOf, ExtentsOf;
  }

  lemma OpenContinues(samples: seq<Sample>, i: nat, o: Options, groups: seq<Group>, g: Group)
    requires 0 < i < |samples| && !Blank(samples[i]) && Open(samples, i, o, groups, Some(g))
    requires Continues(samples, i, o)
    ensures Open(samples, i + 1, o, groups,
      Some(g.(end := samples[i].ts, texts := g.texts + [Stripped(samples[i])],
              confs := g.confs + [Confidence(samples[i])],
              extents := g.extents + (if samples[i].extent.Some? then [samples[i].extent.value] else []))))
  {
    hide Blank, Continues, InOrder;
    NextRuns(samples, i, o);
  }

  lemma OpenStarts(samples: seq<Sample>, i: nat, o: Options, groups: seq<Group>, cur: Option<Group>)
    requires i < |samples| && !Blank(samples[i]) && Open(samples, i, o, groups, cur)
    requires cur.Some? ==> !Continues(samples, i, o)
    ensures Open(samples, i + 1, o, if cur.Some? then groups + [cur.value] else groups,
      Some(Group(samples[i].ts, samples[i].ts, samples[i].an, [Stripped(samples[i])], [Confidence(samples[i])],
                 if samples[i].extent.Some? then [samples[i].extent.value] else [])))
  {
    hide Blank, Continues, InOrder, TextsOf, ConfsOf, ExtentsOf, Runs, GroupAt;
    NextRuns(samples, i, o);
    FirstOfGroup(samples, i);
    NewRun(samples, i, o);
    if cur.Some? {
      OpenIsClosed(samples, i, o, groups, cur.value);
    }
    var before, after := Runs(samples, i, o), Runs(samples, i + 1, o);
    var closed := if cur.Some? then groups + [cur.value] else groups;
    forall k | 0 <= k < |closed| ensures after[k] == before[k] && closed[k] == GroupAt(samples, |samples|, after[k]) {
      assert k < |groups| ==> closed[k] == groups[k];
    }
  }

  lemma NewRun(samples: seq<Sample>, i: nat, o: Options)
    requires i < |samples| && !Blank(samples[i])
    requires i > 0 && !Blank(samples[i - 1]) ==> !Continues(samples, i, o)
    ensures Runs(samples, i + 1, o) == Runs(samples, i, o) + [Run(i, i + 1)]
  {
    hide Blank, Continues;
  }

  lemma OpenIsClosed(samples: seq<Sample>, i: nat, o: Options, groups: seq<Group>, g: Group)
    requires i < |samples| && !Blank(samples[i]) && Open(samples, i, o, groups, Some(g))
    ensures GroupAt(samples, |samples|, Runs(samples, i, o)[|groups|]) == g
  {
    hide Blank, InOrder;
  }

  lemma FirstOfGroup(samples: seq<Sample>, i: nat)
    requires i < |samples|
    ensures GroupAt(samples, i + 1, Run(i, i + 1))
         == Group(samples[i].ts, samples[i].ts, samples[i].an, [Stripped(samples[i])], [Confidence(samples[i])],
                  if samples[i].extent.Some? then [samples[i].extent.value] else [])
  {
    assert TextsOf(samples, i, i) == [] && ConfsOf(samples, i, i) == [] && ExtentsOf(samples, i, i) == [];
  }

  lemma OpenText(samples: seq<Sample>, i: nat, o: Options, groups: seq<Group>, g: Group)
    requires 0 < i <= |samples| && Open(samples, i, o, groups, Some(g))
    ensures g.texts != [] && g.texts[|g.texts| - 1] == Stripped(samples[i - 1])
  {
    hide Blank, Continues, InOrder;
  }

  lemma OpenEnd(samples: seq<Sample>, o: Options, groups: seq<Group>, cur: Option<Group>)
    requires Open(samples, |samples|, o, groups, cur)
    ensures Groups(samples, o) == if cur.Some? then groups + [cur.value] else groups
  {
    hide Blank, Continues, InOrder;
  }

  /** The grouping loop. */
  method GroupSamples(samples: seq<Sample>, o: Options) returns (groups: seq<Group>)
    ensures groups == Groups(samples, o)
  {
    hide PyStrip, Open, Groups;
    groups := [];
    var cur: Option<Group> := None;
    OpenNothing(samples, o);
    for i := 0 to |samples|
      invariant cur.Some? ==> i > 0
      invariant Open(samples, i, o, groups, cur)
    {
      var t := Stripped(samples[i]);
      var conf := Confidence(samples[i]);
      var ext := samples[i].extent;
      if t == "" {
        OpenBlank(samples, i, o, groups, cur);
        if cur.Some? {
          groups := groups + [cur.value.(end := samples[i].ts)];
          cur := None;
        }
        continue;
      }
      if cur.Some? {
        OpenText(samples, i, o, groups, cur.value);
      }
      if cur.Some? && o.ratio(t, cur.value.texts[|cur.value.texts| - 1]) >= o.simThreshold {
        var g := cur.value;
        OpenContinues(samples, i, o, groups, g);
        cur := Some(g.(end := samples[i].ts, texts := g.texts + [t], confs := g.confs + [conf],
                       extents := g.extents + (if ext.Some? then [ext.value] else [])));
      } else {
        OpenStarts(samples, i, o, groups, cur);
        if cur.Some? {
          groups := groups + [cur.value];
        }
        cur := Some(Group(samples[i].ts, samples[i].ts, samples[i].an, [t], [conf],
                          if ext.Some? then [ext.value] else []));
      }
    }
    OpenEnd(samples, o, groups, cur);
    if cur.Some? {
      groups := groups + [cur.value];
    }
  }

  lemma OpenNothing(samples: seq<Sample>, o: Options)
    ensures Open(samples, 0, o, [], None)
  {
  }

  function TextsOfRuns(samples: seq<Sample>, runs: seq<Run>): seq<string>
    requires Bounded(runs, |samples|)
  {
    if runs == [] then []
    else TextsOfRuns(samples, runs[..|runs| - 1]) + TextsOf(samples, runs[|runs| - 1].lo, runs[|runs| - 1].hi)
  }

  /** The stripped samples that are not blank, in order. */
  function SpokenTexts(samples: seq<Sample>, n: nat): seq<string>
    requires n <= |samples|
  {
    if n == 0 then []
    else SpokenTexts(samples, n - 1) + (if Blank(samples[n - 1]) then [] else [Stripped(samples[n - 1])])
  }

  lemma TextsGrow(samples: seq<Sample>, lo: nat, n: nat)
    requires lo < n <= |samples|
    ensures TextsOf(samples, lo, n) == TextsOf(samples, lo, n - 1) + [Stripped(samples[n - 1])]
    ensures TextsOf(samples, lo, lo) == []
  {
  }

  predicate Bounded(runs: seq<Run>, n: nat) { forall k :: 0 <= k < |runs| ==> runs[k].lo <= runs[k].hi <= n }

  lemma TextsOfRunsSnoc(samples: seq<Sample>, front: seq<Run>, r: Run)
    requires Bounded(front, |samples|) && r.lo <= r.hi <= |samples|
    ensures Bounded(front + [r], |samples|)
    ensures TextsOfRuns(samples, front + [r]) == TextsOfRuns(samples, front) + TextsOf(samples, r.lo, r.hi)
  {
    hide TextsOf;
    var runs := front + [r];
    assert runs[..|runs| - 1] == front;
  }

  /** The groups' texts, one group after the other, are the samples' texts in order: none is lost or made up. */
  lemma {:induction false} GroupsKeepTexts(samples: seq<Sample>, n: nat, o: Options)
    requires n <= |samples|
    ensures Bounded(Runs(samples, n, o), |samples|)
    ensures TextsOfRuns(samples, Runs(samples, n, o)) == SpokenTexts(samples, n)
  {
    hide Continues, Blank, TextsOf, TextsOfRuns, Runs;
    if n == 0 {
      NoTexts(samples, o);
    } else {
      GroupsKeepTexts(samples, n - 1, o);
      if Blank(samples[n - 1]) {
        SameRuns(samples, n - 1, o);
      } else if n > 1 && !Blank(samples[n - 2]) && Continues(samples, n - 1, o) {
        LongerKeeps(samples, n, o);
      } else {
        NewKeeps(samples, n, o);
      }
    }
  }

  /** One more text in the last run. */
  lemma LongerKeeps(samples: seq<Sample>, n: nat, o: Options)
    requires 1 < n <= |samples| && !Blank(samples[n - 1]) && !Blank(samples[n - 2]) && Continues(samples, n - 1, o)
    requires Bounded(Runs(samples, n - 1, o), |samples|)
    ensures Bounded(Runs(samples, n, o), |samples|)
    ensures TextsOfRuns(samples, Runs(samples, n, o)) ==
        TextsOfRuns(samples, Runs(samples, n - 1, o)) + [Stripped(samples[n - 1])]
  {
    hide Continues, Blank, TextsOf, TextsOfRuns, Runs;
    var before := Runs(samples, n - 1, o);
    LastRunOpen(samples, n - 1, o);
    var front, last := before[..|before| - 1], before[|before| - 1];
    assert before == front + [last] && Bounded(front, |samples|);
    LongerRun(samples, n - 1, o);
    TextsOfRunsSnoc(samples, front, last);
    TextsOfRunsSnoc(samples, front, last.(hi := n));
    TextsGrow(samples, last.lo, n);
    assert TextsOfRuns(samples, front) + (TextsOf(samples, last.lo, n - 1) + [Stripped(samples[n - 1])])
        == TextsOfRuns(samples, front) + TextsOf(samples, last.lo, n - 1) + [Stripped(samples[n - 1])];
  }

  lemma LastRunOpen(samples: seq<Sample>, i: nat, o: Options)
    requires 0 < i <= |samples| && !Blank(samples[i - 1])
    ensures var r := Runs(samples, i, o); r != [] && r[|r| - 1].lo < r[|r| - 1].hi == i
  {
    hide Blank, Continues;
  }

  /** One more run, of one text. */
  lemma NewKeeps(samples: seq<Sample>, n: nat, o: Options)
    requires 0 < n <= |samples| && !Blank(samples[n - 1])
    requires n > 1 && !Blank(samples[n - 2]) ==> !Continues(samples, n - 1, o)
    requires Bounded(Runs(samples, n - 1, o), |samples|)
    ensures Bounded(Runs(samples, n, o), |samples|)
    ensures TextsOfRuns(samples, Runs(samples, n, o)) ==
        TextsOfRuns(samples, Runs(samples, n - 1, o)) + [Stripped(samples[n - 1])]
  {
    hide Continues, Blank, TextsOf, TextsOfRuns, Runs;
    NewRun(samples, n - 1, o);
    TextsOfRunsSnoc(samples, Runs(samples, n - 1, o), Run(n - 1, n));
    TextsGrow(samples, n - 1, n);
    assert [] + [Stripped(samples[n - 1])] == [Stripped(samples[n - 1])];
  }

  lemma SameRuns(samples: seq<Sample>, i: nat, o: Options)
    requires i < |samples| && Blank(samples[i])
    ensures Runs(samples, i + 1, o) == Runs(samples, i, o)
  {
  }

  lemma LongerRun(samples: seq<Sample>, i: nat, o: Options)
    requires 0 < i < |samples| && !Blank(samples[i]) && !Blank(samples[i - 1]) && Continues(samples, i, o)
    ensures var before := Runs(samples, i, o);
      Runs(samples, i + 1, o) == before[..|before| - 1] + [before[|before| - 1].(hi := i + 1)]
  {
    hide Blank, Continues;
  }

  lemma NoTexts(samples: seq<Sample>, o: Options)
    ensures Runs(samples, 0, o) == [] && TextsOfRuns(samples, []) == [] && SpokenTexts(samples, 0) == []
  {
  }

  // -------------------------------------------------------------------- filters

  /** `is_junk`: at most one glyph, or at most three without a letter. */
  predicate IsJunk(text: string, isLetter: char -> bool) {
    var t := WithoutSpaces(text, PySpace);
    |t| <= 1 || (|t| <= 3 && forall i :: 0 <= i < |t| ==> !isLetter(t[i]))
  }

  /** `Counter(texts).most_common(1)`: the first of the texts up to n that occur most often. */
  function MostCommon(texts: seq<string>, n: nat): string
    requires 0 < n <= |texts|
  {
    if n == 1 then texts[0]
    else
      var best := MostCommon(texts, n - 1);
      if Count(texts, texts[n - 1]) > Count(texts, best) then texts[n - 1] else best
  }

  function SumOf(xs: seq<real>): real { if xs == [] then 0.0 else SumOf(xs[..|xs| - 1]) + xs[|xs| - 1] }

  function Least(xs: seq<Extent>): real
    requires xs != []
  {
    if |xs| == 1 then xs[0].x
    else
      var rest := Least(xs[1..]);
      if xs[0].x <= rest then xs[0].x else rest
  }

  function Furthest(xs: seq<Extent>): real
    requires xs != []
  {
    if |xs| == 1 then xs[0].x + xs[0].w
    else
      var rest := Furthest(xs[1..]);
      if xs[0].x + xs[0].w >= rest then xs[0].x + xs[0].w else rest
  }

  /** `max(0.0, min(1.0, v))`. */
  function Clamp(v: real): real { if v < 0.0 then 0.0 else if v > 1.0 then 1.0 else v }

  ghost predicate Usable(o: Options) { Consensus.Library(o.ratio, o.opcodes) }

  ghost function TextFor(g: Group, o: Options): string
    requires Usable(o) && g.texts != []
  {
    Normalize(if o.charVoting then Consensus.ConsensusOf(o.ratio, o.opcodes, g.texts, Some(g.confs))
              else MostCommon(g.texts, |g.texts|))
  }

  /** The persistence, duration and junk filters. */
  predicate Passes(frames: nat, start: real, end: real, text: string, o: Options) {
    && frames >= o.minFrames
    && end - start >= o.minDuration
    && !(o.dropJunk && IsJunk(text, o.isLetter))
  }

  /** The cue of a group, when it passes. */
  ghost function CueFor(g: Group, o: Options): Option<Cue>
    requires Usable(o) && g.texts != []
  {
    var end := g.end + o.frameInterval;
    var text := TextFor(g, o);
    if !Passes(|g.texts|, g.start, end, text, o) then None
    else
      Some(Cue(g.start, end, text, g.an, |g.texts|,
               if g.confs != [] then SumOf(g.confs) / |g.confs| as real else 1.0,
               if g.extents != [] then Clamp(Least(g.extents)) else 0.0,
               if g.extents != [] then Clamp(Furthest(g.extents) - Least(g.extents)) else 0.0))
  }

  predicate AllRead(groups: seq<Group>) { forall k :: 0 <= k < |groups| ==> groups[k].texts != [] }

  /** The groups that pass. */
  ghost function KeptGroups(groups: seq<Group>, o: Options): (r: seq<Group>)
    requires Usable(o) && AllRead(groups)
    ensures AllRead(r) && forall k :: 0 <= k < |r| ==> CueFor(r[k], o).Some?
  {
    hide CueFor;
    if groups == [] then []
    else
      var last := groups[|groups| - 1];
      KeptGroups(groups[..|groups| - 1], o) + (if CueFor(last, o).Some? then [last] else [])
  }

  ghost function CuesFor(kept: seq<Group>, o: Options): seq<Cue>
    requires Usable(o) && AllRead(kept) && forall k :: 0 <= k < |kept| ==> CueFor(kept[k], o).Some?
  {
    seq(|kept|, k requires 0 <= k < |kept| => CueFor(kept[k], o).value)
  }

  /** One turn of the loop below; None where it goes on to the next group. */
  method BuildCue(g: Group, o: Options) returns (cue: Option<Cue>)
    requires Usable(o) && g.texts != []
    ensures cue == CueFor(g, o)
  {
    hide Normalize, IsJunk, Consensus.ConsensusOf, SumOf, Least, Furthest;
    var end := g.end + o.frameInterval;
    var frames := |g.texts|;
    var text;
    if o.charVoting {
      text := Consensus.ConsensusText(o.ratio, o.opcodes, g.texts, Some(g.confs));
    } else {
      text := MostCommon(g.texts, |g.texts|);
    }
    text := Normalize(text);
    if frames < o.minFrames { return None; }
    if end - g.start < o.minDuration { return None; }
    if o.dropJunk && IsJunk(text, o.isLetter) { return None; }
    var conf := if g.confs != [] then SumOf(g.confs) / |g.confs| as real else 1.0;
    var x, w := 0.0, 0.0;
    if g.extents != [] {
      var xMin, xMax := Least(g.extents), Furthest(g.extents);
      x, w := Clamp(xMin), Clamp(xMax - xMin);
    }
    return Some(Cue(g.start, end, text, g.an, frames, conf, x, w));
  }

  /** The loop that makes cues of groups. */
  method BuildCues(groups: seq<Group>, o: Options) returns (cues: seq<Cue>)
    requires Usable(o) && AllRead(groups)
    ensures cues == CuesFor(KeptGroups(groups, o), o)
  {
    hide CueFor;
    cues := [];
    for k := 0 to |groups|
      invariant AllRead(groups[..k])
      invariant cues == CuesFor(KeptGroups(groups[..k], o), o)
    {
      assert groups[..k + 1][..k] == groups[..k];
      var cue := BuildCue(groups[k], o);
      if cue.Some? {
        cues := cues + [cue.value];
      }
    }
    assert groups[..|groups|] == groups;
  }

  // ------------------------------------------------------------------- bridging

  /** Cue i is near-identical to the cue at lo and starts soon after the cue before it ends. */
  predicate Bridged(cues: seq<Cue>, lo: nat, i: nat, o: Options)
    requires lo < i < |cues|
  {
    o.ratio(cues[i].text, cues[lo].text) >= o.simThreshold && cues[i].start - cues[i - 1].end <= o.minGap
  }

  /** The stretches of cues that become one, among the first n. */
  function Spans(cues: seq<Cue>, n: nat, o: Options): (r: seq<Run>)
    requires n <= |cues|
    ensures n > 0 ==> r != []
    ensures r != [] ==> r[0].lo == 0 && r[|r| - 1].hi == n
    ensures forall k :: 0 <= k < |r| ==> r[k].lo < r[k].hi <= n
    ensures forall k :: 0 < k < |r| ==> r[k - 1].hi == r[k].lo
  {
    hide Bridged;
    if n == 0 then []
    else
      var before := Spans(cues, n - 1, o);
      if n > 1 && Bridged(cues, before[|before| - 1].lo, n - 1, o) then
        before[..|before| - 1] + [before[|before| - 1].(hi := n)]
      else before + [Run(n - 1, n)]
  }

  function SpanOf(c: Cue): (real, real) { (c.x, c.x + c.w) }

  /** What happens to the last merged cue when the next one is bridged to it. */
  function Absorb(prev: Cue, c: Cue): Cue {
    var total := prev.frames + c.frames;
    var conf := (prev.confidence * prev.frames as real + c.confidence * c.frames as real)
                / (if total > 1 then total else 1) as real;
    var (lo, hi) :=
      if prev.w > 0.0 && c.w > 0.0 then (Min(prev.x, c.x), Max(prev.x + prev.w, c.x + c.w))
      else if c.w > 0.0 then SpanOf(c)
      else SpanOf(prev);
    var geometry := prev.w > 0.0 || c.w > 0.0;
    prev.(confidence := conf, end := c.end, frames := total,
          x := if geometry then Clamp(lo) else prev.x, w := if geometry then Clamp(hi - lo) else prev.w)
  }

  /** Cues [lo, hi) as one cue. */
  function Combined(cues: seq<Cue>, lo: nat, hi: nat): Cue
    requires lo < hi <= |cues|
  {
    if hi == lo + 1 then cues[lo] else Absorb(Combined(cues, lo, hi - 1), cues[hi - 1])
  }

  function CombineAll(cues: seq<Cue>, spans: seq<Run>): seq<Cue>
    requires forall k :: 0 <= k < |spans| ==> spans[k].lo < spans[k].hi <= |cues|
  {
    seq(|spans|, k requires 0 <= k < |spans| => Combined(cues, spans[k].lo, spans[k].hi))
  }

  function Bridge(cues: seq<Cue>, o: Options): seq<Cue> { CombineAll(cues, Spans(cues, |cues|, o)) }

  lemma {:induction false} CombinedEnds(cues: seq<Cue>, lo: nat, hi: nat)
    requires lo < hi <= |cues|
    ensures var c := Combined(cues, lo, hi);
      && c.start == cues[lo].start && c.text == cues[lo].text && c.an == cues[lo].an
      && c.end == cues[hi - 1].end
  {
    if hi > lo + 1 {
      CombinedEnds(cues, lo, hi - 1);
    }
  }

  /** The last merged cue stands for the cues since its first one. */
  lemma LastMerged(cues: seq<Cue>, i: nat, o: Options)
    requires 0 < i <= |cues|
    ensures var spans := Spans(cues, i, o);
      var last, lo := CombineAll(cues, spans)[|spans| - 1], spans[|spans| - 1].lo;
      last.text == cues[lo].text && last.end == cues[i - 1].end
  {
    hide Combined, Bridged;
    var spans := Spans(cues, i, o);
    CombinedEnds(cues, spans[|spans| - 1].lo, spans[|spans| - 1].hi);
  }

  lemma MergeOne(cues: seq<Cue>, i: nat, o: Options)
    requires 0 < i < |cues| && Bridged(cues, Spans(cues, i, o)[|Spans(cues, i, o)| - 1].lo, i, o)
    ensures var merged := CombineAll(cues, Spans(cues, i, o));
      CombineAll(cues, Spans(cues, i + 1, o)) == merged[|merged| - 1 := Absorb(merged[|merged| - 1], cues[i])]
  {
    hide Absorb, Bridged;
  }

  lemma AddOne(cues: seq<Cue>, i: nat, o: Options)
    requires i < |cues|
    requires i > 0 ==> !Bridged(cues, Spans(cues, i, o)[|Spans(cues, i, o)| - 1].lo, i, o)
    ensures CombineAll(cues, Spans(cues, i + 1, o)) == CombineAll(cues, Spans(cues, i, o)) + [cues[i]]
  {
    hide Absorb, Bridged;
  }

  /** The bridging loop. */
  method BridgeCues(cues: seq<Cue>, o: Options) returns (merged: seq<Cue>)
    ensures merged == Bridge(cues, o)
  {
    hide Absorb, Spans, Combined;
    merged := [];
    for i := 0 to |cues|
      invariant merged != [] <==> i > 0
      invariant merged == CombineAll(cues, Spans(cues, i, o))
    {
      var c := cues[i];
      if i > 0 {
        LastMerged(cues, i, o);
      }
      if merged != [] && o.ratio(c.text, merged[|merged| - 1].text) >= o.simThreshold
         && c.start - merged[|merged| - 1].end <= o.minGap
      {
        var prev := merged[|merged| - 1];
        MergeOne(cues, i, o);
        merged := merged[|merged| - 1 := Absorb(prev, c)];
      } else {
        AddOne(cues, i, o);
        merged := merged + [c];
      }
    }
  }

  /** `merge_into_cues`. */
  method MergeIntoCues(samples: seq<Sample>, o: Options) returns (cues: seq<Cue>)
    requires Usable(o)
    ensures cues == Merged(samples, o)
  {
    GroupsAllRead(samples, o);
    var groups := GroupSamples(samples, o);
    var built := BuildCues(groups, o);
    cues := BridgeCues(built, o);
  }

  lemma GroupsAllRead(samples: seq<Sample>, o: Options)
    ensures AllRead(Groups(samples, o))
  {
    hide Blank;
    RunsArePartition(samples, |samples|, o);
  }

  /** The cues before bridging. */
  ghost function Unbridged(samples: seq<Sample>, o: Options): seq<Cue>
    requires Usable(o)
  {
    GroupsAllRead(samples, o);
    CuesFor(KeptGroups(Groups(samples, o), o), o)
  }

  ghost function Merged(samples: seq<Sample>, o: Options): seq<Cue>
    requires Usable(o)
  {
    Bridge(Unbridged(samples, o), o)
  }

  // -------------------------------------------------- bridging: what it conserves

  function Frames(cues: seq<Cue>, lo: nat, hi: nat): nat
    requires lo <= hi <= |cues|
  {
    if lo == hi then 0 else Frames(cues, lo, hi - 1) + cues[hi - 1].frames
  }

  lemma {:induction false} FramesSplit(cues: seq<Cue>, lo: nat, mid: nat, hi: nat)
    requires lo <= mid <= hi <= |cues|
    ensures Frames(cues, lo, hi) == Frames(cues, lo, mid) + Frames(cues, mid, hi)
    decreases hi
  {
    if mid < hi {
      FramesSplit(cues, lo, mid, hi - 1);
    }
  }

  /** Bridging keeps the number of frames. */
  lemma BridgeKeepsFrames(cues: seq<Cue>, o: Options)
    ensures Frames(Bridge(cues, o), 0, |Bridge(cues, o)|) == Frames(cues, 0, |cues|)
  {
    hide Absorb, Bridged;
    var spans := Spans(cues, |cues|, o);
    SpansKeepFrames(cues, spans, |spans|);
  }

  lemma {:induction false} SpansKeepFrames(cues: seq<Cue>, spans: seq<Run>, n: nat)
    requires n <= |spans| && (spans != [] ==> spans[0].lo == 0)
    requires forall k :: 0 <= k < |spans| ==> spans[k].lo < spans[k].hi <= |cues|
    requires forall k :: 0 < k < |spans| ==> spans[k - 1].hi == spans[k].lo
    ensures Frames(CombineAll(cues, spans), 0, n) == if n == 0 then 0 else Frames(cues, 0, spans[n - 1].hi)
  {
    hide Combined;
    if n > 0 {
      SpansKeepFrames(cues, spans, n - 1);
      CombinedFrames(cues, spans[n - 1].lo, spans[n - 1].hi);
      FramesSplit(cues, 0, spans[n - 1].lo, spans[n - 1].hi);
    }
  }

  lemma {:induction false} CombinedFrames(cues: seq<Cue>, lo: nat, hi: nat)
    requires lo < hi <= |cues|
    ensures Combined(cues, lo, hi).frames == Frames(cues, lo, hi)
  {
    if hi == lo + 1 {
      assert Frames(cues, lo, lo) == 0;
    } else {
      CombinedFrames(cues, lo, hi - 1);
    }
  }

  /** Cue k is not bridged to the one before it. */
  predicate Separate(cues: seq<Cue>, k: nat, o: Options)
    requires k < |cues|
  {
    k > 0 ==> !Bridged(cues, k - 1, k, o)
  }

  lemma BridgeSize(cues: seq<Cue>, o: Options)
    ensures |Bridge(cues, o)| == |Spans(cues, |cues|, o)|
  {
  }

  /** The k-th merged cue, from the stretch of cues it is made of. */
  lemma BridgeAt(cues: seq<Cue>, o: Options, k: nat)
    requires k < |Spans(cues, |cues|, o)|
    ensures |Bridge(cues, o)| == |Spans(cues, |cues|, o)|
    ensures var r, c := Spans(cues, |cues|, o)[k], Bridge(cues, o)[k];
      && c.start == cues[r.lo].start && c.end == cues[r.hi - 1].end && c.text == cues[r.lo].text
  {
    hide Combined, Spans;
    BridgeSize(cues, o);
    var r := Spans(cues, |cues|, o)[k];
    CombinedEnds(cues, r.lo, r.hi);
  }

  lemma BridgedSeparate(cues: seq<Cue>, o: Options, k: nat)
    requires k < |Bridge(cues, o)|
    ensures Separate(Bridge(cues, o), k, o)
  {
    hide Bridge, Spans;
    BridgeSize(cues, o);
    if k > 0 {
      SpansApart(cues, |cues|, o, k);
      BridgeAt(cues, o, k - 1);
      BridgeAt(cues, o, k);
    }
  }

  lemma SingleSpans(cues: seq<Cue>, o: Options)
    requires forall k :: 0 <= k < |cues| ==> Separate(cues, k, o)
    ensures Bridge(cues, o) == cues
  {
    hide Spans, Combined, Separate;
    SpansSingle(cues, |cues|, o);
    forall k | 0 <= k < |cues| ensures Combined(cues, k, k + 1) == cues[k] {
      CombinedOne(cues, k);
    }
  }

  /** Bridging again changes nothing. */
  lemma BridgeIdempotent(cues: seq<Cue>, o: Options)
    ensures Bridge(Bridge(cues, o), o) == Bridge(cues, o)
  {
    hide Bridge, Separate;
    var merged := Bridge(cues, o);
    forall k | 0 <= k < |merged| ensures Separate(merged, k, o) {
      BridgedSeparate(cues, o, k);
    }
    SingleSpans(merged, o);
  }

  lemma CombinedOne(cues: seq<Cue>, k: nat)
    requires k < |cues|
    ensures Combined(cues, k, k + 1) == cues[k]
  {
  }

  lemma SpansStep(cues: seq<Cue>, n: nat, o: Options)
    requires 0 < n <= |cues|
    ensures
      var before, after := Spans(cues, n - 1, o), Spans(cues, n, o);
      if n > 1 && Bridged(cues, before[|before| - 1].lo, n - 1, o) then
        after == before[..|before| - 1] + [before[|before| - 1].(hi := n)]
      else after == before + [Run(n - 1, n)]
    ensures Spans(cues, 0, o) == []
  {
    hide Bridged;
  }

  lemma {:induction false} SpansApart(cues: seq<Cue>, n: nat, o: Options, k: nat)
    requires n <= |cues| && 0 < k < |Spans(cues, n, o)|
    ensures var spans := Spans(cues, n, o); !Bridged(cues, spans[k - 1].lo, spans[k].lo, o)
  {
    hide Bridged, Spans;
    assert n > 0 by { NoSpans(cues, o); }
    SpansStep(cues, n, o);
    if k < |Spans(cues, n - 1, o)| {
      SpansApart(cues, n - 1, o, k);
    }
  }

  lemma NoSpans(cues: seq<Cue>, o: Options)
    ensures Spans(cues, 0, o) == []
  {
  }

  lemma {:induction false} SpansSingle(cues: seq<Cue>, n: nat, o: Options)
    requires n <= |cues|
    requires forall k :: 0 <= k < |cues| ==> Separate(cues, k, o)
    ensures var spans := Spans(cues, n, o); |spans| == n && forall k :: 0 <= k < n ==> spans[k] == Run(k, k + 1)
  {
    hide Bridged, Spans;
    if n == 0 {
      NoSpans(cues, o);
    } else {
      SpansSingle(cues, n - 1, o);
      SpansStep(cues, n, o);
      assert Separate(cues, n - 1, o);
      var before := Spans(cues, n - 1, o);
      assert n > 1 ==> before[|before| - 1].lo == n - 2;
      assert Spans(cues, n, o) == before + [Run(n - 1, n)];
    }
  }

  // --------------------------------------------------- bridging: order and filters

  /** Cues that are not empty in time and do not overlap, in order. */
  predicate Disjoint(cues: seq<Cue>) {
    && (forall k :: 0 <= k < |cues| ==> cues[k].start < cues[k].end)
    && (forall k, l :: 0 <= k < l < |cues| ==> cues[k].end <= cues[l].start)
  }

  predicate CuePasses(c: Cue, o: Options) { Passes(c.frames, c.start, c.end, c.text, o) }

  lemma {:induction false} SpansOrdered(cues: seq<Cue>, n: nat, o: Options, k: nat, l: nat)
    requires n <= |cues| && k < l < |Spans(cues, n, o)|
    ensures var spans := Spans(cues, n, o); spans[k].hi <= spans[l].lo
    decreases l
  {
    hide Bridged;
    if k < l - 1 {
      SpansOrdered(cues, n, o, k, l - 1);
      assert Spans(cues, n, o)[l - 1].hi == Spans(cues, n, o)[l].lo;
    }
  }

  lemma BridgeDisjoint(cues: seq<Cue>, o: Options)
    requires Disjoint(cues)
    ensures Disjoint(Bridge(cues, o))
  {
    hide Spans, Bridge;
    var spans, merged := Spans(cues, |cues|, o), Bridge(cues, o);
    BridgeSize(cues, o);
    forall k | 0 <= k < |merged| ensures merged[k].start < merged[k].end {
      BridgeAt(cues, o, k);
      assert cues[spans[k].hi - 1].start < cues[spans[k].hi - 1].end;
    }
    forall k, l | 0 <= k < l < |merged| ensures merged[k].end <= merged[l].start {
      BridgeAt(cues, o, k);
      BridgeAt(cues, o, l);
      SpansOrdered(cues, |cues|, o, k, l);
    }
  }

  /** A cue made by bridging has the frames and the duration of its first cue at least, and its text. */
  lemma {:induction false} CombinedPasses(cues: seq<Cue>, lo: nat, hi: nat, o: Options)
    requires lo < hi <= |cues| && Disjoint(cues) && CuePasses(cues[lo], o)
    ensures CuePasses(Combined(cues, lo, hi), o)
  {
    hide IsJunk, Combined;
    CombinedEnds(cues, lo, hi);
    CombinedFrames(cues, lo, hi);
    FramesSplit(cues, lo, lo + 1, hi);
    assert Frames(cues, lo, lo + 1) == cues[lo].frames by { assert Frames(cues, lo, lo) == 0; }
    if hi > lo + 1 {
      assert cues[lo].end <= cues[hi - 1].start < cues[hi - 1].end;
    }
  }

  lemma BridgePasses(cues: seq<Cue>, o: Options)
    requires Disjoint(cues) && forall k :: 0 <= k < |cues| ==> CuePasses(cues[k], o)
    ensures forall k :: 0 <= k < |Bridge(cues, o)| ==> CuePasses(Bridge(cues, o)[k], o)
  {
    hide Combined, Bridged, CuePasses;
    var spans, merged := Spans(cues, |cues|, o), Bridge(cues, o);
    forall k | 0 <= k < |merged| ensures CuePasses(merged[k], o) {
      CombinedPasses(cues, spans[k].lo, spans[k].hi, o);
    }
  }

  // ------------------------------------------------------------ confidence as mean

  /** All frames' confidences of groups [lo, hi), in order. */
  function Confidences(groups: seq<Group>, lo: nat, hi: nat): seq<real>
    requires lo <= hi <= |groups|
  {
    if lo == hi then [] else Confidences(groups, lo, hi - 1) + groups[hi - 1].confs
  }

  lemma {:induction false} SumAppend(a: seq<real>, b: seq<real>)
    ensures SumOf(a + b) == SumOf(a) + SumOf(b)
    decreases |b|
  {
    if b == [] {
      assert a + b == a;
    } else {
      assert (a + b)[..|a + b| - 1] == a + b[..|b| - 1];
      SumAppend(a, b[..|b| - 1]);
    }
  }

  predicate Weighed(g: Group) { |g.confs| == |g.texts| > 0 }

  lemma CueIsMean(g: Group, o: Options)
    requires Usable(o) && Weighed(g) && CueFor(g, o).Some?
    ensures var c := CueFor(g, o).value; c.frames == |g.confs| && c.confidence * c.frames as real == SumOf(g.confs)
  {
    hide SumOf, TextFor, Passes, Least, Furthest;
    TimesQuotient(SumOf(g.confs), |g.confs| as real);
  }

  lemma TimesQuotient(a: real, n: real)
    requires n > 0.0
    ensures a / n * n == a
  {
  }

  lemma {:induction false} CombinedIsMean(kept: seq<Group>, lo: nat, hi: nat, o: Options)
    requires Usable(o) && AllRead(kept) && lo < hi <= |kept|
    requires forall k :: 0 <= k < |kept| ==> Weighed(kept[k]) && CueFor(kept[k], o).Some?
    ensures var c, all := Combined(CuesFor(kept, o), lo, hi), Confidences(kept, lo, hi);
      c.frames == |all| > 0 && c.confidence * |all| as real == SumOf(all)
  {
    hide SumOf, CueFor, Absorb;
    var cues := CuesFor(kept, o);
    CueIsMean(kept[hi - 1], o);
    var before := Confidences(kept, lo, hi - 1);
    SumAppend(before, kept[hi - 1].confs);
    if hi == lo + 1 {
      assert before == [] && [] + kept[lo].confs == kept[lo].confs;
    } else {
      CombinedIsMean(kept, lo, hi - 1, o);
      var prev, c := Combined(cues, lo, hi - 1), cues[hi - 1];
      AbsorbMean(prev, c);
    }
  }

  lemma AbsorbMean(prev: Cue, c: Cue)
    ensures Absorb(prev, c).frames == prev.frames + c.frames
    ensures prev.frames + c.frames > 0 ==>
      Absorb(prev, c).confidence * (prev.frames + c.frames) as real
      == prev.confidence * prev.frames as real + c.confidence * c.frames as real
  {
    if prev.frames + c.frames > 0 {
      TimesQuotient(prev.confidence * prev.frames as real + c.confidence * c.frames as real,
        (prev.frames + c.frames) as real);
    }
    hide Clamp, Min, Max, SpanOf;
  }

  lemma GroupsWeighed(samples: seq<Sample>, o: Options)
    ensures forall k :: 0 <= k < |Groups(samples, o)| ==> Weighed(Groups(samples, o)[k])
  {
    hide Blank, TextsOf;
    RunsArePartition(samples, |samples|, o);
  }

  lemma {:induction false} KeptWeighed(groups: seq<Group>, o: Options)
    requires Usable(o) && AllRead(groups) && forall k :: 0 <= k < |groups| ==> Weighed(groups[k])
    ensures forall k :: 0 <= k < |KeptGroups(groups, o)| ==> Weighed(KeptGroups(groups, o)[k])
  {
    hide CueFor;
    if groups != [] {
      KeptWeighed(groups[..|groups| - 1], o);
    }
  }

  /** Every returned cue's confidence is the mean over all frames merged into it. */
  lemma ConfidenceIsMean(samples: seq<Sample>, o: Options, k: nat)
    requires Usable(o) && k < |Merged(samples, o)|
    ensures AllRead(Groups(samples, o))
    ensures var kept := KeptGroups(Groups(samples, o), o);
      var spans := Spans(Unbridged(samples, o), |Unbridged(samples, o)|, o);
      && k < |spans| && spans[k].hi <= |kept|
      && var c, all := Merged(samples, o)[k], Confidences(kept, spans[k].lo, spans[k].hi);
      c.frames == |all| > 0 && c.confidence * |all| as real == SumOf(all)
  {
    hide CueFor, SumOf, Bridged, Combined, Groups, Confidences, KeptGroups;
    GroupsAllRead(samples, o);
    GroupsWeighed(samples, o);
    var kept := KeptGroups(Groups(samples, o), o);
    KeptWeighed(Groups(samples, o), o);
    var spans := Spans(Unbridged(samples, o), |Unbridged(samples, o)|, o);
    CombinedIsMean(kept, spans[k].lo, spans[k].hi, o);
  }

  // ---------------------------------------------------- the returned cues in time

  /** Consecutive samples are at least d apart. */
  predicate WellSpaced(samples: seq<Sample>, d: real) {
    forall i :: 0 <= i < |samples| - 1 ==> samples[i].ts + d <= samples[i + 1].ts
  }

  lemma {:induction false} SamplesSpaced(samples: seq<Sample>, d: real, i: nat, j: nat)
    requires WellSpaced(samples, d) && d > 0.0 && i < j < |samples|
    ensures samples[i].ts + d <= samples[j].ts
    decreases j
  {
    if i < j - 1 {
      SamplesSpaced(samples, d, i, j - 1);
      assert samples[j - 1].ts + d <= samples[j - 1 + 1].ts;
    } else {
      assert samples[i].ts + d <= samples[i + 1].ts;
    }
  }

  /** Groups one after the other, d between the end of one and the start of the next. */
  predicate GroupsSpaced(groups: seq<Group>, d: real) {
    && (forall k :: 0 <= k < |groups| ==> groups[k].start <= groups[k].end)
    && (forall k, l :: 0 <= k < l < |groups| ==> groups[k].end + d <= groups[l].start)
  }

  lemma GroupEnds(samples: seq<Sample>, r: Run, d: real) returns (e: nat)
    requires r.lo < r.hi <= |samples| && WellSpaced(samples, d) && d > 0.0
    ensures r.lo <= e < |samples| && GroupAt(samples, |samples|, r).end == samples[e].ts
    ensures e == r.hi - 1 || (e == r.hi && Blank(samples[r.hi]))
    ensures GroupAt(samples, |samples|, r).start <= GroupAt(samples, |samples|, r).end
  {
    hide Blank;
    e := if r.hi < |samples| && Blank(samples[r.hi]) then r.hi else r.hi - 1;
    if r.lo < e {
      SamplesSpaced(samples, d, r.lo, e);
    }
  }

  lemma SpacedGroups(samples: seq<Sample>, o: Options, d: real)
    requires WellSpaced(samples, d) && d > 0.0
    ensures GroupsSpaced(Groups(samples, o), d)
  {
    hide Blank, Continues, TextsOf, ConfsOf, ExtentsOf, Runs, Apart, Complete, WellSpaced;
    RunsArePartition(samples, |samples|, o);
    var runs, groups := Runs(samples, |samples|, o), Groups(samples, o);
    forall k | 0 <= k < |groups| ensures groups[k].start <= groups[k].end {
      var e := GroupEnds(samples, runs[k], d);
    }
    forall k, l | 0 <= k < l < |groups| ensures groups[k].end + d <= groups[l].start {
      var e := GroupEnds(samples, runs[k], d);
      assert runs[k].hi <= runs[l].lo;
      assert Unbroken(samples, o, runs[l]);
      SamplesSpaced(samples, d, e, runs[l].lo);
    }
  }

  lemma {:induction false} KeptInGroups(groups: seq<Group>, o: Options)
    requires Usable(o) && AllRead(groups)
    ensures forall g :: g in KeptGroups(groups, o) ==> g in groups
  {
    hide CueFor;
    if groups != [] {
      KeptInGroups(groups[..|groups| - 1], o);
    }
  }

  lemma {:induction false} KeptSpaced(groups: seq<Group>, o: Options, d: real)
    requires Usable(o) && AllRead(groups) && GroupsSpaced(groups, d)
    ensures GroupsSpaced(KeptGroups(groups, o), d)
  {
    hide CueFor;
    if groups != [] {
      var front, last := groups[..|groups| - 1], groups[|groups| - 1];
      KeptSpaced(front, o, d);
      KeptInGroups(front, o);
      var kept := KeptGroups(front, o);
      forall k | 0 <= k < |kept| ensures kept[k].end + d <= last.start {
        assert kept[k] in front;
      }
    }
  }

  /** What passes is ordered, takes time and does not overlap, when samples are an interval apart. */
  lemma UnbridgedDisjoint(samples: seq<Sample>, o: Options)
    requires Usable(o) && o.frameInterval > 0.0 && WellSpaced(samples, o.frameInterval)
    ensures Disjoint(Unbridged(samples, o))
    ensures forall k :: 0 <= k < |Unbridged(samples, o)| ==> CuePasses(Unbridged(samples, o)[k], o)
  {
    hide Groups, TextFor, KeptGroups, SumOf, Least, Furthest, WellSpaced, IsJunk;
    GroupsAllRead(samples, o);
    SpacedGroups(samples, o, o.frameInterval);
    KeptSpaced(Groups(samples, o), o, o.frameInterval);
  }

  /**
   The returned cues are in order, take time and do not overlap, and each still has the
   frames, the duration and the text the filters ask for.
   */
  lemma MergedCues(samples: seq<Sample>, o: Options)
    requires Usable(o) && o.frameInterval > 0.0 && WellSpaced(samples, o.frameInterval)
    ensures Disjoint(Merged(samples, o))
    ensures forall k :: 0 <= k < |Merged(samples, o)| ==> CuePasses(Merged(samples, o)[k], o)
  {
    hide Unbridged, Bridge, Disjoint, CuePasses, WellSpaced;
    UnbridgedDisjoint(samples, o);
    BridgeDisjoint(Unbridged(samples, o), o);
    BridgePasses(Unbridged(samples, o), o);
  }

  // -------------------------------------------------------------------- extents

  lemma {:induction false} LeastIs(xs: seq<Extent>)
    requires xs != []
    ensures (forall e :: e in xs ==> Least(xs) <= e.x) && exists e :: e in xs && e.x == Least(xs)
  {
    assert xs[0] in xs;
    if |xs| > 1 {
      LeastIs(xs[1..]);
      var e :| e in xs[1..] && e.x == Least(xs[1..]);
      assert e in xs;
      assert xs == [xs[0]] + xs[1..];
    }
  }

  lemma {:induction false} FurthestIs(xs: seq<Extent>)
    requires xs != []
    ensures (forall e :: e in xs ==> e.x + e.w <= Furthest(xs)) && exists e :: e in xs && e.x + e.w == Furthest(xs)
  {
    assert xs[0] in xs;
    if |xs| > 1 {
      FurthestIs(xs[1..]);
      var e :| e in xs[1..] && e.x + e.w == Furthest(xs[1..]);
      assert e in xs;
      assert xs == [xs[0]] + xs[1..];
    }
  }

  /** The hull of extents: from the leftmost edge to the rightmost one. */
  ghost predicate IsHull(xs: seq<Extent>, lo: real, hi: real) {
    && (forall e :: e in xs ==> lo <= e.x && e.x + e.w <= hi)
    && (exists e :: e in xs && e.x == lo)
    && (exists e :: e in xs && e.x + e.w == hi)
  }

  /** An extent as the pipeline passes it: inside the zone and of positive width. */
  predicate Proper(e: Extent) { 0.0 <= e.x && 0.0 < e.w && e.x + e.w <= 1.0 }

  predicate AllProper(xs: seq<Extent>) { forall e :: e in xs ==> Proper(e) }

  /** The cue spans the extents: the zero sentinel when there is none, and their hull otherwise. */
  ghost predicate Spanning(c: Cue, xs: seq<Extent>) {
    && (c.w == 0.0 <==> xs == []) && (xs == [] ==> c.x == 0.0)
    && (xs != [] ==> 0.0 <= c.x && 0.0 < c.w && c.x + c.w <= 1.0 && IsHull(xs, c.x, c.x + c.w))
  }

  /**
   A cue has the hull of its frames' extents exactly when the leftmost edge and the width lie between
   0 and 1. When its extents are proper ones they do, and it has the zero sentinel exactly when there is none.
   */
  lemma CueExtent(g: Group, o: Options)
    requires Usable(o) && g.texts != [] && CueFor(g, o).Some?
    ensures var c := CueFor(g, o).value;
      if g.extents == [] then c.x == 0.0 && c.w == 0.0
      else IsHull(g.extents, c.x, c.x + c.w)
           <==> 0.0 <= Least(g.extents) <= 1.0 && 0.0 <= Furthest(g.extents) - Least(g.extents) <= 1.0
    ensures AllProper(g.extents) ==> Spanning(CueFor(g, o).value, g.extents)
  {
    hide TextFor, Passes, SumOf;
    if g.extents != [] {
      LeastIs(g.extents);
      FurthestIs(g.extents);
      if AllProper(g.extents) {
        ProperBounds(g.extents);
      }
    }
  }

  lemma ProperBounds(xs: seq<Extent>)
    requires xs != [] && AllProper(xs)
    ensures 0.0 <= Least(xs) < Furthest(xs) <= 1.0
  {
    LeastIs(xs);
    FurthestIs(xs);
    assert xs[0] in xs;
  }

  predicate InZone(c: Cue) { 0.0 <= c.x && 0.0 <= c.w && c.x + c.w <= 1.0 }

  lemma AbsorbExtent(prev: Cue, c: Cue)
    requires InZone(prev) && InZone(c)
    ensures var r := Absorb(prev, c);
      && InZone(r)
      && (prev.w > 0.0 ==> r.w > 0.0 && r.x <= prev.x && prev.x + prev.w <= r.x + r.w)
      && (c.w > 0.0 ==> r.w > 0.0 && r.x <= c.x && c.x + c.w <= r.x + r.w)
      && (r.w > 0.0 ==> (prev.w > 0.0 && r.x == prev.x) || (c.w > 0.0 && r.x == c.x))
      && (r.w > 0.0 ==> (prev.w > 0.0 && r.x + r.w == prev.x + prev.w) || (c.w > 0.0 && r.x + r.w == c.x + c.w))
      && (prev.w == 0.0 && c.w == 0.0 ==> r.x == prev.x && r.w == 0.0)
  {
  }

  lemma HullWider(xs: seq<Extent>, lo: real, hi: real, ys: seq<Extent>, lo': real, hi': real, a: real, b: real)
    requires xs == [] || IsHull(xs, lo, hi)
    requires ys == [] || IsHull(ys, lo', hi')
    requires xs != [] ==> a <= lo && hi <= b
    requires ys != [] ==> a <= lo' && hi' <= b
    requires (xs != [] && a == lo) || (ys != [] && a == lo')
    requires (xs != [] && b == hi) || (ys != [] && b == hi')
    ensures IsHull(xs + ys, a, b)
  {
    if xs != [] && a == lo {
      var e :| e in xs && e.x == lo;
      assert e in xs + ys && e.x == a;
    } else {
      var e :| e in ys && e.x == lo';
      assert e in xs + ys && e.x == a;
    }
    if xs != [] && b == hi {
      var e :| e in xs && e.x + e.w == hi;
      assert e in xs + ys && e.x + e.w == b;
    } else {
      var e :| e in ys && e.x + e.w == hi';
      assert e in xs + ys && e.x + e.w == b;
    }
  }

  lemma AbsorbSpanning(prev: Cue, xs: seq<Extent>, c: Cue, ys: seq<Extent>)
    requires Spanning(prev, xs) && Spanning(c, ys)
    ensures Spanning(Absorb(prev, c), xs + ys)
  {
    hide Absorb, IsHull;
    AbsorbExtent(prev, c);
    var r := Absorb(prev, c);
    if xs + ys != [] {
      HullWider(xs, prev.x, prev.x + prev.w, ys, c.x, c.x + c.w, r.x, r.x + r.w);
    }
  }

  /** The extents of all frames of groups [lo, hi), in order. */
  function Extents(groups: seq<Group>, lo: nat, hi: nat): seq<Extent>
    requires lo <= hi <= |groups|
  {
    if lo == hi then [] else Extents(groups, lo, hi - 1) + groups[hi - 1].extents
  }

  lemma {:induction false} CombinedSpanning(kept: seq<Group>, lo: nat, hi: nat, o: Options)
    requires Usable(o) && AllRead(kept) && lo < hi <= |kept|
    requires forall k :: 0 <= k < |kept| ==> AllProper(kept[k].extents) && CueFor(kept[k], o).Some?
    ensures Spanning(Combined(CuesFor(kept, o), lo, hi), Extents(kept, lo, hi))
  {
    hide CueFor, Absorb, Spanning, AllProper;
    CueExtent(kept[hi - 1], o);
    var before := Extents(kept, lo, hi - 1);
    if hi == lo + 1 {
      assert before == [] && [] + kept[lo].extents == kept[lo].extents;
    } else {
      CombinedSpanning(kept, lo, hi - 1, o);
      AbsorbSpanning(Combined(CuesFor(kept, o), lo, hi - 1), before, CuesFor(kept, o)[hi - 1], kept[hi - 1].extents);
    }
  }

  lemma ProperRange(samples: seq<Sample>, lo: nat, hi: nat)
    requires lo <= hi <= |samples|
    requires forall i :: 0 <= i < |samples| && samples[i].extent.Some? ==> Proper(samples[i].extent.value)
    ensures AllProper(ExtentsOf(samples, lo, hi))
  {
    hide Proper;
  }

  lemma GroupProper(samples: seq<Sample>, r: Run)
    requires r.lo < r.hi <= |samples|
    requires forall i :: 0 <= i < |samples| && samples[i].extent.Some? ==> Proper(samples[i].extent.value)
    ensures AllProper(GroupAt(samples, |samples|, r).extents)
  {
    hide Blank, Proper, AllProper, ExtentsOf, TextsOf, ConfsOf;
    ProperRange(samples, r.lo, r.hi);
  }

  lemma GroupsProper(samples: seq<Sample>, o: Options)
    requires forall i :: 0 <= i < |samples| && samples[i].extent.Some? ==> Proper(samples[i].extent.value)
    ensures forall g :: g in Groups(samples, o) ==> AllProper(g.extents)
  {
    hide Proper, AllProper, Runs, GroupAt, Complete, Apart, AllUnbroken;
    RunsArePartition(samples, |samples|, o);
    var runs, groups := Runs(samples, |samples|, o), Groups(samples, o);
    forall k | 0 <= k < |groups| ensures AllProper(groups[k].extents) {
      GroupProper(samples, runs[k]);
    }
  }

  /**
   For samples whose extents are proper: every returned cue has the hull of the extents of all frames
   merged into it, or the zero sentinel exactly when none of them has an extent.
   */
  lemma ExtentIsHull(samples: seq<Sample>, o: Options, k: nat)
    requires Usable(o) && k < |Merged(samples, o)|
    requires forall i :: 0 <= i < |samples| && samples[i].extent.Some? ==> Proper(samples[i].extent.value)
    ensures AllRead(Groups(samples, o))
    ensures var kept := KeptGroups(Groups(samples, o), o);
      var spans := Spans(Unbridged(samples, o), |Unbridged(samples, o)|, o);
      && k < |spans| && spans[k].hi <= |kept|
      && Spanning(Merged(samples, o)[k], Extents(kept, spans[k].lo, spans[k].hi))
  {
    hide CueFor, Bridged, Combined, Groups, Extents, KeptGroups, Spanning, Proper, AllProper;
    GroupsAllRead(samples, o);
    GroupsProper(samples, o);
    var kept := KeptGroups(Groups(samples, o), o);
    KeptInGroups(Groups(samples, o), o);
    forall i | 0 <= i < |kept| ensures AllProper(kept[i].extents) {
      assert kept[i] in kept;
    }
    var spans := Spans(Unbridged(samples, o), |Unbridged(samples, o)|, o);
    CombinedSpanning(kept, spans[k].lo, spans[k].hi, o);
  }

  // ----------------------------------------------------------------------- texts

  lemma {:induction false} MostCommonSame(texts: seq<string>, n: nat, t: string)
    requires 0 < n <= |texts| && forall u :: u in texts ==> u == t
    ensures MostCommon(texts, n) == t
  {
    hide Count;
    assert texts[n - 1] in texts;
    if n > 1 {
      MostCommonSame(texts, n - 1, t);
    }
  }

  /** A group whose readings are all one text makes a cue of that text, cleaned up. */
  lemma OneReading(g: Group, o: Options, t: string)
    requires Usable(o) && g.texts != [] && t != "" && (forall u :: u in g.texts ==> u == t) && CueFor(g, o).Some?
    ensures CueFor(g, o).value.text == Normalize(t)
  {
    hide Normalize, Consensus.ConsensusOf, SumOf, Least, Furthest, Passes;
    MostCommonSame(g.texts, |g.texts|, t);
    ConsensusTexts.SameTexts(o.ratio, o.opcodes, g.texts, Some(g.confs));
    assert g.texts[0] in g.texts;
  }

  /** The first of the groups merged into a returned cue. */
  ghost function FirstGroup(samples: seq<Sample>, o: Options, k: nat): Group
    requires Usable(o) && k < |Merged(samples, o)|
  {
    GroupsAllRead(samples, o);
    KeptGroups(Groups(samples, o), o)[Spans(Unbridged(samples, o), |Unbridged(samples, o)|, o)[k].lo]
  }

  /**
   A returned cue keeps what was read: where all readings of the first group merged into it are one
   text, the cue's text is that text cleaned up, with every word of it.
   */
  lemma ReadingKept(samples: seq<Sample>, o: Options, k: nat, t: string)
    requires Usable(o) && k < |Merged(samples, o)| && t != ""
    requires forall u :: u in FirstGroup(samples, o, k).texts ==> u == t
    ensures Merged(samples, o)[k].text == Normalize(t)
    ensures Words(Merged(samples, o)[k].text) == Words(t)
    ensures WithoutSpaces(Merged(samples, o)[k].text, PySpace) == WithoutSpaces(t, PySpace)
  {
    hide CueFor, Bridged, Combined, Groups, KeptGroups, Normalize, Words, WithoutSpaces;
    GroupsAllRead(samples, o);
    var kept := KeptGroups(Groups(samples, o), o);
    var spans := Spans(Unbridged(samples, o), |Unbridged(samples, o)|, o);
    CombinedEnds(Unbridged(samples, o), spans[k].lo, spans[k].hi);
    assert FirstGroup(samples, o, k) == kept[spans[k].lo];
    OneReading(kept[spans[k].lo], o, t);
    WordsKept(t);
  }
}
