/**
 The browser's grouping of readings into cues (`mergeCues` in
 web/src/clientside/clientOcr.ts:344-410): readings in a row that resemble the winner of the votes so
 far, over at most two blanks, make one cue. The share of foreign letters is a parameter.
 */
module BrowserCues {
  import opened EditDistance
  import opened Sequences
  import opened Text
  import opened Wrappers
  import Worker = Cues

  datatype Sample = Sample(t: real, text: string, an: int)

  datatype Cue = Cue(start: real, end: real, text: string, an: int)

  // ---------------------------------------------------------------------- voting

  datatype Vote = Vote(text: string, count: nat)

  /** A map in the order its keys were first set. */
  function Cast(votes: seq<Vote>, t: string): seq<Vote> {
    if votes == [] then [Vote(t, 1)]
    else if votes[0].text == t then [Vote(t, votes[0].count + 1)] + votes[1..]
    else [votes[0]] + Cast(votes[1..], t)
  }

  function VotesOf(texts: seq<string>): seq<Vote> {
    if texts == [] then [] else Cast(VotesOf(texts[..|texts| - 1]), texts[|texts| - 1])
  }

  /** A later entry wins with more votes, or as many and a longer text. */
  predicate Overtakes(v: Vote, best: Vote) { v.count > best.count || (v.count == best.count && |v.text| > |best.text|) }

  function Leader(votes: seq<Vote>): Vote {
    if votes == [] then Vote("", 0)
    else
      var best := Leader(votes[..|votes| - 1]);
      if Overtakes(votes[|votes| - 1], best) then votes[|votes| - 1] else best
  }

  method Winner(votes: seq<Vote>) returns (best: string)
    ensures best == Leader(votes).text
  {
    best := "";
    var bc := 0;
    for n := 0 to |votes|
      invariant Vote(best, bc) == Leader(votes[..n])
    {
      assert votes[..n + 1][..n] == votes[..n];
      var v := votes[n];
      if v.count > bc || (v.count == bc && |v.text| > |best|) {
        best, bc := v.text, v.count;
      }
    }
    assert votes[..|votes|] == votes;
  }

  function Tally(votes: seq<Vote>, t: string): nat {
    if votes == [] then 0 else if votes[0].text == t then votes[0].count else Tally(votes[1..], t)
  }

  predicate Distinct(votes: seq<Vote>) {
    forall i, j :: 0 <= i < j < |votes| ==> votes[i].text != votes[j].text
  }

  /** A vote changes the tally of its text only, and leaves every text once. */
  lemma {:induction false} CastTally(votes: seq<Vote>, t: string)
    requires Distinct(votes)
    ensures Distinct(Cast(votes, t))
    ensures forall u :: Tally(Cast(votes, t), u) == Tally(votes, u) + if u == t then 1 else 0
  {
    if votes == [] {
    } else if votes[0].text == t {
      var rest := votes[1..];
      assert ([Vote(t, votes[0].count + 1)] + rest)[1..] == rest;
      TallyAbsent(rest, t);
    } else {
      CastTally(votes[1..], t);
      var rest := Cast(votes[1..], t);
      CastTexts(votes[1..], t);
      forall j | 0 <= j < |rest| ensures rest[j].text != votes[0].text {
        assert rest[j] in rest;
      }
      assert ([votes[0]] + rest)[1..] == rest;
      hide Cast, Tally;
    }
  }

  /** The entries after a vote. */
  lemma {:induction false} CastTexts(votes: seq<Vote>, t: string)
    ensures forall v :: v in Cast(votes, t) ==> v.text == t || exists k :: 0 <= k < |votes| && votes[k].text == v.text
    ensures (forall v :: v in votes ==> v.count > 0) ==> forall v :: v in Cast(votes, t) ==> v.count > 0
  {
    if votes != [] && votes[0].text != t {
      CastTexts(votes[1..], t);
      forall v | v in Cast(votes, t) ensures v.text == t || exists k :: 0 <= k < |votes| && votes[k].text == v.text {
        if v in Cast(votes[1..], t) && v.text != t {
          var k :| 0 <= k < |votes[1..]| && votes[1..][k].text == v.text;
          assert votes[k + 1].text == v.text;
        }
      }
    }
  }

  lemma {:induction false} TallyAbsent(votes: seq<Vote>, t: string)
    requires forall i :: 0 <= i < |votes| ==> votes[i].text != t
    ensures Tally(votes, t) == 0
  {
    if votes != [] {
      TallyAbsent(votes[1..], t);
    }
  }

  lemma {:induction false} TallyOf(votes: seq<Vote>, i: nat)
    requires Distinct(votes) && i < |votes|
    ensures Tally(votes, votes[i].text) == votes[i].count
  {
    if i > 0 {
      TallyOf(votes[1..], i - 1);
    }
  }

  lemma {:induction false} TallyFound(votes: seq<Vote>, t: string) returns (i: nat)
    requires Tally(votes, t) > 0
    ensures i < |votes| && votes[i].text == t
  {
    if votes[0].text == t {
      i := 0;
    } else {
      i := TallyFound(votes[1..], t);
      i := i + 1;
    }
  }

  /** The votes are the counts: every reading is counted once, under its text. */
  lemma {:induction false} VotesCount(texts: seq<string>)
    ensures Distinct(VotesOf(texts)) && forall t :: Tally(VotesOf(texts), t) == Count(texts, t)
    ensures forall v :: v in VotesOf(texts) ==> v.count > 0
  {
    if texts != [] {
      VotesCount(texts[..|texts| - 1]);
      CastTally(VotesOf(texts[..|texts| - 1]), texts[|texts| - 1]);
      CastTexts(VotesOf(texts[..|texts| - 1]), texts[|texts| - 1]);
    }
  }

  lemma {:induction false} LeaderLeads(votes: seq<Vote>)
    requires votes != [] && forall v :: v in votes ==> v.count > 0
    ensures Leader(votes) in votes
    ensures forall v :: v in votes ==> !Overtakes(v, Leader(votes))
  {
    var n := |votes| - 1;
    assert votes == votes[..n] + [votes[n]];
    if n > 0 {
      LeaderLeads(votes[..n]);
    }
    assert votes[n] in votes;
  }

  /** The winning text has the most readings, and is the longest of those. */
  lemma WinnerHasMost(texts: seq<string>, t: string)
    requires texts != []
    ensures var w := Leader(VotesOf(texts)).text;
      && Count(texts, w) > 0 && Count(texts, t) <= Count(texts, w)
      && (Count(texts, t) == Count(texts, w) ==> |t| <= |w|)
  {
    var votes := VotesOf(texts);
    VotesCount(texts);
    assert Count(texts, texts[|texts| - 1]) > 0;
    var last := TallyFound(votes, texts[|texts| - 1]);
    LeaderLeads(votes);
    var k :| 0 <= k < |votes| && votes[k] == Leader(votes);
    TallyOf(votes, k);
    if Count(texts, t) > 0 {
      var i := TallyFound(votes, t);
      TallyOf(votes, i);
      assert votes[i] in votes;
    }
    hide VotesOf, Leader, Count, Tally;
  }

  // -------------------------------------------------------------------- grouping

  /** A reading that is not blank, trimmed, with the number of blanks just before it. */
  datatype Read = Read(t: real, text: string, an: int, blanks: int)

  predicate Blank(s: Sample) { JsTrim(s.text) == "" }

  /** Blanks at the end of the first n samples. */
  function BlankTail(samples: seq<Sample>, n: nat): nat
    requires n <= |samples|
  {
    if n == 0 || !Blank(samples[n - 1]) then 0 else BlankTail(samples, n - 1) + 1
  }

  function Reads(samples: seq<Sample>, n: nat): seq<Read>
    requires n <= |samples|
  {
    if n == 0 then []
    else if Blank(samples[n - 1]) then Reads(samples, n - 1)
    else
      var s := samples[n - 1];
      Reads(samples, n - 1) + [Read(s.t, JsTrim(s.text), s.an, BlankTail(samples, n - 1))]
  }

  function Texts(g: seq<Read>): seq<string> { seq(|g|, i requires 0 <= i < |g| => g[i].text) }

  const MAX_BLANKS := 2

  /** The reading goes on with the group. */
  predicate Joins(g: seq<Read>, r: Read) {
    r.blanks <= MAX_BLANKS && Ratio(r.text, Leader(VotesOf(Texts(g))).text) >= 0.6
  }

  predicate Grown(g: seq<Read>) { g != [] && forall k :: 0 < k < |g| ==> Joins(g[..k], g[k]) }

  predicate Apart(a: seq<Read>, b: seq<Read>) { b != [] && !Joins(a, b[0]) }

  /** All readings in order, cut exactly where one does not go on with the group before it. */
  predicate Grouping(readings: seq<Read>, groups: seq<seq<Read>>) {
    && Flatten(groups) == readings
    && (forall c :: 0 <= c < |groups| ==> Grown(groups[c]))
    && (forall c :: 0 < c < |groups| ==> Apart(groups[c - 1], groups[c]))
  }

  /** Within the first group each reading goes on with those before it. */
  lemma InsideJoins(a: seq<seq<Read>>, n: nat)
    requires Grouping(Flatten(a), a) && a != [] && 0 < n < |a[0]|
    ensures n < |Flatten(a)| && Joins(Flatten(a)[..n], Flatten(a)[n])
  {
    hide Joins, Flatten;
    FlattenFront(a);
    assert Grown(a[0]);
    assert a[0][n] == Flatten(a)[n] && a[0][..n] == Flatten(a)[..n];
  }

  /** The reading after the first group does not go on with it. */
  lemma AfterFirst(b: seq<seq<Read>>)
    requires Grouping(Flatten(b), b) && b != []
    ensures 0 < |b[0]| <= |Flatten(b)| && Flatten(b)[..|b[0]|] == b[0]
    ensures |b[0]| < |Flatten(b)| ==> !Joins(b[0], Flatten(b)[|b[0]|])
  {
    hide Joins, Flatten;
    FlattenFront(b);
    assert Grown(b[0]);
    if |b| > 1 {
      FlattenFront(b[1..]);
      assert Apart(b[1 - 1], b[1]);
    } else {
      assert Flatten(b[1..]) == [] by { NoGroups(); }
    }
  }

  lemma NoGroups()
    ensures Flatten<Read>([]) == []
  {
  }

  /** The first group of any grouping is no longer than that of another. */
  lemma FirstGroup(a: seq<seq<Read>>, b: seq<seq<Read>>)
    requires Grouping(Flatten(a), a) && Grouping(Flatten(b), b) && Flatten(a) == Flatten(b) && a != [] && b != []
    ensures |a[0]| <= |b[0]|
  {
    hide Joins, Flatten, Grouping;
    AfterFirst(b);
    if |a[0]| > |b[0]| {
      InsideJoins(a, |b[0]|);
    }
  }

  lemma GroupingTail(readings: seq<Read>, groups: seq<seq<Read>>)
    requires Grouping(readings, groups) && groups != []
    ensures Grouping(Flatten(groups[1..]), groups[1..])
  {
    hide Grown, Apart;
    var rest := groups[1..];
    forall c | 0 < c < |rest| ensures Apart(rest[c - 1], rest[c]) {
      assert Apart(groups[c + 1 - 1], groups[c + 1]);
    }
  }

  /** There is only one such cut. */
  lemma {:induction false} GroupingUnique(a: seq<seq<Read>>, b: seq<seq<Read>>)
    requires Grouping(Flatten(a), a) && Grouping(Flatten(b), b) && Flatten(a) == Flatten(b)
    ensures a == b
    decreases |a|
  {
    hide Grouping, Flatten;
    if a != [] && b != [] {
      FirstGroup(a, b);
      FirstGroup(b, a);
      FlattenFront(a);
      FlattenFront(b);
      assert a[0] == Flatten(a)[..|a[0]|] == b[0];
      assert Flatten(a[1..]) == Flatten(a)[|a[0]|..] == Flatten(b[1..]);
      GroupingTail(Flatten(a), a);
      GroupingTail(Flatten(b), b);
      GroupingUnique(a[1..], b[1..]);
      assert a == [a[0]] + a[1..] && b == [b[0]] + b[1..];
    } else {
      OnlyEmpty(a);
      OnlyEmpty(b);
    }
  }

  lemma OnlyEmpty(groups: seq<seq<Read>>)
    requires Grouping(Flatten(groups), groups)
    ensures Flatten(groups) == [] <==> groups == []
  {
    if groups != [] {
      FlattenFront(groups);
      assert Grown(groups[0]);
    }
  }

  // ------------------------------------------------------------------------ cues

  /** `\w` is ASCII here, so only ASCII letters count as letters. */
  predicate AsciiLetter(c: char) { 'A' <= c <= 'Z' || 'a' <= c <= 'z' }

  predicate Junk(text: string) {
    var t := WithoutSpaces(text, JsSpace);
    |t| <= 1 || (|t| <= 3 && forall i :: 0 <= i < |t| ==> !AsciiLetter(t[i]))
  }

  /** Both languages agree on what of the text is white space. */
  predicate SameSpaces(text: string) { forall c :: c in text ==> (JsSpace(c) <==> PySpace(c)) }

  lemma {:induction false} SameWithoutSpaces(text: string)
    requires SameSpaces(text)
    ensures WithoutSpaces(text, JsSpace) == WithoutSpaces(text, PySpace)
  {
    if text != "" {
      assert text[0] in text && forall c :: c in text[1..] ==> c in text;
      SameWithoutSpaces(text[1..]);
    }
  }

  /** Two or three characters of which some are letters but none an ASCII letter. */
  predicate ShortForeign(text: string, isLetter: char -> bool) {
    var t := WithoutSpaces(text, JsSpace);
    && 2 <= |t| <= 3 && (exists i :: 0 <= i < |t| && isLetter(t[i]))
    && (forall i :: 0 <= i < |t| ==> !AsciiLetter(t[i]))
  }

  /** Few enough characters to be dropped: one where there is a letter, three where there is none. */
  predicate Short(n: nat, letters: bool) { n <= if letters then 1 else 3 }

  predicate AnyLetter(text: string, isLetter: char -> bool) { exists c :: c in text && isLetter(c) }

  lemma LettersStay(text: string, space: char -> bool, isLetter: char -> bool)
    requires forall c :: isLetter(c) ==> !space(c)
    ensures AnyLetter(text, isLetter) <==> AnyLetter(WithoutSpaces(text, space), isLetter)
  {
    hide WithoutSpaces;
    forall c ensures c in WithoutSpaces(text, space) <==> c in text && !space(c) {
      InWithoutSpaces(text, space, c);
    }
  }

  lemma AnyLetterAt(t: string, isLetter: char -> bool)
    ensures AnyLetter(t, isLetter) <==> exists i :: 0 <= i < |t| && isLetter(t[i])
  {
    if i :| 0 <= i < |t| && isLetter(t[i]) {
      assert t[i] in t;
    }
  }

  lemma LettersAreNoSpaces()
    ensures forall c :: AsciiLetter(c) ==> !JsSpace(c)
  {
  }

  /**
   For every text, with the length of what is left of it by either language's white space: the browser's
   filter and the worker's agree if and only if both lengths are short or neither is, by the letters that
   each of them knows. Where both see the same white space that fails just for words of two or three
   characters with letters of which none is an ASCII letter, and there the browser drops what the worker keeps.
   */
  lemma FiltersAgreeIff(text: string, isLetter: char -> bool)
    requires forall c :: AsciiLetter(c) ==> isLetter(c)
    requires forall c :: isLetter(c) ==> !PySpace(c)
    ensures (Junk(text) <==> Worker.IsJunk(text, isLetter))
       <==> (Short(|WithoutSpaces(text, JsSpace)|, AnyLetter(text, AsciiLetter))
             <==> Short(|WithoutSpaces(text, PySpace)|, AnyLetter(text, isLetter)))
    ensures SameSpaces(text) ==>
      ((Junk(text) <==> Worker.IsJunk(text, isLetter)) <==> !ShortForeign(text, isLetter))
    ensures SameSpaces(text) && Worker.IsJunk(text, isLetter) ==> Junk(text)
  {
    LettersAreNoSpaces();
    hide JsSpace, PySpace, WithoutSpaces, AsciiLetter, AnyLetter, SameSpaces;
    LettersStay(text, JsSpace, AsciiLetter);
    LettersStay(text, PySpace, isLetter);
    AnyLetterAt(WithoutSpaces(text, JsSpace), AsciiLetter);
    AnyLetterAt(WithoutSpaces(text, PySpace), isLetter);
    if SameSpaces(text) {
      SameWithoutSpaces(text);
    }
  }

  /** A word of two accented letters is junk in the browser only. */
  lemma AccentedWordIsJunk(isLetter: char -> bool)
    requires isLetter('\U{E9}') && isLetter('\U{FB}')
    ensures Junk("\U{FB}\U{E9}") && !Worker.IsJunk("\U{FB}\U{E9}", isLetter)
  {
    var t := "\U{FB}\U{E9}";
    assert t[1..] == "\U{E9}" && t[1..][1..] == "";
    assert WithoutSpaces("\U{E9}", JsSpace) == "\U{E9}" == WithoutSpaces("\U{E9}", PySpace);
    assert WithoutSpaces(t, JsSpace) == t == WithoutSpaces(t, PySpace);
  }

  /** A byte order mark next to a letter is white space, and the rest a single glyph, in the browser only. */
  lemma ByteOrderMarkIsJunk(isLetter: char -> bool)
    requires isLetter('A')
    ensures Junk("\U{FEFF}A") && !Worker.IsJunk("\U{FEFF}A", isLetter) && !SameSpaces("\U{FEFF}A")
  {
    var t := "\U{FEFF}A";
    assert t[1..] == "A" && t[1..][1..] == "";
    assert WithoutSpaces("A", JsSpace) == "A" == WithoutSpaces("A", PySpace);
    assert WithoutSpaces(t, JsSpace) == "A" && WithoutSpaces(t, PySpace) == t;
    assert t[0] in t;
  }

  const MIN_FRAMES := 2
  const MIN_DURATION := 0.4
  const MAX_NON_LATIN := 0.4

  predicate Passes(frames: nat, start: real, end: real, text: string, nonLatin: string -> real) {
    frames >= MIN_FRAMES && end - start >= MIN_DURATION && !Junk(text) && nonLatin(text) <= MAX_NON_LATIN
  }

  /** What a group of readings comes to: first and last time, last position, winning text. */
  function CueOf(g: seq<Read>, interval: real): Cue
    requires g != []
  {
    Cue(g[0].t, g[|g| - 1].t + interval, Leader(VotesOf(Texts(g))).text, g[|g| - 1].an)
  }

  function CuesOf(groups: seq<seq<Read>>, interval: real, nonLatin: string -> real): seq<Cue> {
    if groups == [] then []
    else
      var g := groups[|groups| - 1];
      var before := CuesOf(groups[..|groups| - 1], interval, nonLatin);
      if g != [] && CueOf(g, interval).text != ""
         && Passes(|g|, CueOf(g, interval).start, CueOf(g, interval).end, CueOf(g, interval).text, nonLatin)
      then before + [CueOf(g, interval)] else before
  }

  datatype Group = Group(start: real, end: real, an: int, votes: seq<Vote>, blanks: nat, frames: nat)

  /** The record kept of a group. */
  predicate Records(group: Group, g: seq<Read>) {
    && g != [] && group.start == g[0].t && group.end == g[|g| - 1].t && group.an == g[|g| - 1].an
    && group.votes == VotesOf(Texts(g)) && group.frames == |g|
  }

  method Flush(group: Option<Group>, cues: seq<Cue>, interval: real, nonLatin: string -> real,
          ghost g: seq<Read>, ghost groups: seq<seq<Read>>)
    returns (more: seq<Cue>)
    requires group.Some? ==> Records(group.value, g)
    requires cues == CuesOf(groups, interval, nonLatin)
    ensures more == CuesOf(if group.Some? then groups + [g] else groups, interval, nonLatin)
  {
    hide Leader, VotesOf, Junk;
    more := cues;
    if group.None? {
      return;
    }
    assert (groups + [g])[..|groups|] == groups;
    var text := Winner(group.value.votes);
    if text == "" {
      return;
    }
    var end := group.value.end + interval;
    if group.value.frames < MIN_FRAMES { return; }
    if end - group.value.start < MIN_DURATION { return; }
    if Junk(text) { return; }
    if nonLatin(text) > MAX_NON_LATIN { return; }
    more := cues + [Cue(group.value.start, end, text, group.value.an)];
  }

  /** Groups that are closed, and the readings of the open one. */
  predicate SoFar(readings: seq<Read>, groups: seq<seq<Read>>, g: seq<Read>) {
    if g == [] then Grouping(readings, groups) else Grouping(readings, groups + [g])
  }

  lemma TextsSnoc(g: seq<Read>, r: Read)
    ensures VotesOf(Texts(g + [r])) == Cast(VotesOf(Texts(g)), r.text)
  {
    assert Texts(g + [r]) == Texts(g) + [r.text];
    assert (Texts(g) + [r.text])[..|g|] == Texts(g);
  }

  lemma JoinGroup(readings: seq<Read>, groups: seq<seq<Read>>, g: seq<Read>, r: Read)
    requires g != [] && SoFar(readings, groups, g) && Joins(g, r)
    ensures SoFar(readings + [r], groups, g + [r])
  {
    hide Joins;
    FlattenSnoc(groups, g);
    FlattenSnoc(groups, g + [r]);
    var more := g + [r];
    forall k | 0 < k < |more| ensures Joins(more[..k], more[k]) {
      if k < |g| {
        assert (groups + [g])[|groups|] == g && Grown(g);
        assert more[..k] == g[..k];
      } else {
        assert more[..k] == g;
      }
    }
    var after := groups + [more];
    forall c | 0 < c < |after| ensures Apart(after[c - 1], after[c]) {
      assert Apart((groups + [g])[c - 1], (groups + [g])[c]);
    }
    forall c | 0 <= c < |after| ensures Grown(after[c]) {
      if c < |groups| {
        assert (groups + [g])[c] == after[c];
      }
    }
    assert Flatten(groups) + more == (Flatten(groups) + g) + [r];
  }

  lemma NewGroup(readings: seq<Read>, groups: seq<seq<Read>>, r: Read)
    requires Grouping(readings, groups) && (groups != [] ==> !Joins(groups[|groups| - 1], r))
    ensures SoFar(readings + [r], groups, [r])
  {
    hide Joins;
    FlattenSnoc(groups, [r]);
    var after := groups + [[r]];
    forall c | 0 < c < |after| ensures Apart(after[c - 1], after[c]) {
      if c < |groups| {
        assert Apart(groups[c - 1], groups[c]);
      }
    }
  }

  /** The cues of the one grouping of the readings. */
  method MergeCues(samples: seq<Sample>, interval: real, nonLatin: string -> real) returns (cues: seq<Cue>)
    ensures exists groups :: Grouping(Reads(samples, |samples|), groups) && cues == CuesOf(groups, interval, nonLatin)
  {
    hide Grouping, SoFar, CuesOf, VotesOf, Leader, Ratio, Texts, Grown, JsTrim, Cast;
    cues := [];
    ghost var groups: seq<seq<Read>> := [];
    var group: Option<Group> := None;
    ghost var g: seq<Read> := [];
    Nothing(interval, nonLatin);
    for n := 0 to |samples|
      invariant SoFar(Reads(samples, n), groups, g)
      invariant group.Some? <==> g != []
      invariant group.Some? ==> Records(group.value, g) && group.value.blanks == BlankTail(samples, n) <= MAX_BLANKS
      invariant group.None? && groups != [] ==> BlankTail(samples, n) > MAX_BLANKS
      invariant cues == CuesOf(groups, interval, nonLatin)
    {
      var s := samples[n];
      var t := JsTrim(s.text);
      if t == "" {
        if group.Some? {
          group := Some(group.value.(blanks := group.value.blanks + 1));
          if group.value.blanks > MAX_BLANKS {
            cues := Flush(group, cues, interval, nonLatin, g, groups);
            Close(Reads(samples, n), groups, g);
            groups, g, group := groups + [g], [], None;
          }
        }
      } else {
        ghost var r := Read(s.t, t, s.an, BlankTail(samples, n));
        var similar := false;
        if group.Some? {
          var w := Winner(group.value.votes);
          var ratio := LevRatio(t, w);
          similar := ratio >= 0.6;
        }
        if group.Some? && similar {
          JoinGroup(Reads(samples, n), groups, g, r);
          TextsSnoc(g, r);
          group := Some(Group(group.value.start, s.t, s.an, Cast(group.value.votes, t), 0, group.value.frames + 1));
          g := g + [r];
        } else {
          cues := Flush(group, cues, interval, nonLatin, g, groups);
          Close(Reads(samples, n), groups, g);
          if group.Some? {
            groups := groups + [g];
          }
          NewGroup(Reads(samples, n), groups, r);
          OneVote(r);
          group, g := Some(Group(s.t, s.t, s.an, [Vote(t, 1)], 0, 1)), [r];
        }
      }
    }
    cues := Flush(group, cues, interval, nonLatin, g, groups);
    Close(Reads(samples, |samples|), groups, g);
    if group.Some? {
      groups := groups + [g];
    }
    assert Grouping(Reads(samples, |samples|), groups);
  }

  lemma Nothing(interval: real, nonLatin: string -> real)
    ensures SoFar([], [], []) && CuesOf([], interval, nonLatin) == []
  {
  }

  lemma Close(readings: seq<Read>, groups: seq<seq<Read>>, g: seq<Read>)
    requires SoFar(readings, groups, g)
    ensures Grouping(readings, if g == [] then groups else groups + [g])
    ensures SoFar(readings, if g == [] then groups else groups + [g], [])
  {
  }

  lemma OneVote(r: Read)
    ensures VotesOf(Texts([r])) == [Vote(r.text, 1)]
  {
    assert Texts([r]) == [r.text];
    assert [r.text][..0] == [];
  }

  // ---------------------------------------------------------------------- timing

  /** Readings or samples come at least one interval apart. */
  predicate Spaced(samples: seq<Sample>, interval: real) {
    forall i, j :: 0 <= i < j < |samples| ==> samples[j].t - samples[i].t >= interval
  }

  predicate ReadsSpaced(readings: seq<Read>, interval: real) {
    forall i, j :: 0 <= i < j < |readings| ==> readings[j].t - readings[i].t >= interval
  }

  lemma {:induction false} ReadsAreSpaced(samples: seq<Sample>, n: nat, interval: real)
    requires n <= |samples| && Spaced(samples, interval)
    ensures ReadsSpaced(Reads(samples, n), interval)
    ensures forall r :: r in Reads(samples, n) ==> exists i :: 0 <= i < n && samples[i].t == r.t
    decreases n
  {
    hide JsTrim;
    if n > 0 {
      ReadsAreSpaced(samples, n - 1, interval);
      var before := Reads(samples, n - 1);
      forall k | 0 <= k < |before| ensures samples[n - 1].t - before[k].t >= interval {
        assert before[k] in before;
        var i :| 0 <= i < n - 1 && samples[i].t == before[k].t;
      }
    }
  }

  predicate InTurn(cues: seq<Cue>) {
    && (forall k :: 0 <= k < |cues| ==> cues[k].start < cues[k].end)
    && (forall k, m :: 0 <= k < m < |cues| ==> cues[k].end <= cues[m].start)
  }

  lemma {:induction false} CuesInTurn(groups: seq<seq<Read>>, interval: real, nonLatin: string -> real)
    requires interval > 0.0 && ReadsSpaced(Flatten(groups), interval) && forall g :: g in groups ==> g != []
    ensures InTurn(CuesOf(groups, interval, nonLatin))
    ensures groups != [] ==> Flatten(groups) != [] && forall k :: 0 <= k < |CuesOf(groups, interval, nonLatin)| ==>
      CuesOf(groups, interval, nonLatin)[k].end <= Flatten(groups)[|Flatten(groups)| - 1].t + interval
    decreases |groups|
  {
    hide Passes, VotesOf, Leader;
    if groups != [] {
      var n := |groups| - 1;
      var g, before, whole := groups[n], Flatten(groups[..n]), Flatten(groups);
      assert whole == before + g && g in groups;
      assert ReadsSpaced(before, interval) by {
        forall i, j | 0 <= i < j < |before| ensures before[j].t - before[i].t >= interval {
          assert whole[i] == before[i] && whole[j] == before[j];
        }
      }
      assert forall h :: h in groups[..n] ==> h in groups;
      CuesInTurn(groups[..n], interval, nonLatin);
      var first, last := whole[|before|], whole[|whole| - 1];
      assert first == g[0] && last == g[|g| - 1] && last.t >= first.t;
      if before != [] {
        assert whole[|before| - 1] == before[|before| - 1];
        assert first.t - before[|before| - 1].t >= interval;
      }
    }
  }

  /**
   For samples at least one interval apart the cues come in order, none is empty and no two
   overlap; each was read often enough, is long enough and is neither junk nor foreign.
   */
  lemma {:induction false} BrowserCuesSound(samples: seq<Sample>, groups: seq<seq<Read>>, interval: real,
                                            nonLatin: string -> real)
    requires interval > 0.0 && Spaced(samples, interval) && Grouping(Reads(samples, |samples|), groups)
    ensures InTurn(CuesOf(groups, interval, nonLatin))
    ensures forall c :: c in CuesOf(groups, interval, nonLatin) ==>
      exists g :: g in groups && g != [] && c == CueOf(g, interval) && Passes(|g|, c.start, c.end, c.text, nonLatin)
  {
    ReadsAreSpaced(samples, |samples|, interval);
    hide Reads, CuesOf, Passes, CueOf, InTurn;
    forall g | g in groups ensures g != [] {
      var k :| 0 <= k < |groups| && groups[k] == g;
      assert Grown(groups[k]);
    }
    CuesInTurn(groups, interval, nonLatin);
    CuesPass(groups, interval, nonLatin);
  }

  lemma {:induction false} CuesPass(groups: seq<seq<Read>>, interval: real, nonLatin: string -> real)
    ensures forall c :: c in CuesOf(groups, interval, nonLatin) ==>
      exists g :: g in groups && g != [] && c == CueOf(g, interval) && Passes(|g|, c.start, c.end, c.text, nonLatin)
    decreases |groups|
  {
    hide Passes, VotesOf, Leader;
    if groups != [] {
      var n := |groups| - 1;
      CuesPass(groups[..n], interval, nonLatin);
      assert groups[n] in groups;
      forall c | c in CuesOf(groups, interval, nonLatin)
        ensures exists g ::
            g in groups && g != [] && c == CueOf(g, interval) && Passes(|g|, c.start, c.end, c.text, nonLatin)
      {
        if c in CuesOf(groups[..n], interval, nonLatin) {
          var g :| g in groups[..n] && g != [] && c == CueOf(g, interval) &&
            Passes(|g|, c.start, c.end, c.text, nonLatin);
          assert g in groups;
        }
      }
    }
  }

  /** The group makes a cue: its text is not empty and it passes. */
  predicate Makes(g: seq<Read>, interval: real, nonLatin: string -> real) {
    && g != [] && CueOf(g, interval).text != "" && |g| >= 2
    && CueOf(g, interval).end - CueOf(g, interval).start >= 0.4
    && !Junk(CueOf(g, interval).text) && nonLatin(CueOf(g, interval).text) <= 0.4
  }

  /** The groups that make a cue, in order. */
  function Making(groups: seq<seq<Read>>, interval: real, nonLatin: string -> real): seq<seq<Read>> {
    if groups == [] then []
    else
      var rest := Making(groups[1..], interval, nonLatin);
      if Makes(groups[0], interval, nonLatin) then [groups[0]] + rest else rest
  }

  lemma {:induction false} MakingSnoc(groups: seq<seq<Read>>, g: seq<Read>, interval: real, nonLatin: string -> real)
    ensures Making(groups + [g], interval, nonLatin)
         == Making(groups, interval, nonLatin) + (if Makes(g, interval, nonLatin) then [g] else [])
  {
    hide Makes;
    if groups == [] {
      assert groups + [g] == [g] && [g][1..] == [];
    } else {
      assert (groups + [g])[1..] == groups[1..] + [g];
      MakingSnoc(groups[1..], g, interval, nonLatin);
    }
  }

  /** Each group that makes a cue has it, in order, and there are no others. */
  lemma {:induction false} CuesOfMaking(groups: seq<seq<Read>>, interval: real, nonLatin: string -> real)
    ensures |CuesOf(groups, interval, nonLatin)| == |Making(groups, interval, nonLatin)|
    ensures forall k :: 0 <= k < |Making(groups, interval, nonLatin)| ==>
      var g := Making(groups, interval, nonLatin)[k];
      g != [] && CuesOf(groups, interval, nonLatin)[k] == CueOf(g, interval)
    decreases |groups|
  {
    hide Junk, CueOf;
    if groups != [] {
      var n := |groups| - 1;
      CuesOfMaking(groups[..n], interval, nonLatin);
      MakingSnoc(groups[..n], groups[n], interval, nonLatin);
      assert groups == groups[..n] + [groups[n]];
    }
  }

  // -------------------------------------------------- the cut, sample by sample

  predicate Speaks(s: Sample) { JsTrim(s.text) != "" }

  /** The first n samples that say something, by index, in order. */
  predicate SpokenAt(samples: seq<Sample>, n: nat, at: seq<int>)
    requires n <= |samples|
  {
    && (forall k, m :: 0 <= k < m < |at| ==> at[k] < at[m])
    && (forall k :: 0 <= k < |at| ==> 0 <= at[k] < n)
    && (forall i :: 0 <= i < n ==> (i in at <==> Speaks(samples[i])))
  }

  /** The silent samples just before the k-th of those that speak. */
  function SilentBefore(at: seq<int>, k: nat): int
    requires k < |at|
  {
    if k == 0 then at[0] else at[k] - at[k - 1] - 1
  }

  lemma SpokenStep(samples: seq<Sample>, n: nat, at: seq<int>)
    requires n < |samples| && SpokenAt(samples, n, at)
    ensures SpokenAt(samples, n + 1, if Speaks(samples[n]) then at + [n] else at)
  {
    hide Speaks;
    var more := if Speaks(samples[n]) then at + [n] else at;
    assert n !in at;
    forall i | 0 <= i < n + 1 ensures i in more <==> Speaks(samples[i]) {
      assert i < n ==> (i in more <==> i in at);
    }
  }

  /** The readings are the samples that speak, trimmed, each with the number of silent ones before it. */
  predicate ReadAt(samples: seq<Sample>, at: seq<int>, readings: seq<Read>) {
    && |readings| == |at|
    && forall k :: 0 <= k < |at| ==>
      0 <= at[k] < |samples| && readings[k] == ReadOf(samples[at[k]], SilentBefore(at, k))
  }

  function ReadOf(s: Sample, silent: int): Read { Read(s.t, JsTrim(s.text), s.an, silent) }

  /** The silent samples at the end of the first n. */
  function SilentTail(n: nat, at: seq<int>): int { if at == [] then n else n - at[|at| - 1] - 1 }

  lemma OneMoreSample(samples: seq<Sample>, n: nat)
    requires n < |samples|
    ensures Reads(samples, n + 1)
         == if Speaks(samples[n]) then Reads(samples, n) + [ReadOf(samples[n], BlankTail(samples, n))]
            else Reads(samples, n)
    ensures BlankTail(samples, n + 1) == if Speaks(samples[n]) then 0 else BlankTail(samples, n) + 1
  {
    hide JsTrim;
  }

  lemma ReadMore(samples: seq<Sample>, at: seq<int>, readings: seq<Read>, n: nat)
    requires ReadAt(samples, at, readings) && n < |samples|
    ensures ReadAt(samples, at + [n], readings + [ReadOf(samples[n], SilentTail(n, at))])
  {
    hide ReadOf;
    var more := at + [n];
    assert forall k :: 0 <= k < |at| ==> SilentBefore(more, k) == SilentBefore(at, k);
    assert SilentBefore(more, |at|) == SilentTail(n, at);
  }

  lemma ReadStep(samples: seq<Sample>, n: nat, at: seq<int>)
    requires n < |samples| && ReadAt(samples, at, Reads(samples, n)) && BlankTail(samples, n) == SilentTail(n, at)
    ensures
      var more := if Speaks(samples[n]) then at + [n] else at;
      && ReadAt(samples, more, Reads(samples, n + 1))
      && BlankTail(samples, n + 1) == SilentTail(n + 1, more)
  {
    hide Reads, BlankTail, Speaks, ReadOf, ReadAt;
    OneMoreSample(samples, n);
    ReadMore(samples, at, Reads(samples, n), n);
  }

  lemma {:induction false} ReadsSpeak(samples: seq<Sample>, n: nat) returns (at: seq<int>)
    requires n <= |samples|
    ensures SpokenAt(samples, n, at) && ReadAt(samples, at, Reads(samples, n))
    ensures BlankTail(samples, n) == SilentTail(n, at)
    decreases n
  {
    hide Speaks, SpokenAt, ReadAt, Reads, BlankTail;
    if n == 0 {
      at := [];
      NoneSpoken(samples);
    } else {
      var before := ReadsSpeak(samples, n - 1);
      SpokenStep(samples, n - 1, before);
      ReadStep(samples, n - 1, before);
      at := if Speaks(samples[n - 1]) then before + [n - 1] else before;
    }
  }

  lemma NoneSpoken(samples: seq<Sample>)
    ensures SpokenAt(samples, 0, []) && ReadAt(samples, [], Reads(samples, 0)) && BlankTail(samples, 0) == 0
  {
  }

  /** The text that leads among some. */
  predicate Leads(texts: seq<string>, w: string) {
    && w in texts
    && forall t :: t in texts ==>
      Count(texts, t) < Count(texts, w) || (Count(texts, t) == Count(texts, w) && |t| <= |w|)
  }

  lemma LeaderOf(texts: seq<string>)
    requires texts != []
    ensures Leads(texts, Leader(VotesOf(texts)).text)
  {
    hide Leader, VotesOf, Count;
    var w := Leader(VotesOf(texts)).text;
    WinnerHasMost(texts, w);
    CountedIsThere(texts, w);
    forall t | t in texts
      ensures Count(texts, t) < Count(texts, w) || (Count(texts, t) == Count(texts, w) && |t| <= |w|)
    {
      WinnerHasMost(texts, t);
    }
  }

  lemma {:induction false} CountedIsThere(texts: seq<string>, t: string)
    requires Count(texts, t) > 0
    ensures t in texts
  {
    if texts[|texts| - 1] != t {
      CountedIsThere(texts[..|texts| - 1], t);
    }
  }

  /**
   Where the readings are cut. A reading stays with those before it exactly when at most two silent
   samples lie between and it is at least six tenths like a text that leads among them.
   */
  lemma CutsExplained(readings: seq<Read>, groups: seq<seq<Read>>, c: nat)
    requires Grouping(readings, groups) && c < |groups|
    ensures groups[c] != []
    ensures forall k :: 0 < k < |groups[c]| ==>
      groups[c][k].blanks <= 2 &&
      exists w :: Leads(Texts(groups[c][..k]), w) && Ratio(groups[c][k].text, w) >= 0.6
    ensures c + 1 < |groups| ==>
      && groups[c + 1] != []
      && (groups[c + 1][0].blanks > 2
          || exists w :: Leads(Texts(groups[c]), w) && Ratio(groups[c + 1][0].text, w) < 0.6)
  {
    hide Ratio, Leader, VotesOf, Leads, Texts;
    var g := groups[c];
    assert Grown(g);
    forall k | 0 < k < |g|
      ensures g[k].blanks <= 2 && exists w :: Leads(Texts(g[..k]), w) && Ratio(g[k].text, w) >= 0.6
    {
      TextsThere(g[..k]);
      LeaderOf(Texts(g[..k]));
      assert Joins(g[..k], g[k]);
    }
    if c + 1 < |groups| {
      assert Apart(groups[c + 1 - 1], groups[c + 1]);
      TextsThere(g);
      LeaderOf(Texts(g));
    }
  }

  lemma TextsThere(g: seq<Read>)
    ensures |Texts(g)| == |g| && forall k :: 0 <= k < |g| ==> Texts(g)[k] == g[k].text
  {
  }
}
