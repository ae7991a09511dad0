/**
 The French normalizer (worker/subextractor/normalize_fr.py:118-176): missing apostrophes and
 spaces put back into letter runs that are no words. The lexicon is any set of strings.
 */
module NormalizeFr {
  import opened Wrappers
  import opened Segment
  import opened Sequences
  import opened Text

  // ---------------------------------------------------------------------- letters

  /** The class `[A-Za-zÀ-ÖØ-öø-ÿ]`. */
  predicate IsLetter(c: char) {
    || 'A' <= c <= 'Z' || 'a' <= c <= 'z'
    || '\U{C0}' <= c <= '\U{D6}' || '\U{D8}' <= c <= '\U{F6}' || '\U{F8}' <= c <= '\U{FF}'
  }

  predicate IsUpper(c: char) { 'A' <= c <= 'Z' || '\U{C0}' <= c <= '\U{D6}' || '\U{D8}' <= c <= '\U{DE}' }

  /** `str.lower` of one of these letters, others unchanged. */
  function LowerChar(c: char): char { if IsUpper(c) then (c as int + 32) as char else c }

  function Lower(s: string): (r: string)
    ensures |r| == |s| && forall i :: 0 <= i < |s| ==> r[i] == LowerChar(s[i])
  {
    seq(|s|, i requires 0 <= i < |s| => LowerChar(s[i]))
  }

  /** `str.upper` of one of these letters; two of them leave Latin-1. */
  function UpperChar(c: char): string {
    if 'a' <= c <= 'z' || '\U{E0}' <= c <= '\U{F6}' || '\U{F8}' <= c <= '\U{FE}' then [(c as int - 32) as char]
    else if c == '\U{DF}' then "SS"
    else if c == '\U{FF}' then "\U{178}"
    else [c]
  }

  predicate Letters(s: string) { forall i :: 0 <= i < |s| ==> IsLetter(s[i]) }

  predicate Vowel(c: char) {
    c in "aeiouy" || c in "\U{E0}\U{E2}\U{E4}\U{E9}\U{E8}\U{EA}\U{EB}" ||
      c in "\U{EE}\U{EF}\U{F4}\U{F6}\U{F9}\U{FB}\U{FC}" || c == 'h'
  }

  predicate VowelFirst(s: string) { s != "" && Vowel(s[0]) }

  // --------------------------------------------------------------------- prefixes

  /** Long prefixes; these are words of their own. */
  function LongPrefixes(): seq<string> { ["jusqu", "lorsqu", "puisqu", "quoiqu"] }

  /** Prefixes that elide before any vowel. */
  function OpenPrefixes(): seq<string> { LongPrefixes() + ["qu", "j", "d", "l"] }

  /** Prefixes that elide only before some words. */
  function StrictPrefixes(): seq<string> { ["n", "c", "s", "m", "t"] }

  function StrictContinuations(): set<string> {
    {"est", "\U{E9}tait", "\U{E9}tais", "\U{E9}taient", "es", "ai", "a", "as", "ont", "avais"}
    + {"avait", "avaient", "y", "en", "il", "ils", "elle", "elles", "on", "aime"}
    + {"aimes", "aiment", "appelle", "appelles", "appellent", "agit", "agissait"}
    + {"attends", "attend", "excuse", "endors", "enfuis", "habille", "occupe"}
  }

  // ----------------------------------------------------------------- one letter run

  /** What is done to a run; it depends only on the lower-case run. */
  datatype Plan = Keep | Insert(at: nat) | Replace(at: nat) | Space(pieces: seq<string>)

  /** A word of the lexicon, begun by a vowel, that may follow the prefix. */
  predicate Continues(rest: string, words: set<string>, strict: bool) {
    VowelFirst(rest) && rest in words && (strict ==> rest in StrictContinuations())
  }

  /** What a prefix does to a run. */
  function PlanAt(low: string, p: string, words: set<string>, strict: bool): Plan {
    if |low| > |p| && p <= low then
      if Continues(low[|p|..], words, strict) then Insert(|p|)
      else if low[|p|] == 'i' && Continues(low[|p| + 1..], words, strict) then Replace(|p|)
      else Keep
    else Keep
  }

  /** The first prefix that does something. */
  function FirstPlan(low: string, prefixes: seq<string>, words: set<string>, strict: bool): Plan
    decreases |prefixes|
  {
    if prefixes == [] then Keep
    else
      var plan := PlanAt(low, prefixes[0], words, strict);
      if plan.Keep? then FirstPlan(low, prefixes[1..], words, strict) else plan
  }

  const MIN_SPLIT_LEN := 5

  ghost function PlanOf(low: string, words: set<string>): Plan {
    if low in words then Keep
    else
      var open := FirstPlan(low, OpenPrefixes(), words, false);
      if !open.Keep? then open
      else
        var strict := FirstPlan(low, StrictPrefixes(), words, true);
        if !strict.Keep? then strict
        else
          var seg := if |low| >= MIN_SPLIT_LEN then SegmentOf(low, words, 3) else None;
          if seg.Some? then Space(seg.value) else Keep
  }

  /** Pieces of the run as long as those given, with spaces between. */
  function Cut(run: string, pieces: seq<string>): string
    decreases |pieces|
  {
    if pieces == [] then ""
    else
      var n := if |pieces[0]| <= |run| then |pieces[0]| else |run|;
      if |pieces| == 1 then run[..n] else run[..n] + " " + Cut(run[n..], pieces[1..])
  }

  function Apply(plan: Plan, run: string): string {
    match plan
    case Keep => run
    case Insert(k) => if k <= |run| then run[..k] + "'" + run[k..] else run
    case Replace(k) => if k < |run| then run[..k] + "'" + run[k + 1..] else run
    case Space(pieces) => Cut(run, pieces)
  }

  ghost function FixedRun(run: string, words: set<string>): string { Apply(PlanOf(Lower(run), words), run) }

  /** `_cap_like`; the output begins like the source, so it never changes anything. */
  function CapLike(src: string, out: string): string {
    if src != "" && IsUpper(src[0]) && out != "" then UpperChar(out[0]) + out[1..] else out
  }

  lemma CapLikeKeeps(src: string, out: string)
    requires src != "" && out != "" && out[0] == src[0]
    ensures CapLike(src, out) == out
  {
  }

  method FixRun(run: string, words: set<string>) returns (out: string)
    requires run != ""
    ensures out == FixedRun(run, words)
  {
    hide SegmentOf, PlanAt, StrictContinuations, CapLike, OpenPrefixes, StrictPrefixes;
    var low := Lower(run);
    if low in words {
      return run;
    }
    var groups := [(OpenPrefixes(), false), (StrictPrefixes(), true)];
    for g := 0 to 2
      invariant g >= 1 ==> FirstPlan(low, OpenPrefixes(), words, false) == Keep
      invariant g >= 2 ==> FirstPlan(low, StrictPrefixes(), words, true) == Keep
    {
      var (prefixes, strict) := groups[g];
      assert forall p :: p in prefixes ==> p != "" by { PrefixesNonempty(); }
      for k := 0 to |prefixes|
        invariant FirstPlan(low, prefixes, words, strict) == FirstPlan(low, prefixes[k..], words, strict)
      {
        assert prefixes[k..][0] == prefixes[k] && prefixes[k..][1..] == prefixes[k + 1..];
        assert prefixes[k] in prefixes;
        var done, fixed := TryPrefix(run, prefixes[k], words, strict);
        if done {
          return fixed;
        }
      }
      assert prefixes[|prefixes|..] == [];
    }
    if |low| >= MIN_SPLIT_LEN {
      var seg := SegmentRun(low, words, 3);
      if seg.Some? {
        out := CutRun(run, seg.value);
        return;
      }
    }
    out := run;
  }

  lemma PrefixesNonempty()
    ensures forall p :: p in OpenPrefixes() || p in StrictPrefixes() ==> p != ""
  {
  }

  /** The body of the loop over the prefixes. */
  method TryPrefix(run: string, p: string, words: set<string>, strict: bool) returns (done: bool, out: string)
    requires p != ""
    ensures done <==> !PlanAt(Lower(run), p, words, strict).Keep?
    ensures done ==> out == Apply(PlanAt(Lower(run), p, words, strict), run)
  {
    hide StrictContinuations, Vowel;
    var low := Lower(run);
    out := run;
    if |low| > |p| && p <= low {
      var rest := low[|p|..];
      if VowelFirst(rest) && rest in words && (!strict || rest in StrictContinuations()) {
        CapLikeKeeps(run, run[..|p|] + "'" + run[|p|..]);
        return true, CapLike(run, run[..|p|] + "'" + run[|p|..]);
      }
      var rest2 := low[|p| + 1..];
      if rest[0] == 'i' && VowelFirst(rest2) && rest2 in words && (!strict || rest2 in StrictContinuations()) {
        CapLikeKeeps(run, run[..|p|] + "'" + run[|p| + 1..]);
        return true, CapLike(run, run[..|p|] + "'" + run[|p| + 1..]);
      }
    }
    return false, run;
  }

  /** The pieces of the run joined by spaces. */
  method CutRun(run: string, pieces: seq<string>) returns (out: string)
    requires 1 <= |pieces| && Flatten(pieces) == Lower(run)
    ensures out == Cut(run, pieces)
  {
    var parts: seq<string> := [];
    var i, k := 0, 0;
    Sizes(pieces, 0);
    while k < |pieces|
      invariant k <= |pieces| && i == |Flatten(pieces[..k])| <= |run| && |parts| == k
      invariant k < |pieces| ==> Cut(run, pieces) == JoinRest(parts, Cut(run[i..], pieces[k..]))
      invariant k == |pieces| ==> Cut(run, pieces) == Join(parts, " ")
    {
      Sizes(pieces, k);
      assert pieces[k..][0] == pieces[k] && pieces[k..][1..] == pieces[k + 1..];
      var next := i + |pieces[k]|;
      assert run[i..][..|pieces[k]|] == run[i..next] && run[i..][|pieces[k]|..] == run[next..];
      JoinRestSnoc(parts, run[i..next], Cut(run[next..], pieces[k + 1..]));
      parts := parts + [run[i..next]];
      i, k := next, k + 1;
    }
    out := Join(parts, " ");
  }

  lemma Sizes(pieces: seq<string>, k: nat)
    requires k < |pieces|
    ensures |Flatten(pieces[..k + 1])| == |Flatten(pieces[..k])| + |pieces[k]| <= |Flatten(pieces)|
    ensures |Flatten(pieces[..0])| == 0
  {
    assert pieces[..k + 1] == pieces[..k] + [pieces[k]];
    FlattenSnoc(pieces[..k], pieces[k]);
    FlattenPrefix(pieces[..k + 1], pieces);
  }

  /** What has been joined, and what is to follow. */
  function JoinRest(parts: seq<string>, rest: string): string {
    if parts == [] then rest else Join(parts, " ") + " " + rest
  }

  lemma {:induction false} JoinSnoc(parts: seq<string>, p: string)
    ensures Join(parts + [p], " ") == if parts == [] then p else Join(parts, " ") + " " + p
    decreases |parts|
  {
    if parts == [] {
      assert parts + [p] == [p];
    } else {
      assert (parts + [p])[1..] == parts[1..] + [p];
      JoinSnoc(parts[1..], p);
    }
  }

  lemma JoinRestSnoc(parts: seq<string>, p: string, rest: string)
    ensures JoinRest(parts, p + " " + rest) == JoinRest(parts + [p], rest)
    ensures JoinRest(parts, p) == Join(parts + [p], " ")
  {
    JoinSnoc(parts, p);
    hide Join;
  }

  // --------------------------------------------------------------------- the line

  function RunLength(s: string): (n: nat)
    ensures n <= |s| && Letters(s[..n]) && (n < |s| ==> !IsLetter(s[n]))
  {
    if s == "" || !IsLetter(s[0]) then 0
    else
      var n := RunLength(s[1..]);
      assert s[..n + 1] == [s[0]] + s[1..][..n];
      n + 1
  }

  /** Every maximal letter run replaced by its fixed form. */
  ghost function Normalized(text: string, words: set<string>): string
    decreases |text|
  {
    if text == "" then ""
    else if IsLetter(text[0]) then
      var n := RunLength(text);
      FixedRun(text[..n], words) + Normalized(text[n..], words)
    else [text[0]] + Normalized(text[1..], words)
  }

  lemma NormalizedStep(text: string, words: set<string>)
    ensures text == "" ==> Normalized(text, words) == ""
    ensures text != "" && IsLetter(text[0]) ==>
      var n := RunLength(text);
      0 < n && Normalized(text, words) == FixedRun(text[..n], words) + Normalized(text[n..], words)
    ensures text != "" && !IsLetter(text[0]) ==>
      RunLength(text) == 0 && Normalized(text, words) == [text[0]] + Normalized(text[1..], words)
  {
    hide FixedRun, IsLetter;
  }

  method NormalizeLine(text: string, words: set<string>) returns (out: string)
    ensures out == Normalized(text, words)
  {
    hide FixedRun, Normalized, IsLetter, RunLength;
    out := "";
    var i := 0;
    assert text[0..] == text;
    while i < |text|
      invariant i <= |text| && Normalized(text, words) == out + Normalized(text[i..], words)
      decreases |text| - i
    {
      var rest := text[i..];
      NormalizedStep(rest, words);
      var n := RunLength(rest);
      if n > 0 {
        assert rest[..n] == text[i..i + n] && rest[n..] == text[i + n..];
        var fixed := FixRun(text[i..i + n], words);
        out := out + fixed;
        i := i + n;
      } else {
        assert rest[1..] == text[i + 1..];
        out := out + [text[i]];
        i := i + 1;
      }
    }
    assert text[i..] == "";
    NormalizedStep("", words);
  }

  // ------------------------------------------------------- what it does to letters

  /**
   The output is the input with spaces and apostrophes put in and some `i` turned into
   apostrophes; `turned` counts those.
   */
  ghost predicate Derives(a: string, b: string, turned: nat)
    decreases |b|
  {
    if b == "" then a == "" && turned == 0
    else
      || (a != "" && a[0] == b[0] && Derives(a[1..], b[1..], turned))
      || ((b[0] == ' ' || b[0] == '\'') && Derives(a, b[1..], turned))
      || (a != "" && (a[0] == 'i' || a[0] == 'I') && b[0] == '\'' && turned > 0 && Derives(a[1..], b[1..], turned - 1))
  }

  lemma {:induction false} DerivesSame(a: string)
    ensures Derives(a, a, 0)
  {
    if a != "" {
      DerivesSame(a[1..]);
    }
  }

  lemma {:induction false} DerivesAppend(a: string, b: string, m: nat, c: string, d: string, n: nat)
    requires Derives(a, b, m) && Derives(c, d, n)
    ensures Derives(a + c, b + d, m + n)
    decreases |b|
  {
    if b == "" {
      assert a + c == c && b + d == d;
    } else {
      assert (b + d)[1..] == b[1..] + d;
      if a != "" {
        assert (a + c)[1..] == a[1..] + c;
      }
      if a != "" && a[0] == b[0] && Derives(a[1..], b[1..], m) {
        DerivesAppend(a[1..], b[1..], m, c, d, n);
      } else if (b[0] == ' ' || b[0] == '\'') && Derives(a, b[1..], m) {
        DerivesAppend(a, b[1..], m, c, d, n);
      } else {
        DerivesAppend(a[1..], b[1..], m - 1, c, d, n);
      }
    }
  }

  /** Text is never shortened: what is put in is all that is added. */
  lemma {:induction false} DerivesLength(a: string, b: string, n: nat)
    requires Derives(a, b, n)
    ensures |b| >= |a|
    decreases |b|
  {
    if b != "" {
      if a != "" && a[0] == b[0] && Derives(a[1..], b[1..], n) {
        DerivesLength(a[1..], b[1..], n);
      } else if (b[0] == ' ' || b[0] == '\'') && Derives(a, b[1..], n) {
        DerivesLength(a, b[1..], n);
      } else {
        DerivesLength(a[1..], b[1..], n - 1);
      }
    }
  }

  /** A plan that fits its run. */
  predicate PlanFits(plan: Plan, low: string) {
    match plan
    case Keep => true
    case Insert(k) => 0 < k < |low|
    case Replace(k) => 0 < k < |low| && low[k] == 'i'
    case Space(pieces) => 2 <= |pieces| <= 3 && Flatten(pieces) == low && |low| >= MIN_SPLIT_LEN
  }

  lemma {:induction false} FirstPlanFrom(low: string, prefixes: seq<string>, words: set<string>, strict: bool)
    ensures var plan := FirstPlan(low, prefixes, words, strict);
      plan.Keep? || exists p :: p in prefixes && plan == PlanAt(low, p, words, strict)
    decreases |prefixes|
  {
    hide PlanAt;
    if prefixes != [] && PlanAt(low, prefixes[0], words, strict).Keep? {
      FirstPlanFrom(low, prefixes[1..], words, strict);
    }
  }

  lemma PlanOfFits(low: string, words: set<string>)
    ensures PlanFits(PlanOf(low, words), low)
  {
    FirstPlanFrom(low, OpenPrefixes(), words, false);
    FirstPlanFrom(low, StrictPrefixes(), words, true);
    PrefixesNonempty();
    hide OpenPrefixes, StrictPrefixes, FirstPlan, StrictContinuations, Vowel, Flatten, Before;
  }

  /** A space before the rest of an output. */
  lemma SpaceDerives(a: string, b: string)
    requires Derives(a, b, 0)
    ensures Derives(a, " " + b, 0)
  {
    assert (" " + b)[1..] == b;
  }

  lemma {:induction false} CutDerives(run: string, pieces: seq<string>)
    requires pieces != [] && Flatten(pieces) == Lower(run)
    ensures Derives(run, Cut(run, pieces), 0)
    decreases |pieces|
  {
    hide Flatten, Derives, Lower;
    FlattenFront(pieces);
    var n := |pieces[0]|;
    var head, tail := run[..n], run[n..];
    assert run == head + tail;
    DerivesSame(head);
    if |pieces| > 1 {
      assert Flatten(pieces[1..]) == Lower(run)[n..] == Lower(tail) by { LowerDrop(run, n); }
      CutDerives(tail, pieces[1..]);
      SpaceDerives(tail, Cut(tail, pieces[1..]));
      DerivesAppend(head, head, 0, tail, " " + Cut(tail, pieces[1..]), 0);
      assert head + " " + Cut(tail, pieces[1..]) == head + (" " + Cut(tail, pieces[1..]));
    } else {
      assert Flatten(pieces[1..]) == [] by { EmptyFlatten(); }
      assert head == run;
    }
  }

  lemma LowerDrop(s: string, k: nat)
    requires k <= |s|
    ensures Lower(s)[k..] == Lower(s[k..]) && Lower(s)[..k] == Lower(s[..k])
  {
  }

  /** An apostrophe before the rest of an output, put in or in place of an `i`. */
  lemma QuoteDerives(c: char, a: string)
    requires LowerChar(c) == 'i'
    ensures Derives(a, "'" + a, 0) && Derives([c] + a, "'" + a, 1)
  {
    assert ("'" + a)[1..] == a && ([c] + a)[1..] == a;
    DerivesSame(a);
  }

  lemma InsertDerives(run: string, k: nat)
    requires k <= |run|
    ensures Derives(run, run[..k] + "'" + run[k..], 0)
  {
    hide Derives;
    DerivesSame(run[..k]);
    QuoteDerives('i', run[k..]);
    DerivesAppend(run[..k], run[..k], 0, run[k..], "'" + run[k..], 0);
    assert run == run[..k] + run[k..] && run[..k] + "'" + run[k..] == run[..k] + ("'" + run[k..]);
  }

  lemma ReplaceDerives(run: string, k: nat)
    requires k < |run| && LowerChar(run[k]) == 'i'
    ensures Derives(run, run[..k] + "'" + run[k + 1..], 1)
  {
    hide Derives;
    var rest := run[k + 1..];
    DerivesSame(run[..k]);
    QuoteDerives(run[k], rest);
    DerivesAppend(run[..k], run[..k], 0, [run[k]] + rest, "'" + rest, 1);
    assert run == run[..k] + ([run[k]] + rest) && run[..k] + "'" + rest == run[..k] + ("'" + rest);
  }

  /** One run: as it was, one apostrophe put in, one `i` turned into one, or spaces put in. */
  lemma RunDerives(run: string, words: set<string>) returns (turned: nat)
    ensures turned <= 1 && Derives(run, FixedRun(run, words), turned)
    ensures turned == 1 ==> |FixedRun(run, words)| == |run|
  {
    hide PlanOf, Cut, Flatten, Derives;
    PlanOfFits(Lower(run), words);
    turned := 0;
    match PlanOf(Lower(run), words) {
      case Keep => DerivesSame(run);
      case Insert(k) => InsertDerives(run, k);
      case Replace(k) =>
        ReplaceDerives(run, k);
        turned := 1;
      case Space(pieces) => CutDerives(run, pieces);
    }
  }

  function CountRuns(text: string): nat
    decreases |text|
  {
    if text == "" then 0
    else if IsLetter(text[0]) then 1 + CountRuns(text[RunLength(text)..])
    else CountRuns(text[1..])
  }

  /**
   A whole line: every character is kept in order, except that spaces and apostrophes are put
   in and at most one `i` a run becomes an apostrophe; the line is never shorter.
   */
  lemma {:induction false} LineDerives(text: string, words: set<string>) returns (turned: nat)
    ensures turned <= CountRuns(text) && Derives(text, Normalized(text, words), turned)
    ensures |Normalized(text, words)| >= |text|
    decreases |text|
  {
    hide FixedRun, Derives;
    if text == "" {
      turned := 0;
      DerivesSame("");
    } else if IsLetter(text[0]) {
      var n := RunLength(text);
      var here := RunDerives(text[..n], words);
      var rest := LineDerives(text[n..], words);
      assert text == text[..n] + text[n..];
      DerivesAppend(text[..n], FixedRun(text[..n], words), here, text[n..], Normalized(text[n..], words), rest);
      turned := here + rest;
    } else {
      turned := LineDerives(text[1..], words);
      DerivesSame([text[0]]);
      assert text == [text[0]] + text[1..];
      DerivesAppend([text[0]], [text[0]], 0, text[1..], Normalized(text[1..], words), turned);
    }
    DerivesLength(text, Normalized(text, words), turned);
  }

  // ------------------------------------------------------------- what it leaves alone

  lemma {:induction false} RunLengthAppend(x: string, y: string)
    requires y == "" || !IsLetter(y[0]) || RunLength(x) < |x|
    ensures RunLength(x + y) == RunLength(x)
  {
    if x == "" {
      assert x + y == y;
    } else if IsLetter(x[0]) {
      assert (x + y)[1..] == x[1..] + y;
      RunLengthAppend(x[1..], y);
    }
  }

  /** Where two texts meet without joining two runs, each is normalized by itself. */
  lemma {:induction false} NormalizedSplit(x: string, y: string, words: set<string>)
    requires x == "" || y == "" || !IsLetter(x[|x| - 1]) || !IsLetter(y[0])
    ensures Normalized(x + y, words) == Normalized(x, words) + Normalized(y, words)
    decreases |x|
  {
    hide FixedRun, Normalized, IsLetter, RunLength;
    NormalizedStep(x, words);
    NormalizedStep(x + y, words);
    if x == "" {
      assert x + y == y;
    } else if y == "" {
      assert x + y == x;
      NormalizedStep(y, words);
    } else if IsLetter(x[0]) {
      var n := RunLength(x);
      assert n == |x| ==> x[..n] == x && IsLetter(x[|x| - 1]);
      RunLengthAppend(x, y);
      assert (x + y)[..n] == x[..n] && (x + y)[n..] == x[n..] + y;
      NormalizedSplit(x[n..], y, words);
    } else {
      assert (x + y)[1..] == x[1..] + y;
      NormalizedSplit(x[1..], y, words);
    }
  }

  /** A character that is no letter stays, and what is left and right of it does not interact. */
  lemma NonLetterKept(x: string, c: char, y: string, words: set<string>)
    requires !IsLetter(c)
    ensures Normalized(x + [c] + y, words) == Normalized(x, words) + [c] + Normalized(y, words)
  {
    hide FixedRun;
    NormalizedSplit(x + [c], y, words);
    NormalizedSplit(x, [c], words);
    assert [c][1..] == "";
  }

  /** Every maximal run of the text is a word. */
  predicate AllWords(text: string, words: set<string>)
    decreases |text|
  {
    if text == "" then true
    else if IsLetter(text[0]) then
      var n := RunLength(text);
      Lower(text[..n]) in words && AllWords(text[n..], words)
    else AllWords(text[1..], words)
  }

  /** Valid words are never touched. */
  lemma {:induction false} WordsUntouched(text: string, words: set<string>)
    requires AllWords(text, words)
    ensures Normalized(text, words) == text
    decreases |text|
  {
    hide Lower;
    if text != "" {
      if IsLetter(text[0]) {
        var n := RunLength(text);
        WordsUntouched(text[n..], words);
        assert text == text[..n] + text[n..];
      } else {
        WordsUntouched(text[1..], words);
      }
    }
  }

  // ------------------------------------------------------------------ idempotence

  lemma {:induction false} RunWhole(s: string)
    requires Letters(s)
    ensures RunLength(s) == |s|
  {
    if s != "" {
      RunWhole(s[1..]);
    }
  }

  lemma NormalizedRun(run: string, words: set<string>)
    requires Letters(run)
    ensures run != "" ==> Normalized(run, words) == FixedRun(run, words)
    ensures run == "" ==> Normalized(run, words) == ""
  {
    hide FixedRun;
    RunWhole(run);
    assert run[..|run|] == run && run[|run|..] == "";
  }

  lemma NormalizedWord(w: string, words: set<string>)
    requires Letters(w) && Lower(w) in words
    ensures Normalized(w, words) == w
  {
    NormalizedRun(w, words);
    hide Lower;
  }

  /** A prefix and a word that the prefix is put before with an apostrophe. */
  predicate Elides(p: string, w: string, words: set<string>) {
    VowelFirst(w) && w in words && Letters(w) && Lower(w) == w && (p + w !in words || p + "i" + w !in words)
  }

  ghost predicate Elided(p: string, words: set<string>) { exists w :: Elides(p, w, words) }

  predicate PrefixIn(low: string, words: set<string>, k: nat) {
    k <= |low| && (low[..k] in OpenPrefixes() || low[..k] in StrictPrefixes())
  }

  lemma PlanAtShape(low: string, p: string, words: set<string>, strict: bool)
    ensures var plan := PlanAt(low, p, words, strict);
      && (plan.Insert? ==> plan.at == |p| < |low| && low[..|p|] == p && VowelFirst(low[|p|..]) && low[|p|..] in words)
      && (plan.Replace? ==> plan.at == |p| < |low| && low[..|p|] == p && low[|p|] == 'i'
                            && VowelFirst(low[|p| + 1..]) && low[|p| + 1..] in words)
      && !plan.Space?
  {
    hide StrictContinuations, VowelFirst;
  }

  /** Where an apostrophe goes a prefix ends and a word begins. */
  lemma ElisionShape(low: string, words: set<string>)
    ensures var plan := PlanOf(low, words);
      && (plan.Insert? ==> 0 < plan.at < |low| && PrefixIn(low, words, plan.at) && low !in words
                           && VowelFirst(low[plan.at..]) && low[plan.at..] in words)
      && (plan.Replace? ==> 0 < plan.at < |low| && PrefixIn(low, words, plan.at) && low !in words && low[plan.at] == 'i'
                            && VowelFirst(low[plan.at + 1..]) && low[plan.at + 1..] in words)
  {
    FirstPlanFrom(low, OpenPrefixes(), words, false);
    FirstPlanFrom(low, StrictPrefixes(), words, true);
    PrefixesNonempty();
    hide OpenPrefixes, StrictPrefixes, FirstPlan, VowelFirst, PlanAt;
    forall p, strict ensures
      var plan := PlanAt(low, p, words, strict);
      && (plan.Insert? ==> plan.at == |p| < |low| && low[..|p|] == p && VowelFirst(low[|p|..]) && low[|p|..] in words)
      && (plan.Replace? ==> plan.at == |p| < |low| && low[..|p|] == p && low[|p|] == 'i'
                            && VowelFirst(low[|p| + 1..]) && low[|p| + 1..] in words)
      && !plan.Space?
    {
      PlanAtShape(low, p, words, strict);
    }
  }

  lemma {:induction false} AllKeep(low: string, prefixes: seq<string>, words: set<string>, strict: bool)
    requires forall p :: p in prefixes ==> PlanAt(low, p, words, strict).Keep?
    ensures FirstPlan(low, prefixes, words, strict).Keep?
    decreases |prefixes|
  {
    hide PlanAt;
    if prefixes != [] {
      AllKeep(low, prefixes[1..], words, strict);
    }
  }

  lemma ShortShape(p: string)
    requires p in OpenPrefixes() || p in StrictPrefixes()
    ensures p in LongPrefixes() || |p| == 1 || p == "qu"
  {
  }

  lemma PrefixShape(q: string)
    requires q in OpenPrefixes() || q in StrictPrefixes()
    ensures q != "" && (|q| == 1 ==> q[0] != 'q')
  {
  }

  lemma ShorterKeeps(p: string, q: string, words: set<string>, strict: bool)
    requires |p| == 1 || p == "qu"
    requires q != "" && (|q| == 1 ==> q[0] != 'q')
    ensures PlanAt(p, q, words, strict).Keep?
  {
    hide Continues;
    assert |q| < |p| ==> p[0] == 'q';
  }

  /** A short prefix by itself is left alone. */
  lemma ShortKeeps(p: string, words: set<string>)
    requires p in OpenPrefixes() || p in StrictPrefixes()
    ensures p in LongPrefixes() || PlanOf(p, words).Keep?
  {
    hide OpenPrefixes, StrictPrefixes, LongPrefixes, PlanAt, FirstPlan;
    ShortShape(p);
    if p !in LongPrefixes() {
      forall q, strict | q in OpenPrefixes() || q in StrictPrefixes() ensures PlanAt(p, q, words, strict).Keep? {
        PrefixShape(q);
        ShorterKeeps(p, q, words, strict);
      }
      AllKeep(p, OpenPrefixes(), words, false);
      AllKeep(p, StrictPrefixes(), words, true);
    }
  }

  lemma {:induction false} CutLength(run: string, pieces: seq<string>)
    requires pieces != [] && Flatten(pieces) == Lower(run)
    ensures |Cut(run, pieces)| == |run| + |pieces| - 1
    decreases |pieces|
  {
    FlattenFront(pieces);
    if |pieces| > 1 {
      assert Lower(run)[|pieces[0]|..] == Lower(run[|pieces[0]|..]);
      CutLength(run[|pieces[0]|..], pieces[1..]);
    }
  }

  /** Whatever a plan does shows. */
  lemma PlansShow(plan: Plan, run: string)
    requires PlanFits(plan, Lower(run)) && Letters(run)
    ensures Apply(plan, run) == run <==> plan.Keep?
  {
    hide Cut, Flatten;
    match plan
    case Space(pieces) => CutLength(run, pieces);
    case Replace(k) => assert Apply(plan, run)[k] == '\'' && IsLetter(run[k]);
    case Insert(k) => assert |Apply(plan, run)| == |run| + 1;
    case Keep =>
  }

  /** A long prefix that is never elided, or is itself left alone. */
  ghost predicate Settled(p: string, words: set<string>) { FixedRun(p, words) == p || !Elided(p, words) }

  ghost predicate AllSettled(words: set<string>) { forall p :: p in LongPrefixes() ==> Settled(p, words) }

  lemma LowerTwice(s: string)
    requires Letters(s)
    ensures Letters(Lower(s)) && Lower(Lower(s)) == Lower(s)
  {
    forall i | 0 <= i < |s| ensures IsLetter(LowerChar(s[i])) && LowerChar(LowerChar(s[i])) == LowerChar(s[i]) {
      LowerLetter(s[i]);
    }
  }

  lemma LowerLetter(c: char)
    requires IsLetter(c)
    ensures IsLetter(LowerChar(c)) && LowerChar(LowerChar(c)) == LowerChar(c)
  {
  }

  /** Before an apostrophe the prefix is left alone the second time. */
  lemma PrefixStays(low: string, k: nat, w: string, words: set<string>)
    requires AllSettled(words) && PrefixIn(low, words, k) && low !in words
    requires VowelFirst(w) && w in words && Letters(low) && Lower(low) == low && k < |low|
    requires w == low[k..] || (low[k] == 'i' && w == low[k + 1..])
    ensures PlanOf(low[..k], words).Keep?
  {
    hide PlanOf, VowelFirst, OpenPrefixes, StrictPrefixes, LongPrefixes;
    var p := low[..k];
    ShortKeeps(p, words);
    assert Lower(p) == p;
    assert Lower(w) == w;
    if p in LongPrefixes() {
      assert low == p + w || low == p + "i" + w;
      assert Elides(p, w, words);
      assert FixedRun(p, words) == p;
      PlanOfFits(p, words);
      PlansShow(PlanOf(p, words), p);
    }
  }

  lemma {:induction false} CutStays(run: string, pieces: seq<string>, words: set<string>)
    requires pieces != [] && Flatten(pieces) == Lower(run) && Letters(run)
    requires forall i :: 0 <= i < |pieces| ==> pieces[i] in words
    ensures Normalized(Cut(run, pieces), words) == Cut(run, pieces)
    decreases |pieces|
  {
    hide FixedRun, Normalized;
    FlattenFront(pieces);
    var n := |pieces[0]|;
    assert Lower(run[..n]) == Lower(run)[..n] == pieces[0];
    NormalizedWord(run[..n], words);
    if |pieces| > 1 {
      assert Lower(run)[n..] == Lower(run[n..]);
      CutStays(run[n..], pieces[1..], words);
      NonLetterKept(run[..n], ' ', Cut(run[n..], pieces[1..]), words);
      assert run[..n] + " " + Cut(run[n..], pieces[1..]) == run[..n] + [' '] + Cut(run[n..], pieces[1..]);
    }
  }

  /** Prefix, apostrophe and word: nothing changes the second time. */
  lemma ElisionStays(run: string, k: nat, rest: string, words: set<string>)
    requires k <= |run| && Letters(run) && Letters(rest) && Lower(rest) in words && PlanOf(Lower(run[..k]), words).Keep?
    ensures Normalized(run[..k] + "'" + rest, words) == run[..k] + "'" + rest
  {
    hide PlanOf, Normalized, Lower;
    NonLetterKept(run[..k], '\'', rest, words);
    NormalizedRun(run[..k], words);
    NormalizedWord(rest, words);
    assert run[..k] + "'" + rest == run[..k] + ['\''] + rest;
  }

  /** An apostrophe was put in, or took the place of an `i`, after the first k letters. */
  lemma ElidedStays(run: string, k: nat, skip: nat, words: set<string>)
    requires AllSettled(words) && Letters(run) && skip <= 1 && k + skip <= |run|
    requires PrefixIn(Lower(run), words, k) && Lower(run) !in words && k < |run|
    requires VowelFirst(Lower(run)[k + skip..]) && Lower(run)[k + skip..] in words
    requires skip == 1 ==> Lower(run)[k] == 'i'
    ensures Normalized(run[..k] + "'" + run[k + skip..], words) == run[..k] + "'" + run[k + skip..]
  {
    hide AllSettled, PrefixIn, VowelFirst, Lower, Normalized, PlanOf;
    LowerTwice(run);
    PrefixStays(Lower(run), k, Lower(run)[k + skip..], words);
    LowerDrop(run, k);
    LowerDrop(run, k + skip);
    ElisionStays(run, k, run[k + skip..], words);
  }

  lemma RunStays(run: string, words: set<string>)
    requires AllSettled(words) && Letters(run)
    ensures Normalized(FixedRun(run, words), words) == FixedRun(run, words)
  {
    hide PlanOf, Normalized, AllSettled, Cut, Flatten, PrefixIn, VowelFirst, Lower;
    PlanOfFits(Lower(run), words);
    ElisionShape(Lower(run), words);
    NormalizedRun(run, words);
    SplitWords(Lower(run), words);
    match PlanOf(Lower(run), words) {
      case Keep =>
      case Insert(k) => ElidedStays(run, k, 0, words);
      case Replace(k) => ElidedStays(run, k, 1, words);
      case Space(pieces) => CutStays(run, pieces, words);
    }
  }

  lemma SplitWords(low: string, words: set<string>)
    ensures PlanOf(low, words).Space? ==>
      forall i :: 0 <= i < |PlanOf(low, words).pieces| ==> PlanOf(low, words).pieces[i] in words
  {
    FirstPlanFrom(low, OpenPrefixes(), words, false);
    FirstPlanFrom(low, StrictPrefixes(), words, true);
    hide OpenPrefixes, StrictPrefixes, FirstPlan, StrictContinuations, Vowel, Before;
  }

  lemma {:induction false} LineStays(text: string, words: set<string>)
    requires AllSettled(words)
    ensures Normalized(Normalized(text, words), words) == Normalized(text, words)
    decreases |text|
  {
    hide FixedRun, AllSettled;
    if text == "" {
    } else if IsLetter(text[0]) {
      var n := RunLength(text);
      RunStays(text[..n], words);
      LineStays(text[n..], words);
      NormalizedSplit(FixedRun(text[..n], words), Normalized(text[n..], words), words);
    } else {
      LineStays(text[1..], words);
      assert ([text[0]] + Normalized(text[1..], words))[1..] == Normalized(text[1..], words);
    }
  }

  lemma {:induction false} FirstPlanAt(low: string, prefixes: seq<string>, j: nat, words: set<string>, strict: bool)
    requires j < |prefixes| && !PlanAt(low, prefixes[j], words, strict).Keep?
    requires forall i :: 0 <= i < j ==> PlanAt(low, prefixes[i], words, strict).Keep?
    ensures FirstPlan(low, prefixes, words, strict) == PlanAt(low, prefixes[j], words, strict)
    decreases j
  {
    hide PlanAt;
    if j > 0 {
      FirstPlanAt(low, prefixes[1..], j - 1, words, strict);
    }
  }

  lemma LongDiffer(i: nat, j: nat)
    requires i < j < 4
    ensures LongPrefixes()[i] != "" && LongPrefixes()[j] != "" && LongPrefixes()[i][0] != LongPrefixes()[j][0]
  {
  }

  /** A run that begins with a long prefix is elided there if it can be. */
  lemma LongFirst(p: string, low: string, words: set<string>)
    requires p in LongPrefixes() && p <= low && low !in words && !PlanAt(low, p, words, false).Keep?
    ensures PlanOf(low, words) == PlanAt(low, p, words, false)
  {
    hide PlanAt, StrictPrefixes, FirstPlan;
    var j :| 0 <= j < 4 && LongPrefixes()[j] == p;
    forall i | 0 <= i < j ensures PlanAt(low, OpenPrefixes()[i], words, false).Keep? {
      LongDiffer(i, j);
      OtherPrefix(LongPrefixes()[i], p, low, words);
    }
    FirstPlanAt(low, OpenPrefixes(), j, words, false);
  }

  lemma OtherPrefix(q: string, p: string, low: string, words: set<string>)
    requires q != "" && p != "" && q[0] != p[0] && p <= low
    ensures PlanAt(low, q, words, false).Keep?
  {
    assert low[0] == p[0];
  }

  /** The run that shows a prefix elided. */
  lemma ElidedText(p: string, w: string, words: set<string>) returns (run: string)
    requires |p| >= 5 && Letters(p) && Lower(p) == p && Elides(p, w, words)
    ensures Letters(run) && Lower(run) == run && p <= run && run !in words && |run| > |p|
    ensures !PlanAt(run, p, words, false).Keep?
  {
    if p + w !in words {
      run := p + w;
      assert run[|p|..] == w;
    } else {
      run := p + "i" + w;
      assert run[|p| + 1..] == w;
    }
    assert Lower(run) == run;
  }

  /** And the word that follows the prefix in it. */
  lemma ElidedRun(p: string, w: string, words: set<string>) returns (run: string, rest: string)
    requires p in LongPrefixes() && Elides(p, w, words)
    ensures Letters(run) && Letters(rest) && rest in words && Lower(rest) == rest
    ensures FixedRun(run, words) == p + "'" + rest
  {
    LongLetters(p);
    hide LongPrefixes, Lower, PlanOf, Elides, PlanAt;
    run := ElidedText(p, w, words);
    LongFirst(p, run, words);
    PlanAtShape(run, p, words, false);
    rest := if PlanAt(run, p, words, false).Insert? then run[|p|..] else run[|p| + 1..];
    LowerTail(run, |run| - |rest|);
  }

  lemma LowerTail(s: string, k: nat)
    requires Lower(s) == s && k <= |s|
    ensures Lower(s[k..]) == s[k..]
  {
    forall i | 0 <= i < |s| - k ensures Lower(s[k..])[i] == s[k..][i] {
      assert Lower(s)[k + i] == s[k + i];
    }
  }

  /** A long prefix that is elided but not left alone is changed the second time round. */
  lemma Unsettled(p: string, w: string, words: set<string>) returns (text: string)
    requires p in LongPrefixes() && FixedRun(p, words) != p && Elides(p, w, words)
    ensures Normalized(Normalized(text, words), words) != Normalized(text, words)
  {
    hide FixedRun, Normalized, Elides, Lower;
    var rest;
    text, rest := ElidedRun(p, w, words);
    LongLetters(p);
    hide LongPrefixes;
    NormalizedRun(text, words);
    assert text != "" by { EmptyRun(words); }
    NormalizedRun(p, words);
    NormalizedWord(rest, words);
    NonLetterKept(p, '\'', rest, words);
    SameTail(FixedRun(p, words), p, "'" + rest);
    assert FixedRun(p, words) + ['\''] + rest == FixedRun(p, words) + ("'" + rest);
    assert p + ['\''] + rest == p + ("'" + rest) == p + "'" + rest;
  }

  lemma EmptyRun(words: set<string>)
    ensures FixedRun("", words) == ""
  {
    PlanOfFits("", words);
    assert Lower("") == "";
  }

  lemma LongLetters(p: string)
    requires p in LongPrefixes()
    ensures |p| >= 5 && Letters(p) && Lower(p) == p
  {
    var j :| 0 <= j < 4 && LongPrefixes()[j] == p;
    LongLettersAt(j);
  }

  lemma LongLettersAt(j: nat)
    requires j < 4
    ensures |LongPrefixes()[j]| >= 5 && Letters(LongPrefixes()[j]) && Lower(LongPrefixes()[j]) == LongPrefixes()[j]
  {
    assert Letters(LongPrefixes()[j]);
  }

  lemma SameTail(a: string, b: string, tail: string)
    requires a != b
    ensures a + tail != b + tail
  {
    if |a| == |b| {
      assert (a + tail)[..|a|] == a && (b + tail)[..|a|] == b;
    } else {
      assert |a + tail| != |b + tail|;
    }
  }

  /**
   For every lexicon: normalizing twice is normalizing once, on all texts, exactly when each long
   prefix is either left alone itself or never put before a word.
   */
  lemma IdempotentIff(words: set<string>)
    ensures (forall text :: Normalized(Normalized(text, words), words) == Normalized(text, words)) <==>
        AllSettled(words)
  {
    hide Normalized, FixedRun, Elides;
    if AllSettled(words) {
      forall text ensures Normalized(Normalized(text, words), words) == Normalized(text, words) {
        LineStays(text, words);
      }
    } else {
      var p :| p in LongPrefixes() && !Settled(p, words);
      var w :| Elides(p, w, words);
      var text := Unsettled(p, w, words);
    }
  }

  // ------------------------------------------------- a lexicon that is not settled

  const JUSQU_WORDS: set<string> := {"jus", "qu", "il"}

  lemma WordByInitial(w: string)
    requires w in JUSQU_WORDS
    ensures w == if w[0] == 'j' then "jus" else if w[0] == 'q' then "qu" else "il"
  {
  }

  /** The only way to cut the prefix into these words. */
  lemma OnlyCut(q: seq<string>)
    requires Candidate("jusqu", q, JUSQU_WORDS, 3)
    ensures q == ["jus", "qu"]
  {
    hide Candidate, Flatten, JUSQU_WORDS;
    var low := "jusqu";
    assert |Flatten<char>([])| == 0 by { EmptyFlatten(); }
    NextPiece(low, q, [], JUSQU_WORDS, 3);
    WordByInitial(q[0]);
    assert low[0..|q[0]|][0] == 'j';
    assert [] + [low[0..3]] == ["jus"];
    FlattenOne("jus");
    NextPiece(low, q, ["jus"], JUSQU_WORDS, 3);
    WordByInitial(q[1]);
    assert low[3..3 + |q[1]|][0] == 'q';
    assert ["jus"] + [low[3..5]] == ["jus", "qu"];
    CutFlattens();
    NothingAfter(low, q, ["jus", "qu"], JUSQU_WORDS, 3);
  }

  lemma FlattenOne(s: string)
    ensures Flatten([s]) == s
  {
    assert Flatten<char>([]) == "" by { EmptyFlatten(); }
    FlattenSnoc([], s);
    assert [] + [s] == [s];
  }

  lemma CutFlattens()
    ensures Flatten(["jus", "qu"]) == "jusqu"
  {
    hide Flatten;
    FlattenOne("jus");
    FlattenSnoc(["jus"], "qu");
    assert ["jus"] + ["qu"] == ["jus", "qu"];
  }

  lemma JusquIsCut()
    ensures SegmentOf("jusqu", JUSQU_WORDS, 3) == Some(["jus", "qu"])
  {
    hide Candidate, Before, SegmentOf;
    var r := ["jus", "qu"];
    assert Candidate("jusqu", r, JUSQU_WORDS, 3) by { CutIsCandidate(); }
    forall q | Candidate("jusqu", q, JUSQU_WORDS, 3) ensures q == r {
      OnlyCut(q);
    }
    BestFound("jusqu", r, JUSQU_WORDS, 3);
  }

  lemma CutIsCandidate()
    ensures Candidate("jusqu", ["jus", "qu"], JUSQU_WORDS, 3)
  {
    hide Flatten;
    CutFlattens();
  }

  lemma BestFound(low: string, r: seq<string>, words: set<string>, most: nat)
    requires Best(low, r, words, most)
    ensures SegmentOf(low, words, most) == Some(r)
  {
    hide Best;
    var s := SegmentOf(low, words, most);
    BestUnique(low, r, s.value, words, most);
  }

  lemma JusquKeeps(p: string, strict: bool)
    requires p in OpenPrefixes() || p in StrictPrefixes()
    ensures PlanAt("jusqu", p, JUSQU_WORDS, strict).Keep?
  {
    ShortShape(p);
    PrefixShape(p);
    hide OpenPrefixes, StrictPrefixes, StrictContinuations;
    if p in LongPrefixes() {
      LongLetters(p);
    } else if p[0] == 'j' {
      assert |p| == 1 && "jusqu"[1..] == "usqu";
    }
  }

  lemma JusquPlan()
    ensures PlanOf("jusqu", JUSQU_WORDS) == Space(["jus", "qu"])
  {
    hide OpenPrefixes, StrictPrefixes, PlanAt, FirstPlan, SegmentOf;
    forall p, strict | p in OpenPrefixes() || p in StrictPrefixes()
      ensures PlanAt("jusqu", p, JUSQU_WORDS, strict).Keep?
    {
      JusquKeeps(p, strict);
    }
    AllKeep("jusqu", OpenPrefixes(), JUSQU_WORDS, false);
    AllKeep("jusqu", StrictPrefixes(), JUSQU_WORDS, true);
    JusquIsCut();
  }

  lemma JusquilPlan()
    ensures PlanOf("jusquil", JUSQU_WORDS) == Insert(5)
  {
    hide SegmentOf, StrictContinuations, StrictPrefixes;
    var low := "jusquil";
    assert low[5..] == "il" && low[..5] == "jusqu";
    assert PlanAt(low, "jusqu", JUSQU_WORDS, false) == Insert(5);
    assert OpenPrefixes()[0] == "jusqu";
  }

  lemma JusquFixed()
    ensures FixedRun("jusqu", JUSQU_WORDS) == "jus qu" && Letters("jusqu")
  {
    hide PlanOf;
    JusquPlan();
    var run := "jusqu";
    assert Lower(run) == run;
    assert run[..3] == "jus" && run[3..] == "qu" && run[3..][..2] == "qu";
    assert ["jus", "qu"][1..] == ["qu"];
  }

  lemma JusquilFixed()
    ensures FixedRun("jusquil", JUSQU_WORDS) == "jusqu'il" && Letters("jusquil")
  {
    hide PlanOf;
    JusquilPlan();
    var run := "jusquil";
    assert Lower(run) == run;
    assert run[..5] == "jusqu" && run[5..] == "il";
  }

  /** A lexicon and a text on which normalizing twice is not normalizing once. */
  lemma JusquilChangesTwice()
    ensures Normalized("jusquil", JUSQU_WORDS) == "jusqu'il"
    ensures Normalized("jusqu'il", JUSQU_WORDS) == "jus qu'il"
    ensures !AllSettled(JUSQU_WORDS)
  {
    JusquilFixed();
    JusquFixed();
    hide FixedRun, Normalized;
    NormalizedRun("jusquil", JUSQU_WORDS);
    NormalizedRun("jusqu", JUSQU_WORDS);
    IlIsWord();
    NormalizedWord("il", JUSQU_WORDS);
    NonLetterKept("jusqu", '\'', "il", JUSQU_WORDS);
    assert "jusqu" + ['\''] + "il" == "jusqu'il" && "jus qu" + ['\''] + "il" == "jus qu'il";
    if AllSettled(JUSQU_WORDS) {
      LineStays("jusquil", JUSQU_WORDS);
    }
  }

  lemma IlIsWord()
    ensures Letters("il") && Lower("il") == "il"
  {
  }

  // ------------------------------------------------------------ when a run is elided

  /** None of the open prefixes does anything to a run that begins with another letter. */
  lemma OpenKeeps(low: string, words: set<string>)
    requires low != "" && low[0] !in "jlpqd"
    ensures FirstPlan(low, OpenPrefixes(), words, false).Keep?
  {
    forall p | p in OpenPrefixes() ensures PlanAt(low, p, words, false).Keep? {
      OpenInitial(p);
      hide StrictContinuations, OpenPrefixes;
    }
    hide PlanAt;
    AllKeep(low, OpenPrefixes(), words, false);
  }

  lemma OpenInitial(p: string)
    requires p in OpenPrefixes()
    ensures p != "" && p[0] in "jlpqd"
  {
  }

  /** Words that the short prefixes of a run may stand before. */
  lemma StrictElision(p: char, w: string, words: set<string>)
    requires p in "ncsmt" && w in StrictContinuations() && w in words && VowelFirst(w) && [p] + w !in words
    ensures PlanOf([p] + w, words) == Insert(1)
  {
    assert w != "";
    hide StrictContinuations, SegmentOf, VowelFirst;
    var low := [p] + w;
    OpenKeeps(low, words);
    assert low[1..] == w && low[0] == p;
    StrictPlan(low, p, words);
  }

  lemma StrictPlan(low: string, p: char, words: set<string>)
    requires p in "ncsmt" && |low| > 1 && low[0] == p && VowelFirst(low[1..]) && low[1..] in words
    requires low[1..] in StrictContinuations()
    ensures FirstPlan(low, StrictPrefixes(), words, true) == Insert(1)
  {
    hide StrictContinuations, VowelFirst, FirstPlan;
    var prefixes := StrictPrefixes();
    var j := if p == 'n' then 0 else if p == 'c' then 1 else if p == 's' then 2 else if p == 'm' then 3 else 4;
    assert prefixes[j] == [p] && low[..1] == [p];
    forall i | 0 <= i < j ensures PlanAt(low, prefixes[i], words, true).Keep? {
      assert |prefixes[i]| == 1 && prefixes[i][0] != p;
    }
    assert PlanAt(low, [p], words, true) == Insert(1);
    FirstPlanAt(low, prefixes, j, words, true);
  }

  /** The run `cest` becomes `c'est` when `est` is a word and `cest` is not. */
  lemma CestIsElided(words: set<string>)
    requires "est" in words && "cest" !in words
    ensures Normalized("cest", words) == "c'est"
  {
    CestLetters();
    EstContinues();
    hide PlanOf, Normalized, StrictContinuations, VowelFirst, Letters, Lower;
    assert ['c'] + "est" == "cest";
    StrictElision('c', "est", words);
    var run := "cest";
    NormalizedRun(run, words);
    assert run[..1] == "c" && run[1..] == "est";
  }

  lemma CestLetters()
    ensures Lower("cest") == "cest" && Letters("cest")
  {
  }

  lemma EstContinues()
    ensures "est" in StrictContinuations() && VowelFirst("est")
  {
  }

  /** A long prefix elides before any word with a vowel first. */
  lemma LongElision(p: string, w: string, words: set<string>)
    requires p in LongPrefixes() && VowelFirst(w) && w in words && p + w !in words
    ensures PlanOf(p + w, words) == Insert(|p|)
  {
    LongLetters(p);
    hide LongPrefixes, VowelFirst, PlanOf;
    var low := p + w;
    assert low[|p|..] == w && p <= low;
    LongFirst(p, low, words);
  }

  /** So do `qu`, `j`, `d` and `l`, where they do not begin a long prefix. */
  lemma OpenElision(p: string, w: string, words: set<string>)
    requires p in ["qu", "j", "d", "l"] && VowelFirst(w) && w in words && p + w !in words
    requires forall q :: q in LongPrefixes() ==> !(q <= p + w)
    ensures PlanOf(p + w, words) == Insert(|p|)
  {
    assert w != "";
    hide StrictContinuations, SegmentOf, VowelFirst;
    var low := p + w;
    assert low[|p|..] == w && p <= low;
    assert PlanAt(low, p, words, false) == Insert(|p|);
    var j := if p == "qu" then 4 else if p == "j" then 5 else if p == "d" then 6 else 7;
    OpenAt(j, p);
    forall i | 0 <= i < j ensures PlanAt(low, OpenPrefixes()[i], words, false).Keep? {
      OpenEarlier(i, p);
      if i >= 4 {
        OtherPrefix(OpenPrefixes()[i], p, low, words);
      }
    }
    hide PlanAt, OpenPrefixes;
    FirstPlanAt(low, OpenPrefixes(), j, words, false);
  }

  lemma OpenAt(j: nat, p: string)
    requires p in ["qu", "j", "d", "l"]
    requires j == if p == "qu" then 4 else if p == "j" then 5 else if p == "d" then 6 else 7
    ensures j < |OpenPrefixes()| && OpenPrefixes()[j] == p && p != ""
  {
  }

  lemma OpenEarlier(i: nat, p: string)
    requires p in ["qu", "j", "d", "l"]
    requires i < if p == "qu" then 4 else if p == "j" then 5 else if p == "d" then 6 else 7
    ensures i < 4 ==> OpenPrefixes()[i] in LongPrefixes()
    ensures i >= 4 ==> OpenPrefixes()[i] != "" && OpenPrefixes()[i][0] != p[0]
  {
  }
}
