/**
 The editor's own SRT and WebVTT (`toSRT` and `toVTT` in web/src/editor/subtitles.ts:200-226), which do
 not clean the text, read back by its parser: what comes back for any texts, and when it is what was written.
 */
module EditorSrt {
  import opened Editor
  import opened Srt
  import opened Text
  import opened Wrappers

  /** `s.replace(",", ".")`: the first one. */
  function ReplaceFirst(s: string): string {
    var i := IndexOf(s, ',');
    if i == |s| then s else s[..i] + "." + s[i + 1..]
  }

  function EditorTime(t: int, vtt: bool): string { if vtt then ReplaceFirst(SrtTime(t)) else SrtTime(t) }

  /** One template: number, times and text, each ended by a line break. */
  function Template(c: Cue, i: nat, vtt: bool): string {
    Decimal(i) + "\n" + EditorTime(c.start, vtt) + " --> " + EditorTime(c.end, vtt) + "\n" + c.text + "\n"
  }

  function Templates(cues: seq<Cue>, i: nat, vtt: bool): seq<string> {
    if cues == [] then [] else [Template(cues[0], i, vtt)] + Templates(cues[1..], i + 1, vtt)
  }

  function ToSRT(cues: seq<Cue>): string { Join(Templates(SortByStart(cues), 1, false), "\n") + "\n" }

  function ToVTT(cues: seq<Cue>): string { "WEBVTT\n\n" + Join(Templates(SortByStart(cues), 1, true), "\n") }

  /** A stamp has one comma, so replacing the first is replacing all. */
  lemma OneComma(h: string, m: string, s: string, f: string)
    requires Digits(h) && Digits(m) && Digits(s) && Digits(f)
    ensures ReplaceFirst(StampText(h, m, s, ',', f)) == StampText(h, m, s, '.', f)
  {
    var front := h + [':'] + m + [':'] + s;
    var t := StampText(h, m, s, ',', f);
    assert t == front + [','] + f;
    assert ',' !in front && ',' !in f;
    IndexOfFirst(front, ',', f);
    assert t[..|front|] == front && t[|front| + 1..] == f;
    assert StampText(h, m, s, '.', f) == front + "." + f;
  }

  lemma EditorTimeIsWorkers(t: int, vtt: bool)
    ensures EditorTime(t, vtt) == TimeOf(t, vtt)
  {
    hide StampText, ReplaceFirst, ReplaceAll, Pad, WorkerTime;
    WorkerTimeIsSrtTime(t);
    var ms := Max0(t);
    var h, m, s, f := Pad(ms / 3_600_000, 2), Pad(ms % 3_600_000 / 60_000, 2), Pad(ms % 60_000 / 1000, 2),
      Pad(ms % 1000, 3);
    PadDigits(ms / 3_600_000, 2);
    PadDigits(ms % 3_600_000 / 60_000, 2);
    PadDigits(ms % 60_000 / 1000, 2);
    PadDigits(ms % 1000, 3);
    OneComma(h, m, s, f);
    ReplaceInStamp(h, m, s, f);
  }

  lemma PadDigits(n: nat, len: nat)
    ensures Digits(Pad(n, len))
  {
    ToNatPad(n, len);
  }

  /** The block of a cue as it stands in the file. */
  function EditorBlock(c: Cue, i: nat, vtt: bool): string { Head(c, i, vtt) + ['\n'] + c.text }

  function EditorBlocks(cues: seq<Cue>, i: nat, vtt: bool): seq<string> {
    if cues == [] then [] else [EditorBlock(cues[0], i, vtt)] + EditorBlocks(cues[1..], i + 1, vtt)
  }

  lemma TemplateIsBlock(c: Cue, i: nat, vtt: bool)
    ensures Template(c, i, vtt) == EditorBlock(c, i, vtt) + "\n"
  {
    hide TimeOf, EditorTime, Decimal;
    EditorTimeIsWorkers(c.start, vtt);
    EditorTimeIsWorkers(c.end, vtt);
  }

  lemma {:induction false} TemplatesAreBlocks(cues: seq<Cue>, i: nat, vtt: bool)
    requires cues != []
    ensures Join(Templates(cues, i, vtt), "\n") == Join(EditorBlocks(cues, i, vtt), "\n\n") + "\n"
    decreases |cues|
  {
    hide Template, EditorBlock;
    TemplateIsBlock(cues[0], i, vtt);
    if |cues| > 1 {
      TemplatesAreBlocks(cues[1..], i + 1, vtt);
      assert Templates(cues, i, vtt)[1..] == Templates(cues[1..], i + 1, vtt);
      assert EditorBlocks(cues, i, vtt)[1..] == EditorBlocks(cues[1..], i + 1, vtt);
    }
  }

  // ---------------------------------------------------- white space behind a block

  lemma {:induction false} TrimBehind(s: string, w: string)
    requires forall c :: c in w ==> JsSpace(c)
    ensures JsTrim(s + w) == JsTrim(s)
  {
    if s == "" {
      assert s + w == w;
      TrimLeftAll(w);
    } else if JsSpace(s[0]) {
      assert (s + w)[1..] == s[1..] + w;
      TrimBehind(s[1..], w);
    } else {
      TrimRightPad(s, w, JsSpace);
    }
  }

  lemma {:induction false} TrimLeftAll(w: string)
    requires forall c :: c in w ==> JsSpace(c)
    ensures TrimLeft(w, JsSpace) == ""
  {
    if w != "" {
      TrimLeftAll(w[1..]);
    }
  }

  predicate AllSpaces(s: string) { forall c :: c in s ==> JsSpace(c) }

  /** One character more on the last piece. */
  function ToLast(pieces: seq<string>, x: char): (r: seq<string>)
    requires pieces != []
    ensures |r| == |pieces|
  {
    pieces[..|pieces| - 1] + [pieces[|pieces| - 1] + [x]]
  }

  lemma ToLastInFront(first: string, pieces: seq<string>, x: char)
    requires pieces != []
    ensures [first] + ToLast(pieces, x) == ToLast([first] + pieces, x)
    ensures var r := ToLast(pieces, x); [first + r[0]] + r[1..] == ToLast([first + pieces[0]] + pieces[1..], x)
  {
    if |pieces| == 1 {
      assert first + (pieces[0] + [x]) == first + pieces[0] + [x];
    }
  }

  lemma ToOnlyLast(x: char)
    ensures ToLast([""], x) == [[x] + ""] == [[x]]
  {
    assert [x] + "" == [x] == "" + [x];
  }

  lemma {:induction false} SplitSnoc(s: string, x: char, sep: char)
    ensures Split(s + [x], sep) == if x == sep then Split(s, sep) + [""] else ToLast(Split(s, sep), x)
  {
    hide ToLast;
    ToOnlyLast(x);
    if s == "" {
      assert s + [x] == [x] && [x][1..] == "";
    } else {
      assert (s + [x])[1..] == s[1..] + [x];
      SplitSnoc(s[1..], x, sep);
      ToLastInFront(if s[0] == sep then "" else [s[0]], Split(s[1..], sep), x);
    }
  }

  lemma {:induction false} ArrowsSnoc(s: string, x: char)
    requires JsSpace(x)
    ensures SplitArrows(s + [x]) == ToLast(SplitArrows(s), x)
    decreases |s|
  {
    FitsInFront(s, [x], "-->");
    hide ToLast, JsSpace;
    var t := s + [x];
    ToOnlyLast(x);
    if s == "" {
      assert t == [x] && t[1..] == "";
    } else if "-->" <= s {
      assert t[3..] == s[3..] + [x];
      ArrowsSnoc(s[3..], x);
      ToLastInFront("", SplitArrows(s[3..]), x);
    } else {
      assert t[1..] == s[1..] + [x];
      ArrowsSnoc(s[1..], x);
      ToLastInFront([s[0]], SplitArrows(s[1..]), x);
    }
  }

  lemma StampSnoc(s: string, x: char)
    requires JsSpace(x)
    ensures ParseSrtStamp(s + [x]) == ParseSrtStamp(s)
  {
    TrimBehind(s, [x]);
    hide FindStamp, JsTrim;
  }

  /** The first arrow is found in the same line, whether the last line is one or another. */
  lemma {:induction false} FirstArrowSame(front: seq<string>, x: string, y: string)
    requires HasArrow(x) <==> HasArrow(y)
    ensures FirstArrow(front + [x]) == FirstArrow(front + [y])
  {
    hide HasArrow;
    if front != [] {
      assert (front + [x])[1..] == front[1..] + [x] && (front + [y])[1..] == front[1..] + [y];
      FirstArrowSame(front[1..], x, y);
    }
  }

  lemma NothingHasNoArrow()
    ensures !HasArrow("")
  {
  }

  lemma {:induction false} FirstArrowEmptyLine(lines: seq<string>)
    ensures FirstArrow(lines + [""]) == if FirstArrow(lines) == |lines| then |lines| + 1 else FirstArrow(lines)
  {
    hide HasArrow;
    NothingHasNoArrow();
    if lines == [] {
      assert [""][1..] == [];
    } else {
      assert (lines + [""])[1..] == lines[1..] + [""];
      FirstArrowEmptyLine(lines[1..]);
    }
  }

  lemma {:induction false} JoinSnoc(lines: seq<string>, last: string, w: string, sep: string)
    ensures Join(lines + [last + w], sep) == Join(lines + [last], sep) + w
  {
    if lines == [] {
      assert lines + [last + w] == [last + w] && lines + [last] == [last];
    } else {
      assert (lines + [last + w])[1..] == lines[1..] + [last + w];
      assert (lines + [last])[1..] == lines[1..] + [last];
      JoinSnoc(lines[1..], last, w, sep);
    }
  }

  /** What a block reads as once its lines are known. */
  function OfLines(lines: seq<string>): Option<Cue> {
    var tc := FirstArrow(lines);
    if tc == |lines| then None
    else
      var pieces := SplitArrows(lines[tc]);
      Some(Cue(ParseSrtStamp(pieces[0]), ParseSrtStamp(pieces[1]), JsTrim(Join(lines[tc + 1..], "\n")), 2, None))
  }

  lemma BlockOfLines(s: string)
    ensures ParseBlock(s) == OfLines(Split(s, '\n'))
  {
    hide FirstArrow, SplitArrows, ParseSrtStamp, JsTrim, Join, Split;
  }

  lemma EmptyLineBehind(lines: seq<string>)
    ensures OfLines(lines + [""]) == OfLines(lines)
  {
    hide SplitArrows, ParseSrtStamp, JsTrim, Join, FirstArrow;
    FirstArrowEmptyLine(lines);
    var tc := FirstArrow(lines);
    if tc < |lines| {
      var text := lines[tc + 1..];
      assert (lines + [""])[tc] == lines[tc] && (lines + [""])[tc + 1..] == text + [""];
      EmptyLineTrimmed(text);
    }
  }

  lemma EmptyLineTrimmed(lines: seq<string>)
    ensures JsTrim(Join(lines + [""], "\n")) == JsTrim(Join(lines, "\n"))
  {
    hide JsTrim, Join;
    if lines == [] {
      assert lines + [""] == [""];
      JoinShort("");
    } else {
      JoinAppend(lines, [""], "\n");
      JoinShort("");
      assert Join(lines, "\n") + "\n" + "" == Join(lines, "\n") + "\n";
      TrimBehind(Join(lines, "\n"), "\n");
    }
  }

  lemma JoinShort(s: string)
    ensures Join([], "\n") == "" && Join([s], "\n") == s
  {
  }

  lemma SpaceBehindLastLine(front: seq<string>, last: string, x: char)
    requires JsSpace(x)
    ensures OfLines(front + [last + [x]]) == OfLines(front + [last])
  {
    hide SplitArrows, ParseSrtStamp, JsTrim, Join, FirstArrow, JsSpace;
    ArrowsSnoc(last, x);
    FirstArrowSame(front, last + [x], last);
    var a, b := front + [last + [x]], front + [last];
    var tc := FirstArrow(b);
    if tc < |front| {
      assert a[tc] == b[tc] == front[tc];
      assert a[tc + 1..] == front[tc + 1..] + [last + [x]] && b[tc + 1..] == front[tc + 1..] + [last];
      JoinSnoc(front[tc + 1..], last, [x], "\n");
      TrimBehind(Join(b[tc + 1..], "\n"), [x]);
    } else if tc == |front| {
      assert a[tc + 1..] == [] == b[tc + 1..] && a[tc] == last + [x] && b[tc] == last;
      var p, q := SplitArrows(last + [x]), SplitArrows(last);
      assert p[0] == q[0];
      if |q| == 2 {
        StampSnoc(q[1], x);
      }
    }
  }

  /** White space behind a block does not change what it reads as. */
  lemma BlockSnoc(s: string, x: char)
    requires JsSpace(x)
    ensures ParseBlock(s + [x]) == ParseBlock(s)
  {
    hide OfLines, ParseBlock, Split, JsSpace;
    var lines := Split(s, '\n');
    BlockOfLines(s);
    BlockOfLines(s + [x]);
    SplitSnoc(s, x, '\n');
    if x == '\n' {
      EmptyLineBehind(lines);
    } else {
      var n := |lines| - 1;
      SpaceBehindLastLine(lines[..n], lines[n], x);
      assert lines == lines[..n] + [lines[n]];
    }
  }

  // ------------------------------------------------------------ meaning of a file

  /** The cues of a file without carriage returns. */
  function CuesIn(s: string): seq<Cue> { ParseBlocks(SplitBlocks(s)) }

  /** Where the first empty line begins; the length when there is none. */
  function FirstBreak(s: string): (j: nat)
    ensures j <= |s| && (j < |s| ==> j + 1 < |s| && s[j] == '\n' && s[j + 1] == '\n')
    ensures forall i :: 0 <= i < j && i + 1 < |s| ==> !(s[i] == '\n' && s[i + 1] == '\n')
  {
    if |s| < 2 then |s|
    else if s[0] == '\n' && s[1] == '\n' then 0
    else
      assert forall i {:trigger s[i]} :: 1 <= i < |s| ==> s[i] == s[1..][i - 1];
      1 + FirstBreak(s[1..])
  }

  lemma {:induction false} SplitAtFirst(s: string)
    ensures var j := FirstBreak(s);
      SplitBlocks(s) == [s[..j]] + SplitBlocks(s[j..])[1..] && SplitBlocks(s[j..])[0] == ""
    decreases |s|
  {
    if |s| < 2 {
      assert s[..|s|] == s && s[|s|..] == "";
    } else if !(s[0] == '\n' && s[1] == '\n') {
      var j := FirstBreak(s[1..]);
      SplitAtFirst(s[1..]);
      assert s[1..][j..] == s[j + 1..] && s[..j + 1] == [s[0]] + s[1..][..j];
    } else {
      assert s[0..] == s;
    }
  }

  lemma EmptyBlock()
    ensures ParseBlock("") == None
  {
    NoArrowBlock("");
  }

  lemma ParseFirst(first: string, rest: seq<string>)
    ensures ParseBlocks([first] + rest) == ParseBlocks([first]) + ParseBlocks(rest)
  {
    hide ParseBlock;
    ParseBlocksAppend([first], rest);
  }

  /** The first block, then the rest of the file. */
  lemma CuesAtFirst(s: string)
    ensures var j := FirstBreak(s); CuesIn(s) == ParseBlocks([s[..j]]) + CuesIn(s[j..])
  {
    hide ParseBlock, SplitBlocks, ParseBlocks;
    var j := FirstBreak(s);
    var rest := SplitBlocks(s[j..]);
    SplitAtFirst(s);
    ParseFirst(s[..j], rest[1..]);
    ParseFirst("", rest[1..]);
    assert rest == [""] + rest[1..];
    EmptyBlock();
    OneBlock("");
  }

  lemma CuesAfterBreaks(s: string)
    requires |s| >= 2 && s[0] == '\n' && s[1] == '\n'
    ensures CuesIn(s) == CuesIn(DropBreaks(s))
  {
    hide ParseBlock, ParseBlocks, DropBreaks;
    ParseFirst("", SplitBlocks(DropBreaks(s)));
    EmptyBlock();
    OneBlock("");
  }

  lemma NoCuesIn()
    ensures CuesIn("") == []
  {
    EmptyBlock();
    OneBlock("");
  }

  lemma {:induction false} BreaksSnoc(s: string, x: char)
    ensures DropBreaks(s + [x]) == if DropBreaks(s) != "" then DropBreaks(s) + [x] else if x == '\n' then "" else [x]
  {
    if s == "" {
      assert s + [x] == [x] && [x][1..] == "";
    } else if s[0] == '\n' {
      assert (s + [x])[1..] == s[1..] + [x];
      BreaksSnoc(s[1..], x);
    }
  }

  lemma {:induction false} BreakSnoc(s: string, x: char)
    ensures FirstBreak(s) < |s| ==> FirstBreak(s + [x]) == FirstBreak(s)
    ensures FirstBreak(s) == |s| ==>
      FirstBreak(s + [x]) == if s != "" && s[|s| - 1] == '\n' == x then |s| - 1 else |s| + 1
  {
    var t := s + [x];
    if |s| == 0 {
      assert t == [x];
    } else if |s| == 1 {
      assert t[1..] == [x];
    } else {
      assert t[1..] == s[1..] + [x];
      BreakSnoc(s[1..], x);
    }
  }

  /** White space at the end of a file does not change what it reads as. */
  lemma {:induction false} CuesSnoc(s: string, x: char)
    requires JsSpace(x)
    ensures CuesIn(s + [x]) == CuesIn(s)
    decreases |s|
  {
    hide ParseBlock, ParseBlocks, CuesIn, JsSpace, DropBreaks;
    var t, j := s + [x], FirstBreak(s);
    BreakSnoc(s, x);
    CuesAtFirst(s);
    CuesAtFirst(t);
    if j < |s| {
      assert t[..j] == s[..j] && t[j..] == s[j..] + [x];
      CuesAfterBreaks(s[j..]);
      CuesAfterBreaks(t[j..]);
      BreaksSnoc(s[j..], x);
      if DropBreaks(s[j..]) != "" || x != '\n' {
        CuesSnoc(DropBreaks(s[j..]), x);
        assert "" + [x] == [x];
      }
    } else if FirstBreak(t) == |s| - 1 {
      var front := s[..|s| - 1];
      assert s == front + ['\n'] && t[|s| - 1..] == "\n\n" && s[|s|..] == "";
      BlockSnoc(front, '\n');
      assert s[..|s|] == s && t[..|s| - 1] == front;
      OneBlock(front);
      OneBlock(s);
      TwoBreaks();
    } else {
      assert t[..|s| + 1] == t && t[|s| + 1..] == "" && s[..|s|] == s && s[|s|..] == "";
      BlockSnoc(s, x);
      OneBlock(s);
      OneBlock(t);
    }
  }

  lemma TwoBreaks()
    ensures CuesIn("\n\n") == CuesIn("")
  {
    var s := "\n\n";
    assert s[1..][1..] == "";
    CuesAfterBreaks(s);
  }

  lemma {:induction false} SpaceBehind(s: string, w: string)
    requires AllSpaces(w)
    ensures CuesIn(s + w) == CuesIn(s)
    decreases |w|
  {
    hide CuesIn;
    if w == "" {
      assert s + w == s;
    } else {
      assert s + w == s + [w[0]] + w[1..];
      CuesSnoc(s, w[0]);
      SpaceBehind(s + [w[0]], w[1..]);
    }
  }

  lemma {:induction false} BreaksBehind(s: string, w: string)
    requires s != "" && s[|s| - 1] != '\n'
    ensures DropBreaks(s + w) == DropBreaks(s) + w
    ensures DropBreaks(s) != "" && DropBreaks(s)[|DropBreaks(s)| - 1] != '\n'
  {
    if s[0] == '\n' {
      assert (s + w)[1..] == s[1..] + w;
      BreaksBehind(s[1..], w);
    }
  }

  /** Two or more line breaks between what ends without one and what begins without one. */
  lemma {:induction false} SplitBetween(s: string, breaks: string, rest: string)
    requires s != "" && s[|s| - 1] != '\n' && rest != "" && rest[0] != '\n'
    requires |breaks| >= 2 && forall c :: c in breaks ==> c == '\n'
    ensures SplitBlocks(s + breaks + rest) == SplitBlocks(s) + SplitBlocks(rest)
    decreases |s|
  {
    hide SplitBlocks;
    var t := s + breaks + rest;
    if |s| == 1 {
      assert t[1..] == breaks + rest;
      DropAll(breaks, rest);
      SplitAtBreaks(t[1..]);
      SplitAtChar(t);
      SplitShort(s);
      assert [t[0]] + "" == s;
    } else if s[0] == '\n' && s[1] == '\n' {
      assert t == s + (breaks + rest);
      BreaksBehind(s, breaks + rest);
      SplitBetween(DropBreaks(s), breaks, rest);
      assert DropBreaks(t) == DropBreaks(s) + breaks + rest;
      SplitAtBreaks(t);
      SplitAtBreaks(s);
    } else {
      assert t[1..] == s[1..] + breaks + rest && t[0] == s[0] && t[1] == s[1];
      SplitBetween(s[1..], breaks, rest);
      SplitAtChar(t);
      SplitAtChar(s);
    }
  }

  lemma SplitShort(s: string)
    requires |s| < 2
    ensures SplitBlocks(s) == [s]
  {
  }

  lemma SplitAtBreaks(s: string)
    requires |s| >= 2 && s[0] == '\n' && s[1] == '\n'
    ensures SplitBlocks(s) == [""] + SplitBlocks(DropBreaks(s))
  {
  }

  lemma {:induction false} DropAll(breaks: string, rest: string)
    requires (forall c :: c in breaks ==> c == '\n') && rest != "" && rest[0] != '\n'
    ensures DropBreaks(breaks + rest) == rest
  {
    if breaks == "" {
      assert breaks + rest == rest;
    } else {
      assert (breaks + rest)[1..] == breaks[1..] + rest && breaks[0] in breaks;
      assert forall c :: c in breaks[1..] ==> c in breaks;
      DropAll(breaks[1..], rest);
    }
  }

  /** Two parts of a file with an empty line between them read one after the other. */
  lemma CuesBetween(s: string, rest: string)
    requires s != "" && s[0] != '\n' && rest != "" && rest[0] != '\n'
    ensures CuesIn(s + "\n\n" + rest) == CuesIn(s) + CuesIn(rest)
  {
    hide SplitBlocks, ParseBlocks;
    var front := TrimRight(s, c => c == '\n');
    TrimRightEnds(s, c => c == '\n');
    TrimRightRest(s, c => c == '\n');
    var behind := s[|front|..];
    assert s == front + behind;
    assert behind != "" ==> behind[0] in behind;
    assert s + "\n\n" + rest == front + (behind + "\n\n") + rest;
    SplitBetween(front, behind + "\n\n", rest);
    ParseBlocksAppend(SplitBlocks(front), SplitBlocks(rest));
    SpaceBehind(front, behind);
  }

  // -------------------------------------------------------------- what comes back

  /** What stands in a block behind its timing: the text without its carriage returns. */
  function Behind(c: Cue): string { "\n" + Remove(c.text, '\r') }

  /** What a written cue is read as: its text up to the first empty line, and the cues in what follows. */
  function Read(c: Cue): seq<Cue> {
    var s := Behind(c);
    var j := FirstBreak(s);
    [Cue(Max0(c.start), Max0(c.end), JsTrim(s[..j]), 2, None)] + CuesIn(s[j..])
  }

  function AllRead(cues: seq<Cue>): seq<Cue> { if cues == [] then [] else Read(cues[0]) + AllRead(cues[1..]) }

  lemma HeadIsTight(c: Cue, i: nat, vtt: bool)
    ensures Tight(Head(c, i, vtt)) && IsDigit(Head(c, i, vtt)[0]) && '\r' !in Head(c, i, vtt)
  {
    hide TimingLine, Solid, Decimal, HasArrow;
    var d, t := Decimal(i), TimingLine(c, vtt);
    HeadLines(c, i, vtt);
    TimingLineReadsBack(c, vtt);
    LineIsSolid(d);
    LineIsSolid(t);
    SolidJoin(d, t);
    SolidIsTight(d + ['\n'] + t);
  }

  lemma SolidIsTight(s: string)
    requires Solid(s)
    ensures Tight(s)
  {
  }

  lemma {:induction false} BreakBehind(h: string, s: string)
    requires Tight(h)
    ensures FirstBreak(h + s) == |h| + FirstBreak(s)
    decreases |h|
  {
    var t := h + s;
    if |h| > 1 {
      TightTail(h);
      assert t[1..] == h[1..] + s;
      BreakBehind(h[1..], s);
    } else {
      assert t[1..] == s && t[0] != '\n';
    }
  }

  lemma NothingTrimmed()
    ensures JsTrim("") == ""
  {
  }

  lemma BreakInFront(u: string)
    ensures JsTrim("\n" + u) == JsTrim(u)
  {
    TrimLeftPad("\n", u, JsSpace);
  }

  /** The front of a block. */
  lemma FrontReads(c: Cue, i: nat, vtt: bool, front: string)
    requires front == "" || front[0] == '\n'
    ensures ParseBlock(Head(c, i, vtt) + front) == Some(Cue(Max0(c.start), Max0(c.end), JsTrim(front), 2, None))
  {
    hide Head, ParseBlock, TrimRight, JsTrim;
    NothingTrimmed();
    if front == "" {
      assert Head(c, i, vtt) + front == Head(c, i, vtt);
      BareBlockReadsBack(c, i, vtt);
    } else {
      assert Head(c, i, vtt) + front == Head(c, i, vtt) + ['\n'] + front[1..];
      BlockReadsBack(c, i, vtt, front[1..]);
      BreakInFront(front[1..]);
      assert front == "\n" + front[1..];
    }
  }

  /** A block reads as that, whatever the text is. */
  lemma BlockReads(c: Cue, i: nat, vtt: bool)
    ensures CuesIn(Head(c, i, vtt) + Behind(c)) == Read(c)
  {
    hide Head, ParseBlock, CuesIn, JsTrim, Remove;
    var h, s := Head(c, i, vtt), Behind(c);
    var j := FirstBreak(s);
    HeadIsTight(c, i, vtt);
    BreakBehind(h, s);
    CuesAtFirst(h + s);
    assert (h + s)[..|h| + j] == h + s[..j] && (h + s)[|h| + j..] == s[j..];
    FrontReads(c, i, vtt, s[..j]);
    OneBlock(h + s[..j]);
  }

  // --------------------------------------------------------------- the whole file

  function ReadBlocks(cues: seq<Cue>, i: nat, vtt: bool): seq<string> {
    if cues == [] then [] else [Head(cues[0], i, vtt) + Behind(cues[0])] + ReadBlocks(cues[1..], i + 1, vtt)
  }

  lemma {:induction false} WithoutReturns(cues: seq<Cue>, i: nat, vtt: bool)
    ensures NoReturns(EditorBlocks(cues, i, vtt)) == ReadBlocks(cues, i, vtt)
    decreases |cues|
  {
    hide Head, Remove;
    if cues != [] {
      var c := cues[0];
      WithoutReturns(cues[1..], i + 1, vtt);
      HeadIsTight(c, i, vtt);
      assert EditorBlock(c, i, vtt) == Head(c, i, vtt) + ['\n'] + c.text;
      RemoveAppend(Head(c, i, vtt) + ['\n'], c.text, '\r');
      NothingRemoved(Head(c, i, vtt) + ['\n']);
      assert Head(c, i, vtt) + ['\n'] + Remove(c.text, '\r') == Head(c, i, vtt) + Behind(c);
      NoReturnsFront(EditorBlock(c, i, vtt), EditorBlocks(cues[1..], i + 1, vtt));
    } else {
      NoReturnsNone();
    }
  }

  /** The blocks one after the other read as what their cues do. */
  lemma {:induction false} BlocksRead(cues: seq<Cue>, i: nat, vtt: bool)
    requires cues != []
    ensures var file := Join(ReadBlocks(cues, i, vtt), "\n\n");
      file != "" && IsDigit(file[0]) && CuesIn(file) == AllRead(cues)
    decreases |cues|
  {
    hide Head, Behind, CuesIn, Read;
    var bs := ReadBlocks(cues, i, vtt);
    HeadIsTight(cues[0], i, vtt);
    BlockReads(cues[0], i, vtt);
    assert bs[1..] == ReadBlocks(cues[1..], i + 1, vtt);
    if |cues| == 1 {
      assert AllRead(cues) == Read(cues[0]) + AllRead([]);
    } else {
      BlocksRead(cues[1..], i + 1, vtt);
      CuesBetween(bs[0], Join(bs[1..], "\n\n"));
    }
  }

  /** Trimming a file does not change what it reads as. */
  lemma TrimmedFile(file: string)
    requires file != "" && !JsSpace(file[0])
    ensures CuesIn(JsTrim(file)) == CuesIn(file)
  {
    hide CuesIn;
    var r := JsTrim(file);
    assert r == TrimRight(file, JsSpace);
    TrimRightEnds(file, JsSpace);
    TrimRightRest(file, JsSpace);
    assert file == r + file[|r|..];
    SpaceBehind(r, file[|r|..]);
  }

  lemma ParsedFile(text: string)
    ensures ParsedSrt(text) == Parsed(CuesIn(JsTrim(Remove(text, '\r'))), 1280, 720)
  {
  }

  /** What both writers put down, with or without a first line. */
  lemma FileReads(cues: seq<Cue>, vtt: bool, ends: string)
    requires cues != [] && (ends == "\n" || ends == "\n\n")
    ensures
      var file := Join(EditorBlocks(cues, 1, vtt), "\n\n") + ends;
      ParsedSrt(if vtt then "WEBVTT\n\n" + file else file) == Parsed(AllRead(cues), 1280, 720)
  {
    hide CuesIn, AllRead, Join, EditorBlocks, ReadBlocks, Remove, JsTrim, ParsedSrt, NoReturns;
    var file := Join(EditorBlocks(cues, 1, vtt), "\n\n") + ends;
    var plain := Join(ReadBlocks(cues, 1, vtt), "\n\n");
    RemoveInJoin(EditorBlocks(cues, 1, vtt), "\n\n");
    WithoutReturns(cues, 1, vtt);
    RemoveAppend(Join(EditorBlocks(cues, 1, vtt), "\n\n"), ends, '\r');
    NothingRemoved(ends);
    assert Remove(file, '\r') == plain + ends;
    BlocksRead(cues, 1, vtt);
    SpaceBehind(plain, ends);
    if vtt {
      RemoveAppend("WEBVTT\n\n", file, '\r');
      NothingRemoved("WEBVTT\n\n");
      ParsedFile("WEBVTT\n\n" + file);
      WithFirstLine(plain + ends);
    } else {
      ParsedFile(file);
      TrimmedFile(plain + ends);
    }
  }

  lemma WithFirstLine(file: string)
    requires file != "" && IsDigit(file[0])
    ensures CuesIn(JsTrim("WEBVTT\n\n" + file)) == CuesIn(file)
  {
    hide CuesIn, JsTrim;
    var first := "WEBVTT";
    assert "WEBVTT\n\n" + file == first + "\n\n" + file && first[0] == 'W';
    TrimmedFile("WEBVTT\n\n" + file);
    CuesBetween(first, file);
    FirstLineReads();
  }

  lemma FirstLineReads()
    ensures CuesIn("WEBVTT") == []
  {
    hide Solid, ParseBlock, SplitBlocks;
    VttHeadIsSturdy();
    SplitOneBlock("WEBVTT");
    OneBlock("WEBVTT");
  }

  lemma NoCues()
    ensures ParsedSrt(Join(Templates([], 1, false), "\n") + "\n") == Parsed([], 1280, 720)
    ensures ParsedSrt("WEBVTT\n\n" + Join(Templates([], 1, true), "\n")) == Parsed([], 1280, 720)
  {
    hide CuesIn, JsTrim, Remove;
    var a, b := "\n", "WEBVTT\n\n";
    assert Join(Templates([], 1, false), "\n") + "\n" == a;
    assert b + Join(Templates([], 1, true), "\n") == b;
    NothingRemoved(a);
    NothingRemoved(b);
    ParsedFile(a);
    ParsedFile(b);
    TrimBehind("", a);
    assert "" + a == a;
    NoCuesIn();
    assert b == "WEBVTT" + "\n\n" && b[0] == 'W';
    TrimmedFile(b);
    SpaceBehind("WEBVTT", "\n\n");
    FirstLineReads();
    NothingTrimmed();
  }

  /**
   For any cues, what the editor writes as SRT or WebVTT it reads as the cues stably sorted by start,
   each with its text up to the first empty line and followed by the cues found behind that line.
   */
  lemma EditorRoundTrip(cues: seq<Cue>)
    ensures ParsedSrt(ToSRT(cues)) == Parsed(AllRead(SortByStart(cues)), 1280, 720)
    ensures ParsedSrt(ToVTT(cues)) == Parsed(AllRead(SortByStart(cues)), 1280, 720)
  {
    hide Templates, EditorBlocks, ParsedSrt, Join, Read, SortByStart;
    var sorted := SortByStart(cues);
    if sorted == [] {
      NoCues();
    } else {
      TemplatesAreBlocks(sorted, 1, false);
      TemplatesAreBlocks(sorted, 1, true);
      FileReads(sorted, false, "\n\n");
      FileReads(sorted, true, "\n");
      var srt := Join(EditorBlocks(sorted, 1, false), "\n\n");
      assert srt + "\n" + "\n" == srt + "\n\n";
    }
  }

  // ------------------------------------------------------------- what is kept whole

  predicate NoEmptyLine(s: string) { forall i :: 0 <= i < |s| - 1 ==> !(s[i] == '\n' && s[i + 1] == '\n') }

  /** No carriage return inside the trimmed text, and no empty line before the last character that is not blank. */
  predicate Kept(text: string) {
    '\r' !in JsTrim(text) && NoEmptyLine("\n" + TrimRight(Remove(text, '\r'), JsSpace))
  }

  lemma {:induction false} WithoutSpacesAppend(a: string, b: string)
    ensures WithoutSpaces(a + b, JsSpace) == WithoutSpaces(a, JsSpace) + WithoutSpaces(b, JsSpace)
  {
    hide JsSpace;
    if a == "" {
      assert a + b == b;
    } else {
      assert (a + b)[1..] == a[1..] + b;
      WithoutSpacesAppend(a[1..], b);
    }
  }

  lemma SpacesOnly(s: string)
    ensures AllSpaces(s) <==> WithoutSpaces(s, JsSpace) == ""
  {
    hide JsSpace, WithoutSpaces;
    var r := WithoutSpaces(s, JsSpace);
    forall c ensures c in r <==> c in s && !JsSpace(c) {
      InWithoutSpaces(s, JsSpace, c);
    }
    assert r != "" ==> r[0] in r;
  }

  lemma WithoutSpacesTrimmed(s: string)
    ensures WithoutSpaces(JsTrim(s), JsSpace) == WithoutSpaces(s, JsSpace)
  {
    hide JsSpace, WithoutSpaces, Trim;
    var front, behind := TrimParts(s, JsSpace);
    var r := JsTrim(s);
    WithoutSpacesAppend(front + r, behind);
    WithoutSpacesAppend(front, r);
    SpacesOnly(front);
    SpacesOnly(behind);
  }

  lemma {:induction false} WithoutSpacesRemoved(s: string)
    ensures WithoutSpaces(Remove(s, '\r'), JsSpace) == WithoutSpaces(s, JsSpace)
  {
    if s != "" {
      WithoutSpacesRemoved(s[1..]);
    }
  }

  /** Only white space is cut off exactly when there is no empty line before the last character that is not blank. */
  lemma CutIsBlank(u: string)
    ensures AllSpaces(("\n" + u)[FirstBreak("\n" + u)..]) <==> NoEmptyLine("\n" + TrimRight(u, JsSpace))
  {
    BreakIsSpace();
    hide JsSpace, NoEmptyLine, FirstBreak, AllSpaces;
    var r := TrimRight(u, JsSpace);
    TrimRightEnds(u, JsSpace);
    SpacesBehind(u);
    var s, front := "\n" + u, "\n" + r;
    assert front <= s && s[|front|..] == u[|r|..];
    if NoEmptyLine(front) {
      BreakInRest(s, front);
    } else {
      BreakInFrontOf(s, front);
    }
  }

  lemma SpacesBehind(u: string)
    ensures |TrimRight(u, JsSpace)| <= |u| && AllSpaces(u[|TrimRight(u, JsSpace)|..])
  {
    TrimRightRest(u, JsSpace);
  }

  lemma BreakInFrontOf(s: string, front: string)
    requires front <= s && front != "" && !NoEmptyLine(front)
    requires |front| > 1 ==> !JsSpace(front[|front| - 1])
    ensures !AllSpaces(s[FirstBreak(s)..])
  {
    hide JsSpace;
    var j := FirstBreak(s);
    var i :| 0 <= i < |front| - 1 && front[i] == '\n' && front[i + 1] == '\n';
    assert s[i] == '\n' && s[i + 1] == '\n';
    var last := |front| - 1;
    assert s[j..][last - j] == front[last];
  }

  lemma BreakIsSpace()
    ensures JsSpace('\n')
  {
  }

  lemma BreakInRest(s: string, front: string)
    requires front <= s && front != "" && NoEmptyLine(front) && AllSpaces(s[|front|..])
    requires |front| > 1 ==> !JsSpace(front[|front| - 1])
    requires JsSpace(front[0]) && JsSpace('\n')
    ensures AllSpaces(s[FirstBreak(s)..])
  {
    hide JsSpace;
    var j := FirstBreak(s);
    assert forall i :: 0 <= i < |front| ==> front[i] == s[i];
    forall c | c in s[j..] ensures JsSpace(c) {
      var k :| 0 <= k < |s[j..]| && s[j..][k] == c;
      if j + k >= |front| {
        assert s[|front|..][j + k - |front|] == c;
      } else {
        assert k == 0 && s[j] == front[|front| - 1];
      }
    }
  }

  /** Trimming is not disturbed by removing carriage returns exactly when there is none inside. */
  lemma TrimWithoutReturns(text: string)
    ensures JsTrim(Remove(text, '\r')) == JsTrim(text) <==> '\r' !in JsTrim(text)
  {
    hide JsSpace, Trim;
    var u := Remove(text, '\r');
    RemoveKeeps(text, '\r');
    TrimIsTrimmed(u, JsSpace);
    if '\r' !in JsTrim(text) {
      var front, behind := TrimParts(text, JsSpace);
      var r := JsTrim(text);
      RemoveAppend(front + r, behind, '\r');
      RemoveAppend(front, r, '\r');
      NothingRemoved(r);
      RemoveKeeps(front, '\r');
      RemoveKeeps(behind, '\r');
      TrimAround(Remove(front, '\r'), r, Remove(behind, '\r'));
      TrimIsTrimmed(text, JsSpace);
      TrimTrimmed(r, JsSpace);
    }
  }

  lemma TrimAround(front: string, s: string, behind: string)
    requires AllSpaces(front) && AllSpaces(behind)
    ensures JsTrim(front + s + behind) == JsTrim(s)
  {
    hide JsSpace, TrimRight;
    TrimLeftPad(front, s, JsSpace);
    TrimBehind(front + s, behind);
  }

  /** A cue comes back alone and with its whole text if and only if its text is kept. */
  lemma KeptIff(c: Cue)
    ensures |Read(c)| >= 1 && (Read(c) == [Plain(c)] <==> Kept(c.text))
  {
    hide JsSpace, CuesIn, WithoutSpaces, NoEmptyLine, JsTrim, TrimRight, Remove;
    var s, u := Behind(c), Remove(c.text, '\r');
    var j := FirstBreak(s);
    CutIsBlank(u);
    TrimWithoutReturns(c.text);
    BreakInFront(u);
    assert s == s[..j] + s[j..];
    if AllSpaces(s[j..]) {
      TrimBehind(s[..j], s[j..]);
      SpaceBehind("", s[j..]);
      assert "" + s[j..] == s[j..];
      NoCuesIn();
      assert Read(c) == [Cue(Max0(c.start), Max0(c.end), JsTrim(u), 2, None)];
    } else {
      WithoutSpacesTrimmed(s[..j]);
      WithoutSpacesTrimmed(s);
      WithoutSpacesTrimmed(c.text);
      WithoutSpacesTrimmed(u);
      WithoutSpacesRemoved(c.text);
      WithoutSpacesAppend(s[..j], s[j..]);
      SpacesOnly(s[j..]);
      assert Read(c)[0].text != Plain(c).text;
    }
  }

  lemma {:induction false} AllKeptIff(cues: seq<Cue>)
    ensures |AllRead(cues)| >= |cues| && |AllPlain(cues)| == |cues|
    ensures AllRead(cues) == AllPlain(cues) <==> forall c :: c in cues ==> Kept(c.text)
  {
    hide Read, Plain, Kept;
    if cues != [] {
      var c, rest := cues[0], cues[1..];
      KeptIff(c);
      AllKeptIff(rest);
      assert cues == [c] + rest;
      if AllRead(cues) == AllPlain(cues) {
        assert |Read(c)| == 1;
        assert Read(c) == AllRead(cues)[..1] == AllPlain(cues)[..1] == [Plain(c)];
        assert AllRead(rest) == AllRead(cues)[1..] == AllPlain(cues)[1..] == AllPlain(rest);
      }
    }
  }

  /**
   For any cues, SRT and WebVTT bring back the sorted cues with their trimmed texts if and only if
   every text is kept.
   */
  lemma EditorRoundTripExact(cues: seq<Cue>)
    ensures ParsedSrt(ToSRT(cues)) == Parsed(AllPlain(SortByStart(cues)), 1280, 720) <==>
        forall c :: c in cues ==> Kept(c.text)
    ensures ParsedSrt(ToVTT(cues)) == Parsed(AllPlain(SortByStart(cues)), 1280, 720) <==>
        forall c :: c in cues ==> Kept(c.text)
  {
    hide AllRead, AllPlain, Kept, ParsedSrt, ToSRT, ToVTT, SortByStart;
    var sorted := SortByStart(cues);
    EditorRoundTrip(cues);
    AllKeptIff(sorted);
    SortIsStable(cues);
    assert forall c :: c in cues <==> c in multiset(cues);
    assert forall c :: c in sorted <==> c in multiset(sorted);
  }

  /**
   An empty line in the text cuts it: of `a`, an empty line and `b` only `a` comes back, and if `b`
   holds an arrow it becomes a cue of its own.
   */
  lemma EmptyLineCuts(c: Cue, a: string, b: string)
    requires c.text == a + "\n\n" + b && '\r' !in c.text && Tight("\n" + a) && (b == "" || b[0] != '\n')
    ensures Read(c) == [Plain(c.(text := a))] + CuesIn(b)
  {
    hide CuesIn, JsTrim, Remove, DropBreaks, FirstBreak, Tight;
    var s, rest := Behind(c), "\n\n" + b;
    NothingRemoved(c.text);
    assert s == ("\n" + a) + rest;
    BreakBehind("\n" + a, rest);
    BreakAtFront(rest);
    assert s[..|"\n" + a|] == "\n" + a && s[|"\n" + a|..] == rest;
    BreakInFront(a);
    CuesAfterBreaks(rest);
    if b == "" {
      TwoBreaks();
      assert rest == "\n\n";
    } else {
      DropAll("\n\n", b);
    }
  }

  lemma BreakAtFront(s: string)
    requires |s| >= 2 && s[0] == '\n' && s[1] == '\n'
    ensures FirstBreak(s) == 0
  {
  }
}
