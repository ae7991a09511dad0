/**
 The SRT and WebVTT writers of the worker (worker/subextractor/formats.py) and the
 editor's parser for both (`parseSRT` in web/src/editor/subtitles.ts). Files are the
 strings written to them; times are whole milliseconds.
 */
module Srt {
  import opened Wrappers
  import opened Text
  import opened Editor

  // --------------------------------------------------------------- worker: times

  /** `divmod` of a time by hours, minutes and seconds in turn. */
  function WorkerTime(t: int): string {
    var ms0 := Max0(t);
    var h, ms1 := ms0 / 3_600_000, ms0 % 3_600_000;
    var m, ms2 := ms1 / 60_000, ms1 % 60_000;
    StampText(Pad(h, 2), Pad(m, 2), Pad(ms2 / 1000, 2), ',', Pad(ms2 % 1000, 3))
  }

  /** `_srt_time(t).replace(",", ".")`. */
  function WorkerVttTime(t: int): string { ReplaceAll(WorkerTime(t), ',', '.') }

  function ReplaceAll(s: string, c: char, d: char): string {
    seq(|s|, i requires 0 <= i < |s| => if s[i] == c then d else s[i])
  }

  function TimeOf(t: int, vtt: bool): string { if vtt then WorkerVttTime(t) else WorkerTime(t) }

  // ---------------------------------------------------------------- worker: text

  /** `re.sub("-->", "->", s)`: one pass from the left. */
  function EscapeArrows(s: string): string
    decreases |s|
  {
    if s == "" then ""
    else if "-->" <= s then "->" + EscapeArrows(s[3..])
    else [s[0]] + EscapeArrows(s[1..])
  }

  /** `ln.rstrip("\r")`. */
  function StripReturns(s: string): string { TrimRight(s, c => c == '\r') }

  /** A line as it goes into the block. */
  function CleanLine(line: string, escapeArrows: bool): string {
    var ln := StripReturns(line);
    if escapeArrows then EscapeArrows(ln)
    else if PyStrip(ln) == "-->" then "->"
    else ln
  }

  /** The cleaned lines that are not blank. */
  function CleanLines(lines: seq<string>, escapeArrows: bool): seq<string> {
    if lines == [] then []
    else
      var ln := CleanLine(lines[0], escapeArrows);
      (if PyStrip(ln) != "" then [ln] else []) + CleanLines(lines[1..], escapeArrows)
  }

  function CleanedLines(text: string, escapeArrows: bool): seq<string> {
    CleanLines(Split(text, '\n'), escapeArrows)
  }

  function Cleaned(text: string, escapeArrows: bool): string {
    Join(CleanedLines(text, escapeArrows), "\n")
  }

  lemma {:induction false} CleanLinesSnoc(lines: seq<string>, line: string, escapeArrows: bool)
    ensures CleanLines(lines + [line], escapeArrows) ==
        CleanLines(lines, escapeArrows) + CleanLines([line], escapeArrows)
  {
    if lines == [] {
      assert [] + [line] == [line];
    } else {
      assert (lines + [line])[1..] == lines[1..] + [line];
      CleanLinesSnoc(lines[1..], line, escapeArrows);
    }
  }

  /** `_clean_block`. */
  method CleanBlock(text: string, escapeArrows: bool) returns (r: string)
    ensures r == Cleaned(text, escapeArrows)
  {
    hide PyStrip, EscapeArrows, StripReturns, Split, Join;
    var lines := Split(text, '\n');
    var out: seq<string> := [];
    for i := 0 to |lines|
      invariant out == CleanLines(lines[..i], escapeArrows)
    {
      var ln := StripReturns(lines[i]);
      if escapeArrows {
        ln := EscapeArrows(ln);
      } else if PyStrip(ln) == "-->" {
        ln := "->";
      }
      CleanLinesSnoc(lines[..i], lines[i], escapeArrows);
      assert lines[..i + 1] == lines[..i] + [lines[i]];
      if PyStrip(ln) != "" {
        out := out + [ln];
      }
    }
    assert lines[..|lines|] == lines;
    r := Join(out, "\n");
  }

  // --------------------------------------------------------------- worker: files

  function TimingLine(c: Cue, vtt: bool): string {
    TimeOf(c.start, vtt) + " --> " + TimeOf(c.end, vtt)
  }

  /** What one cue adds to the file: nothing when its cleaned text is empty. */
  function Entry(c: Cue, i: nat, vtt: bool): string {
    var text := Cleaned(c.text, vtt);
    if text == "" then "" else Decimal(i) + "\n" + TimingLine(c, vtt) + "\n" + text + "\n\n"
  }

  function Entries(cues: seq<Cue>, i: nat, vtt: bool): string {
    if cues == [] then "" else Entry(cues[0], i, vtt) + Entries(cues[1..], i + 1, vtt)
  }

  function FileText(cues: seq<Cue>, vtt: bool): string {
    (if vtt then "WEBVTT\n\n" else "") + Entries(cues, 1, vtt)
  }

  lemma {:induction false} EntriesSnoc(cues: seq<Cue>, c: Cue, i: nat, vtt: bool)
    ensures Entries(cues + [c], i, vtt) == Entries(cues, i, vtt) + Entry(c, i + |cues|, vtt)
  {
    hide Entry;
    if cues == [] {
      assert [] + [c] == [c];
    } else {
      assert (cues + [c])[1..] == cues[1..] + [c];
      EntriesSnoc(cues[1..], c, i + 1, vtt);
      assert Entry(cues[0], i, vtt) + (Entries(cues[1..], i + 1, vtt) + Entry(c, i + |cues|, vtt))
          == Entry(cues[0], i, vtt) + Entries(cues[1..], i + 1, vtt) + Entry(c, i + |cues|, vtt);
    }
  }

  lemma FileNone(vtt: bool)
    ensures FileText([], vtt) == if vtt then "WEBVTT\n\n" else ""
  {
  }

  /** One cue more adds its entry. */
  lemma FileSnoc(cues: seq<Cue>, k: nat, vtt: bool)
    requires k < |cues|
    ensures FileText(cues[..k + 1], vtt) == FileText(cues[..k], vtt) + Entry(cues[k], k + 1, vtt)
  {
    hide Entry, Entries;
    assert cues[..k + 1] == cues[..k] + [cues[k]];
    EntriesSnoc(cues[..k], cues[k], 1, vtt);
  }

  /** `write_srt`, and `write_vtt` when `vtt`: cue by cue, numbering every cue and skipping empty ones. */
  method WriteFile(cues: seq<Cue>, vtt: bool) returns (out: string)
    ensures out == FileText(cues, vtt)
  {
    hide TimeOf, Cleaned, Decimal, FileText;
    out := if vtt then "WEBVTT\n\n" else "";
    FileNone(vtt);
    for k := 0 to |cues|
      invariant out == FileText(cues[..k], vtt)
    {
      var c, i := cues[k], k + 1;
      var text := CleanBlock(c.text, vtt);
      FileSnoc(cues, k, vtt);
      if text == "" {
        assert out + "" == out;
        continue;
      }
      out := out + (Decimal(i) + "\n" + (TimeOf(c.start, vtt) + " --> " + TimeOf(c.end, vtt)) + "\n" + text + "\n\n");
    }
    assert cues[..|cues|] == cues;
  }

  // --------------------------------------------------------------- editor: parse

  function DropBreaks(s: string): (r: string)
    ensures |r| <= |s|
    ensures s != "" && s[0] == '\n' ==> |r| < |s|
  {
    if s == "" || s[0] != '\n' then s else DropBreaks(s[1..])
  }

  /** `s.split(/\n\n+/)`. */
  function SplitBlocks(s: string): (r: seq<string>)
    ensures r != []
    decreases |s|
  {
    if |s| < 2 then [s]
    else if s[0] == '\n' && s[1] == '\n' then [""] + SplitBlocks(DropBreaks(s))
    else
      var rest := SplitBlocks(s[1..]);
      [[s[0]] + rest[0]] + rest[1..]
  }

  /** `s.split("-->")`. */
  function SplitArrows(s: string): (r: seq<string>)
    ensures r != []
    decreases |s|
  {
    if s == "" then [""]
    else if "-->" <= s then [""] + SplitArrows(s[3..])
    else
      var rest := SplitArrows(s[1..]);
      [[s[0]] + rest[0]] + rest[1..]
  }

  predicate HasArrow(s: string) { |SplitArrows(s)| > 1 }

  /** Index of the first line with an arrow, or the number of lines. */
  function FirstArrow(lines: seq<string>): (i: nat)
    ensures i <= |lines| && (i < |lines| ==> HasArrow(lines[i]))
  {
    if lines == [] || HasArrow(lines[0]) then 0 else 1 + FirstArrow(lines[1..])
  }

  /** The cue of a block; None when no line holds an arrow. */
  function ParseBlock(block: string): Option<Cue> {
    var lines := Split(block, '\n');
    var tc := FirstArrow(lines);
    if tc == |lines| then None
    else
      var pieces := SplitArrows(lines[tc]);
      Some(Cue(ParseSrtStamp(pieces[0]), ParseSrtStamp(pieces[1]), JsTrim(Join(lines[tc + 1..], "\n")), 2, None))
  }

  function ParseBlocks(blocks: seq<string>): seq<Cue> {
    if blocks == [] then []
    else
      var cue := ParseBlock(blocks[0]);
      (if cue.Some? then [cue.value] else []) + ParseBlocks(blocks[1..])
  }

  function ParsedSrt(text: string): Parsed {
    Parsed(ParseBlocks(SplitBlocks(JsTrim(Remove(text, '\r')))), 1280, 720)
  }

  method ParseSRT(text: string) returns (r: Parsed)
    ensures r == ParsedSrt(text)
  {
    hide SplitBlocks, JsTrim, Remove, Split, SplitArrows, FirstArrow, ParseSrtStamp, Join;
    var blocks := SplitBlocks(JsTrim(Remove(text, '\r')));
    var cues: seq<Cue> := [];
    for k := 0 to |blocks|
      invariant cues + ParseBlocks(blocks[k..]) == ParseBlocks(blocks)
    {
      var lines := Split(blocks[k], '\n');
      var tcIndex := FirstArrow(lines);
      assert blocks[k..][1..] == blocks[k + 1..];
      if tcIndex == |lines| {
        continue;
      }
      var pieces := SplitArrows(lines[tcIndex]);
      cues := cues + [Cue(ParseSrtStamp(pieces[0]), ParseSrtStamp(pieces[1]),
                          JsTrim(Join(lines[tcIndex + 1..], "\n")), 2, None)];
    }
    r := Parsed(cues, 1280, 720);
  }

  // ------------------------------------------------------------ round trip: times

  lemma WorkerTimeIsSrtTime(t: int)
    ensures WorkerTime(t) == SrtTime(t)
  {
    MinutesOfHours(Max0(t));
    hide StampText, Pad;
  }

  lemma ReplaceInStamp(h: string, m: string, s: string, f: string)
    requires Digits(h) && Digits(m) && Digits(s) && Digits(f)
    ensures ReplaceAll(StampText(h, m, s, ',', f), ',', '.') == StampText(h, m, s, '.', f)
  {
    var a, b := StampText(h, m, s, ',', f), StampText(h, m, s, '.', f);
    assert |a| == |b|;
    forall i | 0 <= i < |a| ensures ReplaceAll(a, ',', '.')[i] == b[i] {
    }
  }

  /** A written time has no dash and no outer white space, and the parser reads it back. */
  lemma TimeReadsBack(t: int, vtt: bool)
    ensures StampLike(TimeOf(t, vtt), if vtt then '.' else ',')
    ensures ParseSrtStamp(TimeOf(t, vtt)) == Max0(t)
  {
    WorkerTimeIsSrtTime(t);
    SrtTimeReadsBack(t);
    if vtt {
      var ms := Max0(t);
      var h, m, s, f := ms / 3_600_000, ms % 3_600_000 / 60_000, ms % 60_000 / 1000, ms % 1000;
      assert Power10(1) == 10 && Power10(2) == 100 && Power10(3) == 1000;
      ToNatPad(h, 2);
      ToNatPad(m, 2);
      ToNatPad(s, 2);
      ToNatPad(f, 3);
      ReplaceInStamp(Pad(h, 2), Pad(m, 2), Pad(s, 2), Pad(f, 3));
      NumbersReadBack(Pad(h, 2), m, s, '.', f, 3);
      MillisecondFields(ms);
    }
  }

  lemma TimePadded(t: int, vtt: bool)
    ensures ParseSrtStamp(TimeOf(t, vtt) + " ") == Max0(t) == ParseSrtStamp(" " + TimeOf(t, vtt))
  {
    hide TimeOf, FindStamp;
    var s := TimeOf(t, vtt);
    TimeReadsBack(t, vtt);
    TrimTrimmed(s, JsSpace);
    TrimLeftPad(" ", s, JsSpace);
    assert TrimLeft(s + " ", JsSpace) == s + " ";
    TrimRightPad(s, " ", JsSpace);
    assert TrimLeft(s, JsSpace) == s;
  }

  lemma {:induction false} ArrowSplit(a: string, b: string)
    requires '-' !in a && '-' !in b
    ensures SplitArrows(a + "-->" + b) == [a, b]
  {
    var s := a + "-->" + b;
    if a == "" {
      assert "-->" <= s && s[3..] == b;
      NoArrow(b);
    } else {
      assert s[1..] == a[1..] + "-->" + b;
      assert s[0] == a[0];
      ArrowSplit(a[1..], b);
      assert [a[0]] + a[1..] == a;
    }
  }

  lemma {:induction false} NoArrow(s: string)
    requires '-' !in s
    ensures SplitArrows(s) == [s]
  {
    if s != "" {
      assert "-->"[0] == '-';
      NoArrow(s[1..]);
      assert [s[0]] + s[1..] == s;
    }
  }

  /** The timing line is the one with the arrow, and both its times are read back. */
  lemma TimingLineReadsBack(c: Cue, vtt: bool)
    ensures var line := TimingLine(c, vtt);
      && SplitArrows(line) == [TimeOf(c.start, vtt) + " ", " " + TimeOf(c.end, vtt)]
      && '\n' !in line && '\r' !in line && line != "" && !JsSpace(line[|line| - 1])
  {
    hide TimeOf;
    var a, b := TimeOf(c.start, vtt), TimeOf(c.end, vtt);
    TimeReadsBack(c.start, vtt);
    TimeReadsBack(c.end, vtt);
    assert a + " --> " + b == (a + " ") + "-->" + (" " + b);
    ArrowSplit(a + " ", " " + b);
  }

  // ------------------------------------------------------------ round trip: block

  /** The lines of an entry before its text. */
  function Head(c: Cue, i: nat, vtt: bool): string { Decimal(i) + ['\n'] + TimingLine(c, vtt) }

  lemma HeadLines(c: Cue, i: nat, vtt: bool)
    ensures var d := Decimal(i);
      d != "" && IsDigit(d[0]) && '\n' !in d && '\r' !in d && !HasArrow(d)
  {
    ToNatDecimal(i);
    NoArrow(Decimal(i));
  }

  /** A block with text, whatever the text is. */
  lemma BlockReadsBack(c: Cue, i: nat, vtt: bool, text: string)
    ensures ParseBlock(Head(c, i, vtt) + ['\n'] + text) == Some(Cue(Max0(c.start), Max0(c.end), JsTrim(text), 2, None))
  {
    hide TimingLine, TimeOf, JsTrim, Decimal, SplitArrows, ParseSrtStamp, HasArrow;
    var d, t := Decimal(i), TimingLine(c, vtt);
    HeadLines(c, i, vtt);
    TimingLineReadsBack(c, vtt);
    TimePadded(c.start, vtt);
    TimePadded(c.end, vtt);
    assert d + ['\n'] + t + ['\n'] + text == d + ['\n'] + (t + ['\n'] + text);
    SplitFirst(d, '\n', t + ['\n'] + text);
    SplitFirst(t, '\n', text);
    var lines := [d, t] + Split(text, '\n');
    assert [d] + ([t] + Split(text, '\n')) == lines;
    ArrowAtOne(lines);
    assert lines[2..] == Split(text, '\n');
    JoinSplit(text, '\n');
  }

  lemma ArrowAtOne(lines: seq<string>)
    requires |lines| >= 2 && !HasArrow(lines[0]) && |SplitArrows(lines[1])| == 2
    ensures FirstArrow(lines) == 1
  {
    hide SplitArrows;
    assert lines[1..][0] == lines[1];
  }

  /** A block whose text the trimming of the file took away. */
  lemma BareBlockReadsBack(c: Cue, i: nat, vtt: bool)
    ensures ParseBlock(Head(c, i, vtt)) == Some(Cue(Max0(c.start), Max0(c.end), "", 2, None))
  {
    hide TimingLine, TimeOf, Decimal, SplitArrows, ParseSrtStamp, HasArrow;
    var d, t := Decimal(i), TimingLine(c, vtt);
    HeadLines(c, i, vtt);
    TimingLineReadsBack(c, vtt);
    TimePadded(c.start, vtt);
    TimePadded(c.end, vtt);
    SplitFirst(d, '\n', t);
    SplitWhole(t, '\n');
    var lines := [d, t];
    assert [d] + [t] == lines;
    ArrowAtOne(lines);
    assert lines[2..] == [];
  }

  lemma {:induction false} TrimRightBehind(a: string, b: string, space: char -> bool)
    ensures TrimRight(b, space) != "" ==> TrimRight(a + b, space) == a + TrimRight(b, space)
    ensures TrimRight(b, space) == "" ==> TrimRight(a + b, space) == TrimRight(a, space)
  {
    if b == "" {
      assert a + b == a;
    } else if space(b[|b| - 1]) {
      assert (a + b)[..|a + b| - 1] == a + b[..|b| - 1];
      TrimRightBehind(a, b[..|b| - 1], space);
    }
  }

  /** The last block parses the same when the file was trimmed behind it. */
  lemma TrimmedBlockReadsBack(c: Cue, i: nat, vtt: bool, text: string)
    ensures var block := Head(c, i, vtt) + ['\n'] + text;
      ParseBlock(TrimRight(block, JsSpace)) == ParseBlock(block) && TrimRight(block, JsSpace) != ""
  {
    hide TimingLine, ParseBlock;
    var head := Head(c, i, vtt);
    HeadLines(c, i, vtt);
    TimingLineReadsBack(c, vtt);
    var rest := TrimRight(text, JsSpace);
    TrimRightBehind(head + ['\n'], text, JsSpace);
    BlockReadsBack(c, i, vtt, text);
    if rest == "" {
      TrimRightBehind(head, ['\n'], JsSpace);
      assert TrimRight(['\n'], JsSpace) == "";
      assert TrimRight(head, JsSpace) == head by {
        assert head[|head| - 1] == TimingLine(c, vtt)[|TimingLine(c, vtt)| - 1];
      }
      BareBlockReadsBack(c, i, vtt);
      AllSpace(text, JsSpace);
    } else {
      BlockReadsBack(c, i, vtt, rest);
      TrimOfTrimRight(text, JsSpace);
    }
  }

  lemma {:induction false} AllSpace(s: string, space: char -> bool)
    requires TrimRight(s, space) == ""
    ensures Trim(s, space) == ""
  {
    if s != "" {
      TrimRightBehind([s[0]], s[1..], space);
      assert [s[0]] + s[1..] == s;
      assert TrimRight(s[1..], space) == "";
      assert TrimRight([s[0]], space) == "";
      AllSpace(s[1..], space);
    }
  }

  lemma {:induction false} TrimOfTrimRight(s: string, space: char -> bool)
    requires TrimRight(s, space) != ""
    ensures Trim(TrimRight(s, space), space) == Trim(s, space)
    decreases |s|
  {
    if space(s[|s| - 1]) {
      var front := s[..|s| - 1];
      TrimOfTrimRight(front, space);
      assert s == front + [s[|s| - 1]];
      TrimLeftBehind(front, [s[|s| - 1]], space);
    }
  }

  lemma {:induction false} TrimLeftBehind(s: string, w: string, space: char -> bool)
    requires TrimRight(s, space) != "" && forall c :: c in w ==> space(c)
    ensures Trim(s + w, space) == Trim(s, space)
  {
    if space(s[0]) {
      assert (s + w)[1..] == s[1..] + w;
      assert s == [s[0]] + s[1..];
      TrimRightBehind([s[0]], s[1..], space);
      assert TrimRight([s[0]], space) == "";
      TrimLeftBehind(s[1..], w, space);
    } else {
      TrimRightPad(s, w, space);
    }
  }

  // ------------------------------------------------------- round trip: whole file

  /** No two line breaks in a row, and none at the end. */
  ghost predicate Tight(s: string) {
    && s != "" && s[|s| - 1] != '\n'
    && forall i :: 0 <= i < |s| - 1 ==> !(s[i] == '\n' && s[i + 1] == '\n')
  }

  ghost predicate Solid(s: string) { Tight(s) && s[0] != '\n' }

  /** A separator and what follows it. */
  lemma SplitAtBreak(rest: string)
    requires rest != "" && rest[0] != '\n'
    ensures SplitBlocks("\n\n" + rest) == [""] + SplitBlocks(rest)
  {
    var t := "\n\n" + rest;
    assert t[1..] == "\n" + rest && t[1..][1..] == rest;
    assert DropBreaks(t) == DropBreaks(t[1..]) == DropBreaks(t[1..][1..]) == rest;
    hide DropBreaks;
  }

  /** A character that begins no separator. */
  lemma SplitAtChar(s: string)
    requires |s| >= 2 && !(s[0] == '\n' && s[1] == '\n')
    ensures SplitBlocks(s) == [[s[0]] + SplitBlocks(s[1..])[0]] + SplitBlocks(s[1..])[1..]
  {
  }

  lemma TightTail(p: string)
    requires Tight(p) && |p| > 1
    ensures Tight(p[1..]) && !(p[0] == '\n' && p[1] == '\n')
  {
    forall i | 0 <= i < |p[1..]| - 1 ensures !(p[1..][i] == '\n' && p[1..][i + 1] == '\n') {
      assert p[1..][i] == p[i + 1] && p[1..][i + 1] == p[i + 1 + 1];
    }
    assert !(p[0] == '\n' && p[0 + 1] == '\n');
  }

  lemma {:induction false} SplitFirstBlock(p: string, rest: string)
    requires Tight(p) && rest != "" && rest[0] != '\n'
    ensures SplitBlocks(p + "\n\n" + rest) == [p] + SplitBlocks(rest)
    decreases |p|
  {
    hide SplitBlocks;
    var s := p + "\n\n" + rest;
    if |p| == 1 {
      assert s[1..] == "\n\n" + rest;
      SplitAtBreak(rest);
      SplitAtChar(s);
      assert [s[0]] + "" == p;
    } else {
      assert s[1..] == p[1..] + "\n\n" + rest && s[0] == p[0] && s[1] == p[1];
      TightTail(p);
      SplitFirstBlock(p[1..], rest);
      SplitAtChar(s);
      assert [p[0]] + p[1..] == p;
    }
  }

  lemma {:induction false} SplitOneBlock(p: string)
    requires Tight(p)
    ensures SplitBlocks(p) == [p]
    decreases |p|
  {
    if |p| > 1 {
      TightTail(p);
      SplitOneBlock(p[1..]);
      SplitAtChar(p);
      assert [p[0]] + p[1..] == p;
    }
  }

  lemma {:induction false} SplitJoinedBlocks(blocks: seq<string>)
    requires blocks != [] && forall i :: 0 <= i < |blocks| ==> Solid(blocks[i])
    ensures SplitBlocks(Join(blocks, "\n\n")) == blocks
    ensures blocks[0] != "" && Join(blocks, "\n\n") != "" && Join(blocks, "\n\n")[0] == blocks[0][0]
    decreases |blocks|
  {
    hide SplitBlocks;
    if |blocks| == 1 {
      SplitOneBlock(blocks[0]);
    } else {
      SplitJoinedBlocks(blocks[1..]);
      SplitFirstBlock(blocks[0], Join(blocks[1..], "\n\n"));
      assert [blocks[0]] + blocks[1..] == blocks;
    }
  }

  /** Lines that are not empty and hold no line break make a solid block. */
  lemma {:induction false} JoinSolid(lines: seq<string>)
    requires lines != [] && forall i :: 0 <= i < |lines| ==> lines[i] != "" && '\n' !in lines[i]
    ensures Solid(Join(lines, "\n"))
    decreases |lines|
  {
    if |lines| > 1 {
      JoinSolid(lines[1..]);
      var a, b := lines[0], Join(lines[1..], "\n");
      SolidJoin(a, b);
      assert a + "\n" + b == a + ['\n'] + b;
    } else {
      assert lines[0] != "" && '\n' !in lines[0];
    }
  }

  lemma SolidJoin(a: string, b: string)
    requires Solid(a) && Solid(b)
    ensures Solid(a + ['\n'] + b)
  {
    var s := a + ['\n'] + b;
    forall i | 0 <= i < |s| - 1 ensures !(s[i] == '\n' && s[i + 1] == '\n') {
      if i < |a| - 1 {
        assert s[i] == a[i] && s[i + 1] == a[i + 1];
      } else if i == |a| - 1 {
        assert s[i] == a[i];
      } else if i == |a| {
        assert s[i + 1] == b[0];
      } else {
        assert s[i] == b[i - |a| - 1] && s[i + 1] == b[i - |a| - 1 + 1];
      }
    }
  }

  // Cleaned lines.

  lemma {:induction false} EscapeKeeps(s: string)
    ensures forall c :: c in EscapeArrows(s) ==> c in s
    decreases |s|
  {
    if s != "" {
      if "-->" <= s {
        EscapeKeeps(s[3..]);
        assert s[0] == '-' && s[2] == '>';
      } else {
        EscapeKeeps(s[1..]);
      }
    }
  }

  lemma CleanLineChars(line: string, escapeArrows: bool)
    requires '\n' !in line
    ensures '\n' !in CleanLine(line, escapeArrows)
  {
    hide PyStrip;
    TrimRightEnds(line, c => c == '\r');
    EscapeKeeps(StripReturns(line));
  }

  /** A line that Python does not find blank keeps a character when its carriage returns go. */
  lemma NotBlank(line: string)
    requires PyStrip(line) != ""
    ensures Remove(line, '\r') != ""
  {
    TrimIsTrimmed(line, PySpace);
    var c := PyStrip(line)[0];
    assert c in PyStrip(line);
    RemoveKeeps(line, '\r');
    assert c in Remove(line, '\r');
  }

  lemma {:induction false} CleanedLinesKept(lines: seq<string>, escapeArrows: bool)
    requires forall i :: 0 <= i < |lines| ==> '\n' !in lines[i]
    ensures var r := NoReturns(CleanLines(lines, escapeArrows));
      forall i :: 0 <= i < |r| ==> r[i] != "" && '\n' !in r[i]
    ensures |NoReturns(CleanLines(lines, escapeArrows))| == |CleanLines(lines, escapeArrows)|
  {
    hide CleanLine, PyStrip, Remove, NoReturns;
    NoReturnsNone();
    if lines != [] {
      CleanedLinesKept(lines[1..], escapeArrows);
      assert '\n' !in lines[0];
      var ln := CleanLine(lines[0], escapeArrows);
      CleanLineChars(lines[0], escapeArrows);
      var rest := CleanLines(lines[1..], escapeArrows);
      if PyStrip(ln) != "" {
        NotBlank(ln);
        RemoveKeeps(ln, '\r');
        NoReturnsFront(ln, rest);
        assert CleanLines(lines, escapeArrows) == [ln] + rest;
      } else {
        assert CleanLines(lines, escapeArrows) == rest;
      }
    }
  }

  /** Cleaned text without its carriage returns, as it stands in the file the parser splits. */
  function Stored(c: Cue, vtt: bool): string { Remove(Cleaned(c.text, vtt), '\r') }

  lemma StoredIsSolid(c: Cue, vtt: bool)
    requires Cleaned(c.text, vtt) != ""
    ensures Solid(Stored(c, vtt))
  {
    hide CleanLines, Solid;
    var lines := Split(c.text, '\n');
    SplitPieces(c.text, '\n');
    forall i | 0 <= i < |lines| ensures '\n' !in lines[i] {
      assert lines[i] in lines;
    }
    CleanedLinesKept(lines, vtt);
    RemoveInJoin(CleanedLines(c.text, vtt), "\n");
    JoinSolid(NoReturns(CleanedLines(c.text, vtt)));
  }

  /** The block of a cue in the file the parser splits. */
  function Block(c: Cue, i: nat, vtt: bool): string { Head(c, i, vtt) + ['\n'] + Stored(c, vtt) }

  lemma BlockIsSolid(c: Cue, i: nat, vtt: bool)
    requires Cleaned(c.text, vtt) != ""
    ensures Solid(Block(c, i, vtt)) && IsDigit(Block(c, i, vtt)[0])
  {
    hide TimingLine, Stored, Solid, Decimal, Cleaned, HasArrow;
    var d, t := Decimal(i), TimingLine(c, vtt);
    HeadLines(c, i, vtt);
    TimingLineReadsBack(c, vtt);
    StoredIsSolid(c, vtt);
    LineIsSolid(d);
    LineIsSolid(t);
    SolidJoin(d, t);
    SolidJoin(d + ['\n'] + t, Stored(c, vtt));
  }

  lemma LineIsSolid(s: string)
    requires s != "" && '\n' !in s
    ensures Solid(s)
  {
  }

  function Blocks(cues: seq<Cue>, i: nat, vtt: bool): seq<string> {
    if cues == [] then []
    else (if Cleaned(cues[0].text, vtt) == "" then [] else [Block(cues[0], i, vtt)]) + Blocks(cues[1..], i + 1, vtt)
  }

  /** Blocks as the writer puts them down, each with the empty line that ends it. */
  function Terminated(blocks: seq<string>): string {
    if blocks == [] then "" else blocks[0] + "\n\n" + Terminated(blocks[1..])
  }

  lemma {:induction false} TerminatedIsJoin(blocks: seq<string>)
    requires blocks != []
    ensures Terminated(blocks) == Join(blocks, "\n\n") + "\n\n"
  {
    if |blocks| == 1 {
      assert blocks[1..] == [];
    } else {
      TerminatedIsJoin(blocks[1..]);
      assert blocks[0] + "\n\n" + (Join(blocks[1..], "\n\n") + "\n\n") ==
        blocks[0] + "\n\n" + Join(blocks[1..], "\n\n") + "\n\n";
    }
  }

  lemma EntryIsBlock(c: Cue, i: nat, vtt: bool)
    requires Cleaned(c.text, vtt) != ""
    ensures Remove(Entry(c, i, vtt), '\r') == Block(c, i, vtt) + "\n\n"
  {
    hide TimingLine, Cleaned, Decimal, HasArrow, Remove;
    var text := Cleaned(c.text, vtt);
    var head := Head(c, i, vtt);
    HeadLines(c, i, vtt);
    TimingLineReadsBack(c, vtt);
    assert Entry(c, i, vtt) == head + ['\n'] + text + "\n\n";
    RemoveAppend(head + ['\n'] + text, "\n\n", '\r');
    RemoveAppend(head + ['\n'], text, '\r');
    assert '\r' !in head + ['\n'];
  }

  lemma {:induction false} EntriesAreBlocks(cues: seq<Cue>, i: nat, vtt: bool)
    ensures Remove(Entries(cues, i, vtt), '\r') == Terminated(Blocks(cues, i, vtt))
    decreases |cues|
  {
    hide Block, Cleaned, Remove;
    if cues == [] {
      RemoveNothing();
    } else {
      var c := cues[0];
      EntriesAreBlocks(cues[1..], i + 1, vtt);
      RemoveAppend(Entry(c, i, vtt), Entries(cues[1..], i + 1, vtt), '\r');
      if Cleaned(c.text, vtt) == "" {
        RemoveNothing();
        assert Blocks(cues, i, vtt) == Blocks(cues[1..], i + 1, vtt);
      } else {
        EntryIsBlock(c, i, vtt);
        assert Blocks(cues, i, vtt)[1..] == Blocks(cues[1..], i + 1, vtt);
      }
    }
  }

  lemma RemoveNothing()
    ensures Remove("", '\r') == ""
  {
  }

  /** A block the trimming of the file cannot harm. */
  ghost predicate Sturdy(b: string) {
    && Solid(b) && !JsSpace(b[0])
    && TrimRight(b, JsSpace) != "" && ParseBlock(TrimRight(b, JsSpace)) == ParseBlock(b)
  }

  lemma BlockIsSturdy(c: Cue, i: nat, vtt: bool)
    requires Cleaned(c.text, vtt) != ""
    ensures Sturdy(Block(c, i, vtt))
    ensures ParseBlock(Block(c, i, vtt)) == Some(Cue(Max0(c.start), Max0(c.end), JsTrim(Stored(c, vtt)), 2, None))
  {
    hide Head, Stored, ParseBlock, Solid, JsTrim, Cleaned, TrimRight;
    BlockIsSolid(c, i, vtt);
    BlockReadsBack(c, i, vtt, Stored(c, vtt));
    TrimmedBlockReadsBack(c, i, vtt, Stored(c, vtt));
  }

  lemma VttHeadIsSturdy()
    ensures Sturdy("WEBVTT") && ParseBlock("WEBVTT") == None
  {
    hide Solid, ParseBlock;
    var head := "WEBVTT";
    assert head[0] == 'W' && head[|head| - 1] == 'T';
    NoArrowBlock(head);
    LineIsSolid(head);
  }

  lemma NoArrowBlock(s: string)
    requires '-' !in s && '\n' !in s
    ensures ParseBlock(s) == None
  {
    hide SplitArrows, Split;
    NoArrow(s);
    SplitWhole(s, '\n');
    assert [s][1..] == [];
    assert FirstArrow([s]) == 1;
  }

  /** What the parser should make of a cue: no negative time, text trimmed, position and confidence lost. */
  function Plain(c: Cue): Cue { Cue(Max0(c.start), Max0(c.end), JsTrim(c.text), 2, None) }

  function AllPlain(cues: seq<Cue>): seq<Cue> { if cues == [] then [] else [Plain(cues[0])] + AllPlain(cues[1..]) }

  /** What the parser makes of a written cue. */
  function Reread(cues: seq<Cue>, vtt: bool): seq<Cue> {
    if cues == [] then []
    else
      var c := cues[0];
      (if Cleaned(c.text, vtt) == "" then [] else [Cue(Max0(c.start), Max0(c.end), JsTrim(Stored(c, vtt)), 2, None)])
      + Reread(cues[1..], vtt)
  }

  lemma {:induction false} BlocksReadBack(cues: seq<Cue>, i: nat, vtt: bool)
    ensures var bs := Blocks(cues, i, vtt); forall k :: 0 <= k < |bs| ==> Sturdy(bs[k])
    ensures ParseBlocks(Blocks(cues, i, vtt)) == Reread(cues, vtt)
    decreases |cues|
  {
    hide Block, Cleaned, Sturdy, ParseBlock, JsTrim, Stored;
    if cues != [] {
      var c := cues[0];
      BlocksReadBack(cues[1..], i + 1, vtt);
      var rest := Blocks(cues[1..], i + 1, vtt);
      if Cleaned(c.text, vtt) != "" {
        BlockIsSturdy(c, i, vtt);
        assert ([Block(c, i, vtt)] + rest)[1..] == rest;
      } else {
        assert Blocks(cues, i, vtt) == rest;
        assert Reread(cues, vtt) == Reread(cues[1..], vtt);
      }
    }
  }

  lemma {:induction false} ParseBlocksAppend(a: seq<string>, b: seq<string>)
    ensures ParseBlocks(a + b) == ParseBlocks(a) + ParseBlocks(b)
  {
    hide ParseBlock;
    if a == [] {
      assert a + b == b;
    } else {
      assert (a + b)[1..] == a[1..] + b && (a + b)[0] == a[0];
      ParseBlocksAppend(a[1..], b);
      var first := if ParseBlock(a[0]).Some? then [ParseBlock(a[0]).value] else [];
      assert ParseBlocks(a + b) == first + ParseBlocks(a[1..] + b);
      assert ParseBlocks(a) == first + ParseBlocks(a[1..]);
    }
  }

  lemma TrimmedIsSolid(b: string)
    requires Sturdy(b)
    ensures Solid(TrimRight(b, JsSpace))
  {
    hide ParseBlock;
    var r := TrimRight(b, JsSpace);
    TrimRightEnds(b, JsSpace);
    forall i | 0 <= i < |r| - 1 ensures !(r[i] == '\n' && r[i + 1] == '\n') {
      assert r[i] == b[i] && r[i + 1] == b[i + 1];
    }
  }

  lemma TrimFile(file: string)
    requires file != "" && !JsSpace(file[0])
    ensures JsTrim(file + "\n\n") == TrimRight(file, JsSpace)
  {
    hide TrimRight;
    assert TrimLeft(file + "\n\n", JsSpace) == file + "\n\n";
    TrimRightPad(file, "\n\n", JsSpace);
  }

  /** Trimming a file takes the white space at the end of the last block. */
  lemma TrimTerminated(blocks: seq<string>)
    requires blocks != [] && forall k :: 0 <= k < |blocks| ==> Sturdy(blocks[k])
    ensures
      var n := |blocks| - 1;
      JsTrim(Terminated(blocks)) == Join(blocks[..n] + [TrimRight(blocks[n], JsSpace)], "\n\n")
  {
    hide ParseBlock, Solid, TrimRight, SplitBlocks, Join, JsTrim, Terminated, JsSpace;
    var n := |blocks| - 1;
    assert blocks == blocks[..n] + [blocks[n]];
    assert Sturdy(blocks[n]) && Sturdy(blocks[0]);
    TerminatedIsJoin(blocks);
    SplitJoinedBlocks(blocks);
    TrimFile(Join(blocks, "\n\n"));
    TrimLast(blocks[..n], blocks[n]);
  }

  lemma TrimLast(front: seq<string>, last: string)
    requires TrimRight(last, JsSpace) != ""
    ensures TrimRight(Join(front + [last], "\n\n"), JsSpace) == Join(front + [TrimRight(last, JsSpace)], "\n\n")
  {
    hide TrimRight, Join;
    var rest := TrimRight(last, JsSpace);
    if front == [] {
      assert front + [last] == [last] && front + [rest] == [rest];
      JoinOne(last);
      JoinOne(rest);
    } else {
      JoinAppend(front, [last], "\n\n");
      JoinAppend(front, [rest], "\n\n");
      JoinOne(last);
      JoinOne(rest);
      TrimRightBehind(Join(front, "\n\n") + "\n\n", last, JsSpace);
    }
  }

  lemma JoinOne(s: string)
    ensures Join([s], "\n\n") == s
  {
  }

  /** Trimming and splitting a file of sturdy blocks parses to what the blocks parse to. */
  lemma SturdyBlocksParse(blocks: seq<string>)
    requires blocks != [] && forall k :: 0 <= k < |blocks| ==> Sturdy(blocks[k])
    ensures ParseBlocks(SplitBlocks(JsTrim(Terminated(blocks)))) == ParseBlocks(blocks)
  {
    hide ParseBlock, ParseBlocks, SplitBlocks, Solid, TrimRight, Join, JsTrim, Terminated;
    var n := |blocks| - 1;
    var front, last := blocks[..n], blocks[n];
    var rest := TrimRight(last, JsSpace);
    assert blocks == front + [last];
    TrimTerminated(blocks);
    assert Sturdy(last);
    TrimmedIsSolid(last);
    forall k | 0 <= k < |front + [rest]| ensures Solid((front + [rest])[k]) {
      assert Sturdy(blocks[k]);
    }
    SplitJoinedBlocks(front + [rest]);
    ParseBlocksAppend(front, [rest]);
    ParseBlocksAppend(front, [last]);
    OneBlock(rest);
    OneBlock(last);
  }

  lemma OneBlock(b: string)
    ensures ParseBlocks([b]) == (if ParseBlock(b).Some? then [ParseBlock(b).value] else [])
  {
    hide ParseBlock;
    assert [b][1..] == [];
  }

  /**
   Parsing a written SRT or WebVTT file gives, in order, the cues whose cleaned text is
   not empty, with their times and the trimmed cleaned text. Carriage returns inside a
   line are not kept.
   */
  lemma WorkerRoundTrip(cues: seq<Cue>, vtt: bool)
    ensures ParsedSrt(FileText(cues, vtt)) == Parsed(Reread(cues, vtt), 1280, 720)
  {
    hide Blocks, ParseBlock, ParseBlocks, SplitBlocks, JsTrim, Remove, Entries, Sturdy, Reread;
    var bs := Blocks(cues, 1, vtt);
    BlocksReadBack(cues, 1, vtt);
    EntriesAreBlocks(cues, 1, vtt);
    if vtt {
      var all := ["WEBVTT"] + bs;
      RemoveAppend("WEBVTT\n\n", Entries(cues, 1, vtt), '\r');
      assert "WEBVTT\n\n" == "WEBVTT" + "\n\n";
      assert all[1..] == bs;
      VttHeadIsSturdy();
      SturdyBlocksParse(all);
      ParseBlocksAppend(["WEBVTT"], bs);
      OneBlock("WEBVTT");
    } else if bs == [] {
      assert "" + Entries(cues, 1, vtt) == Entries(cues, 1, vtt);
      EmptyFile();
    } else {
      assert "" + Entries(cues, 1, vtt) == Entries(cues, 1, vtt);
      SturdyBlocksParse(bs);
    }
  }

  lemma EmptyFile()
    ensures ParseBlocks(SplitBlocks(JsTrim(Terminated([])))) == ParseBlocks([]) == []
  {
    var none: seq<string> := [""];
    assert SplitBlocks("") == none;
    assert none[1..] == [];
    NoArrowBlock("");
  }

  /** Text without carriage returns is stored as it was cleaned. */
  lemma StoredWhole(c: Cue, vtt: bool)
    requires '\r' !in c.text
    ensures Stored(c, vtt) == Cleaned(c.text, vtt)
  {
    SplitPieces(c.text, '\n');
    CleanLinesChars(Split(c.text, '\n'), vtt, '\r');
    JoinChars(CleanedLines(c.text, vtt), "\n");
  }

  lemma {:induction false} CleanLinesChars(lines: seq<string>, escapeArrows: bool, x: char)
    requires x !in "->" && forall l :: l in lines ==> x !in l
    ensures forall l :: l in CleanLines(lines, escapeArrows) ==> x !in l
  {
    hide PyStrip;
    if lines != [] {
      CleanLinesChars(lines[1..], escapeArrows, x);
      TrimRightEnds(lines[0], c => c == '\r');
      EscapeKeeps(StripReturns(lines[0]));
      assert x !in lines[0];
      assert "->"[0] == '-' && "->"[1] == '>';
      assert x !in CleanLine(lines[0], escapeArrows);
    }
  }

  // ------------------------------------------------- arrows left in a WebVTT body

  predicate Contains(s: string, p: string) { p <= s || (s != "" && Contains(s[1..], p)) }

  lemma EscapedStart(s: string)
    ensures "->" <= EscapeArrows(s) <==> "->" <= s || "-->" <= s
  {
    if s != "" && !("-->" <= s) {
      var e := EscapeArrows(s);
      assert e[0] == s[0] && e[1..] == EscapeArrows(s[1..]);
      if |s| >= 2 && s[1] != '>' {
        assert "->"[1] == '>' && "-->"[0] == '-';
      }
      if s[1..] != "" && "-->" <= s[1..] {
        assert s[1] == '-';
      }
    }
  }

  /**
   Escaping is one pass, so a body still holds `-->` after it exactly when the text
   holds `--->`.
   */
  lemma {:induction false} ArrowSurvives(s: string)
    ensures Contains(EscapeArrows(s), "-->") <==> Contains(s, "--->")
    decreases |s|
  {
    var e := EscapeArrows(s);
    if s != "" {
      if "-->" <= s {
        var t := s[3..];
        ArrowSurvives(t);
        assert s[0] == '-' && s[1] == '-' && s[2] == '>';
        AfterArrow("--->", s, t);
        assert e == "->" + EscapeArrows(t);
        assert !("-->" <= e) by { assert e[1] == '>' && "-->"[1] == '-'; }
        assert !("-->" <= e[1..]) by { assert e[1..][0] == '>' && "-->"[0] == '-'; }
        assert e[1..][1..] == EscapeArrows(t);
      } else {
        var t := s[1..];
        ArrowSurvives(t);
        EscapedStart(t);
        assert e[0] == s[0] && e[1..] == EscapeArrows(t);
        assert "-->" <= e <==> e[0] == '-' && "->" <= e[1..] by { PrefixStep("-->", e); }
        assert "-->" <= s <==> s[0] == '-' && "->" <= t by { PrefixStep("-->", s); }
        assert "--->" <= s <==> s[0] == '-' && "-->" <= t by { PrefixStep("--->", s); }
      }
    }
  }

  lemma AfterArrow(p: string, s: string, t: string)
    requires p == "--->" && s == "-->" + t
    ensures Contains(s, p) <==> Contains(t, p)
  {
    var s1, s2 := s[1..], s[2..];
    assert s1[1..] == s2 && s2[1..] == t;
    assert !(p <= s) by { assert p[2] == '-' && s[2] == '>'; }
    assert !(p <= s1) by { assert p[1] == '-' && s1[1] == '>'; }
    assert !(p <= s2) by { assert p[0] == '-' && s2[0] == '>'; }
    assert Contains(s, p) <==> Contains(s1, p);
    assert Contains(s1, p) <==> Contains(s2, p);
  }

  lemma PrefixStep(p: string, s: string)
    requires p != "" && s != ""
    ensures p <= s <==> p[0] == s[0] && p[1..] <= s[1..]
    ensures p == "-->" ==> p[0] == '-' && p[1..] == "->"
    ensures p == "--->" ==> p[0] == '-' && p[1..] == "-->"
  {
    if p[0] == s[0] && p[1..] <= s[1..] {
      assert p == [p[0]] + p[1..] && s == [s[0]] + s[1..];
      assert p == s[..|p|];
    }
  }

  lemma FirstFits(s: string, p: string)
    requires p != "" && p <= s
    ensures p[0] in s
  {
    assert p[0] == s[0];
  }

  lemma {:induction false} ContainsFirst(s: string, p: string)
    requires p != "" && Contains(s, p)
    ensures p[0] in s
  {
    if p <= s {
      FirstFits(s, p);
    } else {
      ContainsFirst(s[1..], p);
    }
  }

  lemma FitsInFront(a: string, b: string, p: string)
    requires b == "" || b[0] !in p
    ensures p <= a + b <==> p <= a
  {
    assert |p| > |a| ==> p[|a|] in p;
    assert b != "" ==> (a + b)[|a|] == b[0];
  }

  /** What stands on both sides of a line break does not make a whole. */
  lemma {:induction false} ContainsAcross(a: string, b: string, p: string)
    requires p != "" && '\n' !in p
    ensures Contains(a + "\n" + b, p) <==> Contains(a, p) || Contains(b, p)
  {
    var s := a + "\n" + b;
    assert s == a + ("\n" + b);
    FitsInFront(a, "\n" + b, p);
    if a == "" {
      assert s[1..] == b;
    } else {
      assert s[1..] == a[1..] + "\n" + b;
      ContainsAcross(a[1..], b, p);
    }
  }

  predicate SomeContains(lines: seq<string>, p: string) {
    lines != [] && (Contains(lines[0], p) || SomeContains(lines[1..], p))
  }

  lemma {:induction false} ContainsInJoin(lines: seq<string>, p: string)
    requires p != "" && '\n' !in p
    ensures Contains(Join(lines, "\n"), p) <==> SomeContains(lines, p)
  {
    hide Contains;
    if |lines| == 1 {
      assert !SomeContains(lines[1..], p);
    } else if |lines| > 1 {
      ContainsInJoin(lines[1..], p);
      ContainsAcross(lines[0], Join(lines[1..], "\n"), p);
    } else {
      if Contains("", p) {
        ContainsFirst("", p);
      }
    }
  }

  lemma ContainsStripped(s: string, p: string)
    requires p != "" && '\r' !in p
    ensures Contains(StripReturns(s), p) <==> Contains(s, p)
  {
    var t := StripReturns(s);
    TrimRightEnds(s, c => c == '\r');
    TrimRightRest(s, c => c == '\r');
    assert s == t + s[|t|..];
    ContainsBehind(t, s[|t|..], p);
  }

  lemma {:induction false} ContainsBehind(s: string, w: string, p: string)
    requires p != "" && forall c :: c in w ==> c !in p
    ensures Contains(s + w, p) <==> Contains(s, p)
  {
    FitsInFront(s, w, p);
    if s == "" {
      assert s + w == w;
      if Contains(w, p) {
        ContainsFirst(w, p);
      }
    } else {
      assert (s + w)[1..] == s[1..] + w;
      ContainsBehind(s[1..], w, p);
    }
  }

  /** A line keeps an arrow through the cleaning exactly when it has one with a dash in front. */
  lemma ArrowSurvivesInLine(line: string)
    ensures Contains(CleanLine(line, true), "-->") <==> Contains(line, "--->")
    ensures Contains(CleanLine(line, true), "-->") ==> PyStrip(CleanLine(line, true)) != ""
  {
    hide Contains, EscapeArrows, StripReturns;
    ArrowSurvives(StripReturns(line));
    assert forall c :: c in "--->" ==> c == '-' || c == '>';
    ContainsStripped(line, "--->");
    var ln := CleanLine(line, true);
    if Contains(ln, "-->") {
      ContainsFirst(ln, "-->");
      assert "-->"[0] == '-';
      StripKeeps(ln, '-');
    }
  }

  lemma StripKeeps(s: string, c: char)
    requires c in s && !PySpace(c)
    ensures PyStrip(s) != ""
  {
    hide PySpace, PyStrip;
    var front, behind := TrimParts(s, PySpace);
    StripIsTrim(s);
  }

  lemma StripIsTrim(s: string)
    ensures PyStrip(s) == Trim(s, PySpace)
  {
  }

  lemma {:induction false} ArrowSurvivesInLines(lines: seq<string>)
    ensures SomeContains(CleanLines(lines, true), "-->") <==> SomeContains(lines, "--->")
  {
    hide Contains, CleanLine, PyStrip;
    if lines != [] {
      ArrowSurvivesInLines(lines[1..]);
      ArrowSurvivesInLine(lines[0]);
      var ln, rest := CleanLine(lines[0], true), CleanLines(lines[1..], true);
      assert ([ln] + rest)[1..] == rest;
      assert CleanLines(lines, true) == if PyStrip(ln) != "" then [ln] + rest else rest;
    }
  }

  /** The body of a WebVTT cue holds an arrow exactly when its text holds one with a dash in front. */
  lemma ArrowSurvivesInBody(text: string)
    ensures Contains(Cleaned(text, true), "-->") <==> Contains(text, "--->")
  {
    hide Contains, CleanLines, Split, Join;
    ContainsInJoin(CleanedLines(text, true), "-->");
    ArrowSurvivesInLines(Split(text, '\n'));
    ContainsInJoin(Split(text, '\n'), "--->");
    JoinSplit(text, '\n');
  }

  /** The shortest text that leaves an arrow in the body. */
  lemma LongArrowSurvives()
    ensures Contains(Cleaned("--->", true), "-->")
  {
    hide Cleaned;
    ArrowSurvivesInBody("--->");
  }
}
