/**
 What the worker's cleaning of a cue's text keeps (`_clean_block` in worker/subextractor/formats.py:18-31), line
 by line and for whole files read back by the editor.
 */
module Cleaning {
  import opened Editor
  import opened Srt
  import opened Text
  import opened Tidy
  import opened Wrappers

  // ------------------------------------------------------------------------ lines

  /** The line without the carriage returns at its end. */
  predicate FreedOfReturns(line: string, freed: string) {
    && freed <= line && (forall c :: c in line[|freed|..] ==> c == '\r')
    && (freed == "" || freed[|freed| - 1] != '\r')
  }

  lemma StrippedIsFreed(line: string)
    ensures FreedOfReturns(line, StripReturns(line))
  {
    TrimRightEnds(line, c => c == '\r');
    TrimRightRest(line, c => c == '\r');
  }

  lemma StripEmpty(s: string)
    ensures PyStrip(s) == "" <==> OnlySpace(s)
  {
    hide PySpace, Trim;
    var front, behind := TrimParts(s, PySpace);
    TrimIsTrimmed(s, PySpace);
    var r := PyStrip(s);
    if r != "" {
      assert r[0] in r && r[0] in s;
    }
  }

  lemma ReturnIsSpace()
    ensures PySpace('\r') && !PySpace('-') && !PySpace('>')
  {
  }

  lemma FreedSpaces(line: string, freed: string)
    requires FreedOfReturns(line, freed)
    ensures OnlySpace(freed) <==> OnlySpace(line)
  {
    ReturnIsSpace();
    hide PySpace;
    assert line == freed + line[|freed|..];
  }

  lemma {:induction false} EscapeSpaces(s: string)
    ensures OnlySpace(EscapeArrows(s)) <==> OnlySpace(s)
    decreases |s|
  {
    ReturnIsSpace();
    hide PySpace;
    if s != "" {
      if "-->" <= s {
        assert s[0] == '-' && s[0] in s;
        assert EscapeArrows(s)[0] == '-' && EscapeArrows(s)[0] in EscapeArrows(s);
      } else {
        EscapeSpaces(s[1..]);
        assert s == [s[0]] + s[1..];
      }
    }
  }

  lemma {:induction false} NothingEscaped(s: string)
    requires !Contains(s, "-->")
    ensures EscapeArrows(s) == s
    decreases |s|
  {
    if s != "" {
      NothingEscaped(s[1..]);
      assert s == [s[0]] + s[1..];
    }
  }

  /** Each arrow found from the left becomes a short one. */
  lemma {:induction false} EscapeShortens(a: string, b: string)
    requires !Contains(a + "--", "-->")
    ensures EscapeArrows(a + "-->" + b) == a + "->" + EscapeArrows(b)
    decreases |a|
  {
    var s := a + "-->" + b;
    if a == "" {
      assert "-->" <= s && s[3..] == b;
    } else {
      assert (a + "--")[1..] == a[1..] + "--";
      assert s[1..] == a[1..] + "-->" + b;
      EscapeShortens(a[1..], b);
      FrontArrow(a, b);
      assert [a[0]] + (a[1..] + "->" + EscapeArrows(b)) == a + "->" + EscapeArrows(b);
    }
  }

  lemma FrontArrow(a: string, b: string)
    requires a != "" && !("-->" <= a + "--")
    ensures !("-->" <= a + "-->" + b)
  {
    var s, t := a + "-->" + b, a + "--";
    if |a| == 1 {
      assert s[2] == '-' && "-->"[2] == '>';
    } else {
      assert s[..3] == t[..3];
    }
  }

  /** What becomes of a line that is not blank. */
  ghost predicate CleanedFrom(line: string, clean: string, vtt: bool) {
    && (vtt ==> exists freed :: FreedOfReturns(line, freed) && clean == EscapeArrows(freed)
                               && (!Contains(line, "-->") ==> clean == freed))
    && (!vtt ==> exists freed :: FreedOfReturns(line, freed)
                                && clean == if PyStrip(freed) == "-->" then "->" else freed)
  }

  lemma LineCleaned(line: string, vtt: bool)
    ensures PyStrip(CleanLine(line, vtt)) == "" <==> OnlySpace(line)
    ensures CleanedFrom(line, CleanLine(line, vtt), vtt)
  {
    var freed, clean := StripReturns(line), CleanLine(line, vtt);
    StrippedIsFreed(line);
    FreedSpaces(line, freed);
    StripEmpty(clean);
    hide StripReturns, OnlySpace, PySpace, FreedOfReturns;
    if vtt {
      EscapeSpaces(freed);
      ContainsStripped(line, "-->");
      if !Contains(line, "-->") {
        NothingEscaped(freed);
      }
    } else if PyStrip(freed) == "-->" {
      ShortArrow(freed);
    }
  }

  lemma ShortArrow(freed: string)
    requires PyStrip(freed) == "-->"
    ensures !OnlySpace(freed) && !OnlySpace("->")
  {
    StripEmpty(freed);
    ReturnIsSpace();
    assert "->"[0] == '-' && "->"[0] in "->";
  }

  /** The cleaned lines are the lines that are not blank, in order, each cleaned; no other is lost or added. */
  lemma {:induction false} LinesCleaned(lines: seq<string>, vtt: bool)
    ensures |CleanLines(lines, vtt)| == |Spoken(lines)|
    ensures forall k :: 0 <= k < |Spoken(lines)| ==> CleanedFrom(Spoken(lines)[k], CleanLines(lines, vtt)[k], vtt)
  {
    hide CleanLine, OnlySpace, CleanedFrom, PyStrip;
    if lines != [] {
      LinesCleaned(lines[1..], vtt);
      LineCleaned(lines[0], vtt);
    }
  }

  /**
   For every text: the cleaned text is, line by line, the lines of the text that are not blank, freed of
   the carriage returns at their ends. In an SRT only a line that is just an arrow is changed, and in a
   WebVTT only a line that holds one.
   */
  lemma TextCleaned(text: string, vtt: bool)
    ensures
      var lines := Spoken(Split(text, '\n'));
      && (Cleaned(text, vtt) == "" <==> lines == [])
      && (lines != [] ==>
            var clean := Split(Cleaned(text, vtt), '\n');
            |clean| == |lines| && forall k :: 0 <= k < |lines| ==> CleanedFrom(lines[k], clean[k], vtt))
  {
    hide CleanLines, Spoken, CleanedFrom, Split;
    var lines, clean := Split(text, '\n'), CleanedLines(text, vtt);
    LinesCleaned(lines, vtt);
    SplitPieces(text, '\n');
    WithoutBreaks(lines, vtt);
    if clean != [] {
      var n := |clean| - 1;
      assert clean == clean[..n] + [clean[n]];
      SplitJoin(clean[..n], clean[n], '\n');
      SplitWhole(clean[n], '\n');
      assert clean[0] in clean;
      JoinNotEmpty(clean);
    }
  }

  lemma {:induction false} WithoutBreaks(lines: seq<string>, vtt: bool)
    requires forall l :: l in lines ==> '\n' !in l
    ensures forall l :: l in CleanLines(lines, vtt) ==> '\n' !in l && l != ""
  {
    hide PyStrip, CleanLine;
    if lines != [] {
      assert lines[0] in lines && forall l :: l in lines[1..] ==> l in lines;
      WithoutBreaks(lines[1..], vtt);
      CleanLineChars(lines[0], vtt);
      NothingStripped();
    }
  }

  lemma NothingStripped()
    ensures PyStrip("") == ""
  {
  }

  // ------------------------------------------------------------------- clean texts

  /** No blank line, no carriage return and no arrow. */
  predicate Clean(text: string) {
    && '\r' !in text && !Contains(text, "-->")
    && forall line :: line in Split(text, '\n') ==> !OnlySpace(line)
  }

  lemma CleanLineStays(line: string, vtt: bool)
    requires '\r' !in line && !Contains(line, "-->")
    ensures CleanLine(line, vtt) == line
  {
    assert line != "" ==> line[|line| - 1] in line;
    assert StripReturns(line) == line;
    NothingEscaped(line);
    if PyStrip(line) == "-->" {
      ArrowInside(line);
    }
  }

  lemma ArrowInside(line: string)
    requires PyStrip(line) == "-->"
    ensures Contains(line, "-->")
  {
    hide PySpace, Trim;
    var front, behind := TrimParts(line, PySpace);
    assert line == front + ("-->" + behind);
    ContainsBehindFront(front, "-->" + behind, "-->");
  }

  lemma {:induction false} ContainsBehindFront(front: string, s: string, p: string)
    requires p <= s
    ensures Contains(front + s, p)
  {
    if front == "" {
      assert front + s == s;
    } else {
      assert (front + s)[1..] == front[1..] + s;
      ContainsBehindFront(front[1..], s, p);
    }
  }

  lemma {:induction false} CleanLinesStay(lines: seq<string>, vtt: bool)
    requires forall l :: l in lines ==> '\r' !in l && !Contains(l, "-->") && !OnlySpace(l)
    ensures CleanLines(lines, vtt) == lines
  {
    hide CleanLine, PyStrip, Contains, OnlySpace;
    if lines != [] {
      assert lines[0] in lines && forall l :: l in lines[1..] ==> l in lines;
      CleanLinesStay(lines[1..], vtt);
      CleanLineStays(lines[0], vtt);
      LineCleaned(lines[0], vtt);
      assert [lines[0]] + lines[1..] == lines;
    }
  }

  lemma {:induction false} LinesHold(lines: seq<string>, p: string)
    requires !SomeContains(lines, p)
    ensures forall l :: l in lines ==> !Contains(l, p)
  {
    hide Contains;
    if lines != [] {
      LinesHold(lines[1..], p);
      assert lines == [lines[0]] + lines[1..];
    }
  }

  /** A clean text is left as it is, in both formats. */
  lemma CleanStays(text: string, vtt: bool)
    requires Clean(text)
    ensures Cleaned(text, vtt) == text && text != ""
  {
    hide Contains, CleanLines, OnlySpace, Split, Join;
    var lines := Split(text, '\n');
    SplitPieces(text, '\n');
    JoinSplit(text, '\n');
    ContainsInJoin(lines, "-->");
    LinesHold(lines, "-->");
    CleanLinesStay(lines, vtt);
    NothingSplit();
    assert text == "" ==> lines == [""];
    assert lines != [] && lines[0] in lines;
  }

  lemma NothingSplit()
    ensures Split("", '\n') == [""] && OnlySpace("")
  {
  }

  // ------------------------------------------------------------------------- files

  lemma {:induction false} CleanReread(cues: seq<Cue>, vtt: bool)
    requires forall c :: c in cues ==> Clean(c.text)
    ensures Reread(cues, vtt) == AllPlain(cues)
  {
    hide Clean, Cleaned, Stored, JsTrim;
    if cues != [] {
      var c := cues[0];
      assert c in cues && forall d :: d in cues[1..] ==> d in cues;
      CleanReread(cues[1..], vtt);
      CleanStays(c.text, vtt);
      CleanStored(c, vtt);
    }
  }

  lemma CleanStored(c: Cue, vtt: bool)
    requires Clean(c.text)
    ensures Stored(c, vtt) == c.text
  {
    CleanStays(c.text, vtt);
    NothingRemoved(c.text);
  }

  /** Cues with clean texts that the worker writes as SRT or WebVTT come back with their times and texts. */
  lemma CleanCuesComeBack(cues: seq<Cue>, vtt: bool)
    requires forall c :: c in cues ==> Clean(c.text)
    ensures ParsedSrt(FileText(cues, vtt)) == Parsed(AllPlain(cues), 1280, 720)
  {
    hide Clean, ParsedSrt, FileText, Reread;
    WorkerRoundTrip(cues, vtt);
    CleanReread(cues, vtt);
  }
}
