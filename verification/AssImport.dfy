/**
 ASS files that the editor did not write (`parseASS` in web/src/editor/subtitles.ts): what it may leave
 out and what else may stand in it. And the size of the letters in a file it writes.
 */
module AssImport {
  import opened Wrappers
  import opened Text
  import opened EventText
  import opened Editor

  /** A line that begins with none of the letters of what the parser looks for: comments, styles, graphics. */
  predicate Other(line: string) { line == "" || LowerAscii(line[0]) !in "pdf[" }

  lemma LineLeftOut(st: AssState, a: seq<string>, line: string, b: seq<string>, parseFloat: ParseFloat)
    requires st.fields != [] && Other(line)
    ensures AssLines(st, a + [line] + b, parseFloat) == AssLines(st, a + b, parseFloat)
  {
    hide AssLine, AssLines;
    assert a + [line] + b == a + ([line] + b);
    AssLinesAppend(st, a, [line] + b, parseFloat);
    AssLinesAppend(st, a, b, parseFloat);
    var mid := AssLines(st, a, parseFloat);
    if mid.Some? {
      AssLinesKeepFields(st, a, parseFloat);
      NeutralLine(mid.value, line, parseFloat);
      AssLinesStep(mid.value, line, b, parseFloat);
    }
  }

  lemma AssLinesKeepFields(st: AssState, a: seq<string>, parseFloat: ParseFloat)
    requires st.fields != []
    ensures AssLines(st, a, parseFloat).Some? ==> AssLines(st, a, parseFloat).value.fields != []
  {
  }

  /** A file of these lines splits into them, freed of carriage returns. */
  lemma LinesRead(lines: seq<string>)
    requires lines != [] && NoBreaks(lines)
    ensures Split(Remove(Join(lines, "\n"), '\r'), '\n') == NoReturns(lines)
  {
    hide Join, Split, Remove;
    RemoveInJoin(lines, "\n");
    var stored := NoReturns(lines);
    forall l | l in stored ensures '\n' !in l {
      StoredNoBreak(lines, l);
    }
    var n := |stored| - 1;
    assert stored == stored[..n] + [stored[n]];
    SplitJoin(stored[..n], stored[n], '\n');
    SplitWhole(stored[n], '\n');
    hide NoBreaks;
  }

  lemma {:induction false} NothingToFree(lines: seq<string>)
    requires AllOneLine(lines)
    ensures NoReturns(lines) == lines && NoBreaks(lines)
  {
    hide Remove;
    if lines != [] {
      assert OneLine(lines[0]);
      assert AllOneLine(lines[1..]);
      NothingToFree(lines[1..]);
      NothingRemovedInLine(lines[0]);
    }
  }

  /** Other lines can stand anywhere in a file, and make no difference. */
  lemma OtherLinesIgnored(a: seq<string>, line: string, b: seq<string>, parseFloat: ParseFloat)
    requires a + b != [] && AllOneLine(a + [line] + b) && Other(line)
    ensures ParsedAss(Join(a + [line] + b, "\n"), parseFloat) == ParsedAss(Join(a + b, "\n"), parseFloat)
  {
    hide Join, Split, Remove, AssLines, OneLine;
    assert AllOneLine(a + b);
    NothingToFree(a + [line] + b);
    NothingToFree(a + b);
    LinesRead(a + [line] + b);
    LinesRead(a + b);
    StartFields();
    LineLeftOut(ASS_START, a, line, b, parseFloat);
  }

  /**
   A file needs no header: its Dialogue lines alone are read, with the usual columns, and the size is
   1280 by 720.
   */
  lemma HeaderNotNeeded(entries: seq<Entry>, parseFloat: ParseFloat)
    requires entries != [] && forall e :: e in entries ==> Printable(e)
    ensures ParsedAss(Join(EventLines(entries), "\n"), parseFloat)
         == Some(Parsed(ReadEntries(entries, parseFloat), 1280, 720))
  {
    hide Join, Split, Remove, AssLines, Printable, EventLines, StoredLines, NoBreaks, NoReturns;
    var lines := EventLines(entries);
    EventLinesChars(entries);
    LinesRead(lines);
    StartFields();
    EventLinesReadBack(ASS_START, entries, parseFloat);
    assert [] + ReadEntries(entries, parseFloat) == ReadEntries(entries, parseFloat);
  }

  /** The letters are a twentieth of the height, to the nearest whole and never less than sixteen. */
  lemma FontSizeIsTwentieth(height: nat)
    ensures FontSize(height) >= 16
    ensures -10 < 20 * FontSize(height) - height <= 10 || (FontSize(height) == 16 && height < 310)
  {
  }
}
