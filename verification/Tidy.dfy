/**
 The clean-up of a subtitle's text (`_normalize` in worker/subextractor/dedup.py:243-247): which white space
 goes, and that nothing else does.
 */
module Tidy {
  import opened Text

  /** The characters `str.splitlines` breaks at. */
  predicate LineBreak(c: char) {
    || '\n' <= c <= '\r' || '\U{1C}' <= c <= '\U{1E}' || c == '\U{85}' || c == '\U{2028}' || c == '\U{2029}'
  }

  /** Pieces between line breaks; a carriage return and line feed leave an empty piece, dropped below. */
  function Pieces(s: string): (r: seq<string>)
    ensures r != []
  {
    if s == "" then [""]
    else
      var rest := Pieces(s[1..]);
      if LineBreak(s[0]) then [""] + rest else [[s[0]] + rest[0]] + rest[1..]
  }

  /** `re.sub(r"[ \t]+", " ", s)`. */
  function Collapse(s: string): string {
    if s == "" then ""
    else if s[0] != ' ' && s[0] != '\t' then [s[0]] + Collapse(s[1..])
    else if |s| > 1 && (s[1] == ' ' || s[1] == '\t') then Collapse(s[1..])
    else " " + Collapse(s[1..])
  }

  function TidyLines(lines: seq<string>): seq<string> {
    if lines == [] then []
    else
      var ln := PyStrip(Collapse(lines[0]));
      (if ln != "" then [ln] else []) + TidyLines(lines[1..])
  }

  /** `_normalize`. */
  function Normalize(text: string): string { Join(TidyLines(Pieces(text)), "\n") }

  // ------------------------------------------------------------------------ words

  /** The maximal stretches without white space. */
  function Words(s: string): (r: seq<string>)
    ensures s != "" && !PySpace(s[0]) ==> r != []
  {
    if s == "" then []
    else
      var rest := Words(s[1..]);
      if PySpace(s[0]) then rest
      else if |s| > 1 && !PySpace(s[1]) then [[s[0]] + rest[0]] + rest[1..]
      else [[s[0]]] + rest
  }

  predicate OnlySpace(s: string) { forall c :: c in s ==> PySpace(c) }

  /** Words of what stands on both sides of white space. */
  lemma {:induction false} WordsAcross(a: string, b: string)
    requires a == "" || b == "" || PySpace(a[|a| - 1]) || PySpace(b[0])
    ensures Words(a + b) == Words(a) + Words(b)
    decreases |a|
  {
    hide PySpace;
    if a == "" {
      assert a + b == b;
    } else if b == "" {
      assert a + b == a;
    } else {
      assert (a + b)[1..] == a[1..] + b;
      assert a[1..] != "" ==> a[1..][|a[1..]| - 1] == a[|a| - 1];
      WordsAcross(a[1..], b);
    }
  }

  lemma {:induction false} NoWords(s: string)
    requires OnlySpace(s)
    ensures Words(s) == []
  {
    if s != "" {
      assert s[0] in s && forall c :: c in s[1..] ==> c in s;
      NoWords(s[1..]);
    }
  }

  /** The words one after the other are the text without its white space. */
  lemma {:induction false} WordsAreAll(s: string)
    ensures Join(Words(s), "") == WithoutSpaces(s, PySpace)
  {
    hide PySpace;
    if s != "" {
      WordsAreAll(s[1..]);
      var rest := Words(s[1..]);
      if !PySpace(s[0]) {
        if |s| > 1 && !PySpace(s[1]) {
          JoinNothing(rest[0], rest[1..]);
          JoinNothing([s[0]] + rest[0], rest[1..]);
          assert [rest[0]] + rest[1..] == rest;
        } else {
          JoinNothing([s[0]], rest);
        }
      }
    }
  }

  lemma JoinNothing(first: string, rest: seq<string>)
    ensures Join([first] + rest, "") == first + Join(rest, "")
  {
    assert ([first] + rest)[1..] == rest;
  }

  lemma WordsStripped(s: string)
    ensures Words(PyStrip(s)) == Words(s)
  {
    hide PySpace, Words, Trim;
    var front, behind := TrimParts(s, PySpace);
    var r := PyStrip(s);
    NoWords(front);
    NoWords(behind);
    assert front != "" ==> front[|front| - 1] in front;
    assert behind != "" ==> behind[0] in behind;
    WordsAcross(front, r);
    WordsAcross(front + r, behind);
  }

  predicate Blank(c: char) { c == ' ' || c == '\t' }

  lemma CollapseFirst(s: string)
    ensures s != "" ==> Collapse(s) != "" && Collapse(s)[0] == (if Blank(s[0]) then ' ' else s[0])
    ensures s == "" ==> Collapse(s) == ""
  {
  }

  lemma {:induction false} WordsCollapsed(s: string)
    ensures Words(Collapse(s)) == Words(s)
    decreases |s|
  {
    if s != "" {
      WordsCollapsed(s[1..]);
      CollapseFirst(s[1..]);
      var r := Collapse(s);
      if !Blank(s[0]) {
        assert r[1..] == Collapse(s[1..]);
      } else if !(|s| > 1 && Blank(s[1])) {
        assert r[1..] == Collapse(s[1..]);
      }
    }
  }

  // ------------------------------------------------------------------------ lines

  function Tidied(line: string): string { PyStrip(Collapse(line)) }

  /** The lines that hold more than white space. */
  function Spoken(lines: seq<string>): seq<string> {
    if lines == [] then [] else (if OnlySpace(lines[0]) then [] else [lines[0]]) + Spoken(lines[1..])
  }

  /** Trimmed, not empty, and no tab and no two blanks in a row. */
  predicate TidyLine(l: string) {
    && l != "" && Trimmed(l, PySpace) && '\t' !in l
    && forall i :: 0 <= i < |l| - 1 ==> !(l[i] == ' ' && l[i + 1] == ' ')
  }

  lemma TidiedWords(line: string)
    ensures Words(Tidied(line)) == Words(line)
    ensures Tidied(line) == "" <==> OnlySpace(line)
  {
    hide PySpace, Words, PyStrip, Collapse;
    WordsCollapsed(line);
    WordsStripped(Collapse(line));
    if OnlySpace(line) {
      NoWords(line);
    } else {
      var c :| c in line && !PySpace(c);
      WordsIn(line, c);
      NothingHasNoWords();
    }
    StripEnds(Collapse(line));
  }

  lemma NothingHasNoWords()
    ensures Words("") == []
  {
  }

  /** What is stripped is empty or has words. */
  lemma StripEnds(s: string)
    ensures PyStrip(s) != "" ==> Words(PyStrip(s)) != []
  {
    TrimIsTrimmed(s, PySpace);
    hide PySpace;
  }

  lemma {:induction false} WordsIn(s: string, c: char)
    requires c in s && !PySpace(c)
    ensures Words(s) != []
  {
    hide PySpace;
    if s[0] != c {
      assert s == [s[0]] + s[1..];
      WordsIn(s[1..], c);
    }
  }

  lemma {:induction false} CollapseIsSingle(s: string)
    ensures '\t' !in Collapse(s)
    ensures var r := Collapse(s); forall i :: 0 <= i < |r| - 1 ==> !(r[i] == ' ' && r[i + 1] == ' ')
    ensures forall c :: c in Collapse(s) ==> c in s || c == ' '
    decreases |s|
  {
    if s != "" {
      CollapseIsSingle(s[1..]);
      CollapseFirst(s[1..]);
      var r, rest := Collapse(s), Collapse(s[1..]);
      if !Blank(s[0]) || !(|s| > 1 && Blank(s[1])) {
        assert r[1..] == rest;
        forall i | 0 <= i < |r| - 1 ensures !(r[i] == ' ' && r[i + 1] == ' ') {
          if i > 0 {
            assert r[i] == rest[i - 1] && r[i + 1] == rest[i - 1 + 1];
          }
        }
      }
    }
  }

  /** A line that is not blank becomes a tidy one. */
  lemma TidiedIsTidy(line: string)
    requires !OnlySpace(line)
    ensures TidyLine(Tidied(line)) && forall c :: c in Tidied(line) ==> c in line || c == ' '
  {
    hide PySpace, Trim, Collapse, Words;
    var s := Collapse(line);
    CollapseIsSingle(line);
    TidiedWords(line);
    TrimIsTrimmed(s, PySpace);
    var front, behind := TrimParts(s, PySpace);
    var r := Tidied(line);
    forall i | 0 <= i < |r| - 1 ensures !(r[i] == ' ' && r[i + 1] == ' ') {
      assert r[i] == s[|front| + i] && r[i + 1] == s[|front| + i + 1];
    }
  }

  lemma {:induction false} CollapseSingle(s: string)
    requires '\t' !in s && forall i :: 0 <= i < |s| - 1 ==> !(s[i] == ' ' && s[i + 1] == ' ')
    ensures Collapse(s) == s
    decreases |s|
  {
    if s != "" {
      forall i | 0 <= i < |s[1..]| - 1 ensures !(s[1..][i] == ' ' && s[1..][i + 1] == ' ') {
        assert s[1..][i] == s[i + 1] && s[1..][i + 1] == s[i + 1 + 1];
      }
      CollapseSingle(s[1..]);
      assert s == [s[0]] + s[1..];
      assert |s| > 1 ==> !(s[0] == ' ' && s[0 + 1] == ' ');
      assert s[0] in s && (|s| > 1 ==> s[1] in s);
    }
  }

  /** A tidy line is left as it is. */
  lemma TidyStays(l: string)
    requires TidyLine(l)
    ensures Tidied(l) == l && !OnlySpace(l)
  {
    hide PySpace, Trim, Collapse;
    CollapseSingle(l);
    TrimTrimmed(l, PySpace);
    assert l[0] in l;
  }

  /** Each line that is not blank is tidied, and none is lost, added or moved. */
  lemma {:induction false} TidiedLines(lines: seq<string>)
    ensures |TidyLines(lines)| == |Spoken(lines)|
    ensures forall k :: 0 <= k < |Spoken(lines)| ==>
      TidyLines(lines)[k] == Tidied(Spoken(lines)[k]) && !OnlySpace(Spoken(lines)[k]) && Spoken(lines)[k] in lines
  {
    hide OnlySpace, Tidied;
    if lines != [] {
      TidiedLines(lines[1..]);
      TidiedWords(lines[0]);
      TidyFirst(lines);
      assert lines == [lines[0]] + lines[1..];
    }
  }

  lemma TidyFirst(lines: seq<string>)
    requires lines != []
    ensures TidyLines(lines) == (if Tidied(lines[0]) != "" then [Tidied(lines[0])] else []) + TidyLines(lines[1..])
  {
  }

  // ------------------------------------------------------------------- whole text

  lemma {:induction false} NoBreakInPieces(s: string)
    ensures forall p, c :: p in Pieces(s) && c in p ==> !LineBreak(c) && c in s
  {
    hide LineBreak;
    if s != "" {
      NoBreakInPieces(s[1..]);
      var rest := Pieces(s[1..]);
      forall p, c | p in Pieces(s) && c in p ensures !LineBreak(c) && c in s {
        if LineBreak(s[0]) {
          assert p == "" || p in rest;
        } else {
          assert p == [s[0]] + rest[0] || p in rest[1..];
          assert rest[0] in rest;
        }
      }
    }
  }

  lemma BreaksAreSpace(c: char)
    ensures LineBreak(c) ==> PySpace(c)
    ensures PySpace('\n') && LineBreak('\n') && !LineBreak(' ')
  {
  }

  /** The words of some lines. */
  function LineWords(lines: seq<string>): seq<string> {
    if lines == [] then [] else Words(lines[0]) + LineWords(lines[1..])
  }

  lemma {:induction false} JoinedWords(lines: seq<string>)
    ensures Words(Join(lines, "\n")) == LineWords(lines)
  {
    hide PySpace, Words;
    BreaksAreSpace('\n');
    if lines == [] {
      NothingHasNoWords();
    } else if |lines| == 1 {
      assert LineWords(lines[1..]) == [];
      assert lines[0] + "" == lines[0];
    } else {
      JoinedWords(lines[1..]);
      NoWords("\n");
      WordsAcross(lines[0], "\n");
      WordsAcross(lines[0] + "\n", Join(lines[1..], "\n"));
    }
  }

  lemma {:induction false} PieceWords(s: string)
    ensures LineWords(Pieces(s)) == Words(s)
  {
    hide PySpace, LineBreak, Words;
    NothingHasNoWords();
    if s == "" {
      assert Pieces(s)[1..] == [];
    } else {
      PieceWords(s[1..]);
      BreaksAreSpace(s[0]);
      var rest := Pieces(s[1..]);
      if LineBreak(s[0]) {
        assert ([""] + rest)[1..] == rest;
        WordsAfterSpace(s);
      } else {
        var first := [s[0]] + rest[0];
        assert ([first] + rest[1..])[1..] == rest[1..];
        FirstPiece(s[1..]);
        if |s| > 1 {
          BreaksAreSpace(s[1]);
        }
        FrontChar(s[0], rest[0], s[1..], LineWords(rest[1..]));
        assert [s[0]] + s[1..] == s;
      }
    }
  }

  lemma WordsAfterSpace(s: string)
    requires s != "" && PySpace(s[0])
    ensures Words(s) == Words(s[1..])
  {
  }

  /** A character in front joins the first word, or does not, whatever comes later. */
  lemma FrontChar(c: char, a: string, s: string, more: seq<string>)
    requires Words(s) == Words(a) + more
    requires if a == "" then s == "" || PySpace(s[0]) else s != "" && s[0] == a[0]
    ensures Words([c] + s) == Words([c] + a) + more
  {
    hide PySpace;
    assert ([c] + s)[1..] == s && ([c] + a)[1..] == a;
    var r := Words(a);
    if r != [] {
      assert (r + more)[0] == r[0] && (r + more)[1..] == r[1..] + more;
    }
  }

  /** The first piece begins as the text does, unless that begins with a line break. */
  lemma FirstPiece(s: string)
    ensures s == "" || LineBreak(s[0]) ==> Pieces(s)[0] == ""
    ensures s != "" && !LineBreak(s[0]) ==> Pieces(s)[0] != "" && Pieces(s)[0][0] == s[0]
  {
  }

  lemma {:induction false} TidyWords(lines: seq<string>)
    ensures LineWords(TidyLines(lines)) == LineWords(lines)
  {
    hide Words, Tidied;
    if lines != [] {
      TidyWords(lines[1..]);
      TidiedWords(lines[0]);
      TidyFirst(lines);
      NothingHasNoWords();
      var rest := TidyLines(lines[1..]);
      assert ([Tidied(lines[0])] + rest)[1..] == rest;
      assert [] + rest == rest;
    }
  }

  /** The clean-up keeps every word, in order, and so every character that is not white space. */
  lemma WordsKept(text: string)
    ensures Words(Normalize(text)) == Words(text)
    ensures WithoutSpaces(Normalize(text), PySpace) == WithoutSpaces(text, PySpace)
  {
    hide Words, TidyLines, Pieces, LineWords, WithoutSpaces;
    JoinedWords(TidyLines(Pieces(text)));
    TidyWords(Pieces(text));
    PieceWords(text);
    WordsAreAll(text);
    WordsAreAll(Normalize(text));
  }

  /** The lines of the clean text are the lines that are not blank, each tidied. */
  lemma LinesKept(text: string)
    ensures
      var lines := Spoken(Pieces(text));
      && (lines == [] <==> Normalize(text) == "")
      && (lines != [] ==>
            var clean := Split(Normalize(text), '\n');
            && |clean| == |lines|
            && forall k :: 0 <= k < |lines| ==> clean[k] == Tidied(lines[k]) && TidyLine(clean[k]))
  {
    hide TidyLines, Spoken, Tidied, TidyLine, Pieces, LineBreak, OnlySpace, Split;
    var lines, tidy := Spoken(Pieces(text)), TidyLines(Pieces(text));
    TidiedLines(Pieces(text));
    NoBreakInPieces(text);
    BreaksAreSpace('\n');
    forall k | 0 <= k < |lines| ensures TidyLine(tidy[k]) && '\n' !in tidy[k] && tidy[k] != "" {
      TidiedIsTidy(lines[k]);
      TidyNotEmpty(tidy[k]);
    }
    if lines != [] {
      var n := |tidy| - 1;
      assert tidy == tidy[..n] + [tidy[n]];
      SplitJoin(tidy[..n], tidy[n], '\n');
      SplitWhole(tidy[n], '\n');
      JoinNotEmpty(tidy);
    }
  }

  lemma TidyNotEmpty(l: string)
    requires TidyLine(l)
    ensures l != ""
  {
  }

  lemma JoinNotEmpty(lines: seq<string>)
    requires lines != [] && lines[0] != ""
    ensures Join(lines, "\n") != ""
  {
  }

  lemma {:induction false} TidyLinesStay(lines: seq<string>)
    requires forall l :: l in lines ==> TidyLine(l)
    ensures TidyLines(lines) == lines
  {
    hide TidyLine, Tidied;
    if lines != [] {
      assert lines[0] in lines && forall l :: l in lines[1..] ==> l in lines;
      TidyLinesStay(lines[1..]);
      TidyStays(lines[0]);
      TidiedWords(lines[0]);
      TidyFirst(lines);
      assert [lines[0]] + lines[1..] == lines;
    }
  }

  lemma {:induction false} PiecesOfJoin(lines: seq<string>)
    requires lines != [] && forall l, c :: l in lines && c in l ==> !LineBreak(c)
    ensures Pieces(Join(lines, "\n")) == lines
  {
    hide LineBreak;
    if |lines| == 1 {
      assert lines[0] in lines;
      OnePiece(lines[0], "");
      assert lines[0] + "" == lines[0];
      assert lines == [lines[0]] + [];
    } else {
      assert lines[0] in lines && forall l :: l in lines[1..] ==> l in lines;
      PiecesOfJoin(lines[1..]);
      BreaksAreSpace('\n');
      OnePiece(lines[0], "\n" + Join(lines[1..], "\n"));
      assert ("\n" + Join(lines[1..], "\n"))[1..] == Join(lines[1..], "\n");
      assert lines[0] + "\n" + Join(lines[1..], "\n") == lines[0] + ("\n" + Join(lines[1..], "\n"));
      assert [lines[0]] + lines[1..] == lines;
    }
  }

  lemma {:induction false} OnePiece(p: string, rest: string)
    requires (forall c :: c in p ==> !LineBreak(c)) && (rest == "" || LineBreak(rest[0]))
    ensures Pieces(p + rest) == [p] + (if rest == "" then [] else Pieces(rest[1..]))
  {
    hide LineBreak;
    var s := p + rest;
    if p == "" {
      assert s == rest;
      assert [""] + [] == [""];
    } else {
      assert s[1..] == p[1..] + rest && p[0] in p && forall c :: c in p[1..] ==> c in p;
      OnePiece(p[1..], rest);
      assert [p[0]] + p[1..] == p;
    }
  }

  /** Cleaning up a clean text changes nothing. */
  lemma NormalizeIdempotent(text: string)
    ensures Normalize(Normalize(text)) == Normalize(text)
  {
    hide TidyLines, Spoken, Tidied, TidyLine, Pieces, LineBreak, OnlySpace;
    var lines, tidy := Spoken(Pieces(text)), TidyLines(Pieces(text));
    TidiedLines(Pieces(text));
    NoBreakInPieces(text);
    BreaksAreSpace('\n');
    forall k | 0 <= k < |lines| ensures TidyLine(tidy[k]) && forall c :: c in tidy[k] ==> !LineBreak(c) {
      TidiedIsTidy(lines[k]);
    }
    if tidy == [] {
      NothingIsTidy();
    } else {
      PiecesOfJoin(tidy);
      TidyLinesStay(tidy);
    }
  }

  lemma NothingIsTidy()
    ensures Normalize("") == "" && Join([], "\n") == ""
  {
    assert Pieces("")[1..] == [];
  }

  /** Where line feeds are the only line breaks, the pieces are the lines. */
  lemma {:induction false} PiecesAreLines(text: string)
    requires forall c :: c in text && LineBreak(c) ==> c == '\n'
    ensures Pieces(text) == Split(text, '\n')
  {
    hide LineBreak;
    BreaksAreSpace('\n');
    if text != "" {
      assert text[0] in text && forall c :: c in text[1..] ==> c in text;
      PiecesAreLines(text[1..]);
    }
  }
}
