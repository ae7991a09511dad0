/**
 Saving as ASS and opening again, more than once (`toASS` and `parseASS` in
 web/src/editor/subtitles.ts:126-254).
 */
module EditorSaves {
  import opened Editor
  import opened EventText
  import opened Sequences
  import opened Text
  import opened Wrappers

  /** The cues after opening what was saved: what the form keeps of the sorted cues. */
  function Reopened(cues: seq<Cue>): seq<Cue> { AllKept(SortByStart(cues)) }

  /** The position read is not written with a tag, and the text that is read puts another one first. */
  predicate Moves(c: Cue) {
    Kept(c).an == 2 && FindAlignment(Kept(c).text).Some? && FindAlignment(Kept(c).text) != Some(2)
  }

  // ------------------------------------------------------------------ sorted cues

  lemma CentisecondGrows(a: int, b: int)
    requires a <= b
    ensures Centisecond(a) <= Centisecond(b)
  {
  }

  lemma {:induction false} AllKeptAt(cues: seq<Cue>)
    ensures |AllKept(cues)| == |cues| && forall k :: 0 <= k < |cues| ==> AllKept(cues)[k] == Kept(cues[k])
  {
    hide Kept;
    if cues != [] {
      AllKeptAt(cues[1..]);
    }
  }

  lemma KeptOrdered(cues: seq<Cue>)
    requires Ordered(cues)
    ensures Ordered(AllKept(cues))
  {
    hide ReadText, ReadAlignment, Centisecond, AllKept;
    AllKeptAt(cues);
    var kept := AllKept(cues);
    forall i, j | 0 <= i < j < |kept| ensures kept[i].start <= kept[j].start {
      CentisecondGrows(cues[i].start, cues[j].start);
    }
  }

  lemma {:induction false} SortOrdered(cues: seq<Cue>)
    requires Ordered(cues)
    ensures SortByStart(cues) == cues
  {
    if cues != [] {
      SortOrdered(cues[1..]);
      assert [cues[0]] + cues[1..] == cues;
    }
  }

  // ------------------------------------------------------------------ kept cues

  lemma KeptIsFaithfulIff(c: Cue)
    ensures Faithful(Kept(c)) <==> !Moves(c)
    ensures Faithful(Kept(Kept(c)))
  {
    hide ReadText, ReadAlignment, FindAlignment, Plain;
    KeptShape(c);
    KeptShape(Kept(c));
    var k := Kept(c);
    TextKept(k.an, k.text);
    AlignmentKept(k.an, k.text);
    PlainHasNoReturns(k.text);
    if k.an == 2 {
      RereadPosition(k.an, k.text);
    }
  }

  lemma PlainHasNoReturns(text: string)
    requires Plain(text)
    ensures Remove(text, '\r') == text && '\r' !in text
  {
  }

  lemma KeptShape(c: Cue)
    ensures OnGrid(Kept(c)) && Plain(Kept(c).text) && 1 <= Kept(c).an <= 9 && Kept(c).confidence == None
  {
    hide ReadText, Plain, FindAlignment;
    ReadIsPlain(c.an, c.text);
    FoundIsDigit(RawText(c.an, c.text));
  }

  /** Without a tag the position is the first one in the text. */
  lemma RereadPosition(an: nat, text: string)
    requires an == 2 && '\r' !in text
    ensures ReadAlignment(an, text) == if FindAlignment(text).Some? then FindAlignment(text).value else 2
  {
    hide FindAlignment, EscapeNewlines, AlignmentTag;
    NothingRemoved(text);
    EscapeKeepsAlignment(text);
    NoTagWritten(an, EscapeNewlines(text));
  }

  lemma {:induction false} NoConfidence(cues: seq<Cue>)
    requires forall c :: c in cues ==> c.confidence == None
    ensures WithoutConfidence(cues) == cues
  {
    if cues != [] {
      assert cues[0] in cues && forall c :: c in cues[1..] ==> c in cues;
      NoConfidence(cues[1..]);
    }
  }

  /** Opened cues are in order, and lack confidences already. */
  lemma ReopenedIsPlain(cues: seq<Cue>)
    ensures SortByStart(Reopened(cues)) == Reopened(cues) == WithoutConfidence(Reopened(cues))
  {
    hide Kept, SortByStart, WithoutConfidence, AllKept;
    var sorted := SortByStart(cues);
    SortIsStable(cues);
    KeptOrdered(sorted);
    SortOrdered(AllKept(sorted));
    AllKeptAt(sorted);
    forall c | c in AllKept(sorted) ensures c.confidence == None {
      var k :| 0 <= k < |sorted| && AllKept(sorted)[k] == c;
      KeptShape(sorted[k]);
    }
    NoConfidence(AllKept(sorted));
  }

  lemma SameCues(cues: seq<Cue>, c: Cue)
    ensures c in SortByStart(cues) <==> c in cues
  {
    hide SortByStart;
    SortIsStable(cues);
    assert c in cues <==> c in multiset(cues);
    assert c in SortByStart(cues) <==> c in multiset(SortByStart(cues));
  }

  lemma AllFaithfulIff(cues: seq<Cue>)
    ensures (forall k :: k in Reopened(cues) ==> Faithful(k)) <==> forall c :: c in cues ==> !Moves(c)
  {
    hide Kept, SortByStart, AllKept, Faithful, Moves;
    var sorted := SortByStart(cues);
    AllKeptAt(sorted);
    forall c ensures c in sorted <==> c in cues {
      SameCues(cues, c);
    }
    forall c ensures Faithful(Kept(c)) <==> !Moves(c) {
      KeptIsFaithfulIff(c);
    }
    if forall k :: k in Reopened(cues) ==> Faithful(k) {
      forall c | c in cues ensures !Moves(c) {
        var i :| 0 <= i < |sorted| && sorted[i] == c;
        assert AllKept(sorted)[i] in Reopened(cues);
      }
    } else {
      var k :| k in Reopened(cues) && !Faithful(k);
      var i :| 0 <= i < |sorted| && AllKept(sorted)[i] == k;
      assert sorted[i] in sorted;
    }
  }

  lemma AllFaithfulTwice(cues: seq<Cue>)
    ensures forall k :: k in Reopened(Reopened(cues)) ==> Faithful(k)
  {
    hide Kept, SortByStart, AllKept, Faithful;
    ReopenedIsPlain(cues);
    var once, sorted := Reopened(cues), SortByStart(cues);
    AllKeptAt(sorted);
    AllKeptAt(once);
    forall k | k in Reopened(once) ensures Faithful(k) {
      var i :| 0 <= i < |once| && AllKept(once)[i] == k;
      KeptIsFaithfulIff(sorted[i]);
    }
  }

  // -------------------------------------------------------------- opening again

  /**
   For any cues: what was saved and opened is saved and opened again as it is if and only if no cue
   that was read with position 2 has another position first in the text that was read.
   */
  lemma SecondSaveExact(cues: seq<Cue>, width: nat, height: nat, parseFloat: ParseFloat)
    requires parseFloat("") == None
    ensures ParsedAss(ToASS(cues, width, height), parseFloat) == Some(Parsed(Reopened(cues), width, height))
    ensures ParsedAss(ToASS(Reopened(cues), width, height), parseFloat)
              == Some(Parsed(Reopened(cues), width, height))
            <==> forall c :: c in cues ==> !Moves(c)
  {
    hide ParsedAss, ToASS, Kept, SortByStart, AllKept, Faithful, Moves, Reopened, WithoutConfidence;
    AssRoundTrip(cues, width, height, parseFloat);
    ReopenedOf(cues);
    AssRoundTripExact(Reopened(cues), width, height, parseFloat);
    ReopenedIsPlain(cues);
    AllFaithfulIff(cues);
  }

  lemma ReopenedOf(cues: seq<Cue>)
    ensures Reopened(cues) == AllKept(SortByStart(cues))
  {
  }

  /** For any cues: from the second opening on saving and opening changes nothing. */
  lemma ThirdSaveSettles(cues: seq<Cue>, width: nat, height: nat, parseFloat: ParseFloat)
    requires parseFloat("") == None
    ensures
      var twice := Reopened(Reopened(cues));
      && ParsedAss(ToASS(Reopened(cues), width, height), parseFloat) == Some(Parsed(twice, width, height))
      && ParsedAss(ToASS(twice, width, height), parseFloat) == Some(Parsed(twice, width, height))
  {
    hide ParsedAss, ToASS, Kept, SortByStart, AllKept, Faithful, Reopened, WithoutConfidence;
    var once := Reopened(cues);
    AssRoundTrip(once, width, height, parseFloat);
    ReopenedOf(once);
    AssRoundTripExact(Reopened(once), width, height, parseFloat);
    ReopenedIsPlain(once);
    AllFaithfulTwice(cues);
  }

  /** A cue with a tag for position 2 and another position in its text moves when it is saved again. */
  lemma TaggedCueMoves()
    ensures
      var c := Cue(0, 1000, "{\\an2}\\an5", 2, None);
      && Kept(c) == Cue(0, 1000, "\\an5", 2, None) && Kept(Kept(c)) == Cue(0, 1000, "\\an5", 5, None) && Moves(c)
  {
    hide ReadText, ReadAlignment, FindAlignment;
    TaggedText();
    BareText();
    assert "{\\an2}\\an5" == "{\\an2}" + AN5;
  }

  const AN5: string := "\\an5"

  lemma BareIsPlain()
    ensures Plain(AN5) && StripTags(AN5) == AN5
  {
    StripExact(AN5);
  }

  lemma BareText()
    ensures ReadText(2, AN5) == AN5 && ReadAlignment(2, AN5) == 5 && FindAlignment(AN5) == Some(5)
  {
    AlignsByChars(AN5);
    AlignmentStep(AN5);
    hide ReadText, ReadAlignment, FindAlignment, Plain, StripTags;
    BareIsPlain();
    PlainHasNoReturns(AN5);
    TextKept(2, AN5);
    RereadPosition(2, AN5);
  }

  /** Texts that are the same once their tags are stripped are read alike. */
  lemma ReadStripped(text: string, other: string)
    requires '\r' !in text && '\r' !in other && StripTags(text) == StripTags(other)
    ensures ReadText(2, text) == ReadText(2, other)
  {
    hide StripTags, ReplaceEscape, JsTrim, EscapeNewlines, AlignmentTag, Remove;
    NothingRemoved(text);
    NothingRemoved(other);
    NoTagWritten(2, EscapeNewlines(text));
    NoTagWritten(2, EscapeNewlines(other));
    StripEscaped(text);
    StripEscaped(other);
  }

  lemma TaggedText()
    ensures ReadText(2, "{\\an2}" + AN5) == AN5 && ReadAlignment(2, "{\\an2}" + AN5) == 2
  {
    hide ReadText, ReadAlignment, FindAlignment, Plain, StripTags;
    var tag := "{\\an2";
    var t := "{\\an2}" + AN5;
    assert t == tag + ['}'] + AN5 && t[6..] == AN5;
    BareText();
    BareIsPlain();
    assert '\r' !in t && '\r' !in AN5;
    IndexOfFirst(tag, '}', AN5);
    StripOpen(t);
    ReadStripped(t, AN5);
    AlignsByChars(t);
    AlignmentStep(t);
    AlignsByChars(t[1..]);
    AlignmentStep(t[1..]);
    RereadPosition(2, t);
  }

  /** A start of five milliseconds is not on the grid: it comes back as ten. */
  lemma OffGridStart(width: nat, height: nat, parseFloat: ParseFloat)
    requires parseFloat("") == None
    ensures
      var cues := [Cue(5, 1000, "a", 2, None)];
      && ParsedAss(ToASS(cues, width, height), parseFloat) != Some(Parsed(cues, width, height))
      && ParsedAss(ToASS(cues, width, height), parseFloat)
         == Some(Parsed([Cue(10, 1000, "a", 2, None)], width, height))
  {
    hide ParsedAss, ToASS, ReadText, ReadAlignment, SortByStart;
    var c := Cue(5, 1000, "a", 2, None);
    AssRoundTrip([c], width, height, parseFloat);
    SortOrdered([c]);
    LetterKept();
    assert [c][1..] == [];
    assert Kept(c) == Cue(10, 1000, "a", 2, None);
    assert AllKept([c]) == [Kept(c)] + AllKept([]) == [Kept(c)];
  }

  lemma LetterKept()
    ensures ReadText(2, "a") == "a" && ReadAlignment(2, "a") == 2
  {
    hide FindAlignment, ReadText, ReadAlignment;
    TextKept(2, "a");
    AlignmentKept(2, "a");
    NoAlignment("a");
  }

  lemma NoAlignment(s: string)
    requires |s| < 4
    ensures FindAlignment(s) == None
  {
  }
}
