/**
 The text column of a Dialogue line (web/src/editor/subtitles.ts:172-185, 244-250): the position tag
 and the escaped text that are written, and what the parser reads of them, for every text.
 */
module EventText {
  import opened Text
  import opened Wrappers

  // --------------------------------------------------------------------- writing

  /** `text.replace(/\n/g, "\\N")`. */
  function EscapeNewlines(s: string): string {
    if s == "" then "" else (if s[0] == '\n' then "\\N" else [s[0]]) + EscapeNewlines(s[1..])
  }

  function AlignmentTag(an: nat): string {
    if an != 0 && an != 2 then "{\\an" + Decimal(an) + "}" else ""
  }

  // --------------------------------------------------------------------- reading

  /** `replace(/\{[^}]*\}/g, "")`. */
  function StripTags(s: string): string
    decreases |s|
  {
    if s == "" then ""
    else if s[0] == '{' && IndexOf(s, '}') < |s| then StripTags(s[IndexOf(s, '}') + 1..])
    else [s[0]] + StripTags(s[1..])
  }

  /** A backslash before one of two letters becomes one character: `replace(/\\N/gi, ...)`. */
  function ReplaceEscape(s: string, letters: string, out: char): string {
    if s == "" then ""
    else if s[0] == '\\' && |s| >= 2 && s[1] in letters then [out] + ReplaceEscape(s[2..], letters, out)
    else [s[0]] + ReplaceEscape(s[1..], letters, out)
  }

  /** The digit captured by the leftmost `\\an([1-9])`. */
  function FindAlignment(s: string): Option<nat> {
    if |s| < 4 then None
    else if s[..3] == "\\an" && '1' <= s[3] <= '9' then Some(DigitValue(s[3]))
    else FindAlignment(s[1..])
  }

  function CleanText(raw: string): string {
    JsTrim(ReplaceEscape(ReplaceEscape(StripTags(raw), "Nn", '\n'), "Hh", ' '))
  }

  /** The column as it is in a file that the parser has freed of carriage returns. */
  function RawText(an: nat, text: string): string { AlignmentTag(an) + EscapeNewlines(Remove(text, '\r')) }

  function ReadText(an: nat, text: string): string { CleanText(RawText(an, text)) }

  function ReadAlignment(an: nat, text: string): nat {
    var found := FindAlignment(RawText(an, text));
    if found.Some? then found.value else 2
  }

  // ------------------------------------------------- each step shortens or keeps

  lemma {:induction false} EscapedChars(s: string)
    ensures '\n' !in EscapeNewlines(s)
    ensures forall c :: c in EscapeNewlines(s) ==> c == '\\' || c == 'N' || c in s
  {
    if s != "" {
      EscapedChars(s[1..]);
    }
  }

  lemma {:induction false} EscapeAppend(a: string, b: string)
    ensures EscapeNewlines(a + b) == EscapeNewlines(a) + EscapeNewlines(b)
  {
    if a == "" {
      assert a + b == b;
    } else {
      assert (a + b)[1..] == a[1..] + b;
      EscapeAppend(a[1..], b);
    }
  }

  lemma {:induction false} EscapeWithoutReturns(s: string)
    ensures Remove(EscapeNewlines(s), '\r') == EscapeNewlines(Remove(s, '\r'))
  {
    if s != "" {
      EscapeWithoutReturns(s[1..]);
      var first, rest := EscapeNewlines([s[0]]), EscapeNewlines(s[1..]);
      assert s == [s[0]] + s[1..];
      assert EscapeNewlines(s) == first + rest by { EscapeAppend([s[0]], s[1..]); }
      RemoveAppend(first, rest, '\r');
      RemoveAppend([s[0]], s[1..], '\r');
      EscapeAppend(Remove([s[0]], '\r'), Remove(s[1..], '\r'));
      OneEscaped(s[0]);
    }
  }

  lemma OneEscaped(c: char)
    ensures Remove(EscapeNewlines([c]), '\r') == EscapeNewlines(Remove([c], '\r'))
  {
    assert [c][1..] == "" && "\\N"[1..] == "N" && "N"[1..] == "";
    assert EscapeNewlines([c]) == if c == '\n' then "\\N" else [c];
  }

  /** An opening brace with a closing one somewhere behind it. */
  predicate HasTag(s: string) { s != "" && ((s[0] == '{' && '}' in s[1..]) || HasTag(s[1..])) }

  /** A backslash just before one of the letters. */
  predicate HasEscape(s: string, letters: string) {
    |s| >= 2 && ((s[0] == '\\' && s[1] in letters) || HasEscape(s[1..], letters))
  }

  lemma FirstClosing(s: string)
    requires s != "" && s[0] == '{'
    ensures '}' in s[1..] <==> IndexOf(s, '}') < |s|
    ensures '}' in s[1..] ==> IndexOf(s, '}') >= 1
  {
    var i := IndexOf(s, '}');
    if i < |s| {
      assert s[1..][i - 1] == '}';
    } else {
      assert s[..i] == s;
      assert forall c :: c in s[1..] ==> c in s;
    }
  }

  /** Stripping tags shortens a text with a tag and keeps every other. */
  lemma {:induction false} StripExact(s: string)
    ensures |StripTags(s)| <= |s|
    ensures HasTag(s) ==> |StripTags(s)| < |s|
    ensures !HasTag(s) ==> StripTags(s) == s
    decreases |s|
  {
    if s != "" {
      if s[0] == '{' {
        FirstClosing(s);
      }
      if s[0] == '{' && IndexOf(s, '}') < |s| {
        StripExact(s[IndexOf(s, '}') + 1..]);
      } else {
        StripExact(s[1..]);
        assert [s[0]] + s[1..] == s;
      }
    }
  }

  lemma StripOpen(s: string)
    requires s != "" && s[0] == '{' && IndexOf(s, '}') < |s|
    ensures StripTags(s) == StripTags(s[IndexOf(s, '}') + 1..])
  {
  }

  lemma StripChar(s: string)
    requires s != "" && (s[0] != '{' || '}' !in s[1..])
    ensures StripTags(s) == [s[0]] + StripTags(s[1..])
  {
    if s[0] == '{' {
      FirstClosing(s);
    }
  }

  /** Tags are stripped alike before and after line breaks are escaped. */
  lemma {:induction false} StripEscaped(s: string)
    ensures StripTags(EscapeNewlines(s)) == EscapeNewlines(StripTags(s))
    decreases |s|
  {
    hide StripTags, EscapeNewlines;
    NothingStripped();
    if s != "" {
      if s[0] == '{' && '}' in s[1..] {
        FirstClosing(s);
        StripOpen(s);
        StripClosed(s);
        StripEscaped(s[IndexOf(s, '}') + 1..]);
      } else {
        StripEscaped(s[1..]);
        StripChar(s);
        EscapeAppend([s[0]], StripTags(s[1..]));
        StripOneEscaped(s);
      }
    }
  }

  lemma NothingStripped()
    ensures StripTags("") == "" && EscapeNewlines("") == ""
  {
  }

  /** The first character of a text, escaped, is kept when it opens no tag. */
  lemma StripOneEscaped(s: string)
    requires s != "" && (s[0] != '{' || '}' !in s[1..])
    ensures StripTags(EscapeNewlines(s)) == EscapeNewlines([s[0]]) + StripTags(EscapeNewlines(s[1..]))
  {
    OneEscape(s);
    EscapedChars(s[1..]);
    hide StripTags, EscapeNewlines;
    var rest := EscapeNewlines(s[1..]);
    if s[0] == '\n' {
      StripBreak(rest);
    } else {
      var e := [s[0]] + rest;
      assert e[1..] == rest;
      StripChar(e);
    }
  }

  lemma OneEscape(s: string)
    requires s != ""
    ensures EscapeNewlines([s[0]]) == if s[0] == '\n' then "\\N" else [s[0]]
    ensures EscapeNewlines(s) == EscapeNewlines([s[0]]) + EscapeNewlines(s[1..])
  {
    assert [s[0]][1..] == "";
  }

  lemma StripBreak(rest: string)
    ensures StripTags("\\N" + rest) == "\\N" + StripTags(rest)
  {
    hide StripTags;
    var e := "\\N" + rest;
    assert e[1..] == "N" + rest && e[1..][1..] == rest;
    StripChar(e);
    StripChar(e[1..]);
  }

  lemma StripClosed(s: string)
    requires s != "" && s[0] == '{' && IndexOf(s, '}') < |s|
    ensures StripTags(EscapeNewlines(s)) == StripTags(EscapeNewlines(s[IndexOf(s, '}') + 1..]))
  {
    hide StripTags, EscapeNewlines, IndexOf;
    var i := IndexOf(s, '}');
    var head, tail := s[..i], s[i + 1..];
    assert s == head + (['}'] + tail);
    EscapeAppend(head, ['}'] + tail);
    EscapeHead(['}'] + tail);
    assert (['}'] + tail)[1..] == tail;
    var p := EscapeNewlines(head);
    var e := EscapeNewlines(s);
    assert EscapeNewlines(['}'] + tail) == ['}'] + EscapeNewlines(tail);
    assert e == p + ['}'] + EscapeNewlines(tail);
    EscapedChars(head);
    IndexOfFirst(p, '}', EscapeNewlines(tail));
    assert e[|p| + 1..] == EscapeNewlines(tail);
    EscapeHead(s);
    StripOpen(e);
  }

  /** The tag of a position goes with the others. */
  lemma TagStripped(an: nat, e: string)
    ensures StripTags(AlignmentTag(an) + e) == StripTags(e)
  {
    if an == 0 || an == 2 {
      assert AlignmentTag(an) + e == e;
    } else {
      hide Decimal;
      ToNatDecimal(an);
      var p := "{\\an" + Decimal(an);
      assert AlignmentTag(an) + e == p + ['}'] + e;
      assert '}' !in p;
      IndexOfFirst(p, '}', e);
      assert (p + ['}'] + e)[|p| + 1..] == e;
    }
  }

  lemma {:induction false} ReplaceExact(s: string, letters: string, out: char)
    ensures |ReplaceEscape(s, letters, out)| <= |s|
    ensures HasEscape(s, letters) ==> |ReplaceEscape(s, letters, out)| < |s|
    ensures !HasEscape(s, letters) ==> ReplaceEscape(s, letters, out) == s
    decreases |s|
  {
    if s != "" {
      if s[0] == '\\' && |s| >= 2 && s[1] in letters {
        ReplaceExact(s[2..], letters, out);
      } else {
        ReplaceExact(s[1..], letters, out);
        assert [s[0]] + s[1..] == s;
      }
    }
  }

  /** Escaped line breaks come back; an escape of the text's own becomes a line break as well. */
  lemma {:induction false} UnescapeExact(s: string)
    ensures var y := ReplaceEscape(EscapeNewlines(s), "Nn", '\n');
      |y| <= |s| && (HasEscape(s, "Nn") ==> |y| < |s|) && (!HasEscape(s, "Nn") ==> y == s)
    decreases |s|
  {
    if s != "" {
      var e, rest := EscapeNewlines(s), EscapeNewlines(s[1..]);
      assert s == [s[0]] + s[1..];
      if s[0] == '\n' {
        UnescapeExact(s[1..]);
        assert e == "\\N" + rest && e[2..] == rest;
      } else if s[0] == '\\' && |s| >= 2 && s[1] in "Nn" {
        UnescapeExact(s[2..]);
        assert s[1..][1..] == s[2..];
        assert e == [s[0]] + ([s[1]] + EscapeNewlines(s[2..])) && e[2..] == EscapeNewlines(s[2..]);
      } else {
        UnescapeExact(s[1..]);
        assert e == [s[0]] + rest && e[1..] == rest;
        assert |s| >= 2 ==> rest[0] == if s[1] == '\n' then '\\' else s[1];
      }
    }
  }

  lemma {:induction false} RemoveExact(s: string)
    ensures |Remove(s, '\r')| <= |s|
    ensures '\r' in s ==> |Remove(s, '\r')| < |s|
    ensures '\r' !in s ==> Remove(s, '\r') == s
  {
    if s != "" {
      RemoveExact(s[1..]);
      assert s == [s[0]] + s[1..];
    }
  }

  lemma TrimExact(s: string)
    ensures |JsTrim(s)| <= |s|
    ensures !Trimmed(s, JsSpace) ==> |JsTrim(s)| < |s|
    ensures Trimmed(s, JsSpace) ==> JsTrim(s) == s
  {
    hide JsSpace;
    TrimLeftEnds(s, JsSpace);
    TrimRightEnds(TrimLeft(s, JsSpace), JsSpace);
    if Trimmed(s, JsSpace) {
      TrimTrimmed(s, JsSpace);
    } else {
      TrimIsTrimmed(s, JsSpace);
    }
  }

  // ----------------------------------------------------------- what comes back

  /** Text the column can carry. */
  predicate Plain(text: string) {
    Trimmed(text, JsSpace) && '\r' !in text && !HasTag(text) && !HasEscape(text, "Nn") && !HasEscape(text, "Hh")
  }

  /** A text is read back exactly when it is trimmed and free of carriage returns, tags and escapes. */
  lemma TextKept(an: nat, text: string)
    ensures ReadText(an, text) == text <==> Plain(text)
  {
    hide Remove, StripTags, ReplaceEscape, JsTrim, EscapeNewlines, AlignmentTag, Trimmed, HasTag, HasEscape;
    var t := Remove(text, '\r');
    RemoveExact(text);
    TagStripped(an, EscapeNewlines(t));
    StripEscaped(t);
    var u := StripTags(t);
    StripExact(t);
    UnescapeExact(u);
    var y := ReplaceEscape(EscapeNewlines(u), "Nn", '\n');
    ReplaceExact(y, "Hh", ' ');
    var z := ReplaceEscape(y, "Hh", ' ');
    TrimExact(z);
    assert ReadText(an, text) == JsTrim(z);
  }

  // What is read is plain.

  lemma {:induction false} StripChars(s: string)
    ensures forall c :: c in StripTags(s) ==> c in s
    decreases |s|
  {
    if s != "" {
      if s[0] == '{' && IndexOf(s, '}') < |s| {
        StripChars(s[IndexOf(s, '}') + 1..]);
      } else {
        StripChars(s[1..]);
      }
    }
  }

  lemma {:induction false} StripLeavesNoTag(s: string)
    ensures !HasTag(StripTags(s))
    decreases |s|
  {
    if s != "" {
      if s[0] == '{' {
        FirstClosing(s);
      }
      if s[0] == '{' && IndexOf(s, '}') < |s| {
        StripLeavesNoTag(s[IndexOf(s, '}') + 1..]);
      } else {
        StripLeavesNoTag(s[1..]);
        StripChars(s[1..]);
        assert StripTags(s)[1..] == StripTags(s[1..]);
      }
    }
  }

  lemma {:induction false} ReplaceChars(s: string, letters: string, out: char)
    ensures forall c :: c in ReplaceEscape(s, letters, out) ==> c in s || c == out
    ensures ReplaceEscape(s, letters, out) != "" ==>
      s != "" && (ReplaceEscape(s, letters, out)[0] == s[0] || ReplaceEscape(s, letters, out)[0] == out)
    decreases |s|
  {
    if s != "" {
      if s[0] == '\\' && |s| >= 2 && s[1] in letters {
        ReplaceChars(s[2..], letters, out);
      } else {
        ReplaceChars(s[1..], letters, out);
      }
    }
  }

  /** Replacing escapes by a blank or a line break brings no tag about. */
  lemma {:induction false} ReplaceKeepsTags(s: string, letters: string, out: char)
    requires !HasTag(s) && out != '{' && out != '}'
    ensures !HasTag(ReplaceEscape(s, letters, out))
    decreases |s|
  {
    if s != "" {
      var r := ReplaceEscape(s, letters, out);
      if s[0] == '\\' && |s| >= 2 && s[1] in letters {
        assert s[1..][1..] == s[2..];
        ReplaceKeepsTags(s[2..], letters, out);
        assert r[1..] == ReplaceEscape(s[2..], letters, out);
      } else {
        ReplaceKeepsTags(s[1..], letters, out);
        ReplaceChars(s[1..], letters, out);
        assert r[1..] == ReplaceEscape(s[1..], letters, out);
      }
    }
  }

  /** It leaves no such escape, and brings about none of another kind. */
  lemma {:induction false} ReplaceLeavesNone(s: string, letters: string, out: char, others: string)
    requires out != '\\' && out !in others && (others == letters || !HasEscape(s, others))
    ensures !HasEscape(ReplaceEscape(s, letters, out), others)
    decreases |s|
  {
    if s != "" {
      var r := ReplaceEscape(s, letters, out);
      if s[0] == '\\' && |s| >= 2 && s[1] in letters {
        assert |s| >= 3 ==> s[1..][1..] == s[2..];
        ReplaceLeavesNone(s[2..], letters, out, others);
        assert r[1..] == ReplaceEscape(s[2..], letters, out);
      } else {
        ReplaceLeavesNone(s[1..], letters, out, others);
        ReplaceChars(s[1..], letters, out);
        assert r[1..] == ReplaceEscape(s[1..], letters, out);
      }
    }
  }

  lemma {:induction false} TagInside(a: string, b: string, c: string)
    requires HasTag(b)
    ensures HasTag(a + b + c)
    decreases |a|, |b|
  {
    var s := a + b + c;
    if a != "" {
      assert s[1..] == a[1..] + b + c;
      TagInside(a[1..], b, c);
    } else {
      assert s[1..] == b[1..] + c;
      if b[0] == '{' && '}' in b[1..] {
        assert '}' in s[1..];
      } else {
        TagInside("", b[1..], c);
        assert "" + b[1..] + c == s[1..];
      }
    }
  }

  lemma {:induction false} EscapeInside(a: string, b: string, c: string, letters: string)
    requires HasEscape(b, letters)
    ensures HasEscape(a + b + c, letters)
    decreases |a|, |b|
  {
    var s := a + b + c;
    if a != "" {
      assert s[1..] == a[1..] + b + c;
      EscapeInside(a[1..], b, c, letters);
    } else if !(b[0] == '\\' && b[1] in letters) {
      EscapeInside("", b[1..], c, letters);
      assert "" + b[1..] + c == s[1..];
    } else {
      assert s[0] == b[0] && s[1] == b[1];
    }
  }

  /** Whatever the column holds, what is read of it is a text that the column can carry. */
  lemma ReadIsPlain(an: nat, text: string)
    ensures Plain(ReadText(an, text))
  {
    hide StripTags, ReplaceEscape, HasTag, HasEscape, JsSpace, Trim, RawText;
    var raw := RawText(an, text);
    RawChars(an, text);
    var s := StripTags(raw);
    StripChars(raw);
    StripLeavesNoTag(raw);
    var y := ReplaceEscape(s, "Nn", '\n');
    ReplaceChars(s, "Nn", '\n');
    ReplaceKeepsTags(s, "Nn", '\n');
    ReplaceLeavesNone(s, "Nn", '\n', "Nn");
    var z := ReplaceEscape(y, "Hh", ' ');
    ReplaceChars(y, "Hh", ' ');
    ReplaceKeepsTags(y, "Hh", ' ');
    ReplaceLeavesNone(y, "Hh", ' ', "Nn");
    ReplaceLeavesNone(y, "Hh", ' ', "Hh");
    var front, behind := TrimParts(z, JsSpace);
    var r := JsTrim(z);
    TrimIsTrimmed(z, JsSpace);
    assert r == ReadText(an, text);
    if HasTag(r) {
      TagInside(front, r, behind);
    }
    if HasEscape(r, "Nn") {
      EscapeInside(front, r, behind, "Nn");
    }
    if HasEscape(r, "Hh") {
      EscapeInside(front, r, behind, "Hh");
    }
  }

  lemma RawChars(an: nat, text: string)
    ensures '\r' !in RawText(an, text)
  {
    RemoveKeeps(text, '\r');
    EscapedChars(Remove(text, '\r'));
    ToNatDecimal(an);
  }

  /** The text begins with a position. */
  predicate AlignsHere(s: string) { |s| >= 4 && s[..3] == "\\an" && '1' <= s[3] <= '9' }

  lemma AlignmentStep(s: string)
    requires s != ""
    ensures FindAlignment(s) == if AlignsHere(s) then Some(DigitValue(s[3])) else FindAlignment(s[1..])
  {
  }

  lemma AlignsByChars(s: string)
    ensures AlignsHere(s) <==> |s| >= 4 && s[0] == '\\' && s[1] == 'a' && s[2] == 'n' && '1' <= s[3] <= '9'
  {
    if |s| >= 4 {
      assert s[..3] == [s[0], s[1], s[2]];
    }
  }

  lemma EscapeHead(s: string)
    requires s != ""
    ensures EscapeNewlines(s) != "" && EscapeNewlines(s)[0] == if s[0] == '\n' then '\\' else s[0]
    ensures s[0] != '\n' ==> EscapeNewlines(s)[1..] == EscapeNewlines(s[1..])
  {
    assert s[0] != '\n' ==> ([s[0]] + EscapeNewlines(s[1..]))[1..] == EscapeNewlines(s[1..]);
  }

  /** A position stands at the front of the escaped text exactly when it stands there in the text. */
  lemma EscapeAligns(s: string)
    requires s != "" && s[0] != '\n'
    ensures AlignsHere(EscapeNewlines(s)) <==> AlignsHere(s)
    ensures AlignsHere(s) ==> EscapeNewlines(s)[3] == s[3]
  {
    hide EscapeNewlines;
    var e := EscapeNewlines(s);
    AlignsByChars(s);
    AlignsByChars(e);
    EscapeHead(s);
    NothingEscaped();
    if |s| >= 2 && s[1] != '\n' {
      EscapeHead(s[1..]);
      if |s| >= 3 && s[2] != '\n' {
        EscapeHead(s[2..]);
        if |s| >= 4 {
          EscapeHead(s[3..]);
        }
      } else if |s| >= 3 {
        EscapeHead(s[2..]);
      }
    } else if |s| >= 2 {
      EscapeHead(s[1..]);
    }
    assert |s| >= 2 ==> e[1..] == EscapeNewlines(s[1..]) && s[1..][1..] == s[2..];
    assert |s| >= 3 ==> s[2..][1..] == s[3..];
  }

  lemma NothingEscaped()
    ensures EscapeNewlines("") == ""
  {
  }

  lemma {:induction false} EscapeKeepsAlignment(s: string)
    ensures FindAlignment(EscapeNewlines(s)) == FindAlignment(s)
  {
    hide FindAlignment;
    if s == "" {
      NothingEscaped();
    } else {
      EscapeKeepsAlignment(s[1..]);
      var e, rest := EscapeNewlines(s), EscapeNewlines(s[1..]);
      AlignmentStep(s);
      AlignmentStep(e);
      if s[0] == '\n' {
        assert e == "\\N" + rest && e[1..] == "N" + rest && e[1..][1..] == rest;
        AlignmentStep(e[1..]);
        AlignsByChars(s);
        AlignsByChars(e);
        AlignsByChars(e[1..]);
      } else {
        EscapeHead(s);
        EscapeAligns(s);
      }
    }
  }

  lemma {:induction false} LeadingDigit(n: nat)
    requires n >= 1
    ensures '1' <= Decimal(n)[0] <= '9'
    ensures n >= 10 ==> |Decimal(n)| >= 2
  {
    if n >= 10 {
      LeadingDigit(n / 10);
    }
  }

  /** A tag gives its own position when that is a digit; a longer number is cut. */
  lemma TagFound(an: nat, e: string)
    requires an != 0 && an != 2
    ensures FindAlignment(AlignmentTag(an) + e).Some? && FindAlignment(AlignmentTag(an) + e).value <= 9
    ensures an <= 9 ==> FindAlignment(AlignmentTag(an) + e) == Some(an)
  {
    LeadingDigit(an);
    var d := Decimal(an);
    assert an <= 9 ==> d == [DigitChar(an)];
    hide Decimal;
    var raw := AlignmentTag(an) + e;
    assert raw == "{" + ("\\an" + d + "}" + e);
    AlignsByChars(raw);
    AlignmentStep(raw);
    var tail := raw[1..];
    assert tail == "\\an" + d + "}" + e;
    assert tail[3] == d[0];
    AlignsByChars(tail);
    AlignmentStep(tail);
    hide FindAlignment;
  }

  lemma {:induction false} FoundIsDigit(s: string)
    ensures FindAlignment(s).Some? ==> 1 <= FindAlignment(s).value <= 9
  {
    if |s| >= 4 {
      FoundIsDigit(s[1..]);
    }
  }

  /** A position the column can carry with the text: 2 is written without a tag. */
  predicate Positioned(an: nat, text: string) {
    1 <= an <= 9 && (an == 2 ==> FindAlignment(text) == None || FindAlignment(text) == Some(2))
  }

  /**
   A position is read back exactly when it is a digit and no other one in the text, freed of carriage
   returns, comes first.
   */
  lemma AlignmentKept(an: nat, text: string)
    ensures ReadAlignment(an, text) == an <==> Positioned(an, Remove(text, '\r'))
  {
    hide FindAlignment, EscapeNewlines, Remove, AlignmentTag;
    var t := Remove(text, '\r');
    if an == 0 || an == 2 {
      EscapeKeepsAlignment(t);
      NoTagWritten(an, EscapeNewlines(t));
      FoundIsDigit(t);
    } else {
      TagFound(an, EscapeNewlines(t));
    }
  }

  lemma NoTagWritten(an: nat, e: string)
    requires an == 0 || an == 2
    ensures AlignmentTag(an) + e == e
  {
  }
}
