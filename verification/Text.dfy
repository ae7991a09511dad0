/**
 Strings as the printers and parsers use them: split and join, trimming, decimal
 numbers, and the clock stamps found by the expression
 `(\d+):(\d+):(\d+)[.,](\d+)`.

 A string is a sequence of characters. JavaScript and Python disagree on which
 characters are white space, so trimming takes the test as a parameter.
 */
module Text {
  import opened Wrappers

  // ---------------------------------------------------------------- white space

  /** What `String.prototype.trim` and `\s` call white space in JavaScript. */
  predicate JsSpace(c: char) {
    || '\t' <= c <= '\r' || c == ' ' || c == '\U{A0}' || c == '\U{1680}'
    || '\U{2000}' <= c <= '\U{200A}' || c == '\U{2028}' || c == '\U{2029}'
    || c == '\U{202F}' || c == '\U{205F}' || c == '\U{3000}' || c == '\U{FEFF}'
  }

  /** What `str.strip` calls white space in Python. */
  predicate PySpace(c: char) {
    || '\t' <= c <= '\r' || '\U{1C}' <= c <= '\U{1F}' || c == ' ' || c == '\U{85}'
    || c == '\U{A0}' || c == '\U{1680}' || '\U{2000}' <= c <= '\U{200A}'
    || c == '\U{2028}' || c == '\U{2029}' || c == '\U{202F}' || c == '\U{205F}'
    || c == '\U{3000}'
  }

  function TrimLeft(s: string, space: char -> bool): string {
    if s == "" || !space(s[0]) then s else TrimLeft(s[1..], space)
  }

  function TrimRight(s: string, space: char -> bool): string {
    if s == "" || !space(s[|s| - 1]) then s else TrimRight(s[..|s| - 1], space)
  }

  function Trim(s: string, space: char -> bool): string {
    TrimRight(TrimLeft(s, space), space)
  }

  function JsTrim(s: string): string { Trim(s, JsSpace) }

  function PyStrip(s: string): string { Trim(s, PySpace) }

  predicate Trimmed(s: string, space: char -> bool) {
    s == "" || (!space(s[0]) && !space(s[|s| - 1]))
  }

  lemma TrimRightEnds(s: string, space: char -> bool)
    ensures var r := TrimRight(s, space); r <= s && (r == "" || !space(r[|r| - 1]))
  {
  }

  lemma TrimLeftEnds(s: string, space: char -> bool)
    ensures var r := TrimLeft(s, space);
      |r| <= |s| && r == s[|s| - |r|..] && (r == "" || !space(r[0]))
  {
  }

  /** What trimming takes is white space. */
  lemma TrimRightRest(s: string, space: char -> bool)
    ensures |TrimRight(s, space)| <= |s| && forall c :: c in s[|TrimRight(s, space)|..] ==> space(c)
  {
  }

  lemma TrimLeftRest(s: string, space: char -> bool)
    ensures |TrimLeft(s, space)| <= |s| && s == s[..|s| - |TrimLeft(s, space)|] + TrimLeft(s, space)
    ensures forall c :: c in s[..|s| - |TrimLeft(s, space)|] ==> space(c)
  {
  }

  /** A string is what trimming leaves, between white space. */
  lemma TrimParts(s: string, space: char -> bool) returns (front: string, behind: string)
    ensures s == front + Trim(s, space) + behind
    ensures forall c :: c in front ==> space(c)
    ensures forall c :: c in behind ==> space(c)
  {
    hide TrimLeft, TrimRight;
    var t := TrimLeft(s, space);
    TrimLeftRest(s, space);
    front := s[..|s| - |t|];
    behind := TrimRightParts(t, space);
    assert s == front + (TrimRight(t, space) + behind);
  }

  lemma TrimRightParts(s: string, space: char -> bool) returns (behind: string)
    ensures s == TrimRight(s, space) + behind
    ensures forall c :: c in behind ==> space(c)
  {
    TrimRightEnds(s, space);
    TrimRightRest(s, space);
    behind := s[|TrimRight(s, space)|..];
  }

  /** Trimming yields a trimmed piece of the string. */
  lemma TrimIsTrimmed(s: string, space: char -> bool)
    ensures Trimmed(Trim(s, space), space)
    ensures forall c :: c in Trim(s, space) ==> c in s
  {
    TrimLeftEnds(s, space);
    TrimRightEnds(TrimLeft(s, space), space);
  }

  lemma TrimTrimmed(s: string, space: char -> bool)
    requires Trimmed(s, space)
    ensures Trim(s, space) == s
  {
  }

  /** White space in front is dropped. */
  lemma {:induction false} TrimLeftPad(w: string, s: string, space: char -> bool)
    requires forall c :: c in w ==> space(c)
    ensures TrimLeft(w + s, space) == TrimLeft(s, space)
  {
    if w == "" {
      assert w + s == s;
    } else {
      assert (w + s)[1..] == w[1..] + s;
      TrimLeftPad(w[1..], s, space);
    }
  }

  /** White space behind is dropped. */
  lemma {:induction false} TrimRightPad(s: string, w: string, space: char -> bool)
    requires forall c :: c in w ==> space(c)
    ensures TrimRight(s + w, space) == TrimRight(s, space)
  {
    if w == "" {
      assert s + w == s;
    } else {
      assert (s + w)[..|s + w| - 1] == s + w[..|w| - 1];
      TrimRightPad(s, w[..|w| - 1], space);
    }
  }

  /** A string with all its white space removed. */
  function WithoutSpaces(s: string, space: char -> bool): string {
    if s == "" then "" else (if space(s[0]) then "" else [s[0]]) + WithoutSpaces(s[1..], space)
  }

  lemma {:induction false} InWithoutSpaces(s: string, space: char -> bool, c: char)
    ensures c in WithoutSpaces(s, space) <==> c in s && !space(c)
  {
    if s != "" {
      InWithoutSpaces(s[1..], space, c);
      assert s == [s[0]] + s[1..];
    }
  }

  // ------------------------------------------------------------- split and join

  /** `s.split(c)` for a one-character separator. */
  function Split(s: string, c: char): (r: seq<string>)
    ensures |r| >= 1
  {
    if s == "" then [""]
    else
      var rest := Split(s[1..], c);
      if s[0] == c then [""] + rest else [[s[0]] + rest[0]] + rest[1..]
  }

  function Join(parts: seq<string>, sep: string): string {
    if |parts| == 0 then ""
    else if |parts| == 1 then parts[0]
    else parts[0] + sep + Join(parts[1..], sep)
  }

  lemma {:induction false} SplitFirst(p: string, c: char, s: string)
    requires c !in p
    ensures Split(p + [c] + s, c) == [p] + Split(s, c)
  {
    var t := p + [c] + s;
    if p == "" {
      assert t[1..] == s;
    } else {
      assert t[1..] == p[1..] + [c] + s;
      SplitFirst(p[1..], c, s);
      assert [p[0]] + p[1..] == p;
    }
  }

  lemma {:induction false} SplitWhole(p: string, c: char)
    requires c !in p
    ensures Split(p, c) == [p]
  {
    if p != "" {
      SplitWhole(p[1..], c);
      assert [p[0]] + p[1..] == p;
    }
  }

  /** Pieces without the separator come back as they are; a last piece that holds it is split on. */
  lemma {:induction false} SplitJoin(parts: seq<string>, last: string, c: char)
    requires forall p :: p in parts ==> c !in p
    ensures Split(Join(parts + [last], [c]), c) == parts + Split(last, c)
  {
    if parts == [] {
      assert parts + [last] == [last];
      assert Join(parts + [last], [c]) == last;
      assert parts + Split(last, c) == Split(last, c);
    } else {
      var rest := parts[1..];
      assert (parts + [last])[1..] == rest + [last];
      assert Join(parts + [last], [c]) == parts[0] + [c] + Join(rest + [last], [c]);
      SplitFirst(parts[0], c, Join(rest + [last], [c]));
      SplitJoin(rest, last, c);
      assert [parts[0]] + (rest + Split(last, c)) == parts + Split(last, c);
    }
  }

  /** Joining what a split produced gives the string back. */
  lemma {:induction false} JoinSplit(s: string, c: char)
    ensures Join(Split(s, c), [c]) == s
  {
    if s != "" {
      var rest := Split(s[1..], c);
      JoinSplit(s[1..], c);
      if s[0] == c {
        assert ([""] + rest)[1..] == rest;
        assert "" + [c] + Join(rest, [c]) == s;
      } else {
        var r := [[s[0]] + rest[0]] + rest[1..];
        if |rest| == 1 {
          assert r == [[s[0]] + rest[0]];
          assert rest[0] == s[1..];
        } else {
          assert r[1..] == rest[1..];
          assert [s[0]] + rest[0] + [c] + Join(rest[1..], [c]) == [s[0]] + (rest[0] + [c] + Join(rest[1..], [c]));
        }
        assert [s[0]] + s[1..] == s;
      }
    }
  }

  /** No piece of a split holds the separator, and no piece holds a character the string does not. */
  lemma {:induction false} SplitPieces(s: string, c: char)
    ensures forall p :: p in Split(s, c) ==> c !in p && forall x :: x in p ==> x in s
  {
    if s != "" {
      SplitPieces(s[1..], c);
      var rest := Split(s[1..], c);
      forall p | p in Split(s, c) ensures c !in p && forall x :: x in p ==> x in s {
        if s[0] == c {
          assert p == "" || p in rest;
        } else {
          assert p == [s[0]] + rest[0] || p in rest[1..];
          assert rest[0] in rest;
        }
      }
    }
  }

  lemma {:induction false} JoinChars(parts: seq<string>, sep: string)
    ensures forall x :: x in Join(parts, sep) ==> x in sep || exists p :: p in parts && x in p
  {
    if |parts| == 1 {
      assert parts[0] in parts;
    } else if |parts| > 1 {
      JoinChars(parts[1..], sep);
      forall x | x in Join(parts, sep) ensures x in sep || exists p :: p in parts && x in p {
        if x in Join(parts[1..], sep) && x !in sep {
          var p :| p in parts[1..] && x in p;
          assert p in parts;
        } else if x in parts[0] {
          assert parts[0] in parts;
        }
      }
    }
  }

  lemma {:induction false} JoinAppend(a: seq<string>, b: seq<string>, sep: string)
    requires a != [] && b != []
    ensures Join(a + b, sep) == Join(a, sep) + sep + Join(b, sep)
  {
    if |a| == 1 {
      assert a + b == [a[0]] + b;
      assert ([a[0]] + b)[1..] == b;
    } else {
      assert (a + b)[1..] == a[1..] + b;
      JoinAppend(a[1..], b, sep);
      assert a[0] + sep + (Join(a[1..], sep) + sep + Join(b, sep)) ==
        a[0] + sep + Join(a[1..], sep) + sep + Join(b, sep);
    }
  }

  /** `s.replace(/c/g, "")`. */
  function Remove(s: string, c: char): (r: string)
    ensures c !in s ==> r == s
  {
    if s == "" then ""
    else if s[0] == c then Remove(s[1..], c)
    else [s[0]] + Remove(s[1..], c)
  }

  lemma {:induction false} RemoveAppend(a: string, b: string, c: char)
    ensures Remove(a + b, c) == Remove(a, c) + Remove(b, c)
  {
    if a == "" {
      assert a + b == b;
    } else {
      assert (a + b)[1..] == a[1..] + b;
      RemoveAppend(a[1..], b, c);
    }
  }

  /** What is removed and nothing else. */
  lemma {:induction false} RemoveKeeps(s: string, c: char)
    ensures forall x :: x in Remove(s, c) <==> x in s && x != c
  {
    if s != "" {
      RemoveKeeps(s[1..], c);
      assert s == [s[0]] + s[1..];
    }
  }

  /** Without carriage returns. */
  function NoReturns(lines: seq<string>): seq<string> {
    if lines == [] then [] else [Remove(lines[0], '\r')] + NoReturns(lines[1..])
  }

  /** What is removed from a file is removed from its lines. */
  lemma {:induction false} RemoveInJoin(lines: seq<string>, sep: string)
    requires '\r' !in sep
    ensures Remove(Join(lines, sep), '\r') == Join(NoReturns(lines), sep)
  {
    NothingRemoved(sep);
    if |lines| == 1 {
      assert NoReturns(lines)[1..] == [];
    } else if |lines| > 1 {
      RemoveInJoin(lines[1..], sep);
      var a, b := lines[0], Join(lines[1..], sep);
      RemoveAppend(a + sep, b, '\r');
      RemoveAppend(a, sep, '\r');
      assert NoReturns(lines)[1..] == NoReturns(lines[1..]);
      assert |NoReturns(lines[1..])| >= 1;
    }
  }

  lemma NoReturnsFront(line: string, rest: seq<string>)
    ensures NoReturns([line] + rest) == [Remove(line, '\r')] + NoReturns(rest)
  {
    assert ([line] + rest)[1..] == rest;
  }

  lemma NoReturnsNone()
    ensures NoReturns([]) == []
  {
  }

  lemma {:induction false} NothingRemoved(s: string)
    requires '\r' !in s
    ensures Remove(s, '\r') == s
  {
    if s != "" {
      NothingRemoved(s[1..]);
      assert s == [s[0]] + s[1..];
    }
  }

  // --------------------------------------------------------------------- search

  /** Where a character is first found; the length when it is not. */
  function IndexOf(s: string, c: char): (i: nat)
    ensures i <= |s| && (i < |s| ==> s[i] == c) && c !in s[..i]
  {
    if s == "" || s[0] == c then 0 else 1 + IndexOf(s[1..], c)
  }

  lemma {:induction false} IndexOfFirst(p: string, c: char, rest: string)
    requires c !in p
    ensures IndexOf(p + [c] + rest, c) == |p|
  {
    var s := p + [c] + rest;
    if p != "" {
      assert s[1..] == p[1..] + [c] + rest;
      IndexOfFirst(p[1..], c, rest);
    }
  }

  // -------------------------------------------------------------------- numbers

  predicate IsDigit(c: char) { '0' <= c <= '9' }

  predicate Digits(s: string) { forall i :: 0 <= i < |s| ==> IsDigit(s[i]) }

  function DigitChar(d: nat): char requires d < 10 { '0' + d as char }

  function DigitValue(c: char): nat requires IsDigit(c) { c as nat - '0' as nat }

  /** The decimal form of a number, without leading zeros. */
  function Decimal(n: nat): (r: string)
    ensures r != ""
  {
    if n < 10 then [DigitChar(n)] else Decimal(n / 10) + [DigitChar(n % 10)]
  }

  /** `parseInt(s, 10)` of a run of digits. */
  function ToNat(s: string): nat
    requires Digits(s)
  {
    if s == "" then 0 else 10 * ToNat(s[..|s| - 1]) + DigitValue(s[|s| - 1])
  }

  lemma {:induction false} ToNatDecimal(n: nat)
    ensures Digits(Decimal(n)) && ToNat(Decimal(n)) == n
  {
    if n >= 10 {
      ToNatDecimal(n / 10);
      assert Decimal(n)[..|Decimal(n)| - 1] == Decimal(n / 10);
    }
  }

  lemma {:induction false} DecimalLength(n: nat, k: nat)
    requires k >= 1 && n < Power10(k)
    ensures |Decimal(n)| <= k
  {
    if n >= 10 {
      DecimalLength(n / 10, k - 1);
    }
  }

  function Power10(k: nat): nat { if k == 0 then 1 else 10 * Power10(k - 1) }

  /** `s.padStart(len, "0")`. */
  function PadStart(s: string, len: nat): (r: string)
    ensures |r| == if |s| < len then len else |s|
    decreases len - |s|
  {
    if |s| >= len then s else PadStart("0" + s, len)
  }

  /** `s.padEnd(len, "0")`. */
  function PadEnd(s: string, len: nat): (r: string)
    ensures |r| == if |s| < len then len else |s|
    ensures Digits(s) ==> Digits(r)
    decreases len - |s|
  {
    if |s| >= len then s else PadEnd(s + "0", len)
  }

  function Pad(n: nat, len: nat): string { PadStart(Decimal(n), len) }

  lemma {:induction false} ToNatZero(s: string)
    requires Digits(s)
    ensures Digits("0" + s) && ToNat("0" + s) == ToNat(s)
  {
    var t := "0" + s;
    if s == "" {
      assert t[..0] == "";
    } else {
      assert t[..|t| - 1] == "0" + s[..|s| - 1];
      ToNatZero(s[..|s| - 1]);
    }
  }

  lemma {:induction false} ToNatPadStart(s: string, len: nat)
    requires Digits(s)
    ensures Digits(PadStart(s, len)) && ToNat(PadStart(s, len)) == ToNat(s)
    decreases len - |s|
  {
    if |s| < len {
      ToNatZero(s);
      ToNatPadStart("0" + s, len);
    }
  }

  /** A padded number reads back, and has exactly the padded width when it fits. */
  lemma ToNatPad(n: nat, len: nat)
    ensures Digits(Pad(n, len)) && ToNat(Pad(n, len)) == n && Pad(n, len) != ""
    ensures len >= 1 && n < Power10(len) ==> |Pad(n, len)| == len
  {
    ToNatDecimal(n);
    ToNatPadStart(Decimal(n), len);
    if len >= 1 && n < Power10(len) {
      DecimalLength(n, len);
    }
  }

  // --------------------------------------------------------------------- stamps

  /** Length of the digits a string starts with. */
  function DigitRun(s: string): (n: nat)
    ensures n <= |s| && Digits(s[..n])
  {
    if s == "" || !IsDigit(s[0]) then 0 else 1 + DigitRun(s[1..])
  }

  lemma {:induction false} DigitRunStops(ds: string, rest: string)
    requires Digits(ds)
    requires rest == "" || !IsDigit(rest[0])
    ensures DigitRun(ds + rest) == |ds|
  {
    if ds == "" {
      assert ds + rest == rest;
    } else {
      assert (ds + rest)[1..] == ds[1..] + rest;
      DigitRunStops(ds[1..], rest);
    }
  }

  /** The four captured groups. */
  datatype Stamp = Stamp(hours: nat, minutes: nat, seconds: nat, fraction: string)

  /** The captured digits and what follows the separator, when one of `seps` ends the run. */
  function TakeField(s: string, seps: string): (r: Option<(nat, string)>)
    ensures r.Some? ==> |r.value.1| < |s|
  {
    var n := DigitRun(s);
    if n == 0 || n == |s| || s[n] !in seps then None else Some((ToNat(s[..n]), s[n + 1..]))
  }

  /** The expression matched at the front of the string. */
  function StampAt(s: string): (r: Option<Stamp>)
    ensures r.Some? ==> Digits(r.value.fraction)
  {
    match TakeField(s, ":")
    case None => None
    case Some((h, s1)) =>
      match TakeField(s1, ":")
      case None => None
      case Some((m, s2)) =>
        match TakeField(s2, ".,")
        case None => None
        case Some((sec, s3)) =>
          var n := DigitRun(s3);
          if n == 0 then None else Some(Stamp(h, m, sec, s3[..n]))
  }

  /** The leftmost match in the string. */
  function FindStamp(s: string): (r: Option<Stamp>)
    ensures r.Some? ==> Digits(r.value.fraction)
  {
    if StampAt(s).Some? then StampAt(s) else if s == "" then None else FindStamp(s[1..])
  }

  lemma TakeFieldOf(ds: string, sep: char, rest: string, seps: string)
    requires Digits(ds) && ds != "" && !IsDigit(sep) && sep in seps
    ensures TakeField(ds + [sep] + rest, seps) == Some((ToNat(ds), rest))
  {
    var s := ds + [sep] + rest;
    assert s == ds + ([sep] + rest);
    DigitRunStops(ds, [sep] + rest);
    assert s[..|ds|] == ds;
    assert s[|ds| + 1..] == rest;
  }

  /** Four fields printed as a stamp. */
  function StampText(h: string, m: string, s: string, sep: char, f: string): string {
    h + [':'] + (m + [':'] + (s + [sep] + f))
  }

  /** A printed stamp is found, with its fields. */
  lemma StampFound(h: string, m: string, s: string, sep: char, f: string)
    requires Digits(h) && Digits(m) && Digits(s) && Digits(f)
    requires h != "" && m != "" && s != "" && f != "" && sep in ".,"
    ensures FindStamp(StampText(h, m, s, sep, f)) == Some(Stamp(ToNat(h), ToNat(m), ToNat(s), f))
  {
    var s2 := s + [sep] + f;
    var s1 := m + [':'] + s2;
    var t := h + [':'] + s1;
    assert TakeField(t, ":") == Some((ToNat(h), s1)) by { TakeFieldOf(h, ':', s1, ":"); }
    assert TakeField(s1, ":") == Some((ToNat(m), s2)) by { TakeFieldOf(m, ':', s2, ":"); }
    assert TakeField(s2, ".,") == Some((ToNat(s), f)) by { TakeFieldOf(s, sep, f, ".,"); }
    assert DigitRun(f) == |f| && f[..|f|] == f by {
      DigitRunStops(f, "");
      assert f + "" == f;
    }
    assert StampAt(t) == Some(Stamp(ToNat(h), ToNat(m), ToNat(s), f));
  }

  /** A stamp begins and ends with a digit and holds digits, colons and its separator only. */
  lemma StampChars(h: string, m: string, s: string, sep: char, f: string)
    requires Digits(h) && Digits(m) && Digits(s) && Digits(f)
    requires h != "" && f != ""
    ensures var t := StampText(h, m, s, sep, f);
      && t != "" && IsDigit(t[0]) && IsDigit(t[|t| - 1])
      && forall c :: c in t ==> IsDigit(c) || c == ':' || c == sep
  {
    var t := StampText(h, m, s, sep, f);
    assert t[0] == h[0];
    assert t[|t| - 1] == f[|f| - 1];
  }
}
