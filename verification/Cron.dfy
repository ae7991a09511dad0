/**
 The five-field schedule of the cleanup (api/internal/cronspec/cronspec.go:25-114): a mask of
 bits per field against sets of minutes, hours and days.

 Integers are 64 bits wide and the loop variable wraps around; a shift by 64 or more gives 0.
 */
module Cron {
  import opened Wrappers
  import opened Text

  const HALF := 0x8000_0000_0000_0000
  const WORD := 2 * HALF

  // ------------------------------------------------------------------------- bits

  function And(a: bv64, b: bv64): bv64 { a & b }

  function Or(a: bv64, b: bv64): bv64 { a | b }

  function Double(a: bv64): bv64 { a << 1 }

  /** `1 << v`. */
  function One(v: nat): bv64 { if v == 0 then 1 else Double(One(v - 1)) }

  /** `1 << uint(v)`: a negative value becomes a shift far beyond the word. */
  function ShiftOne(v: int): bv64 { if v < 0 then 0 else One(v) }

  predicate Bit(mask: bv64, v: nat) { And(mask, One(v)) != 0 }

  lemma DoubleFacts(a: bv64, b: bv64)
    ensures And(Double(a), Double(b)) == Double(And(a, b)) && And(1, Double(a)) == 0 && Double(0) == 0
  {
  }

  lemma AndFacts(a: bv64, b: bv64)
    ensures And(a, b) == And(b, a) && And(a, a) == a && And(0, a) == 0 && Or(a, 0) == a
  {
  }

  lemma RawDistribute(m: bv64, a: bv64, b: bv64)
    ensures (m | a) & b == (m & b) | (a & b)
  {
  }

  lemma AndIs(a: bv64, b: bv64)
    ensures And(a, b) == a & b
  {
  }

  lemma OrIs(a: bv64, b: bv64)
    ensures Or(a, b) == a | b
  {
  }

  lemma Distribute(m: bv64, a: bv64, b: bv64)
    ensures And(Or(m, a), b) == Or(And(m, b), And(a, b))
  {
    hide And, Or;
    RawDistribute(m, a, b);
    OrIs(m, a);
    AndIs(m, b);
    AndIs(a, b);
    AndIs(m | a, b);
    OrIs(m & b, a & b);
  }

  lemma RawOrZero(a: bv64, b: bv64)
    ensures a | b == 0 <==> a == 0 && b == 0
  {
  }

  lemma OrZero(a: bv64, b: bv64)
    ensures Or(a, b) == 0 <==> a == 0 && b == 0
  {
    RawOrZero(a, b);
  }

  lemma TopBit()
    ensures One(63) == 0x8000_0000_0000_0000
  {
    assert One(8) == 0x100;
    assert One(16) == 0x1_0000;
    assert One(24) == 0x100_0000;
    assert One(32) == 0x1_0000_0000;
    assert One(40) == 0x100_0000_0000;
    assert One(48) == 0x1_0000_0000_0000;
    assert One(56) == 0x100_0000_0000_0000;
  }

  lemma {:induction false} OneNonzero(u: nat)
    requires u < 64
    ensures One(u) != 0
    decreases 64 - u
  {
    hide Double;
    if u == 63 {
      TopBit();
    } else {
      OneNonzero(u + 1);
      DoubleFacts(0, 0);
    }
  }

  lemma {:induction false} OnesDisjoint(u: nat, v: nat)
    requires u < v
    ensures And(One(u), One(v)) == 0
  {
    hide And, Double;
    if u > 0 {
      OnesDisjoint(u - 1, v - 1);
      DoubleFacts(One(u - 1), One(v - 1));
    } else {
      DoubleFacts(One(v - 1), 0);
    }
  }

  lemma OnesMeet(v: nat, u: nat)
    requires u < 64
    ensures And(One(v), One(u)) != 0 <==> u == v
  {
    hide *;
    if u < v {
      OnesDisjoint(u, v);
      AndFacts(One(u), One(v));
    } else if v < u {
      OnesDisjoint(v, u);
    } else {
      OneNonzero(u);
      AndFacts(One(u), One(u));
    }
  }

  /** Or-ing a bit in sets that bit and no other. */
  lemma BitOr(mask: bv64, v: int, u: nat)
    requires u < 64
    ensures Bit(Or(mask, ShiftOne(v)), u) <==> Bit(mask, u) || u == v
  {
    hide One, And, Or;
    if v < 0 {
      AndFacts(mask, mask);
    } else {
      OnesMeet(v, u);
      Distribute(mask, One(v), One(u));
      OrZero(And(mask, One(u)), And(One(v), One(u)));
    }
  }

  lemma BitZero(u: nat)
    ensures !Bit(0, u)
  {
    AndFacts(One(u), 0);
    hide One, And;
  }

  /** The sum of two 64-bit integers, the second positive. */
  function WrapSum(x: int, y: int): int { if x + y >= HALF then x + y - WORD else x + y }

  // -------------------------------------------------------------------- one part

  datatype Range = Range(min: nat, max: nat)

  /** Minute, hour, day of month, month, day of week. */
  const RANGES := [Range(0, 59), Range(0, 23), Range(1, 31), Range(1, 12), Range(0, 7)]

  datatype Span = Span(lo: int, hi: int, step: int)

  predicate SpanOk(p: Span, rg: Range) { rg.min <= p.lo <= p.hi <= rg.max && 1 <= p.step < HALF }

  /** What a part of an expression stands for. */
  predicate Meant(p: Span, v: int)
    requires p.step >= 1
  {
    p.lo <= v <= p.hi && (v - p.lo) % p.step == 0
  }

  /** Values below the range that the loop reaches when its variable wraps around. */
  predicate Stray(p: Span, v: int)
    requires 1 <= p.step < HALF
  {
    0 <= v < p.lo && (p.lo - v) % (WORD - 2 * p.step) == 0
  }

  /** The masks agree outside the values that the part stands for or strays to. */
  predicate Marks(before: bv64, after: bv64, p: Span)
    requires 1 <= p.step < HALF
  {
    forall u: nat :: u < 64 ==> (Bit(after, u) <==> Bit(before, u) || Meant(p, u) || Stray(p, u))
  }

  /** How far below a wrapped value is from the one before: 2^64 - 2 step. */
  function Fall(p: Span): int { WORD - 2 * p.step }

  /** The loop so far when it never wraps: marked from lo up to v. */
  predicate Rising(before: bv64, r: bv64, p: Span, v: int)
    requires p.step >= 1
  {
    && p.lo <= v && (v - p.lo) % p.step == 0
    && forall u: nat :: u < 64 ==> (Bit(r, u) <==> Bit(before, u) || (p.lo <= u < v && (u - p.lo) % p.step == 0))
  }

  /** The loop so far when it wraps: marked from lo down to, not including, pos. */
  predicate Falling(before: bv64, r: bv64, p: Span, v: int, pos: int)
    requires 1 <= p.step < HALF
  {
    && pos <= p.lo && (p.lo - pos) % Fall(p) == 0
    && (v == pos || v == pos - p.step || (v > p.hi && pos < 0)) && (v <= p.hi ==> pos >= p.step - HALF)
    && forall u: nat :: u < 64 ==> (Bit(r, u) <==> Bit(before, u) || (pos < u <= p.lo && (p.lo - u) % Fall(p) == 0))
  }

  lemma MulBound(n: int, k: int)
    requires n > 0
    ensures k >= 1 ==> n * k >= n
    ensures k <= -1 ==> n * k <= -n
  {
  }

  lemma Remainder(a: int, n: int, q: int, r: int)
    requires n > 0 && a == n * q + r && 0 <= r < n
    ensures a % n == r
  {
    var k := a / n - q;
    MulBound(n, k);
    assert a == n * (a / n) + a % n;
    assert n * k == r - a % n;
  }

  lemma AddStep(a: int, n: int)
    requires n > 0 && a % n == 0
    ensures (a + n) % n == 0
  {
    assert a == n * (a / n) + a % n;
    Remainder(a + n, n, a / n + 1, 0);
  }

  /** Multiples of n are n apart. */
  lemma NextMultiple(a: int, b: int, n: int)
    requires n > 0 && a % n == 0 && b % n == 0 && a < b
    ensures a + n <= b
  {
    MulBound(n, b / n - a / n);
    assert b - a == n * (b / n - a / n);
  }

  lemma RisingStep(before: bv64, r: bv64, p: Span, v: int)
    requires p.step >= 1 && Rising(before, r, p, v)
    ensures Rising(before, Or(r, ShiftOne(v)), p, v + p.step)
  {
    hide Bit, ShiftOne, Or;
    AddStep(v - p.lo, p.step);
    forall u: nat | u < 64
      ensures Bit(Or(r, ShiftOne(v)), u) <==> Bit(before, u) || (p.lo <= u < v + p.step && (u - p.lo) % p.step == 0)
    {
      BitOr(r, v, u);
      if v < u < v + p.step && (u - p.lo) % p.step == 0 {
        NextMultiple(v - p.lo, u - p.lo, p.step);
      }
    }
  }

  lemma FallingMarks(before: bv64, r: bv64, p: Span, pos: int)
    requires 1 <= p.step < HALF && Falling(before, r, p, pos, pos) && pos <= p.hi
    ensures forall u: nat :: u < 64 ==>
      (Bit(Or(r, ShiftOne(pos)), u) <==> Bit(before, u) || (pos - Fall(p) < u <= p.lo && (p.lo - u) % Fall(p) == 0))
    ensures (p.lo - (pos - Fall(p))) % Fall(p) == 0
  {
    hide Bit, ShiftOne, Or;
    AddStep(p.lo - pos, Fall(p));
    forall u: nat | u < 64
      ensures Bit(Or(r, ShiftOne(pos)), u) <==>
          Bit(before, u) || (pos - Fall(p) < u <= p.lo && (p.lo - u) % Fall(p) == 0)
    {
      BitOr(r, pos, u);
      if pos - Fall(p) < u < pos && (p.lo - u) % Fall(p) == 0 {
        NextMultiple(p.lo - pos, p.lo - u, Fall(p));
      }
    }
  }

  /** One turn of the loop when the step is so large that it wraps. */
  lemma FallingStep(before: bv64, r: bv64, p: Span, v: int, pos: int) returns (next: int)
    requires SpanOk(p, Range(0, 63)) && p.hi + p.step >= HALF && Falling(before, r, p, v, pos) && v <= p.hi
    ensures Falling(before, Or(r, ShiftOne(v)), p, WrapSum(v, p.step), next)
    ensures FallMeasure(p, v) >= 0
    ensures FallMeasure(p, WrapSum(v, p.step)) < FallMeasure(p, v) || WrapSum(v, p.step) > p.hi
  {
    hide Bit, Or, ShiftOne;
    if v == pos {
      FallingMarks(before, r, p, pos);
      next := pos - Fall(p);
    } else {
      next := pos;
      NoShift(r, v);
    }
  }

  lemma NoShift(r: bv64, v: int)
    requires v < 0
    ensures Or(r, ShiftOne(v)) == r
  {
    AndFacts(r, r);
  }

  /** How much is left of a loop that wraps: the value to come, and whether it is wrapped at the moment. */
  function FallMeasure(p: Span, v: int): int {
    if v >= -1000 then 2 * (v + 1000) else 2 * (v + p.step + Fall(p) + 1000) - 1
  }

  lemma RisingDone(before: bv64, r: bv64, p: Span, v: int)
    requires SpanOk(p, Range(0, 63)) && p.hi + p.step < HALF && Rising(before, r, p, v) && v > p.hi
    requires v <= p.hi + p.step
    ensures Marks(before, r, p)
  {
    hide Bit, Or, ShiftOne;
    forall u: nat | u < 64 ensures Bit(r, u) <==> Bit(before, u) || Meant(p, u) || Stray(p, u) {
      if p.hi < u < v && (u - p.lo) % p.step == 0 {
        NextMultiple(u - p.lo, v - p.lo, p.step);
      }
      if Stray(p, u) {
        NextMultiple(0, p.lo - u, Fall(p));
      }
    }
  }

  /** A step wider than the part lists only its lower bound. */
  lemma WideStep(p: Span, u: int)
    requires p.lo <= p.hi && p.step > p.hi - p.lo
    ensures Meant(p, u) <==> u == p.lo
  {
    Remainder(0, p.step, 0, 0);
    if Meant(p, u) && u != p.lo {
      NextMultiple(0, u - p.lo, p.step);
    }
  }

  lemma StrayFalls(p: Span, u: int)
    requires 1 <= p.step < HALF
    ensures Stray(p, u) || u == p.lo <==> ((0 <= u < p.lo || u == p.lo) && (p.lo - u) % Fall(p) == 0)
    ensures Fall(p) >= 2
  {
    Remainder(0, Fall(p), 0, 0);
  }

  lemma FallingDone(before: bv64, r: bv64, p: Span, v: int, pos: int)
    requires SpanOk(p, Range(0, 63)) && p.hi + p.step >= HALF && Falling(before, r, p, v, pos) && v > p.hi
    ensures Marks(before, r, p)
  {
    assert pos < 0;
    forall u: nat | u < 64 ensures Bit(r, u) <==> Bit(before, u) || Meant(p, u) || Stray(p, u) {
      WideStep(p, u);
      StrayFalls(p, u);
      hide Meant, Stray, Bit, Fall;
    }
  }

  lemma NoWrap(v: int, step: int)
    requires v + step < HALF
    ensures WrapSum(v, step) == v + step
  {
  }

  lemma Begin(mask: bv64, p: Span)
    requires SpanOk(p, Range(0, 63))
    ensures Rising(mask, mask, p, p.lo)
    ensures p.hi + p.step >= HALF ==> Falling(mask, mask, p, p.lo, p.lo)
  {
  }

  /** The inner loop: exactly what it marks, for every part and every step. */
  method MarkSpan(mask: bv64, p: Span) returns (r: bv64)
    requires SpanOk(p, Range(0, 63))
    ensures Marks(mask, r, p)
  {
    hide Marks, Bit, Rising, Falling, ShiftOne, Or, FallMeasure, WrapSum;
    r := mask;
    var v := p.lo;
    ghost var pos := p.lo;
    ghost var wraps := p.hi + p.step >= HALF;
    Begin(mask, p);
    while v <= p.hi
      invariant !wraps ==> Rising(mask, r, p, v) && v <= p.hi + p.step
      invariant wraps ==> Falling(mask, r, p, v, pos)
      decreases if v > p.hi then 0 else if wraps then FallMeasure(p, v) + 1 else p.hi - v + 1
    {
      if wraps {
        pos := FallingStep(mask, r, p, v, pos);
      } else {
        RisingStep(mask, r, p, v);
        assert WrapSum(v, p.step) == v + p.step by { NoWrap(v, p.step); }
      }
      r := Or(r, ShiftOne(v));
      v := WrapSum(v, p.step);
    }
    if wraps {
      FallingDone(mask, r, p, v, pos);
    } else {
      RisingDone(mask, r, p, v);
    }
  }

  /** A part marks just what it stands for exactly when its step is too small to wrap twice. */
  lemma PartExact(p: Span, rg: Range)
    requires SpanOk(p, rg) && rg.max < 64
    ensures (forall v :: Stray(p, v) ==> Meant(p, v)) <==> p.lo + 2 * p.step < WORD
  {
    if p.lo + 2 * p.step >= WORD {
      var v := p.lo - Fall(p);
      Remainder(Fall(p), Fall(p), 1, 0);
      assert Stray(p, v) && !Meant(p, v);
    } else {
      forall v | Stray(p, v) ensures false {
        NextMultiple(0, p.lo - v, Fall(p));
      }
    }
  }

  // ---------------------------------------------------------------------- parsing

  /** `unicode.IsSpace`. */
  predicate GoSpace(c: char) {
    || '\t' <= c <= '\r' || c == ' ' || c == '\U{85}' || c == '\U{A0}' || c == '\U{1680}'
    || '\U{2000}' <= c <= '\U{200A}' || c == '\U{2028}' || c == '\U{2029}'
    || c == '\U{202F}' || c == '\U{205F}' || c == '\U{3000}'
  }

  /** The length of the word a string begins with. */
  function WordLength(s: string): (n: nat)
    ensures n <= |s|
  {
    if s == "" || GoSpace(s[0]) then 0 else 1 + WordLength(s[1..])
  }

  /** `strings.Fields`: the words of a string. */
  function Fields(s: string): seq<string>
    decreases |s|
  {
    if s == "" then []
    else if GoSpace(s[0]) then Fields(s[1..])
    else [s[..WordLength(s)]] + Fields(s[WordLength(s)..])
  }

  predicate IsWord(w: string) { w != "" && forall i :: 0 <= i < |w| ==> !GoSpace(w[i]) }

  lemma {:induction false} WordEnds(w: string, rest: string)
    requires IsWord(w) && (rest == "" || GoSpace(rest[0]))
    ensures WordLength(w + rest) == |w|
    decreases |w|
  {
    assert (w + rest)[1..] == w[1..] + rest;
    if |w| > 1 {
      assert IsWord(w[1..]);
      WordEnds(w[1..], rest);
    } else {
      assert w[1..] + rest == rest;
    }
  }

  /** Words separated by blanks are read back, as many as there are. */
  lemma {:induction false} FieldsOfWords(words: seq<string>)
    requires forall i :: 0 <= i < |words| ==> IsWord(words[i])
    ensures Fields(Join(words, " ")) == words
  {
    hide GoSpace;
    if |words| == 1 {
      WordEnds(words[0], "");
      assert words[0] + "" == words[0] && words[0][|words[0]|..] == "";
      assert Fields("") == [];
      assert words == [words[0]] + [];
    } else if |words| > 1 {
      var rest := Join(words[1..], " ");
      var s := words[0] + (" " + rest);
      assert Join(words, " ") == words[0] + " " + rest == s;
      assert GoSpace(' ') by { BlankIsSpace(); }
      WordEnds(words[0], " " + rest);
      assert s[..|words[0]|] == words[0] && s[|words[0]|..] == " " + rest;
      assert (" " + rest)[1..] == rest;
      FieldsOfWords(words[1..]);
      assert Fields(s) == [words[0]] + Fields(rest);
    }
  }

  lemma BlankIsSpace()
    ensures GoSpace(' ')
  {
  }

  /** `strconv.Atoi`. */
  function Atoi(s: string): Option<int> {
    var digits := if s != "" && (s[0] == '+' || s[0] == '-') then s[1..] else s;
    if digits == "" || !Digits(digits) then None
    else
      var m: int := ToNat(digits);
      var n := if s[0] == '-' then -m else m;
      if -HALF <= n < HALF then Some(n) else None
  }

  /** The bounds written in a part without its step. */
  function ParseBounds(text: string, rg: Range): Option<(int, int)> {
    if text == "*" then Some((rg.min, rg.max))
    else
      var dash := IndexOf(text, '-');
      if dash < |text| then
        var lo, hi := Atoi(text[..dash]), Atoi(text[dash + 1..]);
        if lo.None? || hi.None? then None else Some((lo.value, hi.value))
      else
        var v := Atoi(text);
        if v.None? then None else Some((v.value, v.value))
  }

  /** One comma part: bounds, and a step after a slash. */
  function ParsePart(part: string, rg: Range): (r: Option<Span>)
    ensures r.Some? ==> SpanOk(r.value, rg)
  {
    var slash := IndexOf(part, '/');
    var step := if slash < |part| then Atoi(part[slash + 1..]) else Some(1);
    if step.None? || step.value < 1 then None
    else
      var bounds := ParseBounds(part[..slash], rg);
      if bounds.None? then None
      else
        var (lo, hi) := bounds.value;
        if lo < rg.min || hi > rg.max || lo > hi then None else Some(Span(lo, hi, step.value))
  }

  predicate FieldOk(field: string, rg: Range) {
    var parts := Split(field, ',');
    forall i :: 0 <= i < |parts| ==> ParsePart(parts[i], rg).Some?
  }

  /** Some of the first n parts stands for the value. */
  predicate MeansUpTo(parts: seq<string>, n: nat, rg: Range, v: int)
    requires n <= |parts|
  {
    exists i :: 0 <= i < n && ParsePart(parts[i], rg).Some? && Meant(ParsePart(parts[i], rg).value, v)
  }

  predicate StraysUpTo(parts: seq<string>, n: nat, rg: Range, v: int)
    requires n <= |parts|
  {
    exists i :: 0 <= i < n && ParsePart(parts[i], rg).Some? && Stray(ParsePart(parts[i], rg).value, v)
  }

  /** What a field stands for: some part lists the value. */
  predicate Lists(field: string, rg: Range, v: int) { MeansUpTo(Split(field, ','), |Split(field, ',')|, rg, v) }

  predicate Strays(field: string, rg: Range, v: int) { StraysUpTo(Split(field, ','), |Split(field, ',')|, rg, v) }

  lemma OneMorePart(parts: seq<string>, n: nat, rg: Range, v: int)
    requires n < |parts| && ParsePart(parts[n], rg).Some?
    ensures MeansUpTo(parts, n + 1, rg, v) <==> MeansUpTo(parts, n, rg, v) || Meant(ParsePart(parts[n], rg).value, v)
    ensures StraysUpTo(parts, n + 1, rg, v) <==> StraysUpTo(parts, n, rg, v) || Stray(ParsePart(parts[n], rg).value, v)
  {
    hide ParsePart, Meant, Stray;
  }

  /** The bits of a mask are the values the first n parts stand for or stray to. */
  predicate MaskUpTo(mask: bv64, parts: seq<string>, n: nat, rg: Range)
    requires n <= |parts|
  {
    forall u: nat :: u < 64 ==> (Bit(mask, u) <==> MeansUpTo(parts, n, rg, u) || StraysUpTo(parts, n, rg, u))
  }

  lemma MaskOneMore(before: bv64, after: bv64, parts: seq<string>, n: nat, rg: Range)
    requires n < |parts| && ParsePart(parts[n], rg).Some?
    requires MaskUpTo(before, parts, n, rg) && Marks(before, after, ParsePart(parts[n], rg).value)
    ensures MaskUpTo(after, parts, n + 1, rg)
  {
    hide ParsePart, Meant, Stray, Bit, MeansUpTo, StraysUpTo;
    forall u: nat | u < 64
      ensures Bit(after, u) <==> MeansUpTo(parts, n + 1, rg, u) || StraysUpTo(parts, n + 1, rg, u)
    {
      OneMorePart(parts, n, rg, u);
    }
  }

  predicate MaskOf(mask: bv64, field: string, rg: Range) {
    forall u: nat :: u < 64 ==> (Bit(mask, u) <==> Lists(field, rg, u) || Strays(field, rg, u))
  }

  /** A field is accepted exactly when every part is, and then its mask is known bit by bit. */
  method ParseField(field: string, rg: Range) returns (mask: Option<bv64>)
    requires rg.max < 64
    ensures mask.Some? <==> FieldOk(field, rg)
    ensures mask.Some? ==> MaskOf(mask.value, field, rg)
  {
    hide ParsePart, MaskUpTo, MaskOf, Marks;
    var parts := Split(field, ',');
    var bits: bv64 := 0;
    EmptyMask(parts, rg);
    for n := 0 to |parts|
      invariant forall i :: 0 <= i < n ==> ParsePart(parts[i], rg).Some?
      invariant MaskUpTo(bits, parts, n, rg)
    {
      var span := ParsePart(parts[n], rg);
      if span.None? {
        return None;
      }
      var more := MarkSpan(bits, span.value);
      MaskOneMore(bits, more, parts, n, rg);
      bits := more;
    }
    MaskWhole(bits, field, rg);
    mask := Some(bits);
  }

  lemma EmptyMask(parts: seq<string>, rg: Range)
    ensures MaskUpTo(0, parts, 0, rg)
  {
    hide Bit, ParsePart;
    forall u: nat | u < 64 ensures !Bit(0, u) {
      BitZero(u);
    }
  }

  lemma MaskWhole(mask: bv64, field: string, rg: Range)
    requires MaskUpTo(mask, Split(field, ','), |Split(field, ',')|, rg)
    ensures MaskOf(mask, field, rg)
  {
    hide Bit, MeansUpTo, StraysUpTo, Split;
  }

  datatype Schedule = Schedule(minute: bv64, hour: bv64, dom: bv64, month: bv64, dow: bv64,
                               domStar: bool, dowStar: bool)

  predicate Accepted(expr: string) {
    |Fields(expr)| == 5 && forall i :: 0 <= i < 5 ==> FieldOk(Fields(expr)[i], RANGES[i])
  }

  /** Sunday is day 0 and day 7 alike. */
  predicate DayMask(mask: bv64, field: string) {
    forall u: nat :: u < 64 ==>
      (Bit(mask, u) <==> || Lists(field, RANGES[4], u) || Strays(field, RANGES[4], u)
                         || (u == 0 && (Lists(field, RANGES[4], 7) || Strays(field, RANGES[4], 7)))
                         || (u == 7 && (Lists(field, RANGES[4], 0) || Strays(field, RANGES[4], 0))))
  }

  predicate Represents(s: Schedule, fields: seq<string>)
    requires |fields| == 5
  {
    && MaskOf(s.minute, fields[0], RANGES[0]) && MaskOf(s.hour, fields[1], RANGES[1])
    && MaskOf(s.dom, fields[2], RANGES[2]) && MaskOf(s.month, fields[3], RANGES[3]) && DayMask(s.dow, fields[4])
    && s.domStar == (fields[2] == "*") && s.dowStar == (fields[4] == "*")
  }

  method Parse(expr: string) returns (s: Option<Schedule>)
    ensures s.Some? <==> Accepted(expr)
    ensures s.Some? ==> Represents(s.value, Fields(expr))
  {
    hide FieldOk, MaskOf, Fields, DayMask;
    var parts := Fields(expr);
    if |parts| != 5 {
      return None;
    }
    var masks: seq<bv64> := [];
    for i := 0 to 5
      invariant |masks| == i
      invariant forall k :: 0 <= k < i ==> FieldOk(parts[k], RANGES[k]) && MaskOf(masks[k], parts[k], RANGES[k])
    {
      var m := ParseField(parts[i], RANGES[i]);
      if m.None? {
        return None;
      }
      masks := masks + [m.value];
    }
    var dow := CloseSunday(masks[4], parts[4]);
    s := Some(Schedule(masks[0], masks[1], masks[2], masks[3], dow, parts[2] == "*", parts[4] == "*"));
  }

  method CloseSunday(mask: bv64, field: string) returns (dow: bv64)
    requires MaskOf(mask, field, RANGES[4])
    ensures DayMask(dow, field)
  {
    hide Bit, Or, And, One, Lists, Strays;
    dow := mask;
    if Bit(dow, 7) {
      SetBit(dow, 0);
      dow := Or(dow, One(0));
    }
    if Bit(dow, 0) {
      SetBit(dow, 7);
      dow := Or(dow, One(7));
    }
  }

  lemma SetBit(mask: bv64, v: nat)
    ensures forall u: nat :: u < 64 ==> (Bit(Or(mask, One(v)), u) <==> Bit(mask, u) || u == v)
  {
    hide Bit, Or, One;
    forall u: nat | u < 64 ensures Bit(Or(mask, One(v)), u) <==> Bit(mask, u) || u == v {
      BitOr(mask, v, u);
    }
  }

  // --------------------------------------------------------------------- matching

  datatype Moment = Moment(minute: nat, hour: nat, day: nat, month: nat, weekday: nat)

  /** The days of a month, in a leap year. */
  function DaysIn(month: nat): nat {
    if month == 2 then 29 else if month == 4 || month == 6 || month == 9 || month == 11 then 30 else 31
  }

  lemma DaysOfMonths(month: nat)
    requires 1 <= month <= 12
    ensures DaysIn(month) == [31, 29, 31, 30, 31, 30, 31, 31, 30, 31, 30, 31][month - 1]
  {
  }

  /** The moments that come: every day of the year falls on every weekday in some year. */
  predicate ClockTime(t: Moment) {
    t.minute < 60 && t.hour < 24 && 1 <= t.month <= 12 && 1 <= t.day <= DaysIn(t.month) && t.weekday < 7
  }

  predicate Matches(s: Schedule, t: Moment) {
    if !Bit(s.minute, t.minute) then false
    else if !Bit(s.hour, t.hour) then false
    else if !Bit(s.month, t.month) then false
    else
      var domOk := Bit(s.dom, t.day);
      var dowOk := Bit(s.dow, t.weekday);
      if !s.domStar && !s.dowStar then domOk || dowOk else domOk && dowOk
  }

  /** What an expression says of a moment: with both day fields restricted either is enough. */
  predicate Due(fields: seq<string>, t: Moment)
    requires |fields| == 5
  {
    var day := Lists(fields[2], RANGES[2], t.day);
    var weekday := Lists(fields[4], RANGES[4], t.weekday) || (t.weekday == 0 && Lists(fields[4], RANGES[4], 7));
    && Lists(fields[0], RANGES[0], t.minute) && Lists(fields[1], RANGES[1], t.hour)
    && Lists(fields[3], RANGES[3], t.month)
    && (if fields[2] != "*" && fields[4] != "*" then day || weekday else day && weekday)
  }

  /** What a weekday field says, Sunday being 0 or 7. */
  predicate ListsWeekday(field: string, w: nat) {
    Lists(field, RANGES[4], w) || (w == 0 && Lists(field, RANGES[4], 7))
  }

  /** A value of the clock range first..last that the field strays to and does not list. */
  predicate Extra(field: string, rg: Range, v: int) { Strays(field, rg, v) && !Lists(field, rg, v) }

  predicate NoExtra(field: string, rg: Range) { forall v :: rg.min <= v <= rg.max ==> !Extra(field, rg, v) }

  predicate NoExtraWeekday(field: string) {
    forall w: nat :: w < 7 ==> !Strays(field, RANGES[4], w) || ListsWeekday(field, w)
  }

  /** The field lists or strays to the value. */
  predicate Marked(field: string, rg: Range, v: int) { Lists(field, rg, v) || Strays(field, rg, v) }

  predicate BothRestricted(fields: seq<string>)
    requires |fields| == 5
  {
    fields[2] != "*" && fields[4] != "*"
  }

  /** No day of the month is marked, and the weekday does not make up for it. */
  predicate NeverIn(fields: seq<string>, month: nat)
    requires |fields| == 5
  {
    !BothRestricted(fields) && forall d :: 1 <= d <= DaysIn(month) ==> !Marked(fields[2], RANGES[2], d)
  }

  /** Both day fields are restricted and one lists every day of the month: the either-day rule hides the other. */
  predicate EveryDay(fields: seq<string>, month: nat)
    requires |fields| == 5
  {
    && BothRestricted(fields)
    && ((forall d :: 1 <= d <= DaysIn(month) ==> Lists(fields[2], RANGES[2], d))
        || (forall w: nat :: w < 7 ==> ListsWeekday(fields[4], w)))
  }

  /** The schedule fires in the month on the days that the expression says. */
  predicate ExactMonth(fields: seq<string>, month: nat)
    requires |fields| == 5
  {
    || NeverIn(fields, month)
    || (Lists(fields[3], RANGES[3], month)
        && (EveryDay(fields, month)
            || (NoExtraWeekday(fields[4])
                && forall d :: 1 <= d <= DaysIn(month) ==> !Extra(fields[2], RANGES[2], d))))
  }

  /** The schedule fires on no day at all. */
  predicate Never(fields: seq<string>)
    requires |fields| == 5
  {
    forall m: nat :: 1 <= m <= 12 && Marked(fields[3], RANGES[3], m) ==> NeverIn(fields, m)
  }

  /** Every stray is listed by another part, hidden by the either-day rule, or on no day of the calendar. */
  predicate Exact(fields: seq<string>)
    requires |fields| == 5
  {
    || Never(fields)
    || (NoExtra(fields[0], RANGES[0]) && NoExtra(fields[1], RANGES[1])
        && forall m: nat :: 1 <= m <= 12 && Marked(fields[3], RANGES[3], m) ==> ExactMonth(fields, m))
  }

  lemma StraysBelow(field: string, rg: Range, v: int)
    requires rg.max < 64
    ensures Lists(field, rg, v) ==> rg.min <= v <= rg.max
    ensures Strays(field, rg, v) ==> 0 <= v < rg.max
  {
    hide ParsePart;
  }

  /** The masks in terms of the fields, for the moments of a clock. */
  predicate Reads(s: Schedule, fields: seq<string>, t: Moment)
    requires |fields| == 5
  {
    && (Bit(s.minute, t.minute) <==> Lists(fields[0], RANGES[0], t.minute) || Strays(fields[0], RANGES[0], t.minute))
    && (Bit(s.hour, t.hour) <==> Lists(fields[1], RANGES[1], t.hour) || Strays(fields[1], RANGES[1], t.hour))
    && (Bit(s.dom, t.day) <==> Lists(fields[2], RANGES[2], t.day) || Strays(fields[2], RANGES[2], t.day))
    && (Bit(s.month, t.month) <==> Lists(fields[3], RANGES[3], t.month) || Strays(fields[3], RANGES[3], t.month))
    && (Bit(s.dow, t.weekday) <==> ListsWeekday(fields[4], t.weekday) || Strays(fields[4], RANGES[4], t.weekday))
    && s.domStar == (fields[2] == "*") && s.dowStar == (fields[4] == "*")
  }

  lemma MasksRead(s: Schedule, fields: seq<string>, t: Moment)
    requires |fields| == 5 && Represents(s, fields) && ClockTime(t)
    ensures Reads(s, fields, t)
  {
    hide Bit, Lists, Strays;
    StraysBelow(fields[4], RANGES[4], 7);
  }

  /** What the day fields say, strays left out or not. */
  predicate DayDue(fields: seq<string>, d: nat, w: nat)
    requires |fields| == 5
  {
    var day, weekday := Lists(fields[2], RANGES[2], d), ListsWeekday(fields[4], w);
    if BothRestricted(fields) then day || weekday else day && weekday
  }

  predicate DayFires(fields: seq<string>, d: nat, w: nat)
    requires |fields| == 5
  {
    var day, weekday := Marked(fields[2], RANGES[2], d), ListsWeekday(fields[4], w) || Strays(fields[4], RANGES[4], w);
    if BothRestricted(fields) then day || weekday else day && weekday
  }

  /** The moment in terms of the fields. */
  lemma FiresAndDue(s: Schedule, fields: seq<string>, t: Moment)
    requires |fields| == 5 && Represents(s, fields) && ClockTime(t)
    ensures Matches(s, t) <==> Marked(fields[0], RANGES[0], t.minute) && Marked(fields[1], RANGES[1], t.hour)
                               && Marked(fields[3], RANGES[3], t.month) && DayFires(fields, t.day, t.weekday)
    ensures Due(fields, t) <==> Lists(fields[0], RANGES[0], t.minute) && Lists(fields[1], RANGES[1], t.hour)
                                && Lists(fields[3], RANGES[3], t.month) && DayDue(fields, t.day, t.weekday)
  {
    MasksRead(s, fields, t);
    hide Bit, Lists, Strays, Represents;
  }

  /** In an exact month strays do not change what the day fields say together. */
  lemma ExactDays(fields: seq<string>, month: nat, d: nat, w: nat)
    requires |fields| == 5 && ExactMonth(fields, month) && 1 <= d <= DaysIn(month) && w < 7
    ensures DayFires(fields, d, w) ==> DayDue(fields, d, w) && Lists(fields[3], RANGES[3], month)
  {
    hide Lists, Strays, ListsWeekday, DaysIn;
    if !NeverIn(fields, month) && !EveryDay(fields, month) {
      assert !Extra(fields[2], RANGES[2], d);
    }
  }

  lemma ExactField(field: string, rg: Range, v: int)
    requires NoExtra(field, rg) && rg.min <= v <= rg.max
    ensures Marked(field, rg, v) <==> Lists(field, rg, v)
  {
    hide Lists, Strays;
    assert !Extra(field, rg, v);
  }

  /** Without strays that show, the schedule fires only when the expression says so. */
  lemma ExactMatches(s: Schedule, fields: seq<string>, t: Moment)
    requires |fields| == 5 && Represents(s, fields) && ClockTime(t) && Exact(fields)
    ensures Matches(s, t) <==> Due(fields, t)
  {
    FiresAndDue(s, fields, t);
    DueFires(fields, t.day, t.weekday);
    hide Lists, Strays, Represents, Matches, Due, ExactMonth, NoExtra, DayFires, DayDue, DaysIn;
    if Never(fields) {
      NeverFires(fields, t);
    } else {
      ExactField(fields[0], RANGES[0], t.minute);
      ExactField(fields[1], RANGES[1], t.hour);
      if Marked(fields[3], RANGES[3], t.month) {
        ExactDays(fields, t.month, t.day, t.weekday);
      }
    }
  }

  lemma DueFires(fields: seq<string>, d: nat, w: nat)
    requires |fields| == 5
    ensures DayDue(fields, d, w) ==> DayFires(fields, d, w)
  {
    hide Lists, Strays;
  }

  lemma NeverFires(fields: seq<string>, t: Moment)
    requires |fields| == 5 && Never(fields) && ClockTime(t)
    ensures !(Marked(fields[3], RANGES[3], t.month) && DayFires(fields, t.day, t.weekday))
  {
    hide Lists, Strays, DaysIn;
  }

  /** An accepted field lists some value of its range. */
  lemma ListsSome(field: string, rg: Range) returns (v: nat)
    requires FieldOk(field, rg)
    ensures rg.min <= v <= rg.max && Lists(field, rg, v)
  {
    hide ParsePart;
    var parts := Split(field, ',');
    var p := ParsePart(parts[0], rg).value;
    v := p.lo;
    Remainder(0, p.step, 0, 0);
    assert Meant(p, v);
  }

  lemma ListsSomeWeekday(field: string) returns (w: nat)
    requires FieldOk(field, RANGES[4])
    ensures w < 7 && ListsWeekday(field, w)
  {
    hide FieldOk, Lists;
    var v := ListsSome(field, RANGES[4]);
    w := if v == 7 then 0 else v;
  }

  lemma FirstExtra(field: string, rg: Range) returns (v: nat)
    requires !NoExtra(field, rg)
    ensures rg.min <= v <= rg.max && Marked(field, rg, v) && !Lists(field, rg, v)
  {
    hide Lists, Strays;
    var u :| rg.min <= u <= rg.max && Extra(field, rg, u);
    v := u;
  }

  /** A day on which the schedule fires. */
  lemma SomeDay(fields: seq<string>) returns (m: nat, d: nat, w: nat)
    requires |fields| == 5 && !Never(fields) && FieldOk(fields[4], RANGES[4])
    ensures 1 <= m <= 12 && 1 <= d <= DaysIn(m) && w < 7 && Marked(fields[3], RANGES[3], m) && DayFires(fields, d, w)
  {
    hide Lists, Strays, FieldOk;
    w := ListsSomeWeekday(fields[4]);
    m :| 1 <= m <= 12 && Marked(fields[3], RANGES[3], m) && !NeverIn(fields, m);
    d := 1;
    if !BothRestricted(fields) {
      d :| 1 <= d <= DaysIn(m) && Marked(fields[2], RANGES[2], d);
    }
  }

  /** A day of a month that is not exact on which the schedule fires although the expression does not say so. */
  lemma ExtraDay(fields: seq<string>, m: nat) returns (d: nat, w: nat)
    requires |fields| == 5 && !ExactMonth(fields, m) && FieldOk(fields[4], RANGES[4])
    ensures 1 <= d <= DaysIn(m) && w < 7 && DayFires(fields, d, w)
    ensures !(Lists(fields[3], RANGES[3], m) && DayDue(fields, d, w))
  {
    hide Lists, Strays, FieldOk, NoExtraWeekday;
    w := ListsSomeWeekday(fields[4]);
    d := 1;
    if !Lists(fields[3], RANGES[3], m) {
      if !BothRestricted(fields) {
        d :| 1 <= d <= DaysIn(m) && Marked(fields[2], RANGES[2], d);
      }
    } else if !NoExtraWeekday(fields[4]) {
      w := ExtraWeekday(fields[4]);
      if BothRestricted(fields) {
        d :| 1 <= d <= DaysIn(m) && !Lists(fields[2], RANGES[2], d);
      } else {
        d :| 1 <= d <= DaysIn(m) && Marked(fields[2], RANGES[2], d);
      }
    } else {
      d :| 1 <= d <= DaysIn(m) && Extra(fields[2], RANGES[2], d);
      if BothRestricted(fields) {
        w :| w < 7 && !ListsWeekday(fields[4], w);
      }
    }
  }

  lemma ExtraWeekday(field: string) returns (w: nat)
    requires !NoExtraWeekday(field)
    ensures w < 7 && Strays(field, RANGES[4], w) && !ListsWeekday(field, w)
  {
    hide Lists, Strays;
    w :| w < 7 && Strays(field, RANGES[4], w) && !ListsWeekday(field, w);
  }

  /** A stray that shows is a moment at which the schedule fires although the expression does not say so. */
  lemma ExtraFires(s: Schedule, fields: seq<string>) returns (t: Moment)
    requires |fields| == 5 && Represents(s, fields) && !Exact(fields)
    requires forall i :: 0 <= i < 5 ==> FieldOk(fields[i], RANGES[i])
    ensures ClockTime(t) && Matches(s, t) && !Due(fields, t)
  {
    hide Lists, Strays, Represents, FieldOk, NoExtra, Never, ExactMonth, Matches, Due, DayFires, DayDue, DaysIn;
    var minute := ListsSome(fields[0], RANGES[0]);
    var hour := ListsSome(fields[1], RANGES[1]);
    var m, d, w := SomeDay(fields);
    if !NoExtra(fields[0], RANGES[0]) {
      minute := FirstExtra(fields[0], RANGES[0]);
    } else if !NoExtra(fields[1], RANGES[1]) {
      hour := FirstExtra(fields[1], RANGES[1]);
    } else {
      m :| 1 <= m <= 12 && Marked(fields[3], RANGES[3], m) && !ExactMonth(fields, m);
      d, w := ExtraDay(fields, m);
    }
    t := Moment(minute, hour, d, m, w);
    FiresAndDue(s, fields, t);
  }

  /**
   For every accepted expression: the schedule fires at all the moments of the calendar that the
   expression says, and at no other, if and only if no stray shows.
   */
  lemma MatchesIsDueIff(s: Schedule, fields: seq<string>)
    requires |fields| == 5 && Represents(s, fields)
    requires forall i :: 0 <= i < 5 ==> FieldOk(fields[i], RANGES[i])
    ensures (forall t :: ClockTime(t) ==> (Matches(s, t) <==> Due(fields, t))) <==> Exact(fields)
  {
    hide Matches, Due, Represents, FieldOk;
    if Exact(fields) {
      forall t | ClockTime(t) ensures Matches(s, t) <==> Due(fields, t) {
        ExactMatches(s, fields, t);
      }
    } else {
      var t := ExtraFires(s, fields);
    }
  }

  /** Some part's lower bound is a multiple of how far a wrapped value falls, so that the loop comes to 0. */
  predicate ReachesZero(field: string, rg: Range) {
    var parts := Split(field, ',');
    exists i :: 0 <= i < |parts| && ParsePart(parts[i], rg).Some?
      && ParsePart(parts[i], rg).value.lo % (WORD - 2 * ParsePart(parts[i], rg).value.step) == 0
  }

  lemma StraysToZero(field: string, rg: Range)
    requires rg.min > 0
    ensures Strays(field, rg, 0) <==> ReachesZero(field, rg)
  {
    hide ParsePart;
    var parts := Split(field, ',');
    if Strays(field, rg, 0) {
      var i :| 0 <= i < |parts| && ParsePart(parts[i], rg).Some? && Stray(ParsePart(parts[i], rg).value, 0);
      assert ParsePart(parts[i], rg).value.lo % Fall(ParsePart(parts[i], rg).value) == 0;
    }
    if ReachesZero(field, rg) {
      var i :| 0 <= i < |parts| && ParsePart(parts[i], rg).Some?
        && ParsePart(parts[i], rg).value.lo % (WORD - 2 * ParsePart(parts[i], rg).value.step) == 0;
      assert Stray(ParsePart(parts[i], rg).value, 0);
    }
  }

  /**
   For every accepted expression: a mask stays in the range of its field and Sunday is both 0 and 7,
   but for the bit 0 of the day and the month, which is set exactly when a part of the field comes down to 0.
   */
  lemma BitsInRange(s: Schedule, fields: seq<string>, u: nat)
    requires |fields| == 5 && Represents(s, fields) && u < 64
    ensures Bit(s.minute, u) ==> u <= 59
    ensures Bit(s.hour, u) ==> u <= 23
    ensures Bit(s.dom, u) ==> u <= 31
    ensures Bit(s.month, u) ==> u <= 12
    ensures Bit(s.dow, u) ==> u <= 7
    ensures Bit(s.dow, 0) <==> Bit(s.dow, 7)
    ensures Bit(s.dom, 0) <==> ReachesZero(fields[2], RANGES[2])
    ensures Bit(s.month, 0) <==> ReachesZero(fields[3], RANGES[3])
  {
    hide Bit, Strays, Lists, ReachesZero;
    StraysBelow(fields[0], RANGES[0], u);
    StraysBelow(fields[1], RANGES[1], u);
    StraysBelow(fields[2], RANGES[2], u);
    StraysBelow(fields[3], RANGES[3], u);
    StraysBelow(fields[4], RANGES[4], u);
    StraysBelow(fields[2], RANGES[2], 0);
    StraysBelow(fields[3], RANGES[3], 0);
    StraysToZero(fields[2], RANGES[2]);
    StraysToZero(fields[3], RANGES[3]);
  }

  // ------------------------------------------------------------ parts written out

  /** A part as one writes it. */
  function PartText(p: Span): string
    requires 0 <= p.lo && 0 <= p.hi && 0 <= p.step
  {
    Decimal(p.lo) + "-" + Decimal(p.hi) + "/" + Decimal(p.step)
  }

  lemma AtoiDecimal(n: nat)
    requires n < HALF
    ensures Atoi(Decimal(n)) == Some(n as int)
  {
    ToNatDecimal(n);
    assert IsDigit(Decimal(n)[0]);
  }

  lemma NotInDigits(s: string, c: char)
    requires Digits(s) && !IsDigit(c)
    ensures c !in s
  {
  }

  /** A part that is written out is read back. */
  lemma PartReadsBack(p: Span, rg: Range)
    requires SpanOk(p, rg) && rg.max < 64
    ensures ParsePart(PartText(p), rg) == Some(p)
  {
    hide Decimal, Atoi, IndexOf, ToNat, Digits;
    var lo, hi, step := Decimal(p.lo), Decimal(p.hi), Decimal(p.step);
    ToNatDecimal(p.lo);
    ToNatDecimal(p.hi);
    AtoiDecimal(p.lo);
    AtoiDecimal(p.hi);
    AtoiDecimal(p.step);
    var bounds := lo + "-" + hi;
    NotInDigits(lo, '-');
    NotInDigits(lo, '/');
    NotInDigits(hi, '/');
    assert '/' !in bounds;
    assert PartText(p) == bounds + ['/'] + step;
    IndexOfFirst(bounds, '/', step);
    assert PartText(p)[..|bounds|] == bounds && PartText(p)[|bounds| + 1..] == step;
    IndexOfFirst(lo, '-', hi);
    assert bounds == lo + ['-'] + hi;
    assert bounds[..|lo|] == lo && bounds[|lo| + 1..] == hi;
    assert bounds != "*" by {
      assert |bounds| > 1;
    }
  }

  /**
   A step near 2^63 is accepted and marks values outside the part: with a step of 2^63 - d every
   value that is a multiple of 2d below the lower bound, even one below the range.
   */
  lemma HugeStepStrays(rg: Range, lo: nat, d: nat)
    requires rg.min <= lo <= rg.max < 64 && 1 <= d && 2 * d <= lo
    ensures
      var p := Span(lo, lo, HALF - d);
      && ParsePart(PartText(p), rg) == Some(p)
      && (forall v :: 0 <= v < lo && (lo - v) % (2 * d) == 0 ==> Stray(p, v) && !Meant(p, v))
      && Stray(p, lo - 2 * d)
  {
    hide ParsePart, PartText, Stray, Meant;
    var p := Span(lo, lo, HALF - d);
    PartReadsBack(p, rg);
    forall v | 0 <= v < lo && (lo - v) % (2 * d) == 0 ensures Stray(p, v) && !Meant(p, v) {
      StraysTo(p, d, v);
    }
    Remainder(2 * d, 2 * d, 1, 0);
    StraysTo(p, d, lo - 2 * d);
  }

  lemma StraysTo(p: Span, d: nat, v: int)
    requires 1 <= d && p.step == HALF - d && p.step >= 1 && 0 <= v < p.lo && (p.lo - v) % (2 * d) == 0
    ensures Stray(p, v) && !Meant(p, v)
  {
    assert WORD - 2 * p.step == 2 * d;
  }

  // ---------------------------------------------------------- the forms of a part

  lemma NoSign(n: nat)
    requires n < HALF
    ensures Atoi(Decimal(n)) == Some(n as int) && '-' !in Decimal(n) && '/' !in Decimal(n) && Decimal(n) != "*"
  {
    AtoiDecimal(n);
    ToNatDecimal(n);
    NotInDigits(Decimal(n), '-');
    NotInDigits(Decimal(n), '/');
    assert IsDigit(Decimal(n)[0]);
  }

  lemma NotFound(s: string, c: char)
    requires c !in s
    ensures IndexOf(s, c) == |s|
  {
  }

  /** With a step after a slash, and without one. */
  lemma StepOf(bounds: string, step: nat, rg: Range)
    requires '/' !in bounds && 1 <= step < HALF
    ensures
      var b := ParseBounds(bounds, rg);
      var inside := b.Some? && rg.min <= b.value.0 <= b.value.1 <= rg.max;
      && ParsePart(bounds + "/" + Decimal(step), rg)
         == (if inside then Some(Span(b.value.0, b.value.1, step)) else None)
      && ParsePart(bounds, rg) == (if inside then Some(Span(b.value.0, b.value.1, 1)) else None)
  {
    hide ParseBounds, Decimal, Atoi, IndexOf;
    NoSign(step);
    IndexOfFirst(bounds, '/', Decimal(step));
    var s := bounds + "/" + Decimal(step);
    assert s == bounds + ['/'] + Decimal(step);
    assert s[..|bounds|] == bounds && s[|bounds| + 1..] == Decimal(step);
    NotFound(bounds, '/');
    assert bounds[..|bounds|] == bounds;
  }

  /** A star is the whole range of the field, a number stands for itself, and two for what lies between them. */
  lemma BoundsOf(rg: Range, lo: nat, hi: nat)
    requires lo < HALF && hi < HALF
    ensures ParseBounds("*", rg) == Some((rg.min as int, rg.max as int))
    ensures ParseBounds(Decimal(lo), rg) == Some((lo as int, lo as int))
    ensures ParseBounds(Decimal(lo) + "-" + Decimal(hi), rg) == Some((lo as int, hi as int))
    ensures '/' !in "*" && '/' !in Decimal(lo) && '/' !in Decimal(lo) + "-" + Decimal(hi)
  {
    hide Decimal, Atoi, IndexOf;
    NoSign(lo);
    NoSign(hi);
    NotFound(Decimal(lo), '-');
    var s := Decimal(lo) + "-" + Decimal(hi);
    assert s == Decimal(lo) + ['-'] + Decimal(hi);
    IndexOfFirst(Decimal(lo), '-', Decimal(hi));
    assert s[..|Decimal(lo)|] == Decimal(lo) && s[|Decimal(lo)| + 1..] == Decimal(hi);
    assert |s| > 1;
  }

  /** The forms of a part: `*`, `a`, `a-b`, each with a step or without; out of range or upside down is refused. */
  lemma PartForms(rg: Range, lo: nat, hi: nat, step: nat)
    requires lo < HALF && hi < HALF && 1 <= step < HALF && rg.min <= rg.max
    ensures ParsePart("*", rg) == Some(Span(rg.min, rg.max, 1))
    ensures ParsePart("*/" + Decimal(step), rg) == Some(Span(rg.min, rg.max, step))
    ensures ParsePart(Decimal(lo), rg) == if rg.min <= lo <= rg.max then Some(Span(lo, lo, 1)) else None
    ensures ParsePart(Decimal(lo) + "-" + Decimal(hi), rg)
         == if rg.min <= lo <= hi <= rg.max then Some(Span(lo, hi, 1)) else None
    ensures ParsePart(Decimal(lo) + "-" + Decimal(hi) + "/" + Decimal(step), rg)
         == if rg.min <= lo <= hi <= rg.max then Some(Span(lo, hi, step)) else None
  {
    hide ParsePart, ParseBounds, Decimal;
    BoundsOf(rg, lo, hi);
    StepOf("*", step, rg);
    StepOf(Decimal(lo), step, rg);
    StepOf(Decimal(lo) + "-" + Decimal(hi), step, rg);
    assert "*" + "/" + Decimal(step) == "*/" + Decimal(step);
  }

  /** Signs and zeros in front of a number are read too, and what does not fit 64 bits is none. */
  lemma AtoiReads(n: nat, zeros: nat)
    ensures Atoi(Pad(n, zeros)) == if n < HALF then Some(n as int) else None
    ensures Atoi("+" + Pad(n, zeros)) == if n < HALF then Some(n as int) else None
    ensures Atoi("-" + Pad(n, zeros)) == if n <= HALF then Some(-(n as int)) else None
  {
    hide Pad, ToNat;
    var text := Pad(n, zeros);
    ToNatPad(n, zeros);
    assert IsDigit(text[0]);
    assert ("+" + text)[1..] == text == ("-" + text)[1..];
  }

  /** Nothing but digits, with a sign in front or without, is read as a number. */
  lemma AtoiRefuses(s: string)
    requires s == "" || s == "+" || s == "-"
      || exists i :: 0 <= i < |s| && !IsDigit(s[i]) && (i > 0 || (s[i] != '+' && s[i] != '-'))
    ensures Atoi(s) == None
  {
    hide ToNat;
    if s != "" && s != "+" && s != "-" {
      var i :| 0 <= i < |s| && !IsDigit(s[i]) && (i > 0 || (s[i] != '+' && s[i] != '-'));
      assert i > 0 ==> s[1..][i - 1] == s[i];
    }
  }
}
