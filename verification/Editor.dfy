/**
 The editor's subtitle printers and parsers (web/src/editor/subtitles.ts).

 Times are whole milliseconds. `parseFloat` is a parameter: it answers the finite
 number a string starts with, or None for NaN and the infinities. Cue identifiers come from
 the clock and a counter and are not kept.
 */
module Editor {
  import opened EventText
  import opened Sequences
  import opened Text
  import opened Wrappers

  datatype Cue = Cue(start: int, end: int, text: string, an: nat, confidence: Option<real>)

  datatype Parsed = Parsed(cues: seq<Cue>, width: nat, height: nat)

  type ParseFloat = string -> Option<real>

  // ------------------------------------------------------------------ timecodes

  function Max0(n: int): nat { if n < 0 then 0 else n }

  function SrtTime(t: int): string {
    var ms := Max0(t);
    StampText(Pad(ms / 3_600_000, 2), Pad(ms % 3_600_000 / 60_000, 2), Pad(ms % 60_000 / 1000, 2), ',',
      Pad(ms % 1000, 3))
  }

  /** Centiseconds are `Math.round(t * 100)`: the nearest, halves upward. */
  function AssTime(t: int): string {
    var cs := Max0((t + 5) / 10);
    StampText(Decimal(cs / 360_000), Pad(cs % 360_000 / 6_000, 2), Pad(cs % 6_000 / 100, 2), '.', Pad(cs % 100, 2))
  }

  function ParseSrtStamp(v: string): nat {
    match FindStamp(JsTrim(v))
    case None => 0
    case Some(Stamp(h, m, s, f)) => h * 3_600_000 + m * 60_000 + s * 1000 + ToNat(PadEnd(f, 3)[..3])
  }

  function ParseAssStamp(v: string): nat {
    match FindStamp(JsTrim(v))
    case None => 0
    case Some(Stamp(h, m, s, f)) => h * 3_600_000 + m * 60_000 + s * 1000 + 10 * ToNat(PadEnd(f, 2)[..2])
  }

  /** Printed stamps hold no line break, no dash, no outer white space and no comma but a comma separator. */
  predicate StampLike(s: string, sep: char) {
    s != "" && Trimmed(s, JsSpace) && forall c :: c in s ==> IsDigit(c) || c == ':' || c == sep
  }

  lemma PadEndNone(s: string, width: nat)
    requires |s| == width
    ensures PadEnd(s, width)[..width] == s
  {
  }

  /** Four numbers printed as a stamp are found again, the fraction as its digits. */
  lemma NumbersReadBack(h: string, m: nat, s: nat, sep: char, f: nat, width: nat)
    requires Digits(h) && h != "" && sep in ".," && width >= 1 && f < Power10(width)
    ensures var t := StampText(h, Pad(m, 2), Pad(s, 2), sep, Pad(f, width));
      && StampLike(t, sep)
      && JsTrim(t) == t
      && FindStamp(t) == Some(Stamp(ToNat(h), m, s, Pad(f, width)))
    ensures |Pad(f, width)| == width && PadEnd(Pad(f, width), width)[..width] == Pad(f, width) &&
        ToNat(Pad(f, width)) == f
  {
    hide FindStamp, StampText, Pad, PadEnd, TrimLeft, TrimRight;
    ToNatPad(m, 2);
    ToNatPad(s, 2);
    ToNatPad(f, width);
    PadEndNone(Pad(f, width), width);
    StampChars(h, Pad(m, 2), Pad(s, 2), sep, Pad(f, width));
    TrimTrimmed(StampText(h, Pad(m, 2), Pad(s, 2), sep, Pad(f, width)), JsSpace);
    StampFound(h, Pad(m, 2), Pad(s, 2), sep, Pad(f, width));
  }

  // Taking hours or minutes off first does not change what is left of a minute or a second.

  lemma CentiMinutes(n: nat)
    ensures n % 360_000 % 6_000 == n % 6_000
  {
    var q, r := n / 360_000, n % 360_000;
    var k, rest := r / 6_000, r % 6_000;
    assert n == 6_000 * (60 * q + k) + rest;
  }

  lemma CentiSeconds(n: nat)
    ensures n % 6_000 % 100 == n % 100
  {
    var q, r := n / 6_000, n % 6_000;
    var k, rest := r / 100, r % 100;
    assert n == 100 * (60 * q + k) + rest;
  }

  lemma MilliMinutes(n: nat)
    ensures n % 3_600_000 % 60_000 == n % 60_000
  {
    var q, r := n / 3_600_000, n % 3_600_000;
    var k, rest := r / 60_000, r % 60_000;
    assert n == 60_000 * (60 * q + k) + rest;
  }

  lemma MilliSeconds(n: nat)
    ensures n % 60_000 % 1000 == n % 1000
  {
    var q, r := n / 60_000, n % 60_000;
    var k, rest := r / 1000, r % 1000;
    assert n == 1000 * (60 * q + k) + rest;
  }

  lemma MinutesOfHours(n: nat)
    ensures n % 360_000 % 6_000 == n % 6_000 && n % 6_000 % 100 == n % 100
    ensures n % 3_600_000 % 60_000 == n % 60_000 && n % 60_000 % 1000 == n % 1000
  {
    CentiMinutes(n);
    CentiSeconds(n);
    MilliMinutes(n);
    MilliSeconds(n);
  }

  lemma CentisecondFields(cs: nat)
    ensures cs / 360_000 * 360_000 + cs % 360_000 / 6_000 * 6_000 + cs % 6_000 / 100 * 100 + cs % 100 == cs
  {
    MinutesOfHours(cs);
  }

  lemma MillisecondFields(ms: nat)
    ensures ms / 3_600_000 * 3_600_000 + ms % 3_600_000 / 60_000 * 60_000 + ms % 60_000 / 1000 * 1000 + ms % 1000 == ms
  {
    MinutesOfHours(ms);
  }

  lemma AssTimeReadsBack(t: int)
    ensures StampLike(AssTime(t), '.')
    ensures ParseAssStamp(AssTime(t)) == 10 * Max0((t + 5) / 10)
  {
    var cs := Max0((t + 5) / 10);
    ToNatDecimal(cs / 360_000);
    assert Power10(1) == 10 && Power10(2) == 100;
    NumbersReadBack(Decimal(cs / 360_000), cs % 360_000 / 6_000, cs % 6_000 / 100, '.', cs % 100, 2);
    CentisecondFields(cs);
  }

  lemma SrtTimeReadsBack(t: int)
    ensures StampLike(SrtTime(t), ',')
    ensures ParseSrtStamp(SrtTime(t)) == Max0(t)
  {
    var ms := Max0(t);
    ToNatPad(ms / 3_600_000, 2);
    assert Power10(1) == 10 && Power10(2) == 100 && Power10(3) == 1000;
    NumbersReadBack(Pad(ms / 3_600_000, 2), ms % 3_600_000 / 60_000, ms % 60_000 / 1000, ',', ms % 1000, 3);
    MillisecondFields(ms);
  }

  // -------------------------------------------------------------------- sorting

  function Start(c: Cue): real { c.start as real }

  /** `cues.slice().sort((a, b) => a.start - b.start)`, a stable sort. */
  function SortByStart(cues: seq<Cue>): seq<Cue> { SortBy(cues, Start) }

  ghost predicate Ordered(cues: seq<Cue>) {
    forall i, j :: 0 <= i < j < |cues| ==> cues[i].start <= cues[j].start
  }

  /** The cues of one start time, in order. */
  function StartingAt(cues: seq<Cue>, t: int): seq<Cue> { WithKey(cues, Start, t as real) }

  /** The sort orders the cues, loses none, and leaves cues of one start time in their order. */
  lemma SortIsStable(cues: seq<Cue>)
    ensures Ordered(SortByStart(cues))
    ensures multiset(SortByStart(cues)) == multiset(cues)
    ensures forall t :: StartingAt(SortByStart(cues), t) == StartingAt(cues, t)
  {
    hide SortBy, WithKey;
    SortSorts(cues, Start);
    var sorted := SortByStart(cues);
    forall i, j | 0 <= i < j < |sorted| ensures sorted[i].start <= sorted[j].start {
      assert Start(sorted[i]) <= Start(sorted[j]);
    }
  }

  // ------------------------------------------------------- expressions on a line

  function LowerAscii(c: char): char { if 'A' <= c <= 'Z' then c + 32 as char else c }

  function Lower(s: string): string { seq(|s|, i requires 0 <= i < |s| => LowerAscii(s[i])) }

  predicate StartsNoCase(s: string, prefix: string) {
    |prefix| <= |s| && Lower(s[..|prefix|]) == Lower(prefix)
  }

  predicate HasNoCase(s: string, word: string) {
    StartsNoCase(s, word) || (s != "" && HasNoCase(s[1..], word))
  }

  /** The number captured by `^<key>\s*(\d+)`, upper and lower case alike. */
  function Resolution(line: string, key: string): Option<nat> {
    if !StartsNoCase(line, key) then None
    else
      var rest := TrimLeft(line[|key|..], JsSpace);
      var n := DigitRun(rest);
      if n == 0 then None else Some(ToNat(rest[..n]))
  }

  /** The name captured by `^\[([^\]]+)\]`. */
  function Section(line: string): Option<string> {
    if line == "" || line[0] != '[' then None
    else
      var i := IndexOf(line[1..], ']');
      if i == 0 || i == |line| - 1 then None else Some(line[1..][..i])
  }

  // ------------------------------------------------------------------ ASS: parse

  const DEFAULT_EVENT_FIELDS: seq<string> :=
    ["Layer", "Start", "End", "Style", "Name", "MarginL", "MarginR", "MarginV", "Effect", "Text"]

  /** What the loop over the lines carries. */
  datatype AssState = AssState(cues: seq<Cue>, width: nat, height: nat, fields: seq<string>, inEvents: bool)

  const ASS_START := AssState([], 1280, 720, DEFAULT_EVENT_FIELDS, false)

  predicate Named(f: string, name: string) { Lower(f) == Lower(name) }

  /** Column of a named field, the first one of that name; the fallback when there is none. */
  function Column(fields: seq<string>, name: string, fallback: nat): (i: nat)
    ensures (exists f :: f in fields && Named(f, name)) ==> i < |fields| && Named(fields[i], name)
    ensures (forall f :: f in fields ==> !Named(f, name)) ==> i == fallback
  {
    ColumnFrom(fields, name, fallback, 0)
  }

  function ColumnFrom(fields: seq<string>, name: string, fallback: nat, from: nat): (i: nat)
    requires from <= |fields|
    ensures (exists k :: from <= k < |fields| && Named(fields[k], name)) ==>
        from <= i < |fields| && Named(fields[i], name)
    ensures (forall k :: from <= k < |fields| ==> !Named(fields[k], name)) ==> i == fallback
    decreases |fields| - from
  {
    if from == |fields| then fallback
    else if Named(fields[from], name) then from
    else ColumnFrom(fields, name, fallback, from + 1)
  }

  /** The outcome of one Dialogue line. */
  datatype Event = Skipped | Crash | Added(cue: Cue)

  /**
   The cue on a Dialogue line. A line with too few columns for its text is skipped; one
   with no column for the start or the end makes the parser read `undefined.trim()`, which
   throws.
   */
  function ParseDialogue(fields: seq<string>, rest: string, parseFloat: ParseFloat): Event
    requires fields != []
  {
    DialogueCue(fields, Split(rest, ','), parseFloat)
  }

  function DialogueCue(fields: seq<string>, parts: seq<string>, parseFloat: ParseFloat): Event
    requires fields != []
  {
    var startIdx := Column(fields, "Start", 1);
    var endIdx := Column(fields, "End", 2);
    var nameIdx := Column(fields, "Name", 4);
    var textIdx := Column(fields, "Text", |fields| - 1);
    if |parts| <= textIdx then Skipped
    else if startIdx >= |parts| || endIdx >= |parts| then Crash
    else
      var conf := if nameIdx < |parts| then parseFloat(parts[nameIdx]) else None;
      var raw := Join(parts[textIdx..], ",");
      var an := FindAlignment(raw);
      Added(Cue(ParseAssStamp(parts[startIdx]), ParseAssStamp(parts[endIdx]), CleanText(raw),
                if an.Some? then an.value else 2, AsConfidence(conf)))
  }

  /** A number counts as a confidence between 0 and 1. */
  function AsConfidence(conf: Option<real>): Option<real> {
    if conf.Some? && 0.0 <= conf.value <= 1.0 then conf else None
  }

  /**
   Some Dialogue line makes the parser throw exactly when the Format line puts the start or the
   end after the text; with Text last none does.
   */
  lemma CrashIff(fields: seq<string>, parseFloat: ParseFloat)
    requires fields != []
    ensures (exists parts: seq<string> :: DialogueCue(fields, parts, parseFloat).Crash?) <==>
      var text := Column(fields, "Text", |fields| - 1);
      text < Column(fields, "Start", 1) || text < Column(fields, "End", 2)
  {
    hide Column, FindAlignment, CleanText, ParseAssStamp;
    var text := Column(fields, "Text", |fields| - 1);
    if text < Column(fields, "Start", 1) || text < Column(fields, "End", 2) {
      var parts := seq(text + 1, _ => "");
      assert DialogueCue(fields, parts, parseFloat).Crash?;
    }
  }

  /** One turn of the loop; None when it throws. */
  function AssLine(st: AssState, line: string, parseFloat: ParseFloat): (r: Option<AssState>)
    requires st.fields != []
    ensures r.Some? ==> r.value.fields != []
  {
    var resX := Resolution(line, "PlayResX:");
    var st1 := if resX.Some? then st.(width := resX.value) else st;
    var resY := Resolution(line, "PlayResY:");
    var st2 := if resY.Some? then st1.(height := resY.value) else st1;
    var section := Section(line);
    if section.Some? then Some(st2.(inEvents := HasNoCase(section.value, "events")))
    else if st2.inEvents && StartsNoCase(line, "Format:") then
      Some(st2.(fields := FormatFields(line[IndexOf(line, ':')..])))
    else if "Dialogue:" <= line then
      match ParseDialogue(st2.fields, line[|"Dialogue:"|..], parseFloat)
      case Skipped => Some(st2)
      case Crash => None
      case Added(cue) => Some(st2.(cues := st2.cues + [cue]))
    else Some(st2)
  }

  /** The trimmed names after the colon of a Format line. */
  function FormatFields(tail: string): (r: seq<string>)
    ensures r != []
  {
    var parts := Split(if tail == "" then "" else tail[1..], ',');
    seq(|parts|, i requires 0 <= i < |parts| => JsTrim(parts[i]))
  }

  function AssLines(st: AssState, lines: seq<string>, parseFloat: ParseFloat): (r: Option<AssState>)
    requires st.fields != []
    ensures r.Some? ==> r.value.fields != []
    decreases |lines|
  {
    if lines == [] then Some(st)
    else
      match AssLine(st, lines[0], parseFloat)
      case None => None
      case Some(st1) => AssLines(st1, lines[1..], parseFloat)
  }

  lemma {:induction false} AssLinesAppend(st: AssState, a: seq<string>, b: seq<string>, parseFloat: ParseFloat)
    requires st.fields != []
    ensures AssLines(st, a + b, parseFloat) ==
      match AssLines(st, a, parseFloat) case None => None case Some(st1) => AssLines(st1, b, parseFloat)
    decreases |a|
  {
    if a == [] {
      assert a + b == b;
    } else {
      assert (a + b)[1..] == a[1..] + b;
      match AssLine(st, a[0], parseFloat)
      case None =>
      case Some(st1) => AssLinesAppend(st1, a[1..], b, parseFloat);
    }
  }

  /** What parsing a whole file gives; None when it throws. */
  function ParsedAss(text: string, parseFloat: ParseFloat): Option<Parsed> {
    match AssLines(ASS_START, Split(Remove(text, '\r'), '\n'), parseFloat)
    case None => None
    case Some(st) => Some(Parsed(st.cues, st.width, st.height))
  }

  /** The parser's loop, line by line. */
  method ParseASS(text: string, parseFloat: ParseFloat) returns (r: Option<Parsed>)
    ensures r == ParsedAss(text, parseFloat)
  {
    hide Resolution, Section, HasNoCase, StartsNoCase, ParseDialogue, Split, Remove;
    var lines := Split(Remove(text, '\r'), '\n');
    var width, height := 1280, 720;
    var cues: seq<Cue> := [];
    var fields := DEFAULT_EVENT_FIELDS;
    var inEvents := false;
    for k := 0 to |lines|
      invariant fields != []
      invariant AssLines(ASS_START, lines, parseFloat)
             == AssLines(AssState(cues, width, height, fields, inEvents), lines[k..], parseFloat)
    {
      var line := lines[k];
      var resX := Resolution(line, "PlayResX:");
      if resX.Some? { width := resX.value; }
      var resY := Resolution(line, "PlayResY:");
      if resY.Some? { height := resY.value; }
      var section := Section(line);
      if section.Some? {
        inEvents := HasNoCase(section.value, "events");
        continue;
      }
      if inEvents && StartsNoCase(line, "Format:") {
        fields := FormatFields(line[IndexOf(line, ':')..]);
        continue;
      }
      if "Dialogue:" <= line {
        match ParseDialogue(fields, line[|"Dialogue:"|..], parseFloat)
        case Skipped => continue;
        case Crash => return None;
        case Added(cue) => cues := cues + [cue];
      }
    }
    return Some(Parsed(cues, width, height));
  }

  // ------------------------------------------------------------------ ASS: print

  /** What is filled in on a Dialogue line: times and name as text. */
  datatype Entry = Entry(start: string, end: string, name: string, an: nat, text: string)

  /** The comma-separated columns of a Dialogue line before its text. */
  function EventColumns(e: Entry): seq<string> {
    [" 0", e.start, e.end, "Default", e.name, "0", "0", "0", ""]
  }

  function EventLine(e: Entry): string {
    "Dialogue:" + Join(EventColumns(e) + [AlignmentTag(e.an) + EscapeNewlines(e.text)], ",")
  }

  function EventLines(entries: seq<Entry>): seq<string> {
    if entries == [] then [] else [EventLine(entries[0])] + EventLines(entries[1..])
  }

  /** The editor leaves the name empty. */
  function EntryOf(c: Cue): Entry { Entry(AssTime(c.start), AssTime(c.end), "", c.an, c.text) }

  function EntriesOf(cues: seq<Cue>): seq<Entry> {
    if cues == [] then [] else [EntryOf(cues[0])] + EntriesOf(cues[1..])
  }

  const COLOUR_FIELDS: seq<string> :=
    ["Name", "Fontname", "Fontsize", "PrimaryColour", "SecondaryColour", "OutlineColour", "BackColour"]

  const FACE_FIELDS: seq<string> := ["Bold", "Italic", "Underline", "StrikeOut", "ScaleX", "ScaleY", "Spacing", "Angle"]

  const PLACE_FIELDS: seq<string> :=
    ["BorderStyle", "Outline", "Shadow", "Alignment", "MarginL", "MarginR", "MarginV", "Encoding"]

  const STYLE_FIELDS: seq<string> := COLOUR_FIELDS + FACE_FIELDS + PLACE_FIELDS

  function StyleFormat(): string { "Format: " + Join(STYLE_FIELDS, ", ") }

  function StyleValues(fontsize: nat): seq<string> {
    ["Default", "Arial", Decimal(fontsize), "&H00FFFFFF", "&H000000FF", "&H00000000", "&H64000000",
     "0", "0", "0", "0", "100", "100", "0", "0", "1", "2", "1", "2", "10", "10", "20", "1"]
  }

  function StyleLine(fontsize: nat): string { "Style: " + Join(StyleValues(fontsize), ",") }

  /** The names of DEFAULT_EVENT_FIELDS as the Format line spells them, a blank after each comma. */
  function EventFormat(): seq<string> {
    seq(10, i requires 0 <= i < 10 => " " + DEFAULT_EVENT_FIELDS[i])
  }

  function FontSize(height: nat): nat { var size := (height + 10) / 20; if size < 16 then 16 else size }

  function ScriptInfo(width: nat, height: nat): seq<string> {
    ["[Script Info]", "ScriptType: v4.00+", "PlayResX: " + Decimal(width), "PlayResY: " + Decimal(height),
     "WrapStyle: 0", "ScaledBorderAndShadow: yes", ""]
  }

  function Styles(size: nat): seq<string> {
    ["[V4+ Styles]", StyleFormat(), StyleLine(size), ""]
  }

  function EventsHead(): seq<string> {
    ["[Events]", "Format:" + Join(EventFormat(), ",")]
  }

  function HeaderLines(width: nat, height: nat, size: nat): seq<string> {
    ScriptInfo(width, height) + Styles(size) + EventsHead()
  }

  function ToASS(cues: seq<Cue>, width: nat, height: nat): string {
    Join(HeaderLines(width, height, FontSize(height)), "\n") + "\n" +
      Join(EventLines(EntriesOf(SortByStart(cues))), "\n") + "\n"
  }

  // ------------------------------------------------------------- ASS: round trip

  /** The nearest centisecond, halves upward; nothing before zero. */
  function Centisecond(t: int): nat { 10 * Max0((t + 5) / 10) }

  /** What the ASS form keeps of a cue. */
  function Kept(c: Cue): Cue {
    Cue(Centisecond(c.start), Centisecond(c.end), ReadText(c.an, c.text), ReadAlignment(c.an, c.text), None)
  }

  function AllKept(cues: seq<Cue>): seq<Cue> {
    if cues == [] then [] else [Kept(cues[0])] + AllKept(cues[1..])
  }

  function WithoutConfidence(cues: seq<Cue>): seq<Cue> {
    if cues == [] then [] else [cues[0].(confidence := None)] + WithoutConfidence(cues[1..])
  }

  lemma {:induction false} ColumnFirst(fields: seq<string>, name: string, fallback: nat, from: nat, k: nat)
    requires from <= k < |fields| && Named(fields[k], name)
    requires forall i :: from <= i < k ==> !Named(fields[i], name)
    ensures ColumnFrom(fields, name, fallback, from) == k
    decreases |fields| - from
  {
    if from < k {
      ColumnFirst(fields, name, fallback, from + 1, k);
    }
  }

  lemma NotNamed(f: string, name: string)
    requires |f| != |name| || (f != "" && LowerAscii(f[0]) != LowerAscii(name[0]))
    ensures !Named(f, name)
  {
    assert |Lower(f)| == |f| && |Lower(name)| == |name|;
    if |f| == |name| {
      assert Lower(f)[0] != Lower(name)[0];
    }
  }

  lemma DefaultColumns()
    ensures Column(DEFAULT_EVENT_FIELDS, "Start", 1) == 1 && Column(DEFAULT_EVENT_FIELDS, "End", 2) == 2
    ensures Column(DEFAULT_EVENT_FIELDS, "Name", 4) == 4 && Column(DEFAULT_EVENT_FIELDS, "Text", 9) == 9
  {
    var fields := DEFAULT_EVENT_FIELDS;
    NotNamed(fields[0], "Start");
    ColumnFirst(fields, "Start", 1, 0, 1);
    forall i | 0 <= i < 2 ensures !Named(fields[i], "End") { NotNamed(fields[i], "End"); }
    ColumnFirst(fields, "End", 2, 0, 2);
    forall i | 0 <= i < 4 ensures !Named(fields[i], "Name") { NotNamed(fields[i], "Name"); }
    ColumnFirst(fields, "Name", 4, 0, 4);
    forall i | 0 <= i < 9 ensures !Named(fields[i], "Text") { NotNamed(fields[i], "Text"); }
    ColumnFirst(fields, "Text", 9, 0, 9);
  }

  /** A line that begins with none of the characters the parser looks for changes nothing. */
  lemma NeutralLine(st: AssState, line: string, parseFloat: ParseFloat)
    requires st.fields != []
    requires line == "" || LowerAscii(line[0]) !in "p[d"
    requires line == "" || !st.inEvents || LowerAscii(line[0]) != 'f'
    ensures AssLine(st, line, parseFloat) == Some(st)
  {
    if line != "" {
      NoPrefix(line, "PlayResX:");
      NoPrefix(line, "PlayResY:");
      if LowerAscii(line[0]) != 'f' { NoPrefix(line, "Format:"); }
      assert "Dialogue:"[0] == 'D' && LowerAscii('D') == 'd';
    }
  }

  lemma NoPrefix(line: string, prefix: string)
    requires line != "" && prefix != "" && LowerAscii(line[0]) != LowerAscii(prefix[0])
    ensures !StartsNoCase(line, prefix)
  {
    if |prefix| <= |line| {
      assert Lower(line[..|prefix|])[0] != Lower(prefix)[0];
    }
  }

  /** A number after a blank is read. */
  lemma NumberAfterBlank(n: nat)
    ensures var d := Decimal(n);
      TrimLeft(" " + d, JsSpace) == d && DigitRun(d) == |d| > 0 && d[..|d|] == d && ToNat(d) == n
  {
    hide Decimal;
    var d := Decimal(n);
    ToNatDecimal(n);
    TrimLeftPad(" ", d, JsSpace);
    assert IsDigit(d[0]) && !JsSpace(d[0]);
    assert TrimLeft(d, JsSpace) == d;
    assert d + "" == d;
    DigitRunStops(d, "");
  }

  lemma ResolutionLine(key: string, other: string, n: nat)
    requires (key == "PlayResX:" && other == "PlayResY:") || (key == "PlayResY:" && other == "PlayResX:")
    ensures Resolution(key + " " + Decimal(n), key) == Some(n)
    ensures Resolution(key + " " + Decimal(n), other) == None
  {
    hide Decimal, DigitRun, TrimLeft, ToNat;
    var line := key + " " + Decimal(n);
    assert line[..9] == key;
    assert line[9..] == " " + Decimal(n);
    NumberAfterBlank(n);
    assert Lower(key)[7] != Lower(other)[7];
  }

  lemma {:induction false} NoEvents(s: string)
    requires forall i :: 0 <= i && i + 6 <= |s| ==> LowerAscii(s[i]) != 'e'
    ensures !HasNoCase(s, "events")
  {
    if s != "" {
      if |s| >= 6 {
        assert s[0 + 0] == s[0];
        NoPrefix(s, "events");
      }
      forall i | 0 <= i && i + 6 <= |s[1..]| ensures LowerAscii(s[1..][i]) != 'e' {
        assert s[1..][i] == s[i + 1];
      }
      NoEvents(s[1..]);
    }
  }

  /** A section line switches to the events, or away from them. */
  lemma SectionLine(st: AssState, name: string, parseFloat: ParseFloat)
    requires st.fields != [] && name != "" && ']' !in name
    ensures AssLine(st, "[" + name + "]", parseFloat) == Some(st.(inEvents := HasNoCase(name, "events")))
  {
    var line := "[" + name + "]";
    NoPrefix(line, "PlayResX:");
    NoPrefix(line, "PlayResY:");
    assert line[1..] == name + [']'] + "";
    IndexOfFirst(name, ']', "");
    assert line[1..][..|name|] == name;
  }

  /** Field names are words: no comma, line break or carriage return, and trimmed. */
  lemma FieldName(i: nat)
    requires i < 10
    ensures var f := DEFAULT_EVENT_FIELDS[i];
      f != "" && Trimmed(f, JsSpace) && ',' !in f && '\n' !in f && '\r' !in f
  {
    var f := DEFAULT_EVENT_FIELDS[i];
    if i < 5 {
      assert f == "Layer" || f == "Start" || f == "End" || f == "Style" || f == "Name";
    } else {
      assert f == "MarginL" || f == "MarginR" || f == "MarginV" || f == "Effect" || f == "Text";
    }
  }

  lemma EventFormatChars()
    ensures forall i :: 0 <= i < 10 ==>
        ',' !in EventFormat()[i] && '\n' !in EventFormat()[i] && '\r' !in EventFormat()[i]
    ensures forall i :: 0 <= i < 10 ==> JsTrim(EventFormat()[i]) == DEFAULT_EVENT_FIELDS[i]
  {
    forall i | 0 <= i < 10
      ensures ',' !in EventFormat()[i] && '\n' !in EventFormat()[i] && '\r' !in EventFormat()[i]
      ensures JsTrim(EventFormat()[i]) == DEFAULT_EVENT_FIELDS[i]
    {
      var f := DEFAULT_EVENT_FIELDS[i];
      FieldName(i);
      TrimLeftPad(" ", f, JsSpace);
      TrimTrimmed(f, JsSpace);
    }
  }

  lemma FormatNames()
    ensures FormatFields(":" + Join(EventFormat(), ",")) == DEFAULT_EVENT_FIELDS
  {
    var all := EventFormat();
    var front, last := all[..9], all[9];
    EventFormatChars();
    assert all == front + [last];
    forall p | p in front ensures ',' !in p {
      var i :| 0 <= i < 9 && front[i] == p;
    }
    SplitJoin(front, last, ',');
    SplitWhole(last, ',');
    assert (":" + Join(all, ","))[1..] == Join(all, ",");
  }

  predicate OneColumn(s: string) { ',' !in s && '\n' !in s && '\r' !in s }

  predicate Printable(e: Entry) { OneColumn(e.start) && OneColumn(e.end) && OneColumn(e.name) }

  /** What the parser makes of an entry. */
  function ReadEntry(e: Entry, parseFloat: ParseFloat): Cue {
    Cue(ParseAssStamp(e.start), ParseAssStamp(e.end), ReadText(e.an, e.text), ReadAlignment(e.an, e.text),
        AsConfidence(parseFloat(e.name)))
  }

  function ReadEntries(entries: seq<Entry>, parseFloat: ParseFloat): seq<Cue> {
    if entries == [] then [] else [ReadEntry(entries[0], parseFloat)] + ReadEntries(entries[1..], parseFloat)
  }

  /** The columns hold no comma and no line break. */
  lemma EventColumnsChars(e: Entry)
    requires Printable(e)
    ensures |EventColumns(e)| == 9
    ensures forall p :: p in EventColumns(e) ==> OneColumn(p)
  {
    var columns := EventColumns(e);
    forall i | 0 <= i < 9 ensures OneColumn(columns[i]) {
      EventColumnChars(e, i);
    }
    hide OneColumn;
  }

  lemma EventColumnChars(e: Entry, i: nat)
    requires i < 9 && OneColumn(e.start) && OneColumn(e.end) && OneColumn(e.name)
    ensures OneColumn(EventColumns(e)[i])
  {
    assert OneColumn(" 0") && OneColumn("Default") && OneColumn("") && OneColumn("0");
    hide OneColumn;
  }

  /** The columns of a printed Dialogue line are split as they were joined; the text goes on to the end. */
  lemma EventColumnsSplit(e: Entry, raw: string)
    requires Printable(e)
    ensures Split(Join(EventColumns(e) + [raw], ","), ',') == EventColumns(e) + Split(raw, ',')
  {
    EventColumnsChars(e);
    hide EventColumns;
    SplitJoin(EventColumns(e), raw, ',');
  }

  /** The line of an entry in a file freed of carriage returns. */
  function StoredLine(e: Entry): string { EventLine(e.(text := Remove(e.text, '\r'))) }

  function StoredLines(entries: seq<Entry>): seq<string> {
    if entries == [] then [] else [StoredLine(entries[0])] + StoredLines(entries[1..])
  }

  /** A printed Dialogue line is parsed to its entry, whatever the text. */
  lemma EventReadsBack(e: Entry, parseFloat: ParseFloat)
    requires Printable(e)
    ensures ParseDialogue(DEFAULT_EVENT_FIELDS, StoredLine(e)[9..], parseFloat) == Added(ReadEntry(e, parseFloat))
  {
    hide ParseAssStamp, CleanText, FindAlignment, Split, AlignmentTag, EscapeNewlines, Remove, Column, AsConfidence;
    var raw := RawText(e.an, e.text);
    var stored := e.(text := Remove(e.text, '\r'));
    var columns := EventColumns(e);
    assert StoredLine(e)[9..] == Join(columns + [raw], ",");
    EventColumnsSplit(stored, raw);
    var parts := columns + Split(raw, ',');
    assert parts[9..] == Split(raw, ',');
    JoinSplit(raw, ',');
    DefaultColumns();
  }

  lemma EventLineStep(st: AssState, rest: string, parseFloat: ParseFloat)
    requires st.fields != []
    ensures AssLine(st, "Dialogue:" + rest, parseFloat) ==
      match ParseDialogue(st.fields, rest, parseFloat)
      case Skipped => Some(st)
      case Crash => None
      case Added(cue) => Some(st.(cues := st.cues + [cue]))
  {
    hide ParseDialogue;
    var line := "Dialogue:" + rest;
    NoPrefix(line, "PlayResX:");
    NoPrefix(line, "PlayResY:");
    NoPrefix(line, "Format:");
    assert line[9..] == rest;
  }

  lemma AssLinesStep(st: AssState, line: string, rest: seq<string>, parseFloat: ParseFloat)
    requires st.fields != [] && AssLine(st, line, parseFloat).Some?
    ensures AssLines(st, [line] + rest, parseFloat) == AssLines(AssLine(st, line, parseFloat).value, rest, parseFloat)
  {
    hide AssLine;
    assert ([line] + rest)[1..] == rest;
  }

  lemma EventLineReadsBack(st: AssState, e: Entry, parseFloat: ParseFloat)
    requires st.fields == DEFAULT_EVENT_FIELDS && Printable(e)
    ensures AssLine(st, StoredLine(e), parseFloat) == Some(st.(cues := st.cues + [ReadEntry(e, parseFloat)]))
  {
    hide AssLine, ParseDialogue, Printable, ReadEntry, Join, AlignmentTag;
    EventReadsBack(e, parseFloat);
    var rest := StoredLine(e)[9..];
    assert StoredLine(e) == "Dialogue:" + rest;
    EventLineStep(st, rest, parseFloat);
  }

  lemma {:induction false} EventLinesReadBack(st: AssState, entries: seq<Entry>, parseFloat: ParseFloat)
    requires st.fields == DEFAULT_EVENT_FIELDS && forall e :: e in entries ==> Printable(e)
    ensures AssLines(st, StoredLines(entries), parseFloat) ==
        Some(st.(cues := st.cues + ReadEntries(entries, parseFloat)))
    decreases |entries|
  {
    hide AssLine, StoredLine, Printable, ReadEntry;
    if entries == [] {
      assert st.cues + [] == st.cues;
    } else {
      var c := ReadEntry(entries[0], parseFloat);
      var st1 := st.(cues := st.cues + [c]);
      EventLineReadsBack(st, entries[0], parseFloat);
      AssLinesStep(st, StoredLine(entries[0]), StoredLines(entries[1..]), parseFloat);
      EventLinesReadBack(st1, entries[1..], parseFloat);
      assert st1.cues + ReadEntries(entries[1..], parseFloat) == st.cues + ReadEntries(entries, parseFloat);
    }
  }

  /** What the editor's entries are read back as. */
  lemma EntryKept(c: Cue, parseFloat: ParseFloat)
    requires parseFloat("") == None
    ensures Printable(EntryOf(c)) && ReadEntry(EntryOf(c), parseFloat) == Kept(c)
  {
    hide AssTime, ParseAssStamp, ReadText, ReadAlignment;
    AssTimeReadsBack(c.start);
    AssTimeReadsBack(c.end);
  }

  lemma {:induction false} EntriesKept(cues: seq<Cue>, parseFloat: ParseFloat)
    requires parseFloat("") == None
    ensures forall e :: e in EntriesOf(cues) ==> Printable(e)
    ensures ReadEntries(EntriesOf(cues), parseFloat) == AllKept(cues) && |EntriesOf(cues)| == |cues|
    decreases |cues|
  {
    hide Printable, ReadEntry, Kept, EntryOf;
    if cues != [] {
      EntryKept(cues[0], parseFloat);
      EntriesKept(cues[1..], parseFloat);
      assert EntriesOf(cues)[1..] == EntriesOf(cues[1..]);
    }
  }

  // The lines of the file hold no line break of their own.

  predicate OneLine(s: string) { '\n' !in s && '\r' !in s }

  predicate AllOneLine(lines: seq<string>) { forall l :: l in lines ==> OneLine(l) }

  lemma {:induction false} JoinOneLine(parts: seq<string>, sep: string)
    requires AllOneLine(parts) && OneLine(sep)
    ensures OneLine(Join(parts, sep))
  {
    JoinChars(parts, sep);
  }

  predicate NoBreak(s: string) { '\n' !in s }

  predicate NoBreaks(lines: seq<string>) { forall l :: l in lines ==> NoBreak(l) }

  lemma TagChars(an: nat)
    ensures OneLine(AlignmentTag(an))
  {
    hide Decimal;
    NumberChars(an);
  }

  /** A printed line holds no line break, and in the file it is stored without carriage returns. */
  lemma EventLineChars(e: Entry)
    requires Printable(e)
    ensures NoBreak(EventLine(e)) && Remove(EventLine(e), '\r') == StoredLine(e)
  {
    hide AlignmentTag, EventColumns, Join, EscapeNewlines, Remove, NoReturns;
    var columns, tag := EventColumns(e), AlignmentTag(e.an);
    var raw := tag + EscapeNewlines(e.text);
    TagChars(e.an);
    EscapedChars(e.text);
    EventColumnsChars(e);
    JoinChars(columns + [raw], ",");
    assert NoBreak(raw);
    assert '\n' !in Join(columns + [raw], ",");
    RemoveInJoin(columns + [raw], ",");
    ColumnsStored(columns, raw);
    RemoveAppend("Dialogue:", Join(columns + [raw], ","), '\r');
    NothingRemoved("Dialogue:");
    RemoveAppend(tag, EscapeNewlines(e.text), '\r');
    NothingRemoved(tag);
    EscapeWithoutReturns(e.text);
    assert EventColumns(e.(text := Remove(e.text, '\r'))) == columns by { ColumnsWithoutText(e); }
  }

  lemma ColumnsWithoutText(e: Entry)
    ensures forall text :: EventColumns(e.(text := text)) == EventColumns(e)
  {
  }

  lemma {:induction false} ColumnsStored(columns: seq<string>, raw: string)
    requires forall p :: p in columns ==> OneColumn(p)
    ensures NoReturns(columns + [raw]) == columns + [Remove(raw, '\r')]
    decreases |columns|
  {
    hide Remove;
    if columns == [] {
      assert [] + [raw] == [raw] && [raw][1..] == [];
    } else {
      assert (columns + [raw])[1..] == columns[1..] + [raw];
      ColumnsStored(columns[1..], raw);
      assert OneColumn(columns[0]);
      NothingRemoved(columns[0]);
    }
  }

  lemma {:induction false} EventLinesChars(entries: seq<Entry>)
    requires forall e :: e in entries ==> Printable(e)
    ensures NoBreaks(EventLines(entries)) && |EventLines(entries)| == |entries|
    ensures NoReturns(EventLines(entries)) == StoredLines(entries)
    decreases |entries|
  {
    hide EventLine, Printable, StoredLine, NoBreak, Remove;
    if entries != [] {
      EventLineChars(entries[0]);
      EventLinesChars(entries[1..]);
      NoReturnsFront(EventLine(entries[0]), EventLines(entries[1..]));
    }
  }

  lemma NumberChars(n: nat)
    ensures OneLine(Decimal(n)) && Decimal(n) != "" && IsDigit(Decimal(n)[0])
  {
    ToNatDecimal(n);
  }

  lemma OneLineAppend(a: string, b: string)
    requires OneLine(a) && OneLine(b)
    ensures OneLine(a + b) && (a != "" ==> a + b != "" && (a + b)[0] == a[0])
  {
  }

  lemma ColourFieldsChars()
    ensures AllOneLine(COLOUR_FIELDS)
  {
  }

  lemma FaceFieldsChars()
    ensures AllOneLine(FACE_FIELDS)
  {
  }

  lemma PlaceFieldsChars()
    ensures AllOneLine(PLACE_FIELDS)
  {
  }

  lemma StyleFieldsChars()
    ensures AllOneLine(STYLE_FIELDS)
  {
    hide COLOUR_FIELDS, FACE_FIELDS, PLACE_FIELDS, OneLine;
    ColourFieldsChars();
    FaceFieldsChars();
    PlaceFieldsChars();
  }

  lemma StyleFormatChars()
    ensures OneLine(StyleFormat()) && StyleFormat() != "" && StyleFormat()[0] == 'F'
  {
    StyleFieldsChars();
    hide STYLE_FIELDS;
    JoinOneLine(STYLE_FIELDS, ", ");
    OneLineAppend("Format: ", Join(STYLE_FIELDS, ", "));
  }

  lemma StyleValuesChars(fontsize: nat)
    ensures AllOneLine(StyleValues(fontsize))
  {
    hide Decimal;
    NumberChars(fontsize);
  }

  lemma StyleLineChars(fontsize: nat)
    ensures OneLine(StyleLine(fontsize)) && StyleLine(fontsize) != "" && StyleLine(fontsize)[0] == 'S'
  {
    StyleValuesChars(fontsize);
    hide StyleValues;
    JoinOneLine(StyleValues(fontsize), ",");
    OneLineAppend("Style: ", Join(StyleValues(fontsize), ","));
  }

  lemma EventFormatLineChars()
    ensures OneLine("Format:" + Join(EventFormat(), ","))
  {
    EventFormatChars();
    hide EventFormat, DEFAULT_EVENT_FIELDS, Join;
    forall l | l in EventFormat() ensures OneLine(l) {
      var i :| 0 <= i < |EventFormat()| && EventFormat()[i] == l;
      assert i < 10 by { EventFormatSize(); }
    }
    JoinOneLine(EventFormat(), ",");
    OneLineAppend("Format:", Join(EventFormat(), ","));
  }

  lemma EventFormatSize()
    ensures |EventFormat()| == 10
  {
    hide DEFAULT_EVENT_FIELDS;
  }

  lemma InfoChars()
    ensures OneLine("[Script Info]") && OneLine("WrapStyle: 0") && OneLine("")
  {
  }

  lemma InfoTypeChars()
    ensures OneLine("ScriptType: v4.00+")
  {
  }

  lemma InfoShadowChars()
    ensures OneLine("ScaledBorderAndShadow: yes")
  {
  }

  lemma ResolutionChars(key: string, n: nat)
    requires key == "PlayResX: " || key == "PlayResY: "
    ensures OneLine(key + Decimal(n))
  {
    hide Decimal;
    NumberChars(n);
  }

  lemma ScriptInfoChars(width: nat, height: nat)
    ensures AllOneLine(ScriptInfo(width, height))
  {
    hide Decimal, OneLine;
    ResolutionChars("PlayResX: ", width);
    ResolutionChars("PlayResY: ", height);
    InfoChars();
    InfoTypeChars();
    InfoShadowChars();
  }

  lemma SectionChars()
    ensures OneLine("[V4+ Styles]") && OneLine("[Events]")
  {
  }

  lemma HeaderChars(width: nat, height: nat, size: nat)
    ensures AllOneLine(HeaderLines(width, height, size)) && HeaderLines(width, height, size) != []
  {
    hide ScriptInfo, StyleLine, StyleFormat, Join, EventFormat, OneLine;
    ScriptInfoChars(width, height);
    StyleFormatChars();
    StyleLineChars(size);
    EventFormatLineChars();
    SectionChars();
    InfoChars();
  }

  lemma SizeLine(st: AssState, key: string, other: string, n: nat, parseFloat: ParseFloat)
    requires st.fields != []
    requires (key == "PlayResX:" && other == "PlayResY:") || (key == "PlayResY:" && other == "PlayResX:")
    ensures AssLine(st, key + " " + Decimal(n), parseFloat)
         == Some(if key == "PlayResX:" then st.(width := n) else st.(height := n))
  {
    hide Resolution, ParseDialogue, FormatFields;
    ResolutionLine(key, other, n);
    var line := key + " " + Decimal(n);
    NoPrefix(line, "Format:");
    assert line[0] == 'P' && "Dialogue:"[0] == 'D';
  }

  lemma NeutralStep(st: AssState, line: string, rest: seq<string>, parseFloat: ParseFloat)
    requires st.fields != [] && !st.inEvents
    requires line == "" || LowerAscii(line[0]) !in "p[d"
    ensures AssLines(st, [line] + rest, parseFloat) == AssLines(st, rest, parseFloat)
  {
    NeutralLine(st, line, parseFloat);
    AssLinesStep(st, line, rest, parseFloat);
  }

  /** The script information gives the size. */
  lemma ScriptInfoReadsBack(st: AssState, width: nat, height: nat, rest: seq<string>, parseFloat: ParseFloat)
    requires st.fields != []
    ensures AssLines(st, ScriptInfo(width, height) + rest, parseFloat)
         == AssLines(st.(width := width, height := height, inEvents := false), rest, parseFloat)
  {
    hide AssLine, AssLines, Decimal, HasNoCase;
    var r6 := [""] + rest;
    var r5 := ["ScaledBorderAndShadow: yes"] + r6;
    var r4 := ["WrapStyle: 0"] + r5;
    var r3 := ["PlayResY: " + Decimal(height)] + r4;
    var r2 := ["PlayResX: " + Decimal(width)] + r3;
    var r1 := ["ScriptType: v4.00+"] + r2;
    assert ScriptInfo(width, height) + rest == ["[Script Info]"] + r1;
    var s1 := st.(inEvents := false);
    NoEvents("Script Info");
    assert "[Script Info]" == "[" + "Script Info" + "]";
    assert "PlayResX: " + Decimal(width) == "PlayResX:" + " " + Decimal(width);
    assert "PlayResY: " + Decimal(height) == "PlayResY:" + " " + Decimal(height);
    SectionLine(st, "Script Info", parseFloat);
    AssLinesStep(st, "[Script Info]", r1, parseFloat);
    NeutralStep(s1, "ScriptType: v4.00+", r2, parseFloat);
    SizeLine(s1, "PlayResX:", "PlayResY:", width, parseFloat);
    AssLinesStep(s1, "PlayResX: " + Decimal(width), r3, parseFloat);
    var s2 := s1.(width := width);
    SizeLine(s2, "PlayResY:", "PlayResX:", height, parseFloat);
    AssLinesStep(s2, "PlayResY: " + Decimal(height), r4, parseFloat);
    var s3 := s2.(height := height);
    NeutralStep(s3, "WrapStyle: 0", r5, parseFloat);
    NeutralStep(s3, "ScaledBorderAndShadow: yes", r6, parseFloat);
    NeutralStep(s3, "", rest, parseFloat);
  }

  /** The Format line of the styles is not mistaken for the one of the events. */
  lemma StylesReadBack(st: AssState, size: nat, rest: seq<string>, parseFloat: ParseFloat)
    requires st.fields != [] && !st.inEvents
    ensures AssLines(st, Styles(size) + rest, parseFloat) == AssLines(st, rest, parseFloat)
  {
    hide AssLine, AssLines, HasNoCase, StyleLine, StyleFormat;
    var r3 := [""] + rest;
    var r2 := [StyleLine(size)] + r3;
    var r1 := [StyleFormat()] + r2;
    assert Styles(size) + rest == ["[V4+ Styles]"] + r1;
    NoEvents("V4+ Styles");
    assert "[V4+ Styles]" == "[" + "V4+ Styles" + "]";
    SectionLine(st, "V4+ Styles", parseFloat);
    AssLinesStep(st, "[V4+ Styles]", r1, parseFloat);
    StyleFormatChars();
    StyleLineChars(size);
    NeutralStep(st, StyleFormat(), r2, parseFloat);
    NeutralStep(st, StyleLine(size), r3, parseFloat);
    NeutralStep(st, "", rest, parseFloat);
  }

  lemma FormatLine(st: AssState, tail: string, parseFloat: ParseFloat)
    requires st.fields != [] && st.inEvents
    ensures AssLine(st, "Format:" + tail, parseFloat) == Some(st.(fields := FormatFields(":" + tail)))
  {
    hide FormatFields, ParseDialogue;
    var line := "Format:" + tail;
    NoPrefix(line, "PlayResX:");
    NoPrefix(line, "PlayResY:");
    assert line[..7] == "Format:";
    assert line == "Format" + [':'] + tail;
    IndexOfFirst("Format", ':', tail);
    assert line[6..] == ":" + tail;
  }

  /** The Format line of the events names the columns. */
  lemma EventsHeadReadsBack(st: AssState, rest: seq<string>, parseFloat: ParseFloat)
    requires st.fields != []
    ensures AssLines(st, EventsHead() + rest, parseFloat)
         == AssLines(st.(inEvents := true, fields := DEFAULT_EVENT_FIELDS), rest, parseFloat)
  {
    hide AssLine, AssLines, Join, EventFormat, FormatFields, DEFAULT_EVENT_FIELDS;
    var tail := Join(EventFormat(), ",");
    var r1 := ["Format:" + tail] + rest;
    assert EventsHead() + rest == ["[Events]"] + r1;
    assert HasNoCase("Events", "events") by {
      assert "Events"[..6] == "Events";
      assert Lower("Events") == Lower("events");
    }
    assert "[Events]" == "[" + "Events" + "]";
    SectionLine(st, "Events", parseFloat);
    AssLinesStep(st, "[Events]", r1, parseFloat);
    var s1 := st.(inEvents := true);
    FormatNames();
    FormatLine(s1, tail, parseFloat);
    AssLinesStep(s1, "Format:" + tail, rest, parseFloat);
  }

  /** A file of the header and some lines, each ended by a line break. */
  function FileOf(width: nat, height: nat, size: nat, lines: seq<string>): string {
    Join(HeaderLines(width, height, size) + lines + [""], "\n")
  }

  /** Such a file splits into its lines, freed of carriage returns, and an empty last one. */
  lemma FileLines(width: nat, height: nat, size: nat, lines: seq<string>)
    requires NoBreaks(lines)
    ensures Split(Remove(FileOf(width, height, size, lines), '\r'), '\n')
         == HeaderLines(width, height, size) + NoReturns(lines) + [""]
  {
    hide HeaderLines, Join, Split, Remove, NoReturns;
    HeaderChars(width, height, size);
    var head := HeaderLines(width, height, size);
    RemoveInJoin(head + lines + [""], "\n");
    LinesStored(head, lines);
    var all := head + NoReturns(lines);
    forall l | l in all ensures '\n' !in l {
      StoredNoBreak(lines, l);
    }
    SplitJoin(all, "", '\n');
    assert Split("", '\n') == [""] by { SplitWhole("", '\n'); }
  }

  lemma {:induction false} StoredNoBreak(lines: seq<string>, l: string)
    requires NoBreaks(lines)
    ensures l in NoReturns(lines) ==> '\n' !in l
  {
    if lines != [] {
      assert NoBreak(lines[0]);
      RemoveKeeps(lines[0], '\r');
      assert NoBreaks(lines[1..]);
      StoredNoBreak(lines[1..], l);
    }
  }

  lemma {:induction false} LinesStored(head: seq<string>, lines: seq<string>)
    requires AllOneLine(head)
    ensures NoReturns(head + lines + [""]) == head + NoReturns(lines) + [""]
    decreases |head|, |lines|
  {
    hide Remove, OneLine, NoReturns;
    if head != [] {
      assert head + lines + [""] == [head[0]] + (head[1..] + lines + [""]);
      LinesStored(head[1..], lines);
      NothingRemovedInLine(head[0]);
      NoReturnsFront(head[0], head[1..] + lines + [""]);
    } else if lines != [] {
      assert [] + lines + [""] == [lines[0]] + ([] + lines[1..] + [""]);
      LinesStored([], lines[1..]);
      NoReturnsFront(lines[0], [] + lines[1..] + [""]);
      NoReturnsFront(lines[0], lines[1..]);
      assert lines == [lines[0]] + lines[1..];
    } else {
      EmptyStored();
      NoReturnsNone();
      assert [] + lines + [""] == [""];
    }
  }

  lemma NothingRemovedInLine(l: string)
    requires OneLine(l)
    ensures Remove(l, '\r') == l
  {
    NothingRemoved(l);
  }

  /** The editor's file is one: without cues there is an empty line more. */
  lemma ToAssIsFile(cues: seq<Cue>, width: nat, height: nat)
    ensures
      var events := EventLines(EntriesOf(SortByStart(cues)));
      ToASS(cues, width, height) == FileOf(width, height, FontSize(height), if events == [] then [""] else events)
  {
    hide HeaderLines, EventLines, EntriesOf, SortByStart, FontSize, Join;
    HeaderChars(width, height, FontSize(height));
    var head, events := HeaderLines(width, height, FontSize(height)), EventLines(EntriesOf(SortByStart(cues)));
    var lines := if events == [] then [""] else events;
    assert Join(lines, "\n") == Join(events, "\n") by { JoinNothing(); }
    JoinAppend(head, lines, "\n");
    JoinAppend(head + lines, [""], "\n");
    JoinNothing();
  }

  lemma JoinNothing()
    ensures Join([], "\n") == "" && Join([""], "\n") == ""
  {
  }

  /**
   Parsing a printed file gives, for any cues, the size and the cues back, ordered by start and with
   cues of one start time in their order: times at the nearest centisecond, text and position as
   the column reads, the confidence lost.
   */
  lemma AssRoundTrip(cues: seq<Cue>, width: nat, height: nat, parseFloat: ParseFloat)
    requires parseFloat("") == None
    ensures ParsedAss(ToASS(cues, width, height), parseFloat)
         == Some(Parsed(AllKept(SortByStart(cues)), width, height))
  {
    hide ToASS, ParsedAss, FileOf, EventLines, EntriesOf, Printable, NoBreaks;
    var sorted := SortByStart(cues);
    var entries := EntriesOf(sorted);
    EntriesKept(sorted, parseFloat);
    ToAssIsFile(cues, width, height);
    FileReadsBack(entries, sorted == [], width, height, FontSize(height), parseFloat);
    EventLinesChars(entries);
  }

  /** The printed lines of some entries, and an empty line when `gap`, are read back. */
  lemma FileReadsBack(entries: seq<Entry>, gap: bool, width: nat, height: nat, size: nat, parseFloat: ParseFloat)
    requires (forall e :: e in entries ==> Printable(e)) && (gap ==> entries == [])
    ensures ParsedAss(FileOf(width, height, size, if gap then [""] else EventLines(entries)), parseFloat)
         == Some(Parsed(ReadEntries(entries, parseFloat), width, height))
  {
    hide Printable, AssLines, HeaderLines, EventLines, FileOf, NoReturns, StoredLines;
    var lines := if gap then [""] else EventLines(entries);
    EventLinesChars(entries);
    assert NoBreaks(lines);
    FileLines(width, height, size, lines);
    StartFields();
    var head := HeaderLines(width, height, size);
    var stored := if gap then [""] else StoredLines(entries);
    assert NoReturns(lines) == stored by { EmptyStored(); }
    assert head + stored + [""] == head + (stored + [""]);
    HeaderReadsBack(ASS_START, width, height, size, stored + [""], parseFloat);
    var st := ASS_START.(width := width, height := height, inEvents := true, fields := DEFAULT_EVENT_FIELDS);
    BodyReadsBack(st, entries, gap, parseFloat);
    assert [] + ReadEntries(entries, parseFloat) == ReadEntries(entries, parseFloat);
  }

  lemma EmptyStored()
    ensures NoReturns([""]) == [""]
  {
    NothingRemoved("");
    assert [""][1..] == [];
  }

  lemma HeaderReadsBack(st: AssState, width: nat, height: nat, size: nat, rest: seq<string>, parseFloat: ParseFloat)
    requires st.fields != []
    ensures AssLines(st, HeaderLines(width, height, size) + rest, parseFloat)
         == AssLines(st.(width := width, height := height, inEvents := true, fields := DEFAULT_EVENT_FIELDS), rest,
           parseFloat)
  {
    hide ScriptInfo, Styles, EventsHead, AssLines, DEFAULT_EVENT_FIELDS;
    assert HeaderLines(width, height, size) + rest ==
      ScriptInfo(width, height) + (Styles(size) + (EventsHead() + rest));
    ScriptInfoReadsBack(st, width, height, Styles(size) + (EventsHead() + rest), parseFloat);
    var s1 := st.(width := width, height := height, inEvents := false);
    StylesReadBack(s1, size, EventsHead() + rest, parseFloat);
    EventsHeadReadsBack(s1, rest, parseFloat);
  }

  lemma StartFields()
    ensures ASS_START.fields != [] && DEFAULT_EVENT_FIELDS != []
    ensures ASS_START.cues == []
  {
  }

  lemma BodyReadsBack(st: AssState, entries: seq<Entry>, gap: bool, parseFloat: ParseFloat)
    requires st.fields == DEFAULT_EVENT_FIELDS && (forall e :: e in entries ==> Printable(e)) && (gap ==> entries == [])
    ensures AssLines(st, (if gap then [""] else StoredLines(entries)) + [""], parseFloat)
         == Some(st.(cues := st.cues + ReadEntries(entries, parseFloat)))
  {
    hide AssLine, StoredLine, Printable;
    EventLinesReadBack(st, entries, parseFloat);
    var st1 := st.(cues := st.cues + ReadEntries(entries, parseFloat));
    NeutralLine(st, "", parseFloat);
    NeutralLine(st1, "", parseFloat);
    AssLinesStep(st1, "", [], parseFloat);
    assert [""] + [] == [""];
    if gap {
      AssLinesStep(st, "", [""], parseFloat);
      assert st.cues + [] == st.cues;
    } else {
      AssLinesAppend(st, StoredLines(entries), [""], parseFloat);
    }
  }

  predicate OnGrid(c: Cue) { c.start >= 0 && c.end >= 0 && c.start % 10 == 0 && c.end % 10 == 0 }

  /** A cue the file carries whole, but for the confidence. */
  predicate Faithful(c: Cue) { OnGrid(c) && Plain(c.text) && Positioned(c.an, c.text) }

  lemma KeptExactly(c: Cue)
    ensures Kept(c) == c.(confidence := None) <==> Faithful(c)
  {
    hide ReadText, ReadAlignment, Positioned;
    TextKept(c.an, c.text);
    if Plain(c.text) {
      AlignmentKept(c.an, c.text);
    }
  }

  lemma {:induction false} AllKeptExactly(cues: seq<Cue>)
    ensures AllKept(cues) == WithoutConfidence(cues) <==> forall c :: c in cues ==> Faithful(c)
  {
    hide Kept, Faithful;
    if cues != [] {
      var a, b := AllKept(cues), WithoutConfidence(cues);
      KeptExactly(cues[0]);
      AllKeptExactly(cues[1..]);
      assert a[1..] == AllKept(cues[1..]) && b[1..] == WithoutConfidence(cues[1..]);
      assert a == b <==> a[0] == b[0] && a[1..] == b[1..] by {
        assert a == [a[0]] + a[1..] && b == [b[0]] + b[1..];
      }
      assert cues == [cues[0]] + cues[1..];
    }
  }

  /**
   For any cues, the round trip loses nothing but the confidence exactly when every time is on the
   centisecond grid, every position is a digit that no other in its text comes before, and every
   text is trimmed and free of carriage returns, tags and escapes.
   */
  lemma AssRoundTripExact(cues: seq<Cue>, width: nat, height: nat, parseFloat: ParseFloat)
    requires parseFloat("") == None
    ensures ParsedAss(ToASS(cues, width, height), parseFloat)
              == Some(Parsed(WithoutConfidence(SortByStart(cues)), width, height))
            <==> forall c :: c in cues ==> Faithful(c)
  {
    hide Faithful, ParsedAss, ToASS;
    AssRoundTrip(cues, width, height, parseFloat);
    AllKeptExactly(SortByStart(cues));
    SortIsStable(cues);
    forall c ensures c in cues <==> c in SortByStart(cues) {
      assert c in cues <==> c in multiset(cues);
      assert c in SortByStart(cues) <==> c in multiset(SortByStart(cues));
    }
  }

  // ---------------------------------------------------------- ASS: column order

  /** A new order for n columns that leaves the last one last. */
  predicate ColumnOrder(p: seq<nat>, n: nat) {
    && |p| == n > 0 && p[n - 1] == n - 1
    && (forall i :: 0 <= i < n ==> p[i] < n)
    && (forall i, j :: 0 <= i < j < n ==> p[i] != p[j])
    && (forall k: nat :: k < n ==> k in p)
  }

  function Reorder(row: seq<string>, p: seq<nat>): seq<string>
    requires ColumnOrder(p, |row|)
  {
    seq(|p|, i requires 0 <= i < |p| => row[p[i]])
  }

  predicate OnlyColumn(fields: seq<string>, name: string, k: nat) {
    && k < |fields| && Named(fields[k], name)
    && forall i :: 0 <= i < |fields| && i != k ==> !Named(fields[i], name)
  }

  /** Each of the columns the parser looks up is there once, and the text comes last. */
  predicate Complete(fields: seq<string>) {
    && fields != []
    && OnlyColumn(fields, "Text", |fields| - 1)
    && (exists k :: 0 <= k < |fields| && OnlyColumn(fields, "Start", k))
    && (exists k :: 0 <= k < |fields| && OnlyColumn(fields, "End", k))
    && (exists k :: 0 <= k < |fields| && OnlyColumn(fields, "Name", k))
  }

  function TrimAll(names: seq<string>): seq<string> {
    seq(|names|, i requires 0 <= i < |names| => JsTrim(names[i]))
  }

  /** Every column but the last is free of commas. */
  predicate Row(row: seq<string>, n: nat) {
    |row| == n && forall i :: 0 <= i < n - 1 ==> ',' !in row[i]
  }

  lemma ReorderedColumn(fields: seq<string>, p: seq<nat>, name: string, fallback: nat)
    requires ColumnOrder(p, |fields|)
    requires exists k :: 0 <= k < |fields| && OnlyColumn(fields, name, k)
    ensures var k, j := Column(fields, name, fallback), Column(Reorder(fields, p), name, fallback);
      && k < |fields| && j < |fields| && OnlyColumn(fields, name, k) && p[j] == k
  {
    hide Named;
    var k :| 0 <= k < |fields| && OnlyColumn(fields, name, k);
    ColumnFirst(fields, name, fallback, 0, k);
    assert k in p;
    var j: nat :| j < |p| && p[j] == k;
    var moved := Reorder(fields, p);
    assert moved[j] == fields[k];
    forall i | 0 <= i < j ensures !Named(moved[i], name) {
      assert moved[i] == fields[p[i]] && p[i] != k;
    }
    ColumnFirst(moved, name, fallback, 0, j);
  }

  lemma RowSplit(row: seq<string>)
    requires Row(row, |row|) && row != []
    ensures Split(Join(row, ","), ',') == row[..|row| - 1] + Split(row[|row| - 1], ',')
  {
    hide Split, Join;
    var front, last := row[..|row| - 1], row[|row| - 1];
    assert row == front + [last];
    forall p | p in front ensures ',' !in p {
      var i :| 0 <= i < |front| && front[i] == p;
      assert row[i] == p;
    }
    SplitJoin(front, last, ',');
  }

  lemma SameCue(fields: seq<string>, parts: seq<string>, fields': seq<string>, parts': seq<string>,
          parseFloat: ParseFloat)
    requires |fields| == |fields'| > 0 && |parts| == |parts'| >= |fields|
    requires Column(fields, "Text", |fields| - 1) == |fields| - 1 == Column(fields', "Text", |fields| - 1)
    requires parts[|fields| - 1..] == parts'[|fields| - 1..]
    requires SameColumn(fields, parts, fields', parts', "Start", 1)
    requires SameColumn(fields, parts, fields', parts', "End", 2)
    requires SameColumn(fields, parts, fields', parts', "Name", 4)
    ensures DialogueCue(fields', parts', parseFloat) == DialogueCue(fields, parts, parseFloat)
  {
    hide ParseAssStamp, CleanText, FindAlignment, Join, Column;
  }

  predicate SameColumn(fields: seq<string>, parts: seq<string>, fields': seq<string>, parts': seq<string>,
          name: string, fallback: nat) {
    var k, j := Column(fields, name, fallback), Column(fields', name, fallback);
    k < |parts| && j < |parts'| && parts[k] == parts'[j]
  }

  lemma MovedParts(row: seq<string>, tail: seq<string>, p: seq<nat>)
    requires ColumnOrder(p, |row|) && tail != []
    ensures var n := |row|;
      forall j: nat :: j < n ==> (Reorder(row, p)[..n - 1] + tail)[j] == (row[..n - 1] + tail)[p[j]]
  {
    var n := |row|;
    forall j: nat | j < n ensures (Reorder(row, p)[..n - 1] + tail)[j] == (row[..n - 1] + tail)[p[j]] {
      if j < n - 1 {
        assert p[j] != p[n - 1];
      }
    }
  }

  /** Columns of the Format line and values of the Dialogue line moved alike give the same cue. */
  lemma ReorderedDialogue(fields: seq<string>, row: seq<string>, p: seq<nat>, parseFloat: ParseFloat)
    requires Complete(fields) && Row(row, |fields|) && ColumnOrder(p, |fields|)
    ensures ParseDialogue(Reorder(fields, p), Join(Reorder(row, p), ","), parseFloat)
         == ParseDialogue(fields, Join(row, ","), parseFloat)
  {
    hide Named, OnlyColumn, Split, Join, Column, DialogueCue, SameColumn;
    var n := |fields|;
    var moved, fields' := Reorder(row, p), Reorder(fields, p);
    MovedRow(row, p);
    RowSplit(row);
    RowSplit(moved);
    var tail := Split(row[n - 1], ',');
    var parts, parts' := row[..n - 1] + tail, moved[..n - 1] + tail;
    assert parts[n - 1..] == tail && parts'[n - 1..] == tail;
    MovedColumn(fields, row, tail, p, "Start", 1);
    MovedColumn(fields, row, tail, p, "End", 2);
    MovedColumn(fields, row, tail, p, "Name", 4);
    TextColumn(fields);
    ReorderedColumn(fields, p, "Text", n - 1);
    assert Column(fields', "Text", n - 1) == n - 1 by {
      var j := Column(fields', "Text", n - 1);
      assert p[j] == n - 1 == p[n - 1];
    }
    SameCue(fields, parts, fields', parts', parseFloat);
  }

  lemma MovedRow(row: seq<string>, p: seq<nat>)
    requires Row(row, |row|) && ColumnOrder(p, |row|)
    ensures var moved := Reorder(row, p);
      |moved| == |row| && Row(moved, |row|) && moved[|row| - 1] == row[|row| - 1]
  {
    var n := |row|;
    forall i | 0 <= i < n - 1 ensures ',' !in Reorder(row, p)[i] {
      assert p[i] != p[n - 1];
    }
  }

  lemma MovedColumn(fields: seq<string>, row: seq<string>, tail: seq<string>, p: seq<nat>, name: string, fallback: nat)
    requires ColumnOrder(p, |fields|) && |row| == |fields| && tail != []
    requires exists k :: 0 <= k < |fields| && OnlyColumn(fields, name, k)
    ensures var n := |fields|;
      SameColumn(fields, row[..n - 1] + tail, Reorder(fields, p), Reorder(row, p)[..n - 1] + tail, name, fallback)
  {
    hide OnlyColumn, Column;
    ReorderedColumn(fields, p, name, fallback);
    MovedParts(row, tail, p);
  }

  lemma TextColumn(fields: seq<string>)
    requires Complete(fields)
    ensures Column(fields, "Text", |fields| - 1) == |fields| - 1
  {
    hide Named;
    ColumnFirst(fields, "Text", |fields| - 1, 0, |fields| - 1);
  }

  predicate AllRows(rows: seq<seq<string>>, n: nat) { forall i :: 0 <= i < |rows| ==> Row(rows[i], n) }

  function DialogueLines(rows: seq<seq<string>>): seq<string> {
    if rows == [] then [] else ["Dialogue:" + Join(rows[0], ",")] + DialogueLines(rows[1..])
  }

  function ReorderAll(rows: seq<seq<string>>, p: seq<nat>, n: nat): seq<seq<string>>
    requires ColumnOrder(p, n) && AllRows(rows, n)
  {
    if rows == [] then [] else [Reorder(rows[0], p)] + ReorderAll(rows[1..], p, n)
  }

  /** The part of the loop's state that the result is made of. */
  predicate SameResult(a: Option<AssState>, b: Option<AssState>) {
    match (a, b)
    case (None, None) => true
    case (Some(x), Some(y)) => x.cues == y.cues && x.width == y.width && x.height == y.height
    case _ => false
  }

  lemma {:induction false} ReorderedLines(st: AssState, rows: seq<seq<string>>, p: seq<nat>, parseFloat: ParseFloat)
    requires Complete(st.fields) && ColumnOrder(p, |st.fields|)
    requires AllRows(rows, |st.fields|)
    ensures SameResult(AssLines(st.(fields := Reorder(st.fields, p)), DialogueLines(ReorderAll(rows, p, |st.fields|)),
        parseFloat),
                       AssLines(st, DialogueLines(rows), parseFloat))
    decreases |rows|
  {
    hide Complete, ParseDialogue, Reorder, Join, ColumnOrder, AssLine;
    if rows != [] {
      var n := |st.fields|;
      var fields' := Reorder(st.fields, p);
      assert |fields'| == n && n > 0 by { ReorderSize(st.fields, p); }
      var st' := st.(fields := fields');
      var line, line' := Join(rows[0], ","), Join(Reorder(rows[0], p), ",");
      ReorderedDialogue(st.fields, rows[0], p, parseFloat);
      EventLineStep(st, line, parseFloat);
      EventLineStep(st', line', parseFloat);
      assert DialogueLines(rows)[0] == "Dialogue:" + line && DialogueLines(rows)[1..] == DialogueLines(rows[1..]);
      var moved := ReorderAll(rows, p, n);
      assert moved[1..] == ReorderAll(rows[1..], p, n);
      assert DialogueLines(moved)[0] == "Dialogue:" + line' && DialogueLines(moved)[1..] == DialogueLines(moved[1..]);
      match ParseDialogue(st.fields, line, parseFloat)
      case Skipped => ReorderedLines(st, rows[1..], p, parseFloat);
      case Crash =>
      case Added(cue) => ReorderedLines(st.(cues := st.cues + [cue]), rows[1..], p, parseFloat);
    }
  }

  lemma ReorderSize(row: seq<string>, p: seq<nat>)
    requires ColumnOrder(p, |row|)
    ensures |Reorder(row, p)| == |row| > 0
  {
  }

  lemma FieldsOfNames(names: seq<string>)
    requires names != [] && forall f :: f in names ==> ',' !in f
    ensures FormatFields(":" + Join(names, ",")) == TrimAll(names)
  {
    hide Split, Join, JsTrim;
    var n := |names|;
    assert names == names[..n - 1] + [names[n - 1]];
    SplitJoin(names[..n - 1], names[n - 1], ',');
    SplitWhole(names[n - 1], ',');
    assert (":" + Join(names, ","))[1..] == Join(names, ",");
  }

  /**
   A file means the same when the columns of its Format line are put in another order and
   its Dialogue lines with them, as long as the text stays last and the file names each
   of the columns the parser looks up once.
   */
  lemma ColumnOrderIrrelevant(before: seq<string>, names: seq<string>, rows: seq<seq<string>>, p: seq<nat>,
          parseFloat: ParseFloat)
    requires AssLines(ASS_START, before, parseFloat).Some? && AssLines(ASS_START, before, parseFloat).value.inEvents
    requires (forall f :: f in names ==> ',' !in f) && Complete(TrimAll(names))
    requires ColumnOrder(p, |names|) && AllRows(rows, |names|)
    ensures SameResult(
        AssLines(ASS_START, before + ["Format:" + Join(Reorder(names, p), ",")] +
          DialogueLines(ReorderAll(rows, p, |names|)), parseFloat),
        AssLines(ASS_START, before + ["Format:" + Join(names, ",")] + DialogueLines(rows), parseFloat))
  {
    hide Complete, Row, Join, AssLine, ASS_START, DialogueLines, ReorderAll, Named;
    StartFields();
    var st := AssLines(ASS_START, before, parseFloat).value;
    var moved := Reorder(names, p);
    var fields := TrimAll(names);
    forall f | f in moved ensures ',' !in f {
      var i :| 0 <= i < |moved| && moved[i] == f;
      assert f == names[p[i]];
    }
    FieldsOfNames(names);
    FieldsOfNames(moved);
    assert TrimAll(moved) == Reorder(fields, p);
    FormatLine(st, Join(names, ","), parseFloat);
    FormatLine(st, Join(moved, ","), parseFloat);
    var st1 := st.(fields := fields);
    ReorderedLines(st1, rows, p, parseFloat);
    FormatThen(before, "Format:" + Join(names, ","), DialogueLines(rows), parseFloat);
    FormatThen(before, "Format:" + Join(moved, ","), DialogueLines(ReorderAll(rows, p, |names|)), parseFloat);
  }

  lemma FormatThen(before: seq<string>, line: string, after: seq<string>, parseFloat: ParseFloat)
    requires AssLines(ASS_START, before, parseFloat).Some?
    requires AssLine(AssLines(ASS_START, before, parseFloat).value, line, parseFloat).Some?
    ensures AssLines(ASS_START, before + [line] + after, parseFloat)
         == AssLines(AssLine(AssLines(ASS_START, before, parseFloat).value, line, parseFloat).value, after, parseFloat)
  {
    hide AssLine;
    assert before + [line] + after == before + ([line] + after);
    AssLinesAppend(ASS_START, before, [line] + after, parseFloat);
    AssLinesStep(AssLines(ASS_START, before, parseFloat).value, line, after, parseFloat);
  }
}
