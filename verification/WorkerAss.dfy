/**
 The ASS file of the worker (`write_ass` in worker/subextractor/formats.py:49-105), which carries the
 confidence of each cue in the name column, read by the editor's `parseASS`.

 Times are whole milliseconds. How a confidence is rounded to hundredths is a parameter.
 */
module WorkerAss {
  import opened Editor
  import opened EventText
  import opened Text
  import opened Wrappers

  /** `int(round(t * 100))`: the nearest centisecond, halves to the even one. */
  function NearestEven(t: int): nat {
    var ms := Max0(t);
    var cs, rest := ms / 10, ms % 10;
    if rest < 5 then cs else if rest > 5 then cs + 1 else cs + cs % 2
  }

  /** `_ass_time`: `divmod` by hours, minutes and seconds in turn. */
  function WorkerAssTime(t: int): string {
    var cs0 := NearestEven(t);
    var h, cs1 := cs0 / 360_000, cs0 % 360_000;
    var m, cs2 := cs1 / 6_000, cs1 % 6_000;
    StampText(Decimal(h), Pad(m, 2), Pad(cs2 / 100, 2), '.', Pad(cs2 % 100, 2))
  }

  lemma WorkerAssTimeReadsBack(t: int)
    ensures WorkerAssTime(t) == AssTime(10 * NearestEven(t))
    ensures OneColumn(WorkerAssTime(t)) && ParseAssStamp(WorkerAssTime(t)) == 10 * NearestEven(t)
  {
    hide StampText, Pad, Decimal, ParseAssStamp;
    var cs := NearestEven(t);
    MinutesOfHours(cs);
    assert Max0((10 * cs + 5) / 10) == cs;
    AssTimeReadsBack(10 * cs);
    assert forall c :: c in AssTime(10 * cs) ==> c != ',' && c != '\n' && c != '\r';
  }

  /** The nearest centisecond is at most five milliseconds away, and is the time itself on the grid. */
  lemma NearestIsNear(t: int)
    requires t >= 0
    ensures -5 <= 10 * NearestEven(t) - t <= 5
    ensures t % 10 == 0 ==> 10 * NearestEven(t) == t
  {
  }

  /** `f"{conf:.2f}"` of a number of hundredths. */
  function Hundredths(n: nat): string { Decimal(n / 100) + "." + Pad(n % 100, 2) }

  function NameOf(confidence: Option<real>, hundredths: real -> nat): string {
    if confidence.None? then "" else Hundredths(hundredths(confidence.value))
  }

  function WorkerEntry(c: Cue, hundredths: real -> nat): Entry {
    Entry(WorkerAssTime(c.start), WorkerAssTime(c.end), NameOf(c.confidence, hundredths), c.an, c.text)
  }

  function WorkerEntries(cues: seq<Cue>, hundredths: real -> nat): seq<Entry> {
    if cues == [] then [] else [WorkerEntry(cues[0], hundredths)] + WorkerEntries(cues[1..], hundredths)
  }

  function SizeFor(height: nat, fontsize: int): nat {
    if fontsize > 0 then fontsize else if height / 20 > 16 then height / 20 else 16
  }

  /** The size of the letters that is asked for, or a twentieth of the height, cut down, and at least sixteen. */
  lemma SizeForHeight(height: nat, fontsize: int)
    ensures fontsize >= 1 ==> SizeFor(height, fontsize) == fontsize
    ensures fontsize <= 0 ==> SizeFor(height, fontsize) >= 16
    ensures fontsize <= 0 && height >= 320 ==>
      20 * SizeFor(height, fontsize) <= height < 20 * (SizeFor(height, fontsize) + 1)
    ensures fontsize <= 0 && height < 340 ==> SizeFor(height, fontsize) == 16
  {
  }

  lemma {:induction false} WorkerEntriesSnoc(cues: seq<Cue>, c: Cue, hundredths: real -> nat)
    ensures WorkerEntries(cues + [c], hundredths) == WorkerEntries(cues, hundredths) + [WorkerEntry(c, hundredths)]
  {
    hide WorkerEntry;
    if cues != [] {
      assert (cues + [c])[1..] == cues[1..] + [c];
      WorkerEntriesSnoc(cues[1..], c, hundredths);
    }
  }

  lemma {:induction false} EventLinesSnoc(entries: seq<Entry>, e: Entry)
    ensures EventLines(entries + [e]) == EventLines(entries) + [EventLine(e)]
  {
    hide EventLine;
    if entries != [] {
      assert (entries + [e])[1..] == entries[1..] + [e];
      EventLinesSnoc(entries[1..], e);
    }
  }

  /** One line more at the end of the file. */
  lemma FileSnoc(width: nat, height: nat, size: nat, lines: seq<string>, line: string)
    ensures FileOf(width, height, size, lines + [line]) == FileOf(width, height, size, lines) + line + "\n"
  {
    hide HeaderLines, Join;
    HeaderChars(width, height, size);
    var all := HeaderLines(width, height, size) + lines;
    JoinAppend(all, [""], "\n");
    JoinAppend(all, [line], "\n");
    JoinAppend(all + [line], [""], "\n");
    JoinLine("");
    JoinLine(line);
    assert HeaderLines(width, height, size) + (lines + [line]) + [""] == all + [line] + [""];
  }

  lemma JoinLine(line: string)
    ensures Join([line], "\n") == line
  {
  }

  /** The header, then a line for each cue. */
  method WriteAss(cues: seq<Cue>, width: nat, height: nat, fontsize: int, hundredths: real -> nat) returns (out: string)
    ensures out == FileOf(width, height, SizeFor(height, fontsize), EventLines(WorkerEntries(cues, hundredths)))
  {
    hide HeaderLines, FileOf, EventLines, WorkerEntries, WorkerAssTime, AlignmentTag, EscapeNewlines;
    var size := fontsize;
    if size <= 0 {
      size := if height / 20 > 16 then height / 20 else 16;
    }
    out := Join(HeaderLines(width, height, size), "\n") + "\n";
    NoLinesYet(width, height, size, hundredths);
    for k := 0 to |cues|
      invariant out == FileOf(width, height, size, EventLines(WorkerEntries(cues[..k], hundredths)))
    {
      var c := cues[k];
      assert cues[..k + 1] == cues[..k] + [c];
      WorkerEntriesSnoc(cues[..k], c, hundredths);
      var e := WorkerEntry(c, hundredths);
      EventLinesSnoc(WorkerEntries(cues[..k], hundredths), e);
      FileSnoc(width, height, size, EventLines(WorkerEntries(cues[..k], hundredths)), EventLine(e));
      var name := if c.confidence.Some? then Hundredths(hundredths(c.confidence.value)) else "";
      var line := "Dialogue:" +
        Join([" 0", WorkerAssTime(c.start), WorkerAssTime(c.end), "Default", name, "0", "0", "0", ""]
                                     + [AlignmentTag(c.an) + EscapeNewlines(c.text)], ",");
      out := out + line + "\n";
    }
    assert cues[..|cues|] == cues;
  }

  lemma NoLinesYet(width: nat, height: nat, size: nat, hundredths: real -> nat)
    ensures Join(HeaderLines(width, height, size), "\n") + "\n" ==
        FileOf(width, height, size, EventLines(WorkerEntries([], hundredths)))
  {
    hide HeaderLines, Join;
    HeaderChars(width, height, size);
    var head := HeaderLines(width, height, size);
    JoinAppend(head, [""], "\n");
    JoinLine("");
    assert head + [] + [""] == head + [""];
  }

  /** The parser reads hundredths as what they say, and an empty name as nothing. */
  ghost predicate ReadsHundredths(parseFloat: ParseFloat) {
    parseFloat("") == None && forall n: nat :: n <= 100 ==> parseFloat(Hundredths(n)) == Some(n as real / 100.0)
  }

  /** A confidence is a mean score of at most 1. */
  predicate WorkerCue(c: Cue, hundredths: real -> nat) {
    c.confidence.Some? ==> hundredths(c.confidence.value) <= 100
  }

  /** What comes back: the nearest centiseconds, text and position as the column reads, the confidence in hundredths. */
  function WorkerKept(c: Cue, hundredths: real -> nat): Cue {
    Cue(10 * NearestEven(c.start), 10 * NearestEven(c.end), ReadText(c.an, c.text), ReadAlignment(c.an, c.text),
        if c.confidence.Some? then Some(hundredths(c.confidence.value) as real / 100.0) else None)
  }

  /** Text and position come back exactly when the column can carry them. */
  lemma WorkerTextKept(c: Cue, hundredths: real -> nat)
    ensures WorkerKept(c, hundredths).text == c.text && WorkerKept(c, hundredths).an == c.an
       <==> Plain(c.text) && Positioned(c.an, c.text)
  {
    hide ReadText, ReadAlignment, Positioned;
    TextKept(c.an, c.text);
    if Plain(c.text) {
      AlignmentKept(c.an, c.text);
    }
  }

  function AllWorkerKept(cues: seq<Cue>, hundredths: real -> nat): seq<Cue> {
    if cues == [] then [] else [WorkerKept(cues[0], hundredths)] + AllWorkerKept(cues[1..], hundredths)
  }

  lemma HundredthsChars(n: nat)
    ensures OneColumn(Hundredths(n))
  {
    hide Decimal, Pad;
    ToNatDecimal(n / 100);
    ToNatPad(n % 100, 2);
    assert forall s :: Digits(s) ==> OneColumn(s) by {
      forall s | Digits(s) ensures OneColumn(s) {
        DigitsOneColumn(s);
      }
    }
  }

  lemma DigitsOneColumn(s: string)
    requires Digits(s)
    ensures OneColumn(s)
  {
  }

  lemma FractionOfHundred(n: nat)
    requires n <= 100
    ensures 0.0 <= n as real / 100.0 <= 1.0
  {
  }

  lemma WorkerEntryKept(c: Cue, hundredths: real -> nat, parseFloat: ParseFloat)
    requires WorkerCue(c, hundredths) && ReadsHundredths(parseFloat)
    ensures Printable(WorkerEntry(c, hundredths)) &&
        ReadEntry(WorkerEntry(c, hundredths), parseFloat) == WorkerKept(c, hundredths)
  {
    hide WorkerAssTime, ParseAssStamp, ReadText, ReadAlignment, Hundredths, NearestEven;
    WorkerAssTimeReadsBack(c.start);
    WorkerAssTimeReadsBack(c.end);
    if c.confidence.Some? {
      HundredthsChars(hundredths(c.confidence.value));
      FractionOfHundred(hundredths(c.confidence.value));
    }
  }

  lemma {:induction false} WorkerEntriesKept(cues: seq<Cue>, hundredths: real -> nat, parseFloat: ParseFloat)
    requires ReadsHundredths(parseFloat) && forall c :: c in cues ==> WorkerCue(c, hundredths)
    ensures forall e :: e in WorkerEntries(cues, hundredths) ==> Printable(e)
    ensures ReadEntries(WorkerEntries(cues, hundredths), parseFloat) == AllWorkerKept(cues, hundredths)
    decreases |cues|
  {
    hide WorkerEntry, Printable, ReadEntry, WorkerKept, WorkerCue, ReadsHundredths;
    if cues != [] {
      WorkerEntryKept(cues[0], hundredths, parseFloat);
      WorkerEntriesKept(cues[1..], hundredths, parseFloat);
      assert WorkerEntries(cues, hundredths)[1..] == WorkerEntries(cues[1..], hundredths);
    }
  }

  /**
   Opening the worker's file in the editor gives its size and, in order, its cues: each time at the
   nearest centisecond, text and position as the column reads, the confidence to the hundredth.
   */
  lemma WorkerFileOpens(cues: seq<Cue>, width: nat, height: nat, fontsize: int, hundredths: real -> nat,
          parseFloat: ParseFloat)
    requires ReadsHundredths(parseFloat) && forall c :: c in cues ==> WorkerCue(c, hundredths)
    ensures
      var file := FileOf(width, height, SizeFor(height, fontsize), EventLines(WorkerEntries(cues, hundredths)));
      ParsedAss(file, parseFloat) == Some(Parsed(AllWorkerKept(cues, hundredths), width, height))
  {
    hide WorkerCue, Printable, ParsedAss, FileOf, EventLines, WorkerEntries, ReadsHundredths;
    WorkerEntriesKept(cues, hundredths, parseFloat);
    FileReadsBack(WorkerEntries(cues, hundredths), false, width, height, SizeFor(height, fontsize), parseFloat);
  }
}
