/**
 * `formatSrtFile` of `src/lib/lyrics.ts`: every line of the original track
 * with a time tag becomes one SubRip cue, started at the line's first tag;
 * cues are sorted by time, each ends where the next starts (the last one
 * five seconds after its start), and a translated line whose start string
 * is identical is added under the original text.
 */
module SrtExport {
  import opened Wrappers
  import opened Strings
  import opened TimeTags
  import opened Sorting
  import opened LyricLines
  import opened SrtParser

  // ---------------------------------------------------------------- clocks

  /** `n.toString().padStart(width, "0")`. */
  function Pad(n: nat, width: nat): string {
    PadStart(Decimal(n), width, '0')
  }

  /** `hh:mm:ss,mmm` from its four fields. */
  function ClockText(h: nat, m: nat, s: nat, ms: nat): string {
    Pad(h, 2) + ":" + Pad(m, 2) + ":" + Pad(s, 2) + "," + Pad(ms, 3)
  }

  /** The end string of the last cue: `t` split into hours, minutes, seconds and milliseconds. */
  function FormatClock(t: nat): string {
    var totalSeconds := t / 1000;
    ClockText(totalSeconds / 3600, (totalSeconds % 3600) / 60, totalSeconds % 60, t % 1000)
  }

  function Pow10(w: nat): nat {
    if w == 0 then 1 else 10 * Pow10(w - 1)
  }

  /** A number below `10^w` takes at most `w` digits. */
  lemma {:induction false} DecimalWidth(n: nat, w: nat)
    requires 1 <= w && n < Pow10(w)
    ensures |Decimal(n)| <= w
  {
    if n >= 10 {
      DecimalWidth(n / 10, w - 1);
    }
  }

  /** A padded field below `10^w` is exactly `w` digits that read back as the field. */
  lemma PadExact(n: nat, w: nat)
    requires 1 <= w && n < Pow10(w)
    ensures |Pad(n, w)| == w && AllDigits(Pad(n, w)) && Value(Pad(n, w)) == n
  {
    DecimalWidth(n, w);
    PaddedValue(n, w);
  }

  /** A text laid out as `AA:BB:CC,DDD` with digit fields matches the subtitle clock pattern. */
  lemma ClockMatches(A: string, B: string, C: string, D: string)
    requires |A| == 2 && |B| == 2 && |C| == 2 && |D| == 3
    requires AllDigits(A) && AllDigits(B) && AllDigits(C) && AllDigits(D)
    ensures MatchesAt(A + ":" + B + ":" + C + "," + D, 0, Clock)
  {
    var t := A + ":" + B + ":" + C + "," + D;
    forall i | 0 <= i < |Clock| ensures Fits(Clock[i], t[i]) {
      if i < 2 { assert t[i] == A[i]; }
      else if 3 <= i < 5 { assert t[i] == B[i - 3]; }
      else if 6 <= i < 8 { assert t[i] == C[i - 6]; }
      else if 9 <= i { assert t[i] == D[i - 9]; }
    }
  }

  /** Where the four fields stand in the clock text. */
  lemma ClockSlices(A: string, B: string, C: string, D: string)
    requires |A| == 2 && |B| == 2 && |C| == 2 && |D| == 3
    ensures var t := A + ":" + B + ":" + C + "," + D;
      t[0..2] == A && t[3..5] == B && t[6..8] == C && t[9..12] == D
  {
    var t := A + ":" + B + ":" + C + "," + D;
    assert t[0..2] == A;
    assert t[3..5] == B;
    assert t[6..8] == C;
    assert t[9..12] == D;
  }

  /** A clock whose fields are the given digit strings is worth their values. */
  lemma ClockRead(t: string, A: string, B: string, C: string, D: string)
    requires MatchesAt(t, 0, Clock)
    requires AllDigits(A) && AllDigits(B) && AllDigits(C) && AllDigits(D)
    requires t[0..2] == A && t[3..5] == B && t[6..8] == C && t[9..12] == D
    ensures ClockValue(t, 0) == Value(A) * 3600000 + Value(B) * 60000 + Value(C) * 1000 + Value(D)
  {
  }

  /** ... and reads back as the value of its fields. */
  lemma ClockLayout(A: string, B: string, C: string, D: string)
    requires |A| == 2 && |B| == 2 && |C| == 2 && |D| == 3
    requires AllDigits(A) && AllDigits(B) && AllDigits(C) && AllDigits(D)
    ensures MatchesAt(A + ":" + B + ":" + C + "," + D, 0, Clock)
    ensures ClockValue(A + ":" + B + ":" + C + "," + D, 0)
      == Value(A) * 3600000 + Value(B) * 60000 + Value(C) * 1000 + Value(D)
  {
    ClockMatches(A, B, C, D);
    ClockSlices(A, B, C, D);
    ClockRead(A + ":" + B + ":" + C + "," + D, A, B, C, D);
  }

  /**
   * When the fields fit their widths, the clock text is exactly what the
   * subtitle parser's clock pattern accepts, and it reads back to
   * `h * 3600000 + m * 60000 + s * 1000 + ms`.
   */
  lemma ClockTextReadBack(h: nat, m: nat, s: nat, ms: nat)
    requires h < 100 && m < 100 && s < 100 && ms < 1000
    ensures MatchesAt(ClockText(h, m, s, ms), 0, Clock)
    ensures ClockValue(ClockText(h, m, s, ms), 0) == h * 3600000 + m * 60000 + s * 1000 + ms
  {
    assert Pow10(2) == 100 && Pow10(3) == 1000;
    PadExact(h, 2);
    PadExact(m, 2);
    PadExact(s, 2);
    PadExact(ms, 3);
    ClockLayout(Pad(h, 2), Pad(m, 2), Pad(s, 2), Pad(ms, 3));
  }

  /** The four fields of `FormatClock` recombine to `t` and stay in their ranges. */
  lemma ClockFields(t: nat)
    ensures var ts := t / 1000;
      && (ts % 3600) / 60 < 60 && ts % 60 < 60 && t % 1000 < 1000
      && (ts / 3600) * 3600000 + ((ts % 3600) / 60) * 60000 + (ts % 60) * 1000 + t % 1000 == t
  {
    var ts := t / 1000;
    var r := ts % 3600;
    assert t == ts * 1000 + t % 1000;
    assert ts == (ts / 3600) * 3600 + r;
    assert r == (r / 60) * 60 + r % 60;
    assert r % 60 == ts % 60 by {
      assert ts == (ts / 3600) * 60 * 60 + r;
      assert ts == ((ts / 3600) * 60 + r / 60) * 60 + r % 60;
    }
  }

  /** The end string of the last cue reads back to its time, for times under 100 hours. */
  lemma FormatClockReadBack(t: nat)
    requires t < 360000000
    ensures MatchesAt(FormatClock(t), 0, Clock) && ClockValue(FormatClock(t), 0) == t
  {
    ClockFields(t);
    var ts := t / 1000;
    ClockTextReadBack(ts / 3600, (ts % 3600) / 60, ts % 60, t % 1000);
  }

  // ---------------------------------------------------------------- cues

  /** One entry of `parseLrcLines`: the time used for sorting, the start string and the text. */
  datatype Cue = Cue(timeMs: nat, startTime: string, text: string)

  function CueTime(c: Cue): int {
    c.timeMs
  }

  /** The start string: `"00:"`, minutes and seconds padded to 2, fraction padded to 3. */
  function StartString(t: Tag): string
    requires t.Valid()
  {
    "00:" + Pad(Value(t.minutes), 2) + ":" + Pad(Value(t.seconds), 2) + "," + Pad(Value(t.fraction), 3)
  }

  /** `line.match(/\[(\d+):(\d+)\.(\d+)\](.*)/)` turned into a cue: the first tag and the trimmed rest of the line. */
  function CueOf(line: string): Option<Cue> {
    match FirstTag(line)
    case None => None
    case Some(m) =>
      TagsFromFound(line, 0);
      Some(Cue(Thousandths(m.tag), StartString(m.tag), Trim(RestOfLine(line, m.end))))
  }

  /** The cues of the lines, in line order. */
  function CuesOf(lines: seq<string>): seq<Cue> {
    if lines == [] then []
    else CuesOf(lines[..|lines| - 1]) + match CueOf(lines[|lines| - 1]) case Some(c) => [c] case None => []
  }

  /** One more line adds its cue, if it gives one, at the end. */
  lemma CuesOfSnoc(lines: seq<string>, n: nat)
    requires n < |lines|
    ensures CuesOf(lines[..n + 1]) == CuesOf(lines[..n]) + match CueOf(lines[n]) case Some(c) => [c] case None => []
  {
    assert lines[..n + 1][..n] == lines[..n];
  }

  /** `parseLrcLines`: the cues of the non-blank lines, stably sorted by time. */
  function Cues(lyrics: string): seq<Cue> {
    SortBy(CuesOf(NonBlankLines(lyrics)), CueTime)
  }

  /**
   * A line gives a cue exactly when it has a tag. The cue is built from the
   * leftmost tag only: its time is `min * 60000 + sec * 1000 + frac`, its text
   * the trimmed rest of the line after that tag (up to a line terminator),
   * and when the fields fit, its start string reads back, as a subtitle
   * clock, to that same time.
   */
  lemma CueOfShape(line: string)
    ensures CueOf(line).None? <==> !HasTag(line)
    ensures CueOf(line).Some? ==>
      var m := Tags(line)[0];
      && Found(line, m)
      && (forall q :: 0 <= q < m.start ==> TagAt(line, q).None?)
      && CueOf(line).value.timeMs == Thousandths(m.tag)
      && CueOf(line).value.text == Trim(RestOfLine(line, m.end))
      && (Value(m.tag.minutes) < 100 && Value(m.tag.seconds) < 100 && Value(m.tag.fraction) < 1000 ==>
            MatchesAt(CueOf(line).value.startTime, 0, Clock)
            && ClockValue(CueOf(line).value.startTime, 0) == CueOf(line).value.timeMs)
  {
    if HasTag(line) {
      var m := Tags(line)[0];
      TagsFromFound(line, 0);
      forall q | 0 <= q < m.start ensures TagAt(line, q).None? {
        TagsFromFirst(line, 0, q);
      }
      var t := m.tag;
      if Value(t.minutes) < 100 && Value(t.seconds) < 100 && Value(t.fraction) < 1000 {
        StartStringReadBack(t);
      }
    }
  }

  /** A start string whose fields fit reads back, as a subtitle clock, to the tag's time. */
  lemma StartStringReadBack(t: Tag)
    requires t.Valid()
    requires Value(t.minutes) < 100 && Value(t.seconds) < 100 && Value(t.fraction) < 1000
    ensures MatchesAt(StartString(t), 0, Clock) && ClockValue(StartString(t), 0) == Thousandths(t)
  {
    assert Pad(0, 2) == "00";
    assert StartString(t) == ClockText(0, Value(t.minutes), Value(t.seconds), Value(t.fraction));
    ClockTextReadBack(0, Value(t.minutes), Value(t.seconds), Value(t.fraction));
  }

  /** The cues come out sorted by time, and cues with equal times keep their line order. */
  lemma CuesSorted(lyrics: string, t: int)
    ensures SortedBy(Cues(lyrics), CueTime)
    ensures WithKey(Cues(lyrics), CueTime, t) == WithKey(CuesOf(NonBlankLines(lyrics)), CueTime, t)
  {
    SortByStable(CuesOf(NonBlankLines(lyrics)), CueTime, t);
  }

  /** A line gives a cue exactly when it has a tag. */
  lemma CueOfSome(line: string)
    ensures CueOf(line).Some? <==> HasTag(line)
  {
  }

  /** One cue per line with a tag: untagged lines give nothing. */
  lemma {:induction false} CuesOfCount(lines: seq<string>)
    ensures |CuesOf(lines)| <= |lines|
    ensures (forall i :: 0 <= i < |lines| ==> HasTag(lines[i])) ==> |CuesOf(lines)| == |lines|
  {
    if lines != [] {
      var init := lines[..|lines| - 1];
      CuesOfCount(init);
      CueOfSome(lines[|lines| - 1]);
      assert forall i :: 0 <= i < |init| ==> init[i] == lines[i];
    }
  }

  /** `parseLrcLines` with its loop and `push`. */
  method ParseCues(lyrics: string) returns (result: seq<Cue>)
    ensures result == Cues(lyrics)
  {
    var lines := NonBlankLines(lyrics);
    result := [];
    for n := 0 to |lines|
      invariant result == CuesOf(lines[..n])
    {
      CuesOfSnoc(lines, n);
      var cue := CueOf(lines[n]);
      if cue.Some? {
        result := result + [cue.value];
      }
    }
    assert lines[..|lines|] == lines;
    result := SortBy(result, CueTime);
  }

  // ---------------------------------------------------------------- blocks

  /** The end string of cue `i`: the next cue's start string, or five seconds after the last cue's time. */
  function EndTime(cues: seq<Cue>, i: nat): string
    requires i < |cues|
  {
    if i < |cues| - 1 then cues[i + 1].startTime else FormatClock(cues[i].timeMs + 5000)
  }

  /** `transMap`: each translated cue's start string mapped to its text, later cues overwriting earlier ones. */
  function TransMap(trans: seq<Cue>): map<string, string> {
    if trans == [] then map[] else TransMap(trans[..|trans| - 1])[trans[|trans| - 1].startTime := trans[|trans| - 1].text]
  }

  /** One more cue sets its start string to its text. */
  lemma TransMapSnoc(trans: seq<Cue>, k: nat)
    requires k < |trans|
    ensures TransMap(trans[..k + 1]) == TransMap(trans[..k])[trans[k].startTime := trans[k].text]
  {
    assert trans[..k + 1][..k] == trans[..k];
  }

  /** `transMap.get(start) || ""`. */
  function Lookup(m: map<string, string>, start: string): string {
    if start in m then m[start] else ""
  }

  /** With no translated cue for a start string, the lookup gives the empty string. */
  lemma {:induction false} LookupAbsent(trans: seq<Cue>, start: string)
    requires forall j :: 0 <= j < |trans| ==> trans[j].startTime != start
    ensures Lookup(TransMap(trans), start) == ""
  {
    if trans != [] {
      var init := trans[..|trans| - 1];
      assert forall j :: 0 <= j < |init| ==> init[j] == trans[j];
      LookupAbsent(init, start);
    }
  }

  /**
   * The translation found for a start string is the text of the last
   * translated cue with exactly that start string.
   */
  lemma {:induction false} LookupLast(trans: seq<Cue>, start: string, i: nat)
    requires i < |trans| && trans[i].startTime == start
    requires forall j :: i < j < |trans| ==> trans[j].startTime != start
    ensures Lookup(TransMap(trans), start) == trans[i].text
  {
    if i < |trans| - 1 {
      var init := trans[..|trans| - 1];
      assert forall j :: 0 <= j < |init| ==> init[j] == trans[j];
      LookupLast(init, start, i);
    }
  }

  /** One entry of `subtitles`. */
  datatype Block = Block(index: nat, startTime: string, endTime: string, text: string)

  /** The block of cue `i`; the translation is attached only when the translated track is not empty. */
  function BlockAt(cues: seq<Cue>, transMap: map<string, string>, bilingual: bool, i: nat): Block
    requires i < |cues|
  {
    var trans := if bilingual then Lookup(transMap, cues[i].startTime) else "";
    Block(i + 1, cues[i].startTime, EndTime(cues, i), if trans != "" then cues[i].text + "\n" + trans else cues[i].text)
  }

  /** `${index}\n${startTime} --> ${endTime}\n${text}\n`. */
  function Render(b: Block): string {
    Decimal(b.index) + "\n" + b.startTime + " --> " + b.endTime + "\n" + b.text + "\n"
  }

  /** The blocks of the cues, in order. */
  function Layout(cues: seq<Cue>, transMap: map<string, string>, bilingual: bool): seq<Block> {
    seq(|cues|, i requires 0 <= i < |cues| => BlockAt(cues, transMap, bilingual, i))
  }

  function Blocks(original: string, translated: string): seq<Block> {
    Layout(Cues(original), TransMap(Cues(translated)), translated != "")
  }

  function SrtText(original: string, translated: string): string {
    var blocks := Blocks(original, translated);
    Join(seq(|blocks|, i requires 0 <= i < |blocks| => Render(blocks[i])), "\n")
  }

  /** The blocks are numbered 1 to n, follow the cues, and each ends where the next one starts. */
  lemma LayoutChain(cues: seq<Cue>, transMap: map<string, string>, bilingual: bool)
    ensures var blocks := Layout(cues, transMap, bilingual);
      && |blocks| == |cues|
      && (forall i :: 0 <= i < |blocks| ==> blocks[i].index == i + 1 && blocks[i].startTime == cues[i].startTime)
      && (forall i :: 0 <= i < |blocks| - 1 ==> blocks[i].endTime == blocks[i + 1].startTime)
  {
    var blocks := Layout(cues, transMap, bilingual);
    forall i | 0 <= i < |blocks| ensures blocks[i].index == i + 1 && blocks[i].startTime == cues[i].startTime {
      BlockHead(cues, transMap, bilingual, i);
    }
    forall i | 0 <= i < |blocks| - 1 ensures blocks[i].endTime == blocks[i + 1].startTime {
      BlockHead(cues, transMap, bilingual, i + 1);
      BlockEnd(cues, transMap, bilingual, i);
    }
  }

  /** Block `i` is numbered `i + 1` and starts at its cue. */
  lemma BlockHead(cues: seq<Cue>, transMap: map<string, string>, bilingual: bool, i: nat)
    requires i < |cues|
    ensures Layout(cues, transMap, bilingual)[i].index == i + 1
    ensures Layout(cues, transMap, bilingual)[i].startTime == cues[i].startTime
  {
    assert Layout(cues, transMap, bilingual)[i] == BlockAt(cues, transMap, bilingual, i);
  }

  /** A block that is not the last ends where the next cue starts. */
  lemma BlockEnd(cues: seq<Cue>, transMap: map<string, string>, bilingual: bool, i: nat)
    requires i + 1 < |cues|
    ensures Layout(cues, transMap, bilingual)[i].endTime == cues[i + 1].startTime
  {
    assert Layout(cues, transMap, bilingual)[i] == BlockAt(cues, transMap, bilingual, i);
  }

  /**
   * The last block ends five seconds after its cue's time, rendered as a
   * clock (which `FormatClockReadBack` reads back under 100 hours).
   */
  lemma LayoutLastEnd(cues: seq<Cue>, transMap: map<string, string>, bilingual: bool)
    requires cues != []
    ensures Layout(cues, transMap, bilingual)[|cues| - 1].endTime == FormatClock(cues[|cues| - 1].timeMs + 5000)
  {
    assert Layout(cues, transMap, bilingual)[|cues| - 1] == BlockAt(cues, transMap, bilingual, |cues| - 1);
  }

  /**
   * A block's text is its cue's text, followed by a line break and the
   * translation exactly when the track is bilingual and the translation
   * found for the cue's start string is not empty.
   */
  lemma LayoutText(cues: seq<Cue>, transMap: map<string, string>, bilingual: bool, i: nat)
    requires i < |cues|
    ensures var tr := Lookup(transMap, cues[i].startTime);
      Layout(cues, transMap, bilingual)[i].text
        == if bilingual && tr != "" then cues[i].text + "\n" + tr else cues[i].text
  {
  }

  /**
   * The end string of the last cue, computed field by field: under 100
   * hours it is an SRT clock that reads back to five seconds after the start.
   */
  method LastEnd(startMs: nat) returns (endTime: string)
    ensures endTime == FormatClock(startMs + 5000)
    ensures startMs + 5000 < 360000000 ==>
      MatchesAt(endTime, 0, Clock) && ClockValue(endTime, 0) == startMs + 5000
  {
    var timeMs := startMs + 5000;
    var totalSeconds := timeMs / 1000;
    var hours := totalSeconds / 3600;
    var minutes := (totalSeconds % 3600) / 60;
    var seconds := totalSeconds % 60;
    var milliseconds := timeMs % 1000;
    endTime := Pad(hours, 2) + ":" + Pad(minutes, 2) + ":" + Pad(seconds, 2) + "," + Pad(milliseconds, 3);
    if timeMs < 360000000 {
      FormatClockReadBack(timeMs);
    }
  }

  /** The end strings of `processedEntries`. */
  method EndTimes(cues: seq<Cue>) returns (ends: seq<string>)
    ensures |ends| == |cues| && forall i :: 0 <= i < |cues| ==> ends[i] == EndTime(cues, i)
  {
    ends := [];
    for i := 0 to |cues|
      invariant |ends| == i && forall j :: 0 <= j < i ==> ends[j] == EndTime(cues, j)
    {
      var endTime: string;
      if i < |cues| - 1 {
        endTime := cues[i + 1].startTime;
      } else {
        endTime := LastEnd(cues[i].timeMs);
      }
      ends := ends + [endTime];
    }
  }

  /** Building `transMap` with `set`. */
  method BuildTransMap(trans: seq<Cue>) returns (transMap: map<string, string>)
    ensures transMap == TransMap(trans)
  {
    transMap := map[];
    for k := 0 to |trans|
      invariant transMap == TransMap(trans[..k])
    {
      TransMapSnoc(trans, k);
      transMap := transMap[trans[k].startTime := trans[k].text];
    }
    assert trans[..|trans|] == trans;
  }

  /** The `subtitles` loops of both branches. */
  method BuildBlocks(cues: seq<Cue>, transMap: map<string, string>, bilingual: bool) returns (subtitles: seq<Block>)
    ensures subtitles == Layout(cues, transMap, bilingual)
  {
    var ends := EndTimes(cues);
    subtitles := [];
    for i := 0 to |cues|
      invariant |subtitles| == i && forall j :: 0 <= j < i ==> subtitles[j] == BlockAt(cues, transMap, bilingual, j)
    {
      var text := cues[i].text;
      if bilingual {
        var trans := if cues[i].startTime in transMap then transMap[cues[i].startTime] else "";
        if trans != "" {
          text := cues[i].text + "\n" + trans;
        }
      }
      subtitles := subtitles + [Block(i + 1, cues[i].startTime, ends[i], text)];
    }
    forall i | 0 <= i < |cues| ensures subtitles[i] == Layout(cues, transMap, bilingual)[i] {
      assert Layout(cues, transMap, bilingual)[i] == BlockAt(cues, transMap, bilingual, i);
    }
  }

  /** `formatSrtFile`. */
  method FormatSrtFile(original: string, translated: string) returns (out: string)
    ensures out == SrtText(original, translated)
  {
    var origEntries := ParseCues(original);
    var transEntries := ParseCues(translated);
    var transMap := BuildTransMap(transEntries);
    var subtitles := BuildBlocks(origEntries, transMap, translated != "");
    var rendered := seq(|subtitles|, i requires 0 <= i < |subtitles| => Render(subtitles[i]));
    out := Join(rendered, "\n");
  }
}
