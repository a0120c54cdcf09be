/**
 * The display helpers of `src/lib/lyrics.ts`: `formatLyrics` (tags removed
 * for preview), `combineDisplayLyrics` (an editable view pairing each timed
 * original line with the nearest translated line), its inverse
 * `separateCombinedLyrics`, and `formatDuration`.
 */
module DisplayText {
  import opened Wrappers
  import opened Strings
  import opened TimeTags
  import opened Sorting
  import opened LyricLines

  // ---------------------------------------------------------------- formatLyrics

  /** `line.replace(/\[\d+:\d+\.\d+\]/g, "")` for every line. */
  function StripAll(lines: seq<string>): (r: seq<string>)
    ensures |r| == |lines| && forall i :: 0 <= i < |lines| ==> r[i] == StripTags(lines[i])
  {
    if lines == [] then [] else StripAll(lines[..|lines| - 1]) + [StripTags(lines[|lines| - 1])]
  }

  /** The lines `formatLyrics` keeps. */
  function PreviewLines(lyricText: string): seq<string> {
    KeepNonBlank(StripAll(Split(lyricText, '\n')))
  }

  /** `formatLyrics`. */
  function FormatLyrics(lyricText: string): string {
    Join(PreviewLines(lyricText), "\n")
  }

  /** Removing tags never brings in a character the text did not have. */
  lemma {:induction false} StripKeepsOut(s: string, p: nat, c: char)
    requires p <= |s| && c !in s[p..]
    ensures c !in StripFrom(s, p)
    decreases |s| - p
  {
    if p < |s| {
      match TagAt(s, p)
      case Some(m) =>
        assert s[m.end..] == s[p..][m.end - p..];
        StripKeepsOut(s, m.end, c);
      case None =>
        assert s[p..] == [s[p]] + s[p + 1..];
        StripKeepsOut(s, p + 1, c);
    }
  }

  /** The kept lines are a subsequence of the stripped lines. */
  lemma {:induction false} KeepNonBlankFrom(lines: seq<string>, c: char)
    requires forall i :: 0 <= i < |lines| ==> c !in lines[i]
    ensures forall i :: 0 <= i < |KeepNonBlank(lines)| ==> c !in KeepNonBlank(lines)[i]
  {
    if lines != [] {
      KeepNonBlankFrom(lines[..|lines| - 1], c);
    }
  }

  /** Every line that is not blank once stripped is kept, in input order. */
  lemma StrippedKept(lines: seq<string>)
    ensures forall i :: 0 <= i < |lines| && !Blank(StripTags(lines[i])) ==>
      KeptBefore(StripAll(lines), i) < |KeepNonBlank(StripAll(lines))| &&
      KeepNonBlank(StripAll(lines))[KeptBefore(StripAll(lines), i)] == StripTags(lines[i])
    ensures forall i, k :: 0 <= i < k < |lines| && !Blank(StripTags(lines[i])) ==>
      KeptBefore(StripAll(lines), i) < KeptBefore(StripAll(lines), k)
  {
    var stripped := StripAll(lines);
    forall i | 0 <= i < |lines| && !Blank(StripTags(lines[i]))
      ensures KeptBefore(stripped, i) < |KeepNonBlank(stripped)|
      ensures KeepNonBlank(stripped)[KeptBefore(stripped, i)] == StripTags(lines[i])
      ensures forall k :: i < k < |lines| ==> KeptBefore(stripped, i) < KeptBefore(stripped, k)
    {
      KeptPlace(stripped, i);
    }
  }

  /**
   * The preview has at most as many lines as the input, none of them blank;
   * every input line that is not blank once stripped is in it, at the place
   * KeptBefore gives, and a later input line lands after it; when it is not
   * empty, splitting it at line breaks gives back exactly the kept lines.
   */
  lemma PreviewShape(lyricText: string)
    ensures |PreviewLines(lyricText)| <= |Split(lyricText, '\n')|
    ensures forall i :: 0 <= i < |PreviewLines(lyricText)| ==> !Blank(PreviewLines(lyricText)[i])
    ensures forall i :: 0 <= i < |Split(lyricText, '\n')| && !Blank(StripTags(Split(lyricText, '\n')[i])) ==>
      KeptBefore(StripAll(Split(lyricText, '\n')), i) < |PreviewLines(lyricText)| &&
      PreviewLines(lyricText)[KeptBefore(StripAll(Split(lyricText, '\n')), i)] == StripTags(Split(lyricText, '\n')[i])
    ensures forall i, k :: 0 <= i < k < |Split(lyricText, '\n')| && !Blank(StripTags(Split(lyricText, '\n')[i])) ==>
      KeptBefore(StripAll(Split(lyricText, '\n')), i) < KeptBefore(StripAll(Split(lyricText, '\n')), k)
    ensures PreviewLines(lyricText) != [] ==> Split(FormatLyrics(lyricText), '\n') == PreviewLines(lyricText)
  {
    var lines := Split(lyricText, '\n');
    var stripped := StripAll(lines);
    StrippedKept(lines);
    forall i | 0 <= i < |stripped| ensures '\n' !in stripped[i] {
      StripKeepsOut(lines[i], 0, '\n');
    }
    KeepNonBlankFrom(stripped, '\n');
    if PreviewLines(lyricText) != [] {
      SplitJoin(PreviewLines(lyricText), '\n');
    }
  }

  /** Text without an opening bracket passes through the replacement unchanged. */
  lemma {:induction false} StripNoBracket(s: string, p: nat)
    requires p <= |s|
    requires forall k :: p <= k < |s| ==> s[k] != '['
    ensures StripFrom(s, p) == s[p..]
    decreases |s| - p
  {
    if p < |s| {
      StripNoBracket(s, p + 1);
    }
  }

  /** `[0:2.0]` is a tag, so a line reading so after the replacement still carries one. */
  lemma PlainTag()
    ensures HasTag("[0:2.0]")
  {
    var u := "[0:2.0]";
    var v := Tag("0", "2", "0");
    assert u[0..|v.Text()|] == v.Text();
    TagAtComplete(u, 0, v);
    HasTagIff(u);
  }

  /** The inner tag is cut and the rest, which has no bracket, stays. */
  lemma CutInner(s: string)
    requires s == "[[0:1.0]0:2.0]"
    ensures StripFrom(s, 1) == s[8..]
  {
    var t := Tag("0", "1", "0");
    assert s[1..1 + |t.Text()|] == t.Text();
    TagAtComplete(s, 1, t);
    StripNoBracket(s, 8);
  }

  /** No tag starts at a character not followed by a digit. */
  lemma NoDigitNoTag(s: string, p: nat)
    requires p + 1 < |s| && !IsDigit(s[p + 1])
    ensures TagAt(s, p).None?
  {
    assert DigitRun(s, p + 1) == 0;
  }

  /** Where no tag starts, the replacement keeps the character. */
  lemma KeepChar(s: string, p: nat)
    requires p < |s| && TagAt(s, p).None?
    ensures StripFrom(s, p) == [s[p]] + StripFrom(s, p + 1)
  {
  }

  /**
   * The replacement is a single pass: in `[[0:1.0]0:2.0]` the inner tag is
   * cut and the outer one, split by it, survives as `[0:2.0]` (which
   * `PlainTag` shows is a tag).
   */
  lemma SinglePass(s: string)
    requires s == "[[0:1.0]0:2.0]"
    ensures StripTags(s) == "[0:2.0]"
  {
    StripOuter(s);
    assert [s[0]] + s[8..] == "[0:2.0]";
  }

  /** The first bracket is kept and the inner tag is cut. */
  lemma StripOuter(s: string)
    requires s == "[[0:1.0]0:2.0]"
    ensures StripTags(s) == [s[0]] + s[8..]
  {
    NoDigitNoTag(s, 0);
    CutInner(s);
    KeepChar(s, 0);
  }

  // ---------------------------------------------------------------- combineDisplayLyrics

  /** An entry of the helper `parseLines`: a line without tags, or one tag of a tagged line. */
  datatype Entry =
    | Untimed(text: string)
    | Timed(time: nat, timeStr: string, text: string, fullLine: string)

  /** The sort key: -1 for an untimed line, so those sort first. */
  function Key(e: Entry): int {
    if e.Untimed? then -1 else e.time
  }

  /** One timed entry per match, all carrying `text` and the whole line. */
  function TimedEntries(ms: seq<TagMatch>, text: string, line: string): (r: seq<Entry>)
    requires forall i :: 0 <= i < |ms| ==> ms[i].tag.Valid()
    ensures |r| == |ms|
    ensures forall i :: 0 <= i < |ms| ==> r[i] == Timed(Thousandths(ms[i].tag), ms[i].tag.Text(), text, line)
  {
    if ms == [] then []
    else TimedEntries(ms[..|ms| - 1], text, line) + [Timed(Thousandths(ms[|ms| - 1].tag), ms[|ms| - 1].tag.Text(), text, line)]
  }

  /** The entries of one line. */
  function LineEntries(line: string): seq<Entry> {
    var ms := Tags(line);
    if ms == [] then [Untimed(Trim(line))]
    else
      TagsFromValid(line, 0);
      TimedEntries(ms, AfterLastTag(line), line)
  }

  /**
   * A line without a tag gives one untimed entry holding its trimmed text;
   * a tagged line gives one timed entry per tag, in order.
   */
  lemma LineEntriesCount(line: string)
    ensures !HasTag(line) ==> LineEntries(line) == [Untimed(Trim(line))]
    ensures HasTag(line) ==> |LineEntries(line)| == |Tags(line)|
  {
  }

  /**
   * The entry of the `i`-th tag of a tagged line: the tag's time in
   * thousandths, the tag's exact text in the line, the trimmed text after the
   * line's last tag, and the whole line.
   */
  lemma LineEntriesAt(line: string, i: nat)
    requires i < |Tags(line)|
    ensures Tags(line)[i].end <= |line| && Tags(line)[i].tag.Valid()
    ensures |LineEntries(line)| == |Tags(line)|
    ensures LineEntries(line)[i]
      == Timed(Thousandths(Tags(line)[i].tag), line[Tags(line)[i].start..Tags(line)[i].end], AfterLastTag(line), line)
  {
    TagsFromFound(line, 0);
    TagsFromValid(line, 0);
  }

  function EntriesOf(lines: seq<string>): seq<Entry> {
    if lines == [] then [] else EntriesOf(lines[..|lines| - 1]) + LineEntries(lines[|lines| - 1])
  }

  /** One more line adds its entries at the end. */
  lemma EntriesOfSnoc(lines: seq<string>, n: nat)
    requires n < |lines|
    ensures EntriesOf(lines[..n + 1]) == EntriesOf(lines[..n]) + LineEntries(lines[n])
  {
    assert lines[..n + 1][..n] == lines[..n];
  }

  /** `parseLines`: entries of the non-blank lines, stably sorted by key. */
  function Entries(lyrics: string): seq<Entry> {
    SortBy(EntriesOf(NonBlankLines(lyrics)), Key)
  }

  /** `Math.abs(a - b)`. */
  function Diff(a: nat, b: nat): nat {
    if a >= b then a - b else b - a
  }

  /** The translated entry the search loop settles on: strictly closer entries replace earlier ones. */
  function Closest(t: nat, trans: seq<Entry>): (r: Option<nat>)
    ensures r.Some? ==> r.value < |trans| && trans[r.value].Timed?
  {
    if trans == [] then None
    else
      var c := Closest(t, trans[..|trans| - 1]);
      var e := trans[|trans| - 1];
      if e.Untimed? then c
      else if c.None? || Diff(t, e.time) < Diff(t, trans[c.value].time) then Some(|trans| - 1)
      else c
  }

  /**
   * The search finds nothing exactly when no translated entry is timed;
   * otherwise it finds the first timed entry among those at minimal
   * distance.
   */
  lemma {:induction false} ClosestIsFirstNearest(t: nat, trans: seq<Entry>)
    ensures Closest(t, trans).None? <==> forall j :: 0 <= j < |trans| ==> trans[j].Untimed?
    ensures Closest(t, trans).Some? ==>
      var i := Closest(t, trans).value;
      forall j :: 0 <= j < |trans| && trans[j].Timed? ==>
        && Diff(t, trans[i].time) <= Diff(t, trans[j].time)
        && (j < i ==> Diff(t, trans[i].time) < Diff(t, trans[j].time))
  {
    if trans != [] {
      var init := trans[..|trans| - 1];
      ClosestIsFirstNearest(t, init);
      assert forall j :: 0 <= j < |init| ==> init[j] == trans[j];
    }
  }

  /** The 2-second window, in thousandths. */
  const Window: nat := 2000

  /** The combined line of one original entry. */
  function CombinedLine(e: Entry, trans: seq<Entry>): string {
    match e
    case Untimed(text) => text
    case Timed(time, timeStr, text, fullLine) =>
      match Closest(time, trans)
      case Some(j) =>
        if Diff(time, trans[j].time) < Window then timeStr + text + "\n" + trans[j].text else fullLine
      case None => fullLine
  }

  function CombinedLines(orig: seq<Entry>, trans: seq<Entry>): (r: seq<string>)
    ensures |r| == |orig| && forall i :: 0 <= i < |orig| ==> r[i] == CombinedLine(orig[i], trans)
  {
    if orig == [] then [] else CombinedLines(orig[..|orig| - 1], trans) + [CombinedLine(orig[|orig| - 1], trans)]
  }

  function Combined(original: string, translated: string): string {
    if translated == "" then original else Join(CombinedLines(Entries(original), Entries(translated)), "\n")
  }

  /**
   * A timed entry is paired exactly when some timed translated entry lies
   * within two seconds of it, and then with the first of the nearest ones;
   * otherwise its whole line is kept as written. Untimed entries come out
   * as their trimmed text.
   */
  lemma CombinedLineShape(e: Entry, trans: seq<Entry>)
    requires e.Timed?
    ensures (exists j :: 0 <= j < |trans| && trans[j].Timed? && Diff(e.time, trans[j].time) < Window) ==>
      && Closest(e.time, trans).Some?
      && Diff(e.time, trans[Closest(e.time, trans).value].time) < Window
      && CombinedLine(e, trans) == e.timeStr + e.text + "\n" + trans[Closest(e.time, trans).value].text
    ensures (forall j :: 0 <= j < |trans| && trans[j].Timed? ==> Diff(e.time, trans[j].time) >= Window)
      ==> CombinedLine(e, trans) == e.fullLine
  {
    ClosestIsFirstNearest(e.time, trans);
  }

  /** The entries of one line, built by the helper's loop. */
  method PushTimed(timeMatches: seq<TagMatch>, text: string, line: string) returns (result: seq<Entry>)
    requires forall i :: 0 <= i < |timeMatches| ==> timeMatches[i].tag.Valid()
    ensures result == TimedEntries(timeMatches, text, line)
  {
    result := [];
    for k := 0 to |timeMatches|
      invariant result == TimedEntries(timeMatches[..k], text, line)
    {
      assert timeMatches[..k + 1][..k] == timeMatches[..k];
      var m := timeMatches[k];
      result := result + [Timed(Thousandths(m.tag), m.tag.Text(), text, line)];
    }
    assert timeMatches[..|timeMatches|] == timeMatches;
  }

  method ParseLineEntries(line: string) returns (result: seq<Entry>)
    ensures result == LineEntries(line)
  {
    var timeMatches := Tags(line);
    if timeMatches == [] {
      result := [Untimed(Trim(line))];
    } else {
      TagsFromValid(line, 0);
      var text := AfterLastTag(line);
      result := PushTimed(timeMatches, text, line);
    }
  }

  /** The loop of the helper `parseLines`, over the non-blank lines. */
  method CollectEntries(lines: seq<string>) returns (result: seq<Entry>)
    ensures result == EntriesOf(lines)
  {
    result := [];
    for n := 0 to |lines|
      invariant result == EntriesOf(lines[..n])
    {
      EntriesOfSnoc(lines, n);
      var entries := ParseLineEntries(lines[n]);
      result := result + entries;
    }
    assert lines[..|lines|] == lines;
  }

  /** The helper `parseLines` of `combineDisplayLyrics`. */
  method ParseEntries(lyrics: string) returns (result: seq<Entry>)
    ensures result == Entries(lyrics)
  {
    var entries := CollectEntries(NonBlankLines(lyrics));
    result := SortBy(entries, Key);
  }

  /**
   * The inner search loop over the translated entries. `minTimeDiff` starts
   * unbounded (no entry found yet) and then carries the distance of the
   * entry found so far.
   */
  method FindClosest(t: nat, transLines: seq<Entry>) returns (closest: Option<nat>, minTimeDiff: nat)
    ensures closest == Closest(t, transLines)
    ensures closest.Some? ==> minTimeDiff == Diff(t, transLines[closest.value].time)
  {
    closest, minTimeDiff := None, 0;
    for k := 0 to |transLines|
      invariant closest == Closest(t, transLines[..k])
      invariant closest.Some? ==> minTimeDiff == Diff(t, transLines[closest.value].time)
    {
      assert transLines[..k + 1][..k] == transLines[..k];
      var transLine := transLines[k];
      if transLine.Untimed? {
        continue;
      }
      var timeDiff := Diff(transLine.time, t);
      if closest.None? || timeDiff < minTimeDiff {
        minTimeDiff := timeDiff;
        closest := Some(k);
      }
    }
    assert transLines[..|transLines|] == transLines;
  }

  /** `combineDisplayLyrics`. */
  method CombineDisplayLyrics(original: string, translated: string) returns (out: string)
    ensures translated == "" ==> out == original
    ensures out == Combined(original, translated)
  {
    if translated == "" {
      return original;
    }
    var origLines := ParseEntries(original);
    var transLines := ParseEntries(translated);
    var combinedLines := CombineEntries(origLines, transLines);
    out := Join(combinedLines, "\n");
  }

  /** The outer loop of `combineDisplayLyrics` over the original entries. */
  method CombineEntries(origLines: seq<Entry>, transLines: seq<Entry>) returns (combinedLines: seq<string>)
    ensures combinedLines == CombinedLines(origLines, transLines)
  {
    combinedLines := [];
    for i := 0 to |origLines|
      invariant combinedLines == CombinedLines(origLines[..i], transLines)
    {
      assert origLines[..i + 1][..i] == origLines[..i];
      var origLine := origLines[i];
      if origLine.Untimed? {
        combinedLines := combinedLines + [origLine.text];
        continue;
      }
      var closest, minTimeDiff := FindClosest(origLine.time, transLines);
      if closest.Some? && minTimeDiff < Window {
        combinedLines := combinedLines + [origLine.timeStr + origLine.text + "\n" + transLines[closest.value].text];
      } else {
        combinedLines := combinedLines + [origLine.fullLine];
      }
    }
    assert origLines[..|origLines|] == origLines;
  }

  // ---------------------------------------------------------------- separateCombinedLyrics

  /** The lines with a tag, in order. */
  function Tagged(lines: seq<string>): (r: seq<string>)
    ensures forall i :: 0 <= i < |r| ==> HasTag(r[i])
  {
    if lines == [] then []
    else Tagged(lines[..|lines| - 1]) + (if HasTag(lines[|lines| - 1]) then [lines[|lines| - 1]] else [])
  }

  /** The lines without a tag, in order. */
  function Untagged(lines: seq<string>): (r: seq<string>)
    ensures forall i :: 0 <= i < |r| ==> !HasTag(r[i])
  {
    if lines == [] then []
    else Untagged(lines[..|lines| - 1]) + (if HasTag(lines[|lines| - 1]) then [] else [lines[|lines| - 1]])
  }

  /** The two sides together hold as many lines as the input. */
  lemma {:induction false} Partition(lines: seq<string>)
    ensures |Tagged(lines)| + |Untagged(lines)| == |lines|
  {
    if lines != [] {
      Partition(lines[..|lines| - 1]);
    }
  }

  /** One more line goes to exactly one side. */
  lemma SidesSnoc(pre: seq<string>, x: string)
    ensures Tagged(pre + [x]) == Tagged(pre) + (if HasTag(x) then [x] else [])
    ensures Untagged(pre + [x]) == Untagged(pre) + (if HasTag(x) then [] else [x])
  {
    assert (pre + [x])[..|pre|] == pre;
  }

  /** Taking the tagged lines of a concatenation takes them from each part, in order. */
  lemma {:induction false} TaggedAppend(a: seq<string>, b: seq<string>)
    ensures Tagged(a + b) == Tagged(a) + Tagged(b)
    decreases |b|
  {
    if b == [] {
      assert a + b == a;
    } else {
      var init, last := b[..|b| - 1], b[|b| - 1];
      Snoc(b);
      Assoc(a, init, [last]);
      SidesSnoc(a + init, last);
      SidesSnoc(init, last);
      TaggedAppend(a, init);
      Assoc(Tagged(a), Tagged(init), if HasTag(last) then [last] else []);
    }
  }

  /** Taking the untagged lines of a concatenation takes them from each part, in order. */
  lemma {:induction false} UntaggedAppend(a: seq<string>, b: seq<string>)
    ensures Untagged(a + b) == Untagged(a) + Untagged(b)
    decreases |b|
  {
    if b == [] {
      assert a + b == a;
    } else {
      var init, last := b[..|b| - 1], b[|b| - 1];
      Snoc(b);
      Assoc(a, init, [last]);
      SidesSnoc(a + init, last);
      SidesSnoc(init, last);
      UntaggedAppend(a, init);
      Assoc(Untagged(a), Untagged(init), if HasTag(last) then [] else [last]);
    }
  }

  /** A line between two runs of lines goes to exactly one side, between them. */
  lemma SidesAround(pre: seq<string>, x: string, post: seq<string>)
    ensures Tagged(pre + [x] + post) == Tagged(pre) + (if HasTag(x) then [x] else []) + Tagged(post)
    ensures Untagged(pre + [x] + post) == Untagged(pre) + (if HasTag(x) then [] else [x]) + Untagged(post)
  {
    SidesSnoc(pre, x);
    TaggedAppend(pre + [x], post);
    UntaggedAppend(pre + [x], post);
  }

  /**
   * Line `i` goes to the original side when it has a tag and to the
   * translation side otherwise, never to both, between the lines before it
   * and the lines after it on that side.
   */
  lemma PartitionAt(lines: seq<string>, i: nat)
    requires i < |lines|
    ensures Tagged(lines)
      == Tagged(lines[..i]) + (if HasTag(lines[i]) then [lines[i]] else []) + Tagged(lines[i + 1..])
    ensures Untagged(lines)
      == Untagged(lines[..i]) + (if HasTag(lines[i]) then [] else [lines[i]]) + Untagged(lines[i + 1..])
  {
    Around(lines, i);
    SidesAround(lines[..i], lines[i], lines[i + 1..]);
  }

  /** With a tag on every line, the original side takes them all. */
  lemma {:induction false} AllTagged(lines: seq<string>)
    requires forall i :: 0 <= i < |lines| ==> HasTag(lines[i])
    ensures Tagged(lines) == lines
  {
    if lines != [] {
      var init := lines[..|lines| - 1];
      assert forall i :: 0 <= i < |init| ==> init[i] == lines[i];
      AllTagged(init);
      Snoc(lines);
      SidesSnoc(init, lines[|lines| - 1]);
    }
  }

  /** With no tag on any line, the translation side takes them all. */
  lemma {:induction false} NoneTagged(lines: seq<string>)
    requires forall i :: 0 <= i < |lines| ==> !HasTag(lines[i])
    ensures Untagged(lines) == lines
  {
    if lines != [] {
      var init := lines[..|lines| - 1];
      assert forall i :: 0 <= i < |init| ==> init[i] == lines[i];
      NoneTagged(init);
      Snoc(lines);
      SidesSnoc(init, lines[|lines| - 1]);
    }
  }

  /** One more line goes to the side its tag decides. */
  lemma Step(lines: seq<string>, i: nat)
    requires i < |lines|
    ensures HasTag(lines[i]) ==> Terminated(Tagged(lines[..i + 1])) == Terminated(Tagged(lines[..i])) + lines[i] + "\n"
    ensures HasTag(lines[i]) ==> Untagged(lines[..i + 1]) == Untagged(lines[..i])
    ensures !HasTag(lines[i]) ==> Tagged(lines[..i + 1]) == Tagged(lines[..i])
    ensures !HasTag(lines[i]) ==> Terminated(Untagged(lines[..i + 1])) == Terminated(Untagged(lines[..i])) + lines[i] + "\n"
  {
    assert lines[..i + 1][..i] == lines[..i];
    TerminatedSnoc(Tagged(lines[..i]), lines[i]);
    TerminatedSnoc(Untagged(lines[..i]), lines[i]);
  }

  /**
   * `separateCombinedLyrics`. Whether a tagged line is paired with the
   * untagged line after it or not, each line lands on one side: tagged
   * lines in the original, the others in the translation, each followed by
   * a line break, in their order.
   */
  method SeparateCombinedLyrics(combined: string) returns (original: string, translated: string)
    ensures original == Terminated(Tagged(Split(combined, '\n')))
    ensures translated == Terminated(Untagged(Split(combined, '\n')))
  {
    var lines := Split(combined, '\n');
    original := "";
    translated := "";
    var i := 0;
    while i < |lines|
      invariant i <= |lines|
      invariant original == Terminated(Tagged(lines[..i]))
      invariant translated == Terminated(Untagged(lines[..i]))
    {
      var line := lines[i];
      var hasTimestamp := HasTag(line);
      Step(lines, i);
      if hasTimestamp && i + 1 < |lines| && !HasTag(lines[i + 1]) {
        Step(lines, i + 1);
        original := original + line + "\n";
        translated := translated + lines[i + 1] + "\n";
        i := i + 2;
      } else if hasTimestamp {
        original := original + line + "\n";
        i := i + 1;
      } else {
        translated := translated + line + "\n";
        i := i + 1;
      }
    }
    assert lines[..i] == lines;
  }

  // ---------------------------------------------------------------- formatDuration

  /** `formatDuration` for a whole, non-negative number of milliseconds. */
  function FormatDuration(duration: nat): string {
    var minutes := duration / 60000;
    var seconds := (duration / 1000) % 60;
    Decimal(minutes) + ":" + (if seconds < 10 then "0" else "") + Decimal(seconds)
  }

  /** The seconds field: two digits that read back as the seconds. */
  lemma SecondsField(seconds: nat)
    requires seconds < 60
    ensures var ss := (if seconds < 10 then "0" else "") + Decimal(seconds);
      |ss| == 2 && AllDigits(ss) && Value(ss) == seconds
  {
    DecimalValue(seconds);
    if seconds < 10 {
      assert Decimal(seconds) == [DigitChar(seconds)];
      LeadingZeros(Decimal(seconds), 1);
      assert Repeat('0', 1) == "0";
    } else {
      assert Decimal(seconds) == Decimal(seconds / 10) + [DigitChar(seconds % 10)];
    }
  }

  /** Whole minutes and the seconds left over make up the whole seconds. */
  lemma MinutesAndSeconds(duration: nat)
    ensures duration / 1000 == (duration / 60000) * 60 + (duration / 1000) % 60
  {
    var t := duration / 1000;
    assert duration / 60000 == t / 60;
  }

  /** Where the parts of `m:ss` lie when the seconds take two characters. */
  lemma ColonLayout(m: string, ss: string)
    requires |m| >= 1 && |ss| == 2
    ensures var r := m + ":" + ss; var k := |r| - 3;
      0 < k && r[..k] == m && r[k] == ':' && r[k + 1..] == ss
  {
    var r := m + ":" + ss;
    assert r[..|m|] == m;
    assert r[|m| + 1..] == ss;
  }

  /**
   * The text reads back: whole minutes, a colon, and exactly two digits of
   * seconds below 60, which together give the whole seconds of the duration.
   */
  lemma DurationReadBack(duration: nat)
    ensures var r := FormatDuration(duration); var k := |r| - 3;
      && 0 < k && r[k] == ':'
      && AllDigits(r[..k]) && AllDigits(r[k + 1..])
      && Value(r[k + 1..]) < 60
      && Value(r[..k]) * 60 + Value(r[k + 1..]) == duration / 1000
  {
    var minutes := duration / 60000;
    var seconds := (duration / 1000) % 60;
    var m := Decimal(minutes);
    var ss := (if seconds < 10 then "0" else "") + Decimal(seconds);
    assert FormatDuration(duration) == m + ":" + ss;
    DecimalValue(minutes);
    SecondsField(seconds);
    MinutesAndSeconds(duration);
    ColonLayout(m, ss);
  }
}
