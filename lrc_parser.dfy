/**
 * `parseLRC` of `src/lib/lrc-parser.ts`: the trimmed content is split into
 * lines; every line whose first `[mm:ss.xx]` tag is followed by non-blank
 * text becomes a record that starts at that tag and ends at the tag of the
 * next tagged line (five seconds later when there is none); the records are
 * stably sorted by start. Times are whole hundredths of a second, so
 * `minutes * 60 + seconds + centiseconds / 100` seconds is
 * `minutes * 6000 + seconds * 100 + centiseconds` here.
 */
module LrcParser {
  import opened Wrappers
  import opened Strings
  import opened TimeTags
  import opened Sorting

  /** A parsed line: start and end in hundredths of a second, and its text. */
  datatype Lyric = Lyric(start: nat, end: nat, text: string)

  /** The five seconds a last line is shown for, in hundredths. */
  const Linger: nat := 500

  /** The time of the strict tag matched at `p`. */
  function StampAt(s: string, p: nat): nat
    requires MatchesAt(s, p, StrictTag)
  {
    DigitsAt(s, p, StrictTag, 1, 3);
    DigitsAt(s, p, StrictTag, 4, 6);
    DigitsAt(s, p, StrictTag, 7, 9);
    Value(s[p + 1..p + 3]) * 6000 + Value(s[p + 4..p + 6]) * 100 + Value(s[p + 7..p + 9])
  }

  /** The time of the first strict tag of a line, if it has one. */
  function Stamp(line: string): Option<nat> {
    match Search(line, StrictTag, 0)
    case None => None
    case Some(p) => Some(StampAt(line, p))
  }

  /** The tag time of each line, if it has a tag. */
  function Stamps(lines: seq<string>): (r: seq<Option<nat>>)
    ensures |r| == |lines|
  {
    if lines == [] then [] else Stamps(lines[..|lines| - 1]) + [Stamp(lines[|lines| - 1])]
  }

  /** The tag time of line `k` is in place `k`. */
  lemma {:induction false} StampsAt(lines: seq<string>, k: nat)
    requires k < |lines|
    ensures Stamps(lines)[k] == Stamp(lines[k])
  {
    if k < |lines| - 1 {
      StampsAt(lines[..|lines| - 1], k);
    }
  }

  /** The first tag time at or after line `j`. */
  function NextStamp(stamps: seq<Option<nat>>, j: nat): Option<nat>
    requires j <= |stamps|
    decreases |stamps| - j
  {
    if j == |stamps| then None
    else if stamps[j].Some? then stamps[j]
    else NextStamp(stamps, j + 1)
  }

  /**
   * The search finds nothing exactly when no line from `j` on has a tag;
   * otherwise it reports the tag of the first such line, whatever its text.
   */
  lemma {:induction false} NextStampFirst(stamps: seq<Option<nat>>, j: nat)
    requires j <= |stamps|
    ensures NextStamp(stamps, j).None? <==> forall k :: j <= k < |stamps| ==> stamps[k].None?
    ensures NextStamp(stamps, j).Some? ==>
      exists k :: j <= k < |stamps| && stamps[k] == NextStamp(stamps, j)
        && forall l :: j <= l < k ==> stamps[l].None?
    decreases |stamps| - j
  {
    if j < |stamps| && stamps[j].None? {
      NextStampFirst(stamps, j + 1);
    }
  }

  /** The record the loop pushes for line `i`, if any. */
  function LyricAt(lines: seq<string>, i: nat): Option<Lyric>
    requires i < |lines|
  {
    match Search(lines[i], StrictTag, 0)
    case None => None
    case Some(p) => LyricFrom(lines, i, p)
  }

  /** When the line `i` starting at `start` ends: at the next tag, or five seconds on. */
  function EndTime(lines: seq<string>, i: nat, start: nat): nat
    requires i < |lines|
  {
    NextStamp(Stamps(lines), i + 1).GetOr(start + Linger)
  }

  /** The record of line `i` whose first tag is at `p`, unless its text is blank. */
  function LyricFrom(lines: seq<string>, i: nat, p: nat): Option<Lyric>
    requires i < |lines| && MatchesAt(lines[i], p, StrictTag)
  {
    var start := StampAt(lines[i], p);
    var text := Trim(RestOfLine(lines[i], p + |StrictTag|));
    if text == "" then None
    else Some(Lyric(start, NextStamp(Stamps(lines), i + 1).GetOr(start + Linger), text))
  }

  /**
   * A record starts at its line's first tag, carries non-blank text with no
   * white space at either end, and ends at the next tagged line's time, or
   * five seconds after it starts.
   */
  lemma LyricFromShape(lines: seq<string>, i: nat, p: nat)
    requires i < |lines| && MatchesAt(lines[i], p, StrictTag)
    ensures LyricFrom(lines, i, p).Some? ==>
      var r := LyricFrom(lines, i, p).value;
      var next := NextStamp(Stamps(lines), i + 1);
      && r.start == StampAt(lines[i], p)
      && r.text != ""
      && !IsWhite(r.text[0]) && !IsWhite(r.text[|r.text| - 1])
      && (next.Some? ==> r.end == next.value)
      && (next.None? ==> r.end == r.start + Linger)
  {
    TrimShape(RestOfLine(lines[i], p + |StrictTag|));
  }

  /** A line without a tag gives nothing; a record starts at its line's first tag. */
  lemma LyricAtShape(lines: seq<string>, i: nat)
    requires i < |lines|
    ensures Stamp(lines[i]).None? ==> LyricAt(lines, i).None?
    ensures LyricAt(lines, i).Some? ==> Stamp(lines[i]) == Some(LyricAt(lines, i).value.start)
    ensures LyricAt(lines, i).Some? ==> LyricAt(lines, i).value.text != ""
  {
    match Search(lines[i], StrictTag, 0)
    case None =>
    case Some(p) =>
      LyricFromShape(lines, i, p);
  }

  /** What each line gives. */
  function Records(lines: seq<string>): (r: seq<Option<Lyric>>)
    ensures |r| == |lines|
  {
    seq(|lines|, i requires 0 <= i < |lines| => LyricAt(lines, i))
  }

  /** The records that are there, in order. */
  function Present(rs: seq<Option<Lyric>>): seq<Lyric> {
    if rs == [] then []
    else Present(rs[..|rs| - 1]) + match rs[|rs| - 1] case Some(r) => [r] case None => []
  }

  /** One more record is kept at the end when it is there. */
  lemma PresentSnoc(rs: seq<Option<Lyric>>, i: nat)
    requires i < |rs|
    ensures Present(rs[..i + 1]) == Present(rs[..i]) + match rs[i] case Some(r) => [r] case None => []
  {
    assert rs[..i + 1][..i] == rs[..i];
  }

  /** `Present` keeps exactly the records that are there, and no more of them than there are lines. */
  lemma {:induction false} PresentExactly(rs: seq<Option<Lyric>>)
    ensures |Present(rs)| <= |rs|
    ensures forall k :: 0 <= k < |Present(rs)| ==> Some(Present(rs)[k]) in rs
    ensures forall i :: 0 <= i < |rs| && rs[i].Some? ==> rs[i].value in Present(rs)
  {
    if rs != [] {
      var init := rs[..|rs| - 1];
      PresentExactly(init);
      assert forall i :: 0 <= i < |init| ==> init[i] == rs[i];
      forall k | 0 <= k < |Present(rs)| ensures Some(Present(rs)[k]) in rs {
        if k < |Present(init)| {
          assert Present(rs)[k] == Present(init)[k];
          var i :| 0 <= i < |init| && init[i] == Some(Present(init)[k]);
          assert rs[i] == init[i];
        }
      }
    }
  }

  function Start(r: Lyric): int {
    r.start
  }

  /** `lrcContent.trim().split(/\r?\n/)`. */
  function Lines(lrcContent: string): seq<string> {
    SplitBy(LineBreak, Trim(lrcContent))
  }

  /** `parseLRC`. */
  function ParseLrc(lrcContent: string): seq<Lyric> {
    SortBy(Present(Records(Lines(lrcContent))), Start)
  }

  /**
   * The result holds exactly the records of the lines, ordered by start;
   * records that start together keep their line order.
   */
  lemma ParseLrcOrder(lrcContent: string, t: int)
    ensures |ParseLrc(lrcContent)| <= |Lines(lrcContent)|
    ensures SortedBy(ParseLrc(lrcContent), Start)
    ensures multiset(ParseLrc(lrcContent)) == multiset(Present(Records(Lines(lrcContent))))
    ensures WithKey(ParseLrc(lrcContent), Start, t) == WithKey(Present(Records(Lines(lrcContent))), Start, t)
  {
    var rs := Records(Lines(lrcContent));
    PresentExactly(rs);
    SortByPermutation(Present(rs), Start);
    SortByStable(Present(rs), Start, t);
  }

  /** No parsed line has empty text. */
  lemma ParsedTextsNonBlank(lrcContent: string)
    ensures forall k :: 0 <= k < |ParseLrc(lrcContent)| ==> ParseLrc(lrcContent)[k].text != ""
  {
    var ps := Present(Records(Lines(lrcContent)));
    PresentNonBlank(Lines(lrcContent));
    SortByPermutation(ps, Start);
    forall k | 0 <= k < |ParseLrc(lrcContent)| ensures ParseLrc(lrcContent)[k].text != "" {
      assert ParseLrc(lrcContent)[k] in multiset(ps);
    }
  }

  /** Every record kept from the lines has non-empty text. */
  lemma PresentNonBlank(lines: seq<string>)
    ensures forall m :: 0 <= m < |Present(Records(lines))| ==> Present(Records(lines))[m].text != ""
  {
    var rs := Records(lines);
    PresentExactly(rs);
    forall m | 0 <= m < |Present(rs)| ensures Present(rs)[m].text != "" {
      var i :| 0 <= i < |rs| && rs[i] == Some(Present(rs)[m]);
      LyricAtShape(lines, i);
    }
  }

  /** The inner loop: the start of the next line with a tag, or five seconds on. */
  method FindEnd(lines: seq<string>, i: nat, startTime: nat) returns (endTime: nat)
    requires i < |lines|
    ensures endTime == EndTime(lines, i, startTime)
  {
    ghost var stamps := Stamps(lines);
    endTime := startTime + Linger;
    var j := i + 1;
    while j < |lines|
      invariant i + 1 <= j <= |lines|
      invariant NextStamp(stamps, i + 1) == NextStamp(stamps, j)
      invariant endTime == startTime + Linger
    {
      StampsAt(lines, j);
      var nextTimeTagMatch := Search(lines[j], StrictTag, 0);
      if nextTimeTagMatch.Some? {
        endTime := StampAt(lines[j], nextTimeTagMatch.value);
        return;
      }
      j := j + 1;
    }
  }

  /** The body of the outer loop for a line whose first tag is at `p`. */
  method TaggedLyric(lines: seq<string>, i: nat, p: nat) returns (r: Option<Lyric>)
    requires i < |lines| && MatchesAt(lines[i], p, StrictTag)
    ensures r == LyricFrom(lines, i, p)
  {
    var startTime := StampAt(lines[i], p);
    var text := Trim(RestOfLine(lines[i], p + |StrictTag|));
    var endTime := FindEnd(lines, i, startTime);
    r := None;
    if text != "" {
      r := Some(Lyric(startTime, endTime, text));
    }
  }

  /** The body of the outer loop for line `i`. */
  method LineLyric(lines: seq<string>, i: nat) returns (r: Option<Lyric>)
    requires i < |lines|
    ensures r == LyricAt(lines, i)
  {
    var timeTagMatch := Search(lines[i], StrictTag, 0);
    r := None;
    if timeTagMatch.Some? {
      r := TaggedLyric(lines, i, timeTagMatch.value);
    }
  }

  /** The outer loop: each line's record, if any, pushed in line order. */
  method CollectLyrics(lines: seq<string>) returns (parsedLyrics: seq<Lyric>)
    ensures parsedLyrics == Present(Records(lines))
  {
    ghost var rs := Records(lines);
    parsedLyrics := [];
    for i := 0 to |lines|
      invariant parsedLyrics == Present(rs[..i])
    {
      PresentSnoc(rs, i);
      var r := LineLyric(lines, i);
      if r.Some? {
        parsedLyrics := parsedLyrics + [r.value];
      }
    }
    assert rs[..|lines|] == rs;
  }

  /** `parseLRC` as written: the records are collected, then sorted. */
  method ParseLrcLines(lrcContent: string) returns (parsedLyrics: seq<Lyric>)
    ensures parsedLyrics == ParseLrc(lrcContent)
  {
    var lines := SplitBy(LineBreak, Trim(lrcContent));
    parsedLyrics := CollectLyrics(lines);
    parsedLyrics := SortBy(parsedLyrics, Start);
  }
}
