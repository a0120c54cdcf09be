/**
 * The lyric state of `useLyricsController`
 * (`src/components/MusicPlayer/LyricsController.tsx`): the parsed lyrics,
 * the line shown for the playback time, and the lyricist and composer read
 * from the credits at the top of the lyrics. Lyric times are hundredths of a
 * second; the playback time is a number of seconds.
 */
module LyricsControl {
  import opened Wrappers
  import opened Strings
  import opened LrcParser

  // ---------------------------------------------------------------- the current line

  /** `currentTime >= lyric.start && currentTime <= lyric.end`, both bounds included. */
  predicate Covers(l: Lyric, t: real) {
    (l.start as real) / 100.0 <= t <= (l.end as real) / 100.0
  }

  /** `lyrics.find(...)`: the position of the first lyric covering `t`. */
  function FirstCovering(lyrics: seq<Lyric>, t: real): (r: Option<nat>)
    ensures r.Some? ==> r.value < |lyrics| && Covers(lyrics[r.value], t)
    ensures r.Some? ==> forall j :: 0 <= j < r.value ==> !Covers(lyrics[j], t)
    ensures r.None? <==> forall j :: 0 <= j < |lyrics| ==> !Covers(lyrics[j], t)
  {
    if lyrics == [] then None
    else if Covers(lyrics[0], t) then Some(0)
    else
      match FirstCovering(lyrics[1..], t)
      case None => None
      case Some(k) => Some(k + 1)
  }

  /** The text `updateCurrentLyric` shows. */
  function Shown(lyrics: seq<Lyric>, t: real): string {
    match FirstCovering(lyrics, t)
    case Some(i) => lyrics[i].text
    case None => ""
  }

  /**
   * When no lyric has empty text (as for lyrics read from an LRC file, see
   * `ParsedTextsNonBlank`), nothing is shown exactly when no lyric covers
   * the time.
   */
  lemma ShownEmptyIff(lyrics: seq<Lyric>, t: real)
    requires forall k :: 0 <= k < |lyrics| ==> lyrics[k].text != ""
    ensures Shown(lyrics, t) == "" <==> forall j :: 0 <= j < |lyrics| ==> !Covers(lyrics[j], t)
  {
  }

  // ---------------------------------------------------------------- credits

  /** The credits that can be read. */
  datatype Role = Lyricist | Composer

  /** The label in front of a credit: 作词 for the lyricist, 作曲 for the composer. */
  function Label(role: Role): (r: string)
    ensures |r| == 2
  {
    match role
    case Lyricist => "\U{4F5C}\U{8BCD}"
    case Composer => "\U{4F5C}\U{66F2}"
  }

  /** `[:：]`: an ASCII or a full-width colon. */
  predicate IsColon(c: char) {
    c == ':' || c == '\U{FF1A}'
  }

  /** The label `mark` followed by a colon stands at `p`. */
  predicate LabelAt(s: string, p: nat, mark: string) {
    p + |mark| + 1 <= |s| && s[p..p + |mark|] == mark && IsColon(s[p + |mark|])
  }

  /** `includes(mark + ":") || includes(mark + "：")`. */
  predicate Includes(s: string, mark: string) {
    exists p :: 0 <= p < |s| && LabelAt(s, p, mark)
  }

  /** The leftmost place at or after `p` where the label and a colon stand. */
  function FindLabel(s: string, mark: string, p: nat): (r: Option<nat>)
    requires p <= |s|
    ensures r.Some? ==> p <= r.value && LabelAt(s, r.value, mark)
    ensures r.None? ==> forall q :: p <= q < |s| ==> !LabelAt(s, q, mark)
    decreases |s| - p
  {
    if LabelAt(s, p, mark) then Some(p)
    else if p == |s| then None
    else FindLabel(s, mark, p + 1)
  }

  /** The search finds the label exactly when the text includes it with a colon. */
  lemma FindLabelIff(s: string, mark: string)
    ensures FindLabel(s, mark, 0).Some? <==> Includes(s, mark)
  {
  }

  /** `\s*`: the end of the run of white space starting at `p`. */
  function SkipWhite(s: string, p: nat): (q: nat)
    requires p <= |s|
    ensures p <= q <= |s|
    ensures forall k :: p <= k < q ==> IsWhite(s[k])
    ensures q == |s| || !IsWhite(s[q])
    decreases |s| - p
  {
    if p < |s| && IsWhite(s[p]) then SkipWhite(s, p + 1) else p
  }

  /**
   * The `replace` of the label, a colon and `\s*` by nothing, then `trim`:
   * the first label with its colon and the white space after them is cut,
   * and the rest is trimmed.
   */
  function Credit(text: string, mark: string): string {
    match FindLabel(text, mark, 0)
    case None => Trim(text)
    case Some(p) => CreditAt(text, mark, p)
  }

  /** The credit when the label found first stands at `p`. */
  function CreditAt(text: string, mark: string, p: nat): string
    requires p + |mark| + 1 <= |text|
  {
    Trim(text[..p] + text[SkipWhite(text, p + |mark| + 1)..])
  }

  /** White space in front does not change what `trim` gives. */
  lemma {:induction false} TrimAfterWhite(s: string, n: nat, q: nat)
    requires n <= q <= |s| && forall k :: n <= k < q ==> IsWhite(s[k])
    ensures Trim(s[q..]) == Trim(s[n..])
    decreases q - n
  {
    if n < q {
      TrimAfterWhite(s, n + 1, q);
      TrimDropsWhite(s[n..]);
      assert s[n..][1..] == s[n + 1..];
    }
  }

  /** The search finds a label that opens the line. */
  lemma LabelOpens(mark: string, colon: char, v: string)
    requires IsColon(colon)
    ensures FindLabel(mark + [colon] + v, mark, 0) == Some(0)
  {
    var s := mark + [colon] + v;
    assert s[..|mark|] == mark;
  }

  /** A line that starts with a label and a colon reads as the trimmed text after the colon. */
  lemma CreditOfLabelledLine(mark: string, colon: char, v: string)
    requires IsColon(colon)
    ensures Credit(mark + [colon] + v, mark) == Trim(v)
  {
    var s := mark + [colon] + v;
    var n := |mark| + 1;
    LabelOpens(mark, colon, v);
    assert Credit(s, mark) == CreditAt(s, mark, 0);
    TrimAfterWhite(s, n, SkipWhite(s, n));
    assert s[n..] == v;
    assert s[..0] + s[SkipWhite(s, n)..] == s[SkipWhite(s, n)..];
  }

  /** The search from `p` reports the first label at or after `p`. */
  lemma {:induction false} FindLabelFirst(s: string, mark: string, p: nat, t: nat)
    requires p <= t && LabelAt(s, t, mark)
    requires forall q :: p <= q < t ==> !LabelAt(s, q, mark)
    ensures FindLabel(s, mark, p) == Some(t)
    decreases t - p
  {
    if p < t {
      FindLabelFirst(s, mark, p + 1, t);
    }
  }

  /** Skipping white space in a suffix is skipping it in the whole text. */
  lemma SkipWhiteShift(s: string, n: nat, v: string)
    requires n <= |s| && s[n..] == v
    ensures SkipWhite(s, n) == n + SkipWhite(v, 0)
  {
    assert forall i :: 0 <= i < |v| ==> s[n + i] == v[i];
  }

  /** The credit once the label at `p` and the white space up to `q` are cut. */
  lemma CutAt(text: string, mark: string, p: nat, q: nat, rest: string)
    requires p + |mark| + 1 <= |text| && SkipWhite(text, p + |mark| + 1) == q
    requires rest == text[..p] + text[q..]
    ensures CreditAt(text, mark, p) == Trim(rest)
  {
  }

  /**
   * A label in the middle of a line: `replace` cuts only the label, its
   * colon and the white space after them, so the text in front of the label
   * stays, and the whole is trimmed.
   */
  lemma CreditAfterPrefix(pre: string, mark: string, colon: char, v: string)
    requires IsColon(colon)
    requires forall q :: 0 <= q < |pre| ==> !LabelAt(pre + mark + [colon] + v, q, mark)
    ensures Credit(pre + mark + [colon] + v, mark) == Trim(pre + v[SkipWhite(v, 0)..])
  {
    var s := pre + mark + [colon] + v;
    var m := |pre|;
    var n := m + |mark| + 1;
    assert LabelAt(s, m, mark) by {
      assert s[m..m + |mark|] == mark;
      assert s[m + |mark|] == colon;
    }
    FindLabelFirst(s, mark, 0, m);
    assert s[n..] == v;
    SkipWhiteShift(s, n, v);
    var k := SkipWhite(v, 0);
    assert s[..m] + s[n + k..] == pre + v[k..] by {
      assert s[..m] == pre;
      assert s[n + k..] == v[k..];
    }
    CutAt(s, mark, m, n + k, pre + v[k..]);
  }

  datatype Metadata = Metadata(lyricist: string, composer: string)

  function Get(m: Metadata, role: Role): string {
    match role
    case Lyricist => m.lyricist
    case Composer => m.composer
  }

  /** The text carries the label and a colon somewhere. */
  predicate Labelled(text: string, mark: string) {
    FindLabel(text, mark, 0).Some?
  }

  /** What one entry does to one credit: a labelled text overwrites it. */
  function Update(m: Metadata, role: Role, text: string): (r: Metadata)
    ensures Get(r, if role.Lyricist? then Composer else Lyricist) == Get(m, if role.Lyricist? then Composer else Lyricist)
  {
    if !Labelled(text, Label(role)) then m
    else
      match role
      case Lyricist => m.(lyricist := Credit(text, Label(role)))
      case Composer => m.(composer := Credit(text, Label(role)))
  }

  /** The body of the `forEach`. */
  function Absorb(m: Metadata, text: string): Metadata {
    Update(Update(m, Lyricist, text), Composer, text)
  }

  /** The credits after the given entries, in order. */
  function Scan(entries: seq<Lyric>): Metadata {
    if entries == [] then Metadata("", "")
    else Absorb(Scan(entries[..|entries| - 1]), entries[|entries| - 1].text)
  }

  /** The number of entries looked at: `lyrics.slice(0, 5)`. */
  const Examined: nat := 5

  function Min(a: nat, b: nat): nat {
    if a <= b then a else b
  }

  /** `extractMetadataFromLyrics`. */
  function MetadataOf(lyrics: seq<Lyric>): Metadata {
    if |lyrics| > 0 then Scan(lyrics[..Min(Examined, |lyrics|)]) else Metadata("", "")
  }

  /** The position of the last entry carrying the label, searching back from the end. */
  function LastLabelled(entries: seq<Lyric>, mark: string): (r: Option<nat>)
    ensures r.Some? ==> r.value < |entries|
  {
    if entries == [] then None
    else if Labelled(entries[|entries| - 1].text, mark) then Some(|entries| - 1)
    else LastLabelled(entries[..|entries| - 1], mark)
  }

  /** The search finds a labelled entry with none after it, and finds none only when no entry is labelled. */
  lemma {:induction false} LastLabelledSpec(entries: seq<Lyric>, mark: string)
    ensures var r := LastLabelled(entries, mark);
      && (r.Some? ==> Labelled(entries[r.value].text, mark))
      && (r.Some? ==> forall j :: r.value < j < |entries| ==> !Labelled(entries[j].text, mark))
      && (r.None? <==> forall j :: 0 <= j < |entries| ==> !Labelled(entries[j].text, mark))
  {
    if entries != [] && !Labelled(entries[|entries| - 1].text, mark) {
      var init := entries[..|entries| - 1];
      LastLabelledSpec(init, mark);
      assert forall j :: 0 <= j < |init| ==> init[j] == entries[j];
    }
  }

  /** Each credit after one entry: its own credit if it is labelled, the earlier one otherwise. */
  lemma AbsorbGet(m: Metadata, text: string, role: Role)
    ensures Labelled(text, Label(role)) ==> Get(Absorb(m, text), role) == Credit(text, Label(role))
    ensures !Labelled(text, Label(role)) ==> Get(Absorb(m, text), role) == Get(m, role)
  {
  }

  /** Each credit comes from the last entry labelled for it, and is empty when no entry is. */
  lemma {:induction false} LastLabelWins(entries: seq<Lyric>, role: Role)
    ensures LastLabelled(entries, Label(role)).None? ==> Get(Scan(entries), role) == ""
    ensures LastLabelled(entries, Label(role)).Some? ==>
      Get(Scan(entries), role) == Credit(entries[LastLabelled(entries, Label(role)).value].text, Label(role))
  {
    if entries != [] {
      var init := entries[..|entries| - 1];
      var last := entries[|entries| - 1];
      AbsorbGet(Scan(init), last.text, role);
      if !Labelled(last.text, Label(role)) {
        LastLabelWins(init, role);
      }
    }
  }

  /** Only the first five entries count. */
  lemma FirstFiveOnly(lyrics: seq<Lyric>)
    requires |lyrics| >= Examined
    ensures MetadataOf(lyrics) == MetadataOf(lyrics[..Examined])
  {
    assert lyrics[..Examined][..Examined] == lyrics[..Examined];
  }

  /** The body of the `forEach` as written: each labelled credit overwrites the earlier one. */
  method AbsorbEntry(metadataInfo: Metadata, text: string) returns (r: Metadata)
    ensures r == Absorb(metadataInfo, text)
  {
    r := metadataInfo;
    if Labelled(text, Label(Lyricist)) {
      r := r.(lyricist := Credit(text, Label(Lyricist)));
    }
    if Labelled(text, Label(Composer)) {
      r := r.(composer := Credit(text, Label(Composer)));
    }
  }

  // ---------------------------------------------------------------- the controller

  class LyricsController {
    var lyrics: seq<Lyric>
    var currentLyric: string
    var isLyricsLoaded: bool
    var lyricsPath: string

    /** The hook's initial state. */
    constructor ()
      ensures lyrics == [] && currentLyric == "" && !isLyricsLoaded
      ensures lyricsPath == "/music/Like You.lrc"
    {
      lyrics := [];
      currentLyric := "";
      isLyricsLoaded := false;
      lyricsPath := "/music/Like You.lrc";
    }

    /**
     * The decision `loadLyricsFile` takes on what was fetched: the parsed
     * text, or no lyrics when the request failed; loaded either way.
     */
    method LoadLyricsFile(path: string, fetched: Option<string>)
      modifies this
      ensures lyricsPath == path && isLyricsLoaded && currentLyric == old(currentLyric)
      ensures fetched.Some? ==> lyrics == ParseLrc(fetched.value)
      ensures fetched.None? ==> lyrics == []
    {
      isLyricsLoaded := false;
      lyricsPath := path;
      if fetched.Some? {
        var parsedLyrics := ParseLrcLines(fetched.value);
        lyrics := parsedLyrics;
        isLyricsLoaded := true;
      } else {
        lyrics := [];
        isLyricsLoaded := true;
      }
    }

    /** `updateCurrentLyric`: the first lyric covering the time, or nothing. */
    method UpdateCurrentLyric(currentTime: real)
      modifies this
      ensures lyrics == old(lyrics) && isLyricsLoaded == old(isLyricsLoaded) && lyricsPath == old(lyricsPath)
      ensures currentLyric == Shown(lyrics, currentTime)
    {
      var currentLyricItem := FirstCovering(lyrics, currentTime);
      if currentLyricItem.Some? {
        currentLyric := lyrics[currentLyricItem.value].text;
      } else {
        currentLyric := "";
      }
    }

    /** `extractMetadataFromLyrics`, as its loop runs. */
    method ExtractMetadataFromLyrics() returns (metadataInfo: Metadata)
      ensures metadataInfo == MetadataOf(lyrics)
    {
      if |lyrics| > 0 {
        metadataInfo := Metadata("", "");
        var lyricInfo := lyrics[..Min(Examined, |lyrics|)];
        for k := 0 to |lyricInfo|
          invariant metadataInfo == Scan(lyricInfo[..k])
        {
          assert lyricInfo[..k + 1][..k] == lyricInfo[..k];
          metadataInfo := AbsorbEntry(metadataInfo, lyricInfo[k].text);
        }
        assert lyricInfo[..|lyricInfo|] == lyricInfo;
        return;
      }
      return Metadata("", "");
    }
  }
}
