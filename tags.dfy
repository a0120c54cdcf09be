/**
 * The time-tag regular expressions of the lyrics code, written out as
 * scanners.
 *
 * `\[(\d+):(\d+)\.(\d+)\]` is deterministic: a greedy `\d+` never gains by
 * giving digits back, since the character that must follow it is not a digit.
 * So a match at a position is decided by `TagAt`, and `matchAll`,
 * `replace(/…/g)`, `match` and `test` are left-to-right scans over it.
 * The fixed-width patterns (`\[(\d{2}):(\d{2})\.(\d{2})\]` and the subtitle
 * timing line) are searched with `Search`.
 */
module TimeTags {
  import opened Wrappers
  import opened Strings

  /** A time tag `[minutes:seconds.fraction]`; each group is a run of digits. */
  datatype Tag = Tag(minutes: string, seconds: string, fraction: string) {

    /** The exact text of the tag (`match[0]`). */
    function Text(): string {
      "[" + minutes + ":" + seconds + "." + fraction + "]"
    }

    predicate Valid() {
      && |minutes| > 0 && AllDigits(minutes)
      && |seconds| > 0 && AllDigits(seconds)
      && |fraction| > 0 && AllDigits(fraction)
    }
  }

  /** A tag found in a line, occupying `line[start..end]`. */
  datatype TagMatch = TagMatch(start: nat, end: nat, tag: Tag)

  predicate Found(s: string, m: TagMatch) {
    m.start < m.end <= |s| && m.tag.Valid() && s[m.start..m.end] == m.tag.Text()
  }

  /**
   * `min * 60000 + sec * 1000 + frac`, the fraction digits read as an integer:
   * the time unit the exporters use (thousandths of a second when the
   * fraction has three digits).
   */
  function Thousandths(t: Tag): nat
    requires t.Valid()
  {
    Value(t.minutes) * 60000 + Value(t.seconds) * 1000 + Value(t.fraction)
  }

  /** Length of the run of digits that starts at `p`. */
  function DigitRun(s: string, p: nat): (n: nat)
    requires p <= |s|
    ensures p + n <= |s|
    decreases |s| - p
  {
    if p < |s| && IsDigit(s[p]) then 1 + DigitRun(s, p + 1) else 0
  }

  /** The run is all digits, and the character after it (if any) is not one. */
  lemma {:induction false} DigitRunShape(s: string, p: nat)
    requires p <= |s|
    ensures AllDigits(s[p..p + DigitRun(s, p)])
    ensures p + DigitRun(s, p) == |s| || !IsDigit(s[p + DigitRun(s, p)])
    decreases |s| - p
  {
    if p < |s| && IsDigit(s[p]) {
      DigitRunShape(s, p + 1);
      assert s[p..p + DigitRun(s, p)] == [s[p]] + s[p + 1..p + 1 + DigitRun(s, p + 1)];
    }
  }

  lemma {:induction false} DigitRunExact(s: string, p: nat, n: nat)
    requires p + n < |s| && AllDigits(s[p..p + n]) && !IsDigit(s[p + n])
    ensures DigitRun(s, p) == n
    decreases n
  {
    if n > 0 {
      assert IsDigit(s[p..p + n][0]);
      assert s[p + 1..p + n] == s[p..p + n][1..];
      DigitRunExact(s, p + 1, n - 1);
    }
  }

  /**
   * A group `(\d+)` at `q` followed by the character `close`: the position of
   * `close`, when the run of digits is not empty and `close` comes right after it.
   */
  function Group(s: string, q: nat, close: char): (r: Option<nat>)
    requires q <= |s|
    ensures r.Some? ==> q < r.value < |s| && s[r.value] == close && AllDigits(s[q..r.value])
  {
    var n := DigitRun(s, q);
    if n > 0 && q + n < |s| && s[q + n] == close then
      DigitRunShape(s, q);
      Some(q + n)
    else None
  }

  /** A non-empty run of digits closed by a non-digit is the group found there. */
  lemma GroupExact(s: string, q: nat, n: nat, close: char)
    requires n > 0 && q + n < |s| && AllDigits(s[q..q + n]) && s[q + n] == close && !IsDigit(close)
    ensures Group(s, q, close) == Some(q + n)
  {
    DigitRunExact(s, q, n);
  }

  /** The match of `\[(\d+):(\d+)\.(\d+)\]` that starts exactly at `p`, if any. */
  function TagAt(s: string, p: nat): (r: Option<TagMatch>)
    ensures r.Some? ==> r.value.start == p < r.value.end <= |s|
  {
    if p < |s| && s[p] == '[' then
      match Group(s, p + 1, ':')
      case None => None
      case Some(i) =>
        match Group(s, i + 1, '.')
        case None => None
        case Some(j) =>
          match Group(s, j + 1, ']')
          case None => None
          case Some(k) => Some(TagMatch(p, k + 1, Tag(s[p + 1..i], s[i + 1..j], s[j + 1..k])))
    else None
  }

  /** Three groups in a row after a `[` make the tag `TagAt` reports. */
  lemma TagAtGroups(s: string, p: nat, i: nat, j: nat, k: nat)
    requires p + 1 <= |s| && s[p] == '['
    requires Group(s, p + 1, ':') == Some(i) && Group(s, i + 1, '.') == Some(j) && Group(s, j + 1, ']') == Some(k)
    ensures TagAt(s, p) == Some(TagMatch(p, k + 1, Tag(s[p + 1..i], s[i + 1..j], s[j + 1..k])))
  {
  }

  /** What `TagAt` reports is a valid tag whose text stands where it says. */
  lemma TagAtSound(s: string, p: nat)
    requires TagAt(s, p).Some?
    ensures Found(s, TagAt(s, p).value)
  {
    var i := Group(s, p + 1, ':').value;
    var j := Group(s, i + 1, '.').value;
    var k := Group(s, j + 1, ']').value;
    FoundParts(s, p, i, j, k);
  }

  /** Brackets and punctuation around three runs of digits make a tag found at `p`. */
  lemma FoundParts(s: string, p: nat, i: nat, j: nat, k: nat)
    requires p + 1 < i && i + 1 < j && j + 1 < k < |s|
    requires s[p] == '[' && s[i] == ':' && s[j] == '.' && s[k] == ']'
    requires AllDigits(s[p + 1..i]) && AllDigits(s[i + 1..j]) && AllDigits(s[j + 1..k])
    ensures Found(s, TagMatch(p, k + 1, Tag(s[p + 1..i], s[i + 1..j], s[j + 1..k])))
  {
    Bracketed(s, p, i, j, k);
  }

  lemma Bracketed(s: string, p: nat, i: nat, j: nat, k: nat)
    requires p < i < j < k < |s|
    requires s[p] == '[' && s[i] == ':' && s[j] == '.' && s[k] == ']'
    ensures s[p..k + 1] == Tag(s[p + 1..i], s[i + 1..j], s[j + 1..k]).Text()
  {
    assert s[p..k + 1] == s[p..i] + s[i..j] + s[j..k] + s[k..k + 1];
    assert s[p..i] == "[" + s[p + 1..i];
    assert s[i..j] == ":" + s[i + 1..j];
    assert s[j..k] == "." + s[j + 1..k];
  }

  /** Where the groups and punctuation of a tag stand in its text. */
  lemma TextLayout(t: Tag)
    ensures |t.Text()| == 4 + |t.minutes| + |t.seconds| + |t.fraction|
    ensures t.Text()[0] == '[' && t.Text()[1 + |t.minutes|] == ':'
    ensures t.Text()[2 + |t.minutes| + |t.seconds|] == '.'
    ensures t.Text()[3 + |t.minutes| + |t.seconds| + |t.fraction|] == ']'
    ensures t.Text()[1..1 + |t.minutes|] == t.minutes
    ensures t.Text()[2 + |t.minutes|..2 + |t.minutes| + |t.seconds|] == t.seconds
    ensures t.Text()[3 + |t.minutes| + |t.seconds|..3 + |t.minutes| + |t.seconds| + |t.fraction|] == t.fraction
  {
    var m, x := |t.minutes|, |t.seconds|;
    var A := "[" + t.minutes;
    var B := A + ":" + t.seconds;
    var C := B + "." + t.fraction;
    assert t.Text() == C + "]";
    assert C[..|B| + 1] == B + ".";
    assert B[..|A| + 1] == A + ":";
  }

  /** The text of a tag standing at `p`, character by character. */
  lemma TextAt(s: string, p: nat, t: Tag)
    requires p + |t.Text()| <= |s| && s[p..p + |t.Text()|] == t.Text()
    ensures var m, x, f := |t.minutes|, |t.seconds|, |t.fraction|;
      && |t.Text()| == 4 + m + x + f
      && s[p] == '[' && s[p + 1 + m] == ':' && s[p + 2 + m + x] == '.' && s[p + 3 + m + x + f] == ']'
      && s[p + 1..p + 1 + m] == t.minutes
      && s[p + 2 + m..p + 2 + m + x] == t.seconds
      && s[p + 3 + m + x..p + 3 + m + x + f] == t.fraction
  {
    var m, x, f := |t.minutes|, |t.seconds|, |t.fraction|;
    var T := t.Text();
    TextLayout(t);
    Within(s, p, T, 1, 1 + m);
    Within(s, p, T, 2 + m, 2 + m + x);
    Within(s, p, T, 3 + m + x, 3 + m + x + f);
    assert s[p..p + |T|][0] == s[p];
    assert s[p..p + |T|][1 + m] == s[p + 1 + m];
    assert s[p..p + |T|][2 + m + x] == s[p + 2 + m + x];
    assert s[p..p + |T|][3 + m + x + f] == s[p + 3 + m + x + f];
  }

  /** A valid tag laid out character by character at `p` is what `TagAt` reports there. */
  lemma TagAtLaidOut(s: string, p: nat, t: Tag)
    requires t.Valid()
    requires var m, x, f := |t.minutes|, |t.seconds|, |t.fraction|;
      && p + 4 + m + x + f <= |s|
      && s[p] == '[' && s[p + 1 + m] == ':' && s[p + 2 + m + x] == '.' && s[p + 3 + m + x + f] == ']'
      && s[p + 1..p + 1 + m] == t.minutes
      && s[p + 2 + m..p + 2 + m + x] == t.seconds
      && s[p + 3 + m + x..p + 3 + m + x + f] == t.fraction
    ensures TagAt(s, p) == Some(TagMatch(p, p + 4 + |t.minutes| + |t.seconds| + |t.fraction|, t))
  {
    var m, x, f := |t.minutes|, |t.seconds|, |t.fraction|;
    var i, j, k := p + 1 + m, p + 2 + m + x, p + 3 + m + x + f;
    assert s[p + 1..i] == t.minutes && s[i + 1..j] == t.seconds && s[j + 1..k] == t.fraction;
    GroupExact(s, p + 1, m, ':');
    GroupExact(s, i + 1, x, '.');
    GroupExact(s, j + 1, f, ']');
    TagAtGroups(s, p, i, j, k);
  }

  /** Wherever the text of a tag stands in a line, `TagAt` finds exactly that tag. */
  lemma TagAtComplete(s: string, p: nat, t: Tag)
    requires t.Valid()
    requires p + |t.Text()| <= |s| && s[p..p + |t.Text()|] == t.Text()
    ensures TagAt(s, p) == Some(TagMatch(p, p + |t.Text()|, t))
  {
    TextAt(s, p, t);
    TagAtLaidOut(s, p, t);
  }

  /**
   * `line.matchAll(/\[(\d+):(\d+)\.(\d+)\]/g)` from position `p`: the leftmost
   * match, then the leftmost one after its end, and so on. The matches lie
   * inside the line, in order, without overlapping.
   */
  function TagsFrom(s: string, p: nat): (r: seq<TagMatch>)
    requires p <= |s|
    ensures forall i :: 0 <= i < |r| ==> p <= r[i].start < r[i].end <= |s|
    ensures forall i :: 0 <= i < |r| - 1 ==> r[i].end <= r[i + 1].start
    decreases |s| - p
  {
    if p == |s| then []
    else
      match TagAt(s, p)
      case Some(m) => [m] + TagsFrom(s, m.end)
      case None => TagsFrom(s, p + 1)
  }

  /** Every match the scan reports is the tag that starts at its position. */
  lemma {:induction false} TagsFromAt(s: string, p: nat, i: nat)
    requires p <= |s| && i < |TagsFrom(s, p)|
    ensures TagAt(s, TagsFrom(s, p)[i].start) == Some(TagsFrom(s, p)[i])
    decreases |s| - p
  {
    match TagAt(s, p)
    case Some(m) =>
      if i > 0 {
        TagsFromAt(s, m.end, i - 1);
      }
    case None =>
      TagsFromAt(s, p + 1, i);
  }

  /** No tag starts before the first match (anywhere, when there is none). */
  lemma {:induction false} TagsFromFirst(s: string, p: nat, q: nat)
    requires p <= q < |s|
    requires TagsFrom(s, p) == [] || q < TagsFrom(s, p)[0].start
    ensures TagAt(s, q).None?
    decreases |s| - p
  {
    if q > p {
      match TagAt(s, p)
      case Some(m) =>
      case None =>
          TagsFromFirst(s, p + 1, q);
    }
  }

  /** Between two consecutive matches, and after the last one, no tag starts. */
  lemma {:induction false} TagsFromGap(s: string, p: nat, i: nat, q: nat)
    requires p <= |s|
    requires i < |TagsFrom(s, p)| && TagsFrom(s, p)[i].end <= q < |s|
    requires i == |TagsFrom(s, p)| - 1 || q < TagsFrom(s, p)[i + 1].start
    ensures TagAt(s, q).None?
    decreases |s| - p
  {
    match TagAt(s, p)
    case Some(m) =>
      if i > 0 {
        TagsFromGap(s, m.end, i - 1, q);
      } else {
        TagsFromFirst(s, m.end, q);
      }
    case None =>
      TagsFromGap(s, p + 1, i, q);
  }

  /** Every match the scan reports is a valid tag whose text stands where the match says. */
  lemma TagsFromFound(s: string, p: nat)
    requires p <= |s|
    ensures forall i :: 0 <= i < |TagsFrom(s, p)| ==> Found(s, TagsFrom(s, p)[i])
  {
    forall i | 0 <= i < |TagsFrom(s, p)| ensures Found(s, TagsFrom(s, p)[i]) {
      TagsFromAt(s, p, i);
      TagAtSound(s, TagsFrom(s, p)[i].start);
    }
  }

  /** Every match the scan reports is a valid tag. */
  lemma TagsFromValid(s: string, p: nat)
    requires p <= |s|
    ensures forall i :: 0 <= i < |TagsFrom(s, p)| ==> TagsFrom(s, p)[i].tag.Valid()
  {
    TagsFromFound(s, p);
  }

  /** All tags of a line, in order. */
  function Tags(line: string): seq<TagMatch> {
    TagsFrom(line, 0)
  }

  /** `/\[\d+:\d+\.\d+\]/.test(line)`. */
  predicate HasTag(line: string) {
    Tags(line) != []
  }

  /** A line has a tag exactly when a tag starts at one of its positions. */
  lemma HasTagIff(line: string)
    ensures HasTag(line) <==> exists q :: 0 <= q < |line| && TagAt(line, q).Some?
  {
    if HasTag(line) {
      TagsFromAt(line, 0, 0);
      var q := Tags(line)[0].start;
      assert TagAt(line, q).Some?;
    } else {
      forall q | 0 <= q < |line| ensures TagAt(line, q).None? {
        TagsFromFirst(line, 0, q);
      }
    }
  }

  /** `line.substring(lastMatch.index + lastMatch[0].length).trim()`: the text after the last tag. */
  function AfterLastTag(line: string): string
    requires HasTag(line)
  {
    Trim(line[Tags(line)[|Tags(line)| - 1].end..])
  }

  /** `line.match(/\[(\d+):(\d+)\.(\d+)\](.*)/)`: the leftmost tag. */
  function FirstTag(line: string): Option<TagMatch> {
    var ms := Tags(line);
    if ms == [] then None else Some(ms[0])
  }

  /** What `(.*)` captures from `p`: everything up to the first line terminator. */
  function RestOfLine(s: string, p: nat): (r: string)
    requires p <= |s|
    ensures p + |r| <= |s| && r == s[p..p + |r|]
    ensures forall i :: 0 <= i < |r| ==> !IsLineTerminator(r[i])
    ensures p + |r| == |s| || IsLineTerminator(s[p + |r|])
    decreases |s| - p
  {
    if p == |s| || IsLineTerminator(s[p]) then "" else [s[p]] + RestOfLine(s, p + 1)
  }

  // ---------------------------------------------------------------- replace(/…/g, "")

  /** `line.replace(/\[\d+:\d+\.\d+\]/g, "")` applied to `line[p..]`. */
  function StripFrom(s: string, p: nat): string
    requires p <= |s|
    decreases |s| - p
  {
    if p == |s| then ""
    else
      match TagAt(s, p)
      case Some(m) => StripFrom(s, m.end)
      case None => [s[p]] + StripFrom(s, p + 1)
  }

  function StripTags(line: string): string {
    StripFrom(line, 0)
  }

  predicate Ordered(s: string, ms: seq<TagMatch>, p: nat) {
    && (ms != [] ==> p <= ms[0].start)
    && (forall i :: 0 <= i < |ms| ==> ms[i].start < ms[i].end <= |s|)
    && (forall i :: 0 <= i < |ms| - 1 ==> ms[i].end <= ms[i + 1].start)
  }

  /** The text of `s[p..]` between the given matches: what is left once they are cut out. */
  function Gaps(s: string, ms: seq<TagMatch>, p: nat): string
    requires p <= |s| && Ordered(s, ms, p)
    decreases |ms|
  {
    if ms == [] then s[p..]
    else
      assert Ordered(s, ms[1..], ms[0].end) by {
        assert forall i :: 0 <= i < |ms| - 1 ==> ms[1..][i] == ms[i + 1];
      }
      s[p..ms[0].start] + Gaps(s, ms[1..], ms[0].end)
  }

  /** A character before the first match is kept. */
  lemma GapsSkip(s: string, ms: seq<TagMatch>, p: nat)
    requires p < |s| && Ordered(s, ms, p + 1)
    ensures Ordered(s, ms, p) && Gaps(s, ms, p) == [s[p]] + Gaps(s, ms, p + 1)
  {
    if ms == [] {
      assert s[p..] == [s[p]] + s[p + 1..];
    } else {
      var tail := Gaps(s, ms[1..], ms[0].end);
      assert Gaps(s, ms, p) == s[p..ms[0].start] + tail;
      assert Gaps(s, ms, p + 1) == s[p + 1..ms[0].start] + tail;
      assert s[p..ms[0].start] == [s[p]] + s[p + 1..ms[0].start];
    }
  }

  /** A match that starts right here is cut out whole. */
  lemma GapsDrop(s: string, m: TagMatch, rest: seq<TagMatch>)
    requires m.start <= |s| && Ordered(s, [m] + rest, m.start)
    ensures Ordered(s, rest, m.end) && Gaps(s, [m] + rest, m.start) == Gaps(s, rest, m.end)
  {
    var ms := [m] + rest;
    assert ms[0] == m && ms[1..] == rest;
    forall i | 0 <= i < |rest| ensures rest[i].start < rest[i].end <= |s| {
      assert rest[i] == ms[i + 1];
    }
    forall i | 0 <= i < |rest| - 1 ensures rest[i].end <= rest[i + 1].start {
      assert rest[i] == ms[i + 1] && rest[i + 1] == ms[i + 2];
    }
    if rest != [] {
      assert rest[0] == ms[1];
    }
    assert s[m.start..m.start] == [];
  }

  /** Stripping removes exactly the tags `matchAll` finds, and keeps every other character in order. */
  lemma {:induction false} StripRemovesMatches(s: string, p: nat)
    requires p <= |s|
    ensures StripFrom(s, p) == Gaps(s, TagsFrom(s, p), p)
    decreases |s| - p
  {
    if p < |s| {
      match TagAt(s, p)
      case Some(m) =>
        assert TagsFrom(s, p) == [m] + TagsFrom(s, m.end);
        StripRemovesMatches(s, m.end);
        GapsDrop(s, m, TagsFrom(s, m.end));
      case None =>
        assert TagsFrom(s, p) == TagsFrom(s, p + 1);
        StripRemovesMatches(s, p + 1);
        GapsSkip(s, TagsFrom(s, p + 1), p);
    }
  }

  // ---------------------------------------------------------------- fixed-width patterns

  /** One position of a fixed-width pattern: `\d` or a literal character. */
  datatype Atom = Digit | Lit(c: char)

  predicate Fits(a: Atom, c: char) {
    match a
    case Digit => IsDigit(c)
    case Lit(x) => c == x
  }

  predicate MatchesAt(s: string, p: nat, pat: seq<Atom>) {
    p + |pat| <= |s| && forall i :: 0 <= i < |pat| ==> Fits(pat[i], s[p + i])
  }

  /** The leftmost position at or after `p` where `pat` matches. */
  function Search(s: string, pat: seq<Atom>, p: nat): (r: Option<nat>)
    requires p <= |s|
    ensures r.Some? ==> p <= r.value && MatchesAt(s, r.value, pat)
    decreases |s| - p
  {
    if MatchesAt(s, p, pat) then Some(p)
    else if p == |s| then None
    else Search(s, pat, p + 1)
  }

  /** The search finds the leftmost match, and finds none only when there is none. */
  lemma {:induction false} SearchLeftmost(s: string, pat: seq<Atom>, p: nat)
    requires p <= |s|
    ensures Search(s, pat, p).Some? ==> forall q :: p <= q < Search(s, pat, p).value ==> !MatchesAt(s, q, pat)
    ensures Search(s, pat, p).None? ==> forall q :: p <= q <= |s| ==> !MatchesAt(s, q, pat)
    decreases |s| - p
  {
    if !MatchesAt(s, p, pat) && p < |s| {
      SearchLeftmost(s, pat, p + 1);
    }
  }

  /** The digits of `pat` make digit runs of the matched text. */
  lemma DigitsAt(s: string, p: nat, pat: seq<Atom>, a: nat, b: nat)
    requires MatchesAt(s, p, pat) && a <= b <= |pat|
    requires forall k :: a <= k < b ==> pat[k] == Digit
    ensures AllDigits(s[p + a..p + b])
  {
    var t := s[p + a..p + b];
    forall k | 0 <= k < |t| ensures IsDigit(t[k]) {
      assert Fits(pat[a + k], s[p + a + k]);
    }
  }

  /** `\[(\d{2}):(\d{2})\.(\d{2})\]`. */
  const StrictTag: seq<Atom> :=
    [Lit('['), Digit, Digit, Lit(':'), Digit, Digit, Lit('.'), Digit, Digit, Lit(']')]
}
