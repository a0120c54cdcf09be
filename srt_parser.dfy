/**
 * `parseSRT` of `src/lib/srt-parser.ts`: a SubRip document is split into
 * blocks at blank lines, each block into lines; the second line must carry
 * `HH:MM:SS,mmm --> HH:MM:SS,mmm`, and the lines after it are the text.
 * Times are whole milliseconds here.
 */
module SrtParser {
  import opened Wrappers
  import opened Strings
  import opened TimeTags

  /** One parsed cue, times in milliseconds. */
  datatype Subtitle = Subtitle(start: nat, end: nat, text: string)

  /** `(\d{2}):(\d{2}):(\d{2}),(\d{3})`. */
  const Clock: seq<Atom> :=
    [Digit, Digit, Lit(':'), Digit, Digit, Lit(':'), Digit, Digit, Lit(','), Digit, Digit, Digit]

  /** The timing line: a clock, ` --> `, a clock. */
  const Timing: seq<Atom> := Clock + [Lit(' '), Lit('-'), Lit('-'), Lit('>'), Lit(' ')] + Clock

  /** Where the second clock of the timing line starts. */
  const EndOffset: nat := 17

  /** `h * 3600000 + m * 60000 + s * 1000 + ms` for the clock matched at `p`. */
  function ClockValue(s: string, p: nat): nat
    requires MatchesAt(s, p, Clock)
  {
    DigitsAt(s, p, Clock, 0, 2);
    DigitsAt(s, p, Clock, 3, 5);
    DigitsAt(s, p, Clock, 6, 8);
    DigitsAt(s, p, Clock, 9, 12);
    Value(s[p..p + 2]) * 3600000 + Value(s[p + 3..p + 5]) * 60000
      + Value(s[p + 6..p + 8]) * 1000 + Value(s[p + 9..p + 12])
  }

  /** Both clocks of a matched timing line are clocks. */
  lemma TimingClocks(s: string, p: nat)
    requires MatchesAt(s, p, Timing)
    ensures MatchesAt(s, p, Clock) && MatchesAt(s, p + EndOffset, Clock)
  {
    forall i | 0 <= i < |Clock| ensures Fits(Clock[i], s[p + i]) && Fits(Clock[i], s[p + EndOffset + i]) {
      assert Timing[i] == Clock[i];
      assert Timing[EndOffset + i] == Clock[i];
    }
  }

  /** What one block turns into: the call fails without a second line, is dropped without a timing, or yields a cue. */
  datatype BlockResult = Missing | Unmatched | Parsed(sub: Subtitle)

  /** The `map` callback of `parseSRT`. */
  function ParseBlock(block: string): (r: BlockResult)
    ensures r.Missing? <==> |SplitBy(LineBreak, block)| < 2
    ensures r.Unmatched? <==> |SplitBy(LineBreak, block)| >= 2 && Search(SplitBy(LineBreak, block)[1], Timing, 0).None?
  {
    var lines := SplitBy(LineBreak, block);
    if |lines| < 2 then Missing
    else
      var line := lines[1];
      match Search(line, Timing, 0)
      case None => Unmatched
      case Some(p) =>
        TimingClocks(line, p);
        Parsed(Subtitle(ClockValue(line, p), ClockValue(line, p + EndOffset), Join(lines[2..], " ")))
  }

  /**
   * A cue is read from the leftmost timing on the block's second line: its
   * start and end are the two clocks there, and its text is the lines after
   * the second joined by single spaces (the first line is never looked at).
   */
  lemma ParsedFields(block: string)
    requires ParseBlock(block).Parsed?
    ensures var lines := SplitBy(LineBreak, block);
      var sub := ParseBlock(block).sub;
      && |lines| >= 2
      && exists p: nat ::
        && MatchesAt(lines[1], p, Timing)
        && (forall q :: 0 <= q < p ==> !MatchesAt(lines[1], q, Timing))
        && MatchesAt(lines[1], p, Clock) && MatchesAt(lines[1], p + EndOffset, Clock)
        && sub.start == ClockValue(lines[1], p)
        && sub.end == ClockValue(lines[1], p + EndOffset)
        && sub.text == Join(lines[2..], " ")
  {
    var lines := SplitBy(LineBreak, block);
    var p := Search(lines[1], Timing, 0).value;
    SearchLeftmost(lines[1], Timing, 0);
    TimingClocks(lines[1], p);
  }

  /** The cues of the blocks in order, or `None` when some block has no second line. */
  function Collect(blocks: seq<string>): (r: Option<seq<Subtitle>>)
    ensures r.Some? ==> |r.value| <= |blocks|
  {
    if blocks == [] then Some([])
    else
      match Collect(blocks[..|blocks| - 1])
      case None => None
      case Some(subs) =>
        match ParseBlock(blocks[|blocks| - 1])
        case Missing => None
        case Unmatched => Some(subs)
        case Parsed(sub) => Some(subs + [sub])
  }

  /** The blocks `parseSRT` works on. */
  function Blocks(content: string): seq<string> {
    SplitBy(BlankLine, Trim(content))
  }

  /** `parseSRT`: `None` stands for the exception a block without a second line raises. */
  function ParseSrt(content: string): Option<seq<Subtitle>> {
    Collect(Blocks(content))
  }

  /** The cues that the blocks which parse would give, in block order. */
  function Kept(blocks: seq<string>): seq<Subtitle> {
    if blocks == [] then []
    else
      Kept(blocks[..|blocks| - 1])
        + match ParseBlock(blocks[|blocks| - 1]) case Parsed(sub) => [sub] case _ => []
  }

  /**
   * The parse fails exactly when some block has no second line; otherwise it
   * keeps, in block order, the cue of every block whose second line holds a
   * timing, and drops the others.
   */
  lemma CollectOutcome(blocks: seq<string>)
    ensures Collect(blocks).None? <==> exists i :: 0 <= i < |blocks| && ParseBlock(blocks[i]).Missing?
    ensures Collect(blocks).Some? ==> Collect(blocks).value == Kept(blocks)
  {
    CollectFails(blocks);
    CollectKept(blocks);
  }

  /** The parse fails exactly when some block has no second line. */
  lemma {:induction false} CollectFails(blocks: seq<string>)
    ensures Collect(blocks).None? <==> exists i :: 0 <= i < |blocks| && ParseBlock(blocks[i]).Missing?
  {
    if blocks != [] {
      var init := blocks[..|blocks| - 1];
      CollectFails(init);
      if Collect(init).None? {
        var i :| 0 <= i < |init| && ParseBlock(init[i]).Missing?;
        assert blocks[i] == init[i];
      } else if !ParseBlock(blocks[|blocks| - 1]).Missing? {
        forall i | 0 <= i < |blocks| - 1 ensures blocks[i] == init[i] { }
      }
    }
  }

  /** When the parse succeeds it holds the cues of the blocks with a timing. */
  lemma {:induction false} CollectKept(blocks: seq<string>)
    ensures Collect(blocks).Some? ==> Collect(blocks).value == Kept(blocks)
  {
    if blocks != [] {
      CollectKept(blocks[..|blocks| - 1]);
    }
  }

  /** Each kept cue comes from a block with a timing; untimed blocks contribute nothing. */
  lemma {:induction false} KeptCount(blocks: seq<string>)
    ensures |Kept(blocks)| <= |blocks|
    ensures (forall i :: 0 <= i < |blocks| ==> !ParseBlock(blocks[i]).Parsed?) ==> Kept(blocks) == []
  {
    if blocks != [] {
      KeptCount(blocks[..|blocks| - 1]);
    }
  }

  /** An empty (or blank) document is a single empty block, which has no second line: the call fails. */
  lemma BlankDocumentFails(content: string)
    requires Blank(content)
    ensures ParseSrt(content).None?
  {
    TrimShape(content);
    assert Blocks(content) == [""];
    assert SplitBy(LineBreak, "") == [""];
    assert ParseBlock("").Missing?;
    CollectOutcome([""]);
  }
}
