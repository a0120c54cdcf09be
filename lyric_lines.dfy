/** The line handling every exporter of `src/lib/lyrics.ts` starts with. */
module LyricLines {
  import opened Strings

  /** `lines.filter((line) => line.trim() !== "")`. */
  function KeepNonBlank(lines: seq<string>): (r: seq<string>)
    ensures |r| <= |lines|
    ensures forall i :: 0 <= i < |r| ==> !Blank(r[i])
  {
    if lines == [] then []
    else
      var last := lines[|lines| - 1];
      TrimShape(last);
      KeepNonBlank(lines[..|lines| - 1]) + (if Trim(last) != "" then [last] else [])
  }

  /** The filter keeps every line that is not blank. */
  lemma {:induction false} KeepAllNonBlank(lines: seq<string>)
    requires forall i :: 0 <= i < |lines| ==> !Blank(lines[i])
    ensures KeepNonBlank(lines) == lines
  {
    if lines != [] {
      var init, last := lines[..|lines| - 1], lines[|lines| - 1];
      KeepAllNonBlank(init);
      TrimShape(last);
      Snoc(lines);
      KeepSnoc(init, last);
    }
  }

  /** One more line is kept after the others exactly when it is not blank once trimmed. */
  lemma KeepSnoc(pre: seq<string>, x: string)
    ensures KeepNonBlank(pre + [x]) == KeepNonBlank(pre) + (if Trim(x) != "" then [x] else [])
  {
    assert (pre + [x])[..|pre|] == pre;
  }

  /** Filtering a concatenation filters each part on its own, in order. */
  lemma {:induction false} KeepNonBlankAppend(a: seq<string>, b: seq<string>)
    ensures KeepNonBlank(a + b) == KeepNonBlank(a) + KeepNonBlank(b)
    decreases |b|
  {
    if b == [] {
      assert a + b == a;
    } else {
      var init, last := b[..|b| - 1], b[|b| - 1];
      Snoc(b);
      Assoc(a, init, [last]);
      KeepSnoc(a + init, last);
      KeepSnoc(init, last);
      KeepNonBlankAppend(a, init);
      Assoc(KeepNonBlank(a), KeepNonBlank(init), if Trim(last) != "" then [last] else []);
    }
  }

  /** One line alone is kept exactly when it is not blank. */
  lemma KeepOne(x: string)
    ensures KeepNonBlank([x]) == if Blank(x) then [] else [x]
  {
    assert [x][..0] == [];
    TrimShape(x);
  }

  /**
   * Each line is kept exactly when it is not blank, between what the filter
   * keeps of the lines before it and of the lines after it.
   */
  lemma KeepNonBlankAt(lines: seq<string>, i: nat)
    requires i < |lines|
    ensures KeepNonBlank(lines)
      == KeepNonBlank(lines[..i]) + (if Blank(lines[i]) then [] else [lines[i]]) + KeepNonBlank(lines[i + 1..])
  {
    var pre, x, post := lines[..i], lines[i], lines[i + 1..];
    Around(lines, i);
    KeepNonBlankAppend(pre + [x], post);
    KeepNonBlankAppend(pre, [x]);
    KeepOne(x);
  }

  /** The number of lines the filter keeps before index `i`: where line `i` lands when it is kept. */
  function KeptBefore(lines: seq<string>, i: nat): nat
    requires i <= |lines|
  {
    |KeepNonBlank(lines[..i])|
  }

  /**
   * A non-blank line is kept, at the place KeptBefore gives; a later line
   * lands strictly after it, so the kept lines keep their input order.
   */
  lemma KeptPlace(lines: seq<string>, i: nat)
    requires i < |lines| && !Blank(lines[i])
    ensures KeptBefore(lines, i) < |KeepNonBlank(lines)|
    ensures KeepNonBlank(lines)[KeptBefore(lines, i)] == lines[i]
    ensures forall k :: i < k <= |lines| ==> KeptBefore(lines, i) < KeptBefore(lines, k)
  {
    KeepNonBlankAt(lines, i);
    forall k | i < k <= |lines|
      ensures KeptBefore(lines, i) < KeptBefore(lines, k)
    {
      KeepNonBlankAt(lines[..k], i);
      assert lines[..k][..i] == lines[..i];
    }
  }

  /** `lyrics.split("\n").filter((line) => line.trim() !== "")`. */
  function NonBlankLines(lyrics: string): (r: seq<string>)
    ensures forall i :: 0 <= i < |r| ==> !Blank(r[i])
  {
    KeepNonBlank(Split(lyrics, '\n'))
  }
}
