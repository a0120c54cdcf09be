/**
 * `formatLrcFile` and `formatLrcFileMerged` of `src/lib/lyrics.ts`: both
 * parse the two tracks into (tag text, line text) records, group the
 * original's records by exact tag text in an insertion-ordered map, attach
 * translations whose tag text is identical, and print one group after the
 * other.
 */
module LrcExport {
  import opened Wrappers
  import opened Strings
  import opened TimeTags
  import opened LyricLines

  /** One `{ timeStr, text }` record of the exporters' line parser. */
  datatype Keyed = Keyed(key: string, text: string)

  /** One record per match, keyed by the tag's text, all carrying `text`. */
  function KeyedTags(ms: seq<TagMatch>, text: string): (r: seq<Keyed>)
    ensures |r| == |ms|
    ensures forall i :: 0 <= i < |ms| ==> r[i] == Keyed(ms[i].tag.Text(), text)
  {
    if ms == [] then [] else KeyedTags(ms[..|ms| - 1], text) + [Keyed(ms[|ms| - 1].tag.Text(), text)]
  }

  /** The records one line contributes: one per tag, all carrying the text after the last tag. */
  function LineKeyed(line: string): seq<Keyed> {
    var ms := Tags(line);
    if ms == [] then [] else KeyedTags(ms, AfterLastTag(line))
  }

  /**
   * A line contributes nothing exactly when it has no tag; otherwise one
   * record per tag, in order.
   */
  lemma LineKeyedCount(line: string)
    ensures LineKeyed(line) == [] <==> !HasTag(line)
    ensures |LineKeyed(line)| == |Tags(line)|
  {
  }

  /**
   * The record of the `i`-th tag is keyed by the exact text of that tag in
   * the line and carries the trimmed text after the line's last tag.
   */
  lemma LineKeyedAt(line: string, i: nat)
    requires i < |Tags(line)|
    ensures Tags(line)[i].end <= |line|
    ensures LineKeyed(line)[i] == Keyed(line[Tags(line)[i].start..Tags(line)[i].end], AfterLastTag(line))
  {
    TagsFromFound(line, 0);
  }

  /** The records of a sequence of lines, line after line. */
  function KeyedOf(lines: seq<string>): seq<Keyed> {
    if lines == [] then [] else KeyedOf(lines[..|lines| - 1]) + LineKeyed(lines[|lines| - 1])
  }

  /** One more line adds its records at the end. */
  lemma KeyedOfSnoc(lines: seq<string>, n: nat)
    requires n < |lines|
    ensures KeyedOf(lines[..n + 1]) == KeyedOf(lines[..n]) + LineKeyed(lines[n])
  {
    assert lines[..n + 1][..n] == lines[..n];
  }

  /** The loop over one line's matches, pushing one record per match. */
  method PushRecords(timeMatches: seq<TagMatch>, text: string) returns (records: seq<Keyed>)
    ensures records == KeyedTags(timeMatches, text)
  {
    records := [];
    for k := 0 to |timeMatches|
      invariant records == KeyedTags(timeMatches[..k], text)
    {
      assert timeMatches[..k + 1][..k] == timeMatches[..k];
      records := records + [Keyed(timeMatches[k].tag.Text(), text)];
    }
    assert timeMatches[..|timeMatches|] == timeMatches;
  }

  /** The records of one line: none without a tag, else one per tag with the text after the last. */
  method LineRecords(line: string) returns (records: seq<Keyed>)
    ensures records == LineKeyed(line)
  {
    var timeMatches := Tags(line);
    if timeMatches == [] {
      return [];
    }
    var text := AfterLastTag(line);
    records := PushRecords(timeMatches, text);
  }

  /** The `parseLines` helper of both LRC exporters. */
  method ParseTagged(lyrics: string) returns (result: seq<Keyed>)
    ensures result == KeyedOf(NonBlankLines(lyrics))
  {
    var lines := NonBlankLines(lyrics);
    result := [];
    for n := 0 to |lines|
      invariant result == KeyedOf(lines[..n])
    {
      KeyedOfSnoc(lines, n);
      var records := LineRecords(lines[n]);
      result := result + records;
    }
    assert lines[..|lines|] == lines;
  }

  // ---------------------------------------------------------------- the time map

  /** An entry of `timeMap`: a tag text with the original and the translated line text. */
  datatype Slot = Slot(key: string, original: string, translated: string)

  /** The position of `key` in the map, if present. */
  function Find(m: seq<Slot>, key: string): (r: Option<nat>)
    ensures r.Some? ==> r.value < |m| && m[r.value].key == key
    ensures r.None? ==> forall j :: 0 <= j < |m| ==> m[j].key != key
  {
    if m == [] then None
    else if m[|m| - 1].key == key then Some(|m| - 1)
    else Find(m[..|m| - 1], key)
  }

  /** `timeMap.set(key, { original: text, translated: "" })`: a known key keeps its position. */
  function Put(m: seq<Slot>, key: string, text: string): seq<Slot> {
    match Find(m, key)
    case Some(i) => m[i := Slot(key, text, "")]
    case None => m + [Slot(key, text, "")]
  }

  /** `if (timeMap.has(key)) timeMap.get(key).translated = text`. */
  function Attach(m: seq<Slot>, key: string, text: string): seq<Slot> {
    match Find(m, key)
    case Some(i) => m[i := m[i].(translated := text)]
    case None => m
  }

  /** The map after `origLines.forEach(... timeMap.set ...)`. */
  function Originals(es: seq<Keyed>): seq<Slot> {
    if es == [] then [] else Put(Originals(es[..|es| - 1]), es[|es| - 1].key, es[|es| - 1].text)
  }

  /** The map after `transLines.forEach(... .translated = ...)`. */
  function Translate(m: seq<Slot>, es: seq<Keyed>): seq<Slot> {
    if es == [] then m else Attach(Translate(m, es[..|es| - 1]), es[|es| - 1].key, es[|es| - 1].text)
  }

  /** Building `timeMap`, shared by both exporters. */
  method BuildTimeMap(origLines: seq<Keyed>, transLines: seq<Keyed>) returns (timeMap: seq<Slot>)
    ensures timeMap == Translate(Originals(origLines), transLines)
  {
    timeMap := [];
    for k := 0 to |origLines|
      invariant timeMap == Originals(origLines[..k])
    {
      assert origLines[..k + 1][..k] == origLines[..k];
      timeMap := Put(timeMap, origLines[k].key, origLines[k].text);
    }
    assert origLines[..|origLines|] == origLines;
    ghost var originals := timeMap;
    for k := 0 to |transLines|
      invariant timeMap == Translate(originals, transLines[..k])
    {
      assert transLines[..k + 1][..k] == transLines[..k];
      if Find(timeMap, transLines[k].key).Some? {
        timeMap := Attach(timeMap, transLines[k].key, transLines[k].text);
      }
    }
    assert transLines[..|transLines|] == transLines;
  }

  // ---------------------------------------------------------------- what the map holds

  function KeysOf(es: seq<Keyed>): seq<string> {
    if es == [] then [] else KeysOf(es[..|es| - 1]) + [es[|es| - 1].key]
  }

  /** Each key once, in the order of its first appearance. */
  function FirstAppearances(ks: seq<string>): seq<string> {
    if ks == [] then []
    else
      var r := FirstAppearances(ks[..|ks| - 1]);
      if ks[|ks| - 1] in r then r else r + [ks[|ks| - 1]]
  }

  /** The text of the last record with key `k`, if any. */
  function LastText(es: seq<Keyed>, k: string): Option<string> {
    if es == [] then None
    else if es[|es| - 1].key == k then Some(es[|es| - 1].text)
    else LastText(es[..|es| - 1], k)
  }

  function SlotKeys(m: seq<Slot>): seq<string> {
    if m == [] then [] else SlotKeys(m[..|m| - 1]) + [m[|m| - 1].key]
  }

  lemma {:induction false} SlotKeysAt(m: seq<Slot>)
    ensures |SlotKeys(m)| == |m|
    ensures forall i :: 0 <= i < |m| ==> SlotKeys(m)[i] == m[i].key
  {
    if m != [] {
      SlotKeysAt(m[..|m| - 1]);
    }
  }

  predicate DistinctKeys(m: seq<Slot>) {
    forall i, j :: 0 <= i < j < |m| ==> m[i].key != m[j].key
  }

  /** The original track's map has one group per distinct tag text. */
  lemma {:induction false} OriginalsDistinct(es: seq<Keyed>)
    ensures DistinctKeys(Originals(es))
  {
    if es != [] {
      var init := es[..|es| - 1];
      var e := es[|es| - 1];
      var m := Originals(init);
      OriginalsDistinct(init);
      match Find(m, e.key)
      case Some(i) =>
        assert Originals(es) == m[i := Slot(e.key, e.text, "")];
      case None =>
        assert Originals(es) == m + [Slot(e.key, e.text, "")];
    }
  }

  /** The groups of the original track's map follow the first appearance of each tag text (no sorting). */
  lemma {:induction false} OriginalsKeys(es: seq<Keyed>)
    ensures SlotKeys(Originals(es)) == FirstAppearances(KeysOf(es))
  {
    if es != [] {
      var init := es[..|es| - 1];
      var e := es[|es| - 1];
      var m := Originals(init);
      OriginalsKeys(init);
      SlotKeysAt(m);
      assert KeysOf(es)[..|KeysOf(es)| - 1] == KeysOf(init);
      var r := Originals(es);
      match Find(m, e.key)
      case Some(i) =>
        assert e.key in SlotKeys(m);
        assert r == m[i := Slot(e.key, e.text, "")];
        SlotKeysAt(r);
        assert SlotKeys(r) == SlotKeys(m);
      case None =>
        assert e.key !in SlotKeys(m);
        assert r == m + [Slot(e.key, e.text, "")];
        assert r[..|r| - 1] == m;
    }
  }

  /**
   * A group of the original track's map holds the text of the last record
   * with its tag, and no translation yet; a tag without records has no group.
   */
  lemma {:induction false} OriginalsTexts(es: seq<Keyed>)
    ensures forall i :: 0 <= i < |Originals(es)| ==>
      && LastText(es, Originals(es)[i].key) == Some(Originals(es)[i].original)
      && Originals(es)[i].translated == ""
    ensures forall k :: LastText(es, k).None? ==> Find(Originals(es), k).None?
  {
    if es != [] {
      var init := es[..|es| - 1];
      var e := es[|es| - 1];
      var m := Originals(init);
      OriginalsTexts(init);
      OriginalsDistinct(init);
      match Find(m, e.key)
      case Some(i) =>
        assert Originals(es) == m[i := Slot(e.key, e.text, "")];
      case None =>
        assert Originals(es) == m + [Slot(e.key, e.text, "")];
    }
  }

  /**
   * A translation attaches only to the group with the identical tag text,
   * and the last translated record with that text wins; keys and originals
   * are untouched.
   */
  lemma {:induction false} TranslateShape(m: seq<Slot>, es: seq<Keyed>)
    requires DistinctKeys(m)
    ensures |Translate(m, es)| == |m|
    ensures forall i :: 0 <= i < |m| ==>
      && Translate(m, es)[i].key == m[i].key
      && Translate(m, es)[i].original == m[i].original
      && Translate(m, es)[i].translated == LastText(es, m[i].key).GetOr(m[i].translated)
  {
    if es != [] {
      var init := es[..|es| - 1];
      TranslateShape(m, init);
      var t := Translate(m, init);
      var e := es[|es| - 1];
      match Find(t, e.key)
      case Some(j) =>
        forall i | 0 <= i < |m| && i != j ensures m[i].key != e.key {
          assert t[j].key == m[j].key;
        }
      case None =>
    }
  }

  // ---------------------------------------------------------------- printing

  /** `timeStr + original`, then `timeStr + translated` when there is a translation. */
  function DualLines(m: seq<Slot>): seq<string> {
    if m == [] then []
    else
      var s := m[|m| - 1];
      DualLines(m[..|m| - 1]) + [s.key + s.original] + (if s.translated != "" then [s.key + s.translated] else [])
  }

  /** One line per group: `timeStr + original + separator + translated`, or without the translation. */
  function MergedLines(m: seq<Slot>, separator: string): (r: seq<string>)
    ensures |r| == |m|
    ensures forall i :: 0 <= i < |m| ==>
      r[i] == if m[i].translated != "" then m[i].key + m[i].original + separator + m[i].translated
              else m[i].key + m[i].original
  {
    if m == [] then []
    else
      var s := m[|m| - 1];
      MergedLines(m[..|m| - 1], separator)
        + [if s.translated != "" then s.key + s.original + separator + s.translated else s.key + s.original]
  }

  /** The printing loop of `formatLrcFile`. */
  method RenderDual(timeMap: seq<Slot>) returns (result: seq<string>)
    ensures result == DualLines(timeMap)
  {
    result := [];
    for k := 0 to |timeMap|
      invariant result == DualLines(timeMap[..k])
    {
      assert timeMap[..k + 1][..k] == timeMap[..k];
      var slot := timeMap[k];
      result := result + [slot.key + slot.original];
      if slot.translated != "" {
        result := result + [slot.key + slot.translated];
      }
    }
    assert timeMap[..|timeMap|] == timeMap;
  }

  /** The printing loop of `formatLrcFileMerged`. */
  method RenderMerged(timeMap: seq<Slot>, separator: string) returns (result: seq<string>)
    ensures result == MergedLines(timeMap, separator)
  {
    result := [];
    for k := 0 to |timeMap|
      invariant result == MergedLines(timeMap[..k], separator)
    {
      assert timeMap[..k + 1][..k] == timeMap[..k];
      var slot := timeMap[k];
      if slot.translated != "" {
        result := result + [slot.key + slot.original + separator + slot.translated];
      } else {
        result := result + [slot.key + slot.original];
      }
    }
    assert timeMap[..|timeMap|] == timeMap;
  }

  /** The map both exporters print. */
  function TimeMapOf(original: string, translated: string): seq<Slot> {
    Translate(Originals(KeyedOf(NonBlankLines(original))), KeyedOf(NonBlankLines(translated)))
  }

  function DualText(original: string, translated: string): string {
    if translated == "" then original else Join(DualLines(TimeMapOf(original, translated)), "\n")
  }

  function MergedText(original: string, translated: string, separator: string): string {
    if translated == "" then original else Join(MergedLines(TimeMapOf(original, translated), separator), "\n")
  }

  /** `formatLrcFile`: dual-line bilingual LRC. */
  method FormatLrcFile(original: string, translated: string) returns (out: string)
    ensures translated == "" ==> out == original
    ensures out == DualText(original, translated)
  {
    if translated == "" {
      return original;
    }
    var origLines := ParseTagged(original);
    var transLines := ParseTagged(translated);
    var timeMap := BuildTimeMap(origLines, transLines);
    var result := RenderDual(timeMap);
    out := Join(result, "\n");
  }

  /** `formatLrcFileMerged`: one line per tag, original and translation joined by `separator`. */
  method FormatLrcFileMerged(original: string, translated: string, separator: string) returns (out: string)
    ensures translated == "" ==> out == original
    ensures out == MergedText(original, translated, separator)
  {
    if translated == "" {
      return original;
    }
    var origLines := ParseTagged(original);
    var transLines := ParseTagged(translated);
    var timeMap := BuildTimeMap(origLines, transLines);
    var result := RenderMerged(timeMap, separator);
    out := Join(result, "\n");
  }
}
