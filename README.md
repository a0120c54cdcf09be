# Lyrics download tool — a verified model of its lyrics core

This project models the lyrics-handling core of a small web app. The app
searches songs, plays them, and offers their lyrics for download. The model
covers five parts of its code:

* **`src/lib/lyrics.ts`**: turning a song's LRC lyrics, and optionally a
  translated LRC track, into downloadable files. It has three outputs:
  * a dual-line bilingual LRC (`formatLrcFile`);
  * a merged `original / translation` LRC (`formatLrcFileMerged`);
  * an SRT subtitle file (`formatSrtFile`).

  It also has four display helpers:
  * `formatLyrics` strips the time tags;
  * `combineDisplayLyrics` pairs each timed line with the nearest
    translated line;
  * `separateCombinedLyrics` splits the combined view back into two tracks;
  * `formatDuration` turns milliseconds into `m:ss`.

  Finally, `downloadLyrics` chooses which text goes into the file.
* **`src/lib/lrc-parser.ts`**: `parseLrc`, which reads an LRC file into
  timed lyric records (start, end, text) sorted by start.
* **`src/lib/srt-parser.ts`**: `parseSrt`, which reads an SRT file into
  subtitles.
* **`src/components/MusicPlayer/PlaylistController.tsx`**: the playlist
  state. It holds the songs and the current index, loads the playlist,
  adds and removes songs, and moves the cursor forward or back.
* **`src/components/MusicPlayer/LyricsController.tsx`**: the lyrics
  state. It loads a lyrics file, tracks the line shown for the playback
  time, and extracts the lyricist and composer credits.

## How the code's features map to the model

**Pure transformations become functions, and loops become methods.** Each
transformation is a Dafny function whose properties are proved as lemmas.
Where the source builds its result with a loop (`for … of`, `forEach`,
`push`), the model has a `method` with that loop. Its `ensures` ties the
result to the specification function, and its invariants carry the proof.

**The two React components become classes.** `PlaylistController` and
`LyricsController` are classes whose fields are the components' state
variables. Each handler is a method with a `modifies this` clause, and each
method states the whole new state.

**Regular expressions are modelled by hand.** The time tag
`/\[(\d+):(\d+)\.(\d+)\]/` is matched by `TimeTags.TagAt`. Its global
forms are also modelled:
* `matchAll` is `TagsFrom`: leftmost, non-overlapping matches;
* `replace(/…/g, "")` is `StripTags`;
* `test` is `HasTag`.

The fixed-width patterns of the LRC and SRT parsers are sequences of
digit and literal atoms, searched leftmost-first by `Search`.

**Time units.** Integers replace JavaScript numbers, with these units:

| code | unit in the model |
|---|---|
| `lrc-parser.ts` | centiseconds (the code uses seconds as a float; `centiseconds / 100` is exact in the model, while the code's double can fall just off it, see "## Left out") |
| `formatSrtFile` | the code's `min * 60000 + sec * 1000 + frac` |
| `srt-parser.ts` | milliseconds (the code uses seconds as a float) |
| `combineDisplayLyrics` | the same integer scaled by 1000, in place of `min * 60 + sec + frac / 1000` |

For `combineDisplayLyrics` the integer distance and the two-second window
agree with the code's doubles except where double rounding moves a distance
across 2 s or breaks a tie in the nearest-line search: for `[00:00.30]`
against `[00:02.30]` the code's difference `2.03 - 0.03` rounds below 2 and
pairs the lines, while the model's 2000 does not.

The fraction digits of a tag count as their integer value, whatever their
number: `formatSrtFile` turns `[00:03.50]` into 3,050 ms and the start
string `00:00:03,050` (src/lib/lyrics.ts:143, :146-148), and the model does
the same.

## Model

| member | source | states |
|---|---|---|
| Strings.TrimShape | src/lib/lyrics.ts:7 | `trim()` gives the empty string exactly for a blank line, and otherwise a string with no white space at either end |
| Strings.Split | src/lib/lyrics.ts:7 | `split("\n")` gives at least one part, no part holds the separator, and joining the parts with the separator gives back the input |
| Strings.SplitJoin | src/lib/lyrics.ts:251 | splitting a join of separator-free parts gives back exactly those parts (the other half of the round trip) |
| Strings.DecimalValue | src/lib/lyrics.ts:146-148 | `toString()` of a number is a digit string that reads back as that number |
| Strings.PadStartShape | src/lib/lyrics.ts:146-148 | `padStart(w, c)` reaches width w (or keeps a longer string), keeps the string at the end, and fills the front with c |
| Strings.PaddedValue | src/lib/lyrics.ts:180-184 | a zero-padded number is all digits and still reads back as the same number |
| Strings.TerminatedSnoc | src/lib/lyrics.ts:359-367 | `out += line + "\n"` appends exactly that line and one break to the accumulated text |
| TimeTags.TagAtSound | src/lib/lyrics.ts:11 | a tag the scanner reports at p is `[digits:digits.digits]` standing at p, and its groups are the text between the brackets and separators |
| TimeTags.TagAtComplete | src/lib/lyrics.ts:11 | wherever a valid tag's text stands, the scanner reports exactly that tag, ending right after its `]` (the converse of TagAtSound) |
| TimeTags.TagsFrom | src/lib/lyrics.ts:11 | `matchAll` returns matches inside the line, in order and without overlap |
| TimeTags.TagsFromAt | src/lib/lyrics.ts:11 | each match `matchAll` returns is the tag that starts at its index |
| TimeTags.TagsFromFirst | src/lib/lyrics.ts:11 | no tag starts before the first match (the search is leftmost) |
| TimeTags.TagsFromGap | src/lib/lyrics.ts:11 | no tag starts between the end of one match and the start of the next, or after the last match |
| TimeTags.TagsFromFound | src/lib/lyrics.ts:272 | every match is a well-formed tag found in the line |
| TimeTags.HasTagIff | src/lib/lyrics.ts:351 | the regular-expression `test` succeeds exactly when a tag starts somewhere in the line |
| TimeTags.StripRemovesMatches | src/lib/lyrics.ts:248 | `replace(/…/g, "")` removes exactly the text of the `matchAll` matches and keeps everything between them, in order |
| TimeTags.RestOfLine | src/lib/lyrics.ts:134 | `(.*)` captures the text up to, and not including, the first line terminator |
| TimeTags.SearchLeftmost | src/lib/lrc-parser.ts:18 | `match` finds the leftmost place the fixed-width pattern fits, and reports none only when it fits nowhere |
| Sorting.SortBy | src/lib/lrc-parser.ts:59 | `sort((a, b) => a.key - b.key)` gives a result of the same length, ordered by key |
| Sorting.SortByPermutation | src/lib/lrc-parser.ts:59 | the sorted result is a permutation of the input |
| Sorting.SortByStable | src/lib/lrc-parser.ts:59 | the sort is stable: the elements sharing a key keep their original order |
| LyricLines.KeepNonBlank | src/lib/lyrics.ts:7 | `filter(line => line.trim() !== "")` keeps no blank line |
| LyricLines.KeepAllNonBlank | src/lib/lyrics.ts:7 | the filter drops nothing when no line is blank |
| LyricLines.KeepNonBlankAppend | src/lib/lyrics.ts:7 | filtering a concatenation filters each part, in order |
| LyricLines.KeepNonBlankAt | src/lib/lyrics.ts:7 | each line is kept exactly when it is not blank, between what is kept before it and after it |
| LyricLines.KeptPlace | src/lib/lyrics.ts:7 | a non-blank line is kept at the place KeptBefore gives, and every later line lands after it |
| LrcExport.LineKeyedCount | src/lib/lyrics.ts:11-12 | a line contributes nothing exactly when it has no tag, and otherwise one record per tag |
| LrcExport.LineKeyedAt | src/lib/lyrics.ts:14-22 | the i-th record of a line pairs the i-th tag's own text with the trimmed text after the line's last tag |
| LrcExport.PushRecords | src/lib/lyrics.ts:19-22 | the push loop yields one `{timeStr, text}` per match, in match order |
| LrcExport.LineRecords | src/lib/lyrics.ts:10-23 | the loop body handles one line as LineKeyedAt describes |
| LrcExport.ParseTagged | src/lib/lyrics.ts:6-26 | `parseLines` yields the records of the non-blank lines, in line order |
| LrcExport.Find | src/lib/lyrics.ts:41 | `timeMap.has` finds the group holding the key, or reports that no group holds it |
| LrcExport.BuildTimeMap | src/lib/lyrics.ts:32-44 | the two `forEach` loops build the map: original groups first, then translations |
| LrcExport.OriginalsDistinct | src/lib/lyrics.ts:35-37 | the map has one group per distinct tag text |
| LrcExport.OriginalsKeys | src/lib/lyrics.ts:35-37 | the groups follow the order in which each tag text first appears, as a JavaScript `Map` iterates |
| LrcExport.OriginalsTexts | src/lib/lyrics.ts:35-37 | each group holds the last original text given for its tag and an empty translation, and a tag never given has no group |
| LrcExport.TranslateShape | src/lib/lyrics.ts:40-44 | the translations keep the groups and their originals; a group takes the last translated text with the same tag, and is unchanged when there is none |
| LrcExport.MergedLines | src/lib/lyrics.ts:108-117 | one line per group: `timeStr + original + separator + translated`, with no separator when the translation is empty |
| LrcExport.RenderDual | src/lib/lyrics.ts:47-53 | the output has the original line of each group, followed by its translated line when that is not empty |
| LrcExport.RenderMerged | src/lib/lyrics.ts:107-119 | the merged output loop produces MergedLines |
| LrcExport.FormatLrcFile | src/lib/lyrics.ts:2-56 | with no translation the original comes back unchanged; otherwise the dual-line text of the map |
| LrcExport.FormatLrcFileMerged | src/lib/lyrics.ts:59-120 | with no translation the original comes back unchanged; otherwise the merged lines of the map |
| SrtExport.PadExact | src/lib/lyrics.ts:180-184 | a number below 10^w padded to w digits has exactly w digits and reads back as itself |
| SrtExport.ClockTextReadBack | src/lib/lyrics.ts:180-184 | `hh:mm:ss,mmm` built from fields in range is an SRT clock that reads back to the same total milliseconds |
| SrtExport.ClockFields | src/lib/lyrics.ts:173-178 | hours, minutes, seconds and milliseconds split from a time recombine to it, with minutes and seconds below 60 |
| SrtExport.FormatClockReadBack | src/lib/lyrics.ts:173-184 | the end time of the last cue is a valid SRT clock that reads back to its time, for any time under 100 hours |
| SrtExport.CueOfShape | src/lib/lyrics.ts:133-154 | a line gives a cue exactly when it has a tag. The cue uses only the leftmost tag: time `min*60000+sec*1000+frac`, start string `00:mm:ss,fff`, and text the trimmed rest of the line |
| SrtExport.StartStringReadBack | src/lib/lyrics.ts:146-148 | when the fields fit, a cue's start string reads back as an SRT clock to the cue's time |
| SrtExport.CueOfSome | src/lib/lyrics.ts:134-135 | a line is skipped exactly when `match` fails on it |
| SrtExport.CuesOfCount | src/lib/lyrics.ts:133-155 | there are never more cues than lines, and one cue per line when every line has a tag |
| SrtExport.CuesSorted | src/lib/lyrics.ts:158 | the cues are ordered by time, and cues with equal times keep their line order |
| SrtExport.ParseCues | src/lib/lyrics.ts:125-159 | `parseLrcLines` yields the cues of the non-blank lines, sorted by time |
| SrtExport.LookupAbsent | src/lib/lyrics.ts:204-211 | a start string that no translated cue has gives the empty translation |
| SrtExport.LookupLast | src/lib/lyrics.ts:204-211 | a start string gives the text of the last translated cue that has it (later `set` calls overwrite earlier ones) |
| SrtExport.BuildTransMap | src/lib/lyrics.ts:204-207 | the `forEach` loop builds the translation map |
| SrtExport.LayoutChain | src/lib/lyrics.ts:165-231 | there is one block per cue; block i is numbered i+1 and starts at its cue's start, and each block ends where the next begins |
| SrtExport.BlockHead | src/lib/lyrics.ts:214-216 | block i has index i+1 and its cue's start string |
| SrtExport.BlockEnd | src/lib/lyrics.ts:168-170 | every block but the last ends at the next cue's start string |
| SrtExport.LayoutLastEnd | src/lib/lyrics.ts:171-185 | the last block ends five seconds after its cue's time |
| SrtExport.LayoutText | src/lib/lyrics.ts:211-218 | with a translation present and not empty, a block's text is the original, a break, and the translation; otherwise the original alone |
| SrtExport.LastEnd | src/lib/lyrics.ts:173-184 | the field-by-field end time is, under 100 hours, an SRT clock that reads back to five seconds after the cue's start |
| SrtExport.EndTimes | src/lib/lyrics.ts:165-191 | the `map` over the cues gives each cue its end time |
| SrtExport.BuildBlocks | src/lib/lyrics.ts:201-231 | the block loops build the layout described by LayoutChain and LayoutText |
| SrtExport.FormatSrtFile | src/lib/lyrics.ts:123-240 | `formatSrtFile` renders the blocks as `index`, `start --> end`, `text`, separated by blank lines |
| DisplayText.StripAll | src/lib/lyrics.ts:244-249 | each line loses its tags and nothing else |
| DisplayText.StrippedKept | src/lib/lyrics.ts:244-250 | every line that is not blank once stripped is kept, at its KeptBefore place, in input order |
| DisplayText.PreviewShape | src/lib/lyrics.ts:243-252 | `formatLyrics` keeps only non-blank lines and every line that is not blank once stripped, in input order; its text splits back into exactly those lines |
| DisplayText.StripKeepsOut | src/lib/lyrics.ts:248 | removing tags never introduces a character that was not there |
| DisplayText.SinglePass | src/lib/lyrics.ts:248 | tag removal makes one pass: from `[[0:1.0]0:2.0]` it leaves `[0:2.0]`, which is itself a tag (see PlainTag) |
| DisplayText.PlainTag | src/lib/lyrics.ts:351 | `[0:2.0]` is recognised as a tag |
| DisplayText.ClosestIsFirstNearest | src/lib/lyrics.ts:310-321 | the search finds no line exactly when no translated line is timed; otherwise it finds the first timed line at the smallest distance |
| DisplayText.CombinedLineShape | src/lib/lyrics.ts:302-334 | a timed line is paired exactly when a timed translated line lies within two seconds, and then with the first nearest one; otherwise its whole line is kept as written |
| DisplayText.CombinedLines | src/lib/lyrics.ts:302-334 | one output line per entry, each combined as CombinedLineShape describes |
| DisplayText.PushTimed | src/lib/lyrics.ts:284-290 | the push loop yields, for the i-th match, a timed entry with that tag's time in thousandths, its text as `timeStr`, the shared text and the whole line |
| DisplayText.LineEntriesCount | src/lib/lyrics.ts:271-290 | a tagless line gives the single untimed entry of its trimmed text; a tagged line gives one entry per tag |
| DisplayText.LineEntriesAt | src/lib/lyrics.ts:280-290 | the i-th entry of a tagged line carries the i-th tag's time, the tag's exact text in the line, the trimmed text after the last tag, and the whole line |
| DisplayText.ParseLineEntries | src/lib/lyrics.ts:271-290 | the loop body for one line computes the entries LineEntriesCount and LineEntriesAt describe |
| DisplayText.CollectEntries | src/lib/lyrics.ts:271-291 | the line loop gathers the entries of each line, in order |
| DisplayText.ParseEntries | src/lib/lyrics.ts:262-294 | `parseLines` yields the entries of the non-blank lines, sorted stably by time, with untimed entries (time -1) first |
| DisplayText.FindClosest | src/lib/lyrics.ts:310-321 | the `minTimeDiff` loop computes the search of ClosestIsFirstNearest, and `minTimeDiff` ends as the distance to the entry found |
| DisplayText.CombineEntries | src/lib/lyrics.ts:300-336 | the outer loop computes CombinedLines |
| DisplayText.CombineDisplayLyrics | src/lib/lyrics.ts:255-337 | with no translation the original comes back unchanged; otherwise the combined lines joined by breaks |
| DisplayText.Tagged | src/lib/lyrics.ts:353-364 | every line sent to the original track has a tag |
| DisplayText.Untagged | src/lib/lyrics.ts:365-367 | no line sent to the translated track has a tag |
| DisplayText.Partition | src/lib/lyrics.ts:347-369 | the two tracks together hold as many lines as the input |
| DisplayText.TaggedAppend | src/lib/lyrics.ts:353-364 | the original track of a concatenation is the tracks of its parts, in order |
| DisplayText.UntaggedAppend | src/lib/lyrics.ts:365-367 | the translated track of a concatenation is the tracks of its parts, in order |
| DisplayText.PartitionAt | src/lib/lyrics.ts:347-369 | line i goes to the original track when it has a tag and to the translated track otherwise, never to both, between the lines before and after it |
| DisplayText.AllTagged | src/lib/lyrics.ts:353-364 | when every line has a tag, the original track keeps them all |
| DisplayText.NoneTagged | src/lib/lyrics.ts:365-368 | when no line has a tag, the translated track keeps them all |
| DisplayText.Step | src/lib/lyrics.ts:353-368 | one line adds itself and a break to exactly one of the two texts, whichever branch the loop takes |
| DisplayText.SeparateCombinedLyrics | src/lib/lyrics.ts:340-372 | the original is the tagged lines and the translation the untagged lines, each in order with a break after each line (the pair branch and the single branches agree on this) |
| DisplayText.SecondsField | src/lib/lyrics.ts:429 | the seconds field is two digits that read back as the seconds |
| DisplayText.MinutesAndSeconds | src/lib/lyrics.ts:427-428 | the minutes and seconds fields together account for every whole second |
| DisplayText.DurationReadBack | src/lib/lyrics.ts:426-430 | `m:ss` reads back to the whole seconds of the duration, with ss below 60 |
| Download.DownloadText | src/lib/lyrics.ts:385-396 | `"lrc"` gives the LRC in the chosen layout, `"srt"` the SRT, and any other type empty text; with no translation an LRC file is the original |
| LrcParser.NextStampFirst | src/lib/lrc-parser.ts:30-45 | the end search finds the first later line with a tag, or reports that there is none |
| LrcParser.LyricFromShape | src/lib/lrc-parser.ts:18-54 | a record starts at `min*6000 + sec*100 + cs` of the line's leftmost tag; it ends at the next tagged line's time, or 500 (five seconds) later when there is none; its text is trimmed and not empty |
| LrcParser.LyricAtShape | src/lib/lrc-parser.ts:18-20 | a line without a well-formed tag gives no record, and a record's start is its line's tag time |
| LrcParser.PresentExactly | src/lib/lrc-parser.ts:48-54 | the kept records are exactly the records the lines produced |
| LrcParser.ParseLrcOrder | src/lib/lrc-parser.ts:59 | `parseLrc` returns the lines' records as a permutation, sorted by start, with equal starts in line order |
| LrcParser.ParsedTextsNonBlank | src/lib/lrc-parser.ts:47-54 | no parsed lyric has empty text |
| LrcParser.PresentNonBlank | src/lib/lrc-parser.ts:47-54 | no record kept by the line loop has empty text |
| LrcParser.FindEnd | src/lib/lrc-parser.ts:30-45 | the inner loop computes the end time |
| LrcParser.TaggedLyric | src/lib/lrc-parser.ts:20-54 | the body for a line with a tag computes the record of LyricFromShape |
| LrcParser.LineLyric | src/lib/lrc-parser.ts:15-55 | the body for one line computes its record, if any |
| LrcParser.CollectLyrics | src/lib/lrc-parser.ts:14-56 | the outer loop collects the records of all lines, in order |
| LrcParser.ParseLrcLines | src/lib/lrc-parser.ts:6-60 | `parseLrc` is the sorted collection described by ParseLrcOrder |
| SrtParser.TimingClocks | src/lib/srt-parser.ts:13-15 | a timing line holds two clocks, at its start and 17 characters further on |
| SrtParser.ParseBlock | src/lib/srt-parser.ts:5-48 | a block without a second line makes the parse fail; one whose second line has no timing gives no subtitle |
| SrtParser.ParsedFields | src/lib/srt-parser.ts:8-47 | a subtitle is read from the leftmost timing on the second line: the two clocks give start and end, and the later lines joined by spaces give the text |
| SrtParser.CollectOutcome | src/lib/srt-parser.ts:5-49 | the parse fails exactly when some block has no second line; otherwise it keeps the subtitles of the timed blocks, in order |
| SrtParser.CollectFails | src/lib/srt-parser.ts:8-12 | failure happens exactly when some block lacks a second line |
| SrtParser.CollectKept | src/lib/srt-parser.ts:17-19 | a successful parse keeps exactly the parsed blocks and drops the others (`filter(Boolean)`) |
| SrtParser.KeptCount | src/lib/srt-parser.ts:49 | there are never more subtitles than blocks, and none when no block parses |
| SrtParser.BlankDocumentFails | src/lib/srt-parser.ts:3-12 | a blank document fails, since its one block has no second line |
| Playlist.NextInRange | src/components/MusicPlayer/PlaylistController.tsx:121-124 | from a valid index, next is the following index, wrapping to 0 after the last |
| Playlist.PrevInRange | src/components/MusicPlayer/PlaylistController.tsx:127-132 | from a valid index, previous is the preceding index, wrapping to the last from 0 |
| Playlist.NextPrevInverse | src/components/MusicPlayer/PlaylistController.tsx:121-132 | previous undoes next and next undoes previous |
| Playlist.FindIndex | src/components/MusicPlayer/PlaylistController.tsx:108 | `findIndex` gives the first position with the id, or -1 exactly when no song has it |
| Playlist.WithoutDropsId | src/components/MusicPlayer/PlaylistController.tsx:105 | after the filter, no song has the removed id |
| Playlist.WithoutCount | src/components/MusicPlayer/PlaylistController.tsx:105 | the filter removes exactly the songs with the id, and nothing when there are none |
| Playlist.CountZeroIff | src/components/MusicPlayer/PlaylistController.tsx:105-108 | no song has the id exactly when `findIndex` gives -1 |
| Playlist.RemovalKeepsCurrent | src/components/MusicPlayer/PlaylistController.tsx:104-115 | when one song has the id and it is not current, the adjusted index still points at the same song |
| Playlist.AbsentIdMovesCursor | src/components/MusicPlayer/PlaylistController.tsx:107-112 | removing an id no song has leaves the list unchanged but moves a non-zero cursor back one place, because -1 compares below it |
| Playlist.DuplicateIdLeavesRange | src/components/MusicPlayer/PlaylistController.tsx:104-115 | with duplicate ids the cursor moves back only once: `[a, a, b]` with cursor 2 becomes `[b]` with cursor 1, past the end of the list, so there is no current song afterwards (line 145) |
| Playlist.PlaylistController.constructor | src/components/MusicPlayer/PlaylistController.tsx:15-18 | the initial state is an empty list, index 0, loading and not yet initialised |
| Playlist.PlaylistController.CurrentSong | src/components/MusicPlayer/PlaylistController.tsx:145 | the current song exists exactly when the index is in range, and it is the song at the index |
| Playlist.PlaylistController.ApplyLoad | src/components/MusicPlayer/PlaylistController.tsx:21-77 | a non-empty list replaces the playlist, resetting the index only on first load; anything else installs the default song; loading ends |
| Playlist.PlaylistController.AddSong | src/components/MusicPlayer/PlaylistController.tsx:80-94 | an empty playlist, or one holding only the default song, is replaced by the new song at index 0; otherwise the song is appended and the index kept |
| Playlist.PlaylistController.RemoveSong | src/components/MusicPlayer/PlaylistController.tsx:97-118 | with no current song it fails and changes nothing; the current song is never removed; otherwise the id's songs are filtered out and the index adjusted |
| Playlist.PlaylistController.PlayNext | src/components/MusicPlayer/PlaylistController.tsx:121-124 | the index moves to the next song, wrapping around, and lands in range |
| Playlist.PlaylistController.PlayPrevious | src/components/MusicPlayer/PlaylistController.tsx:127-132 | the index moves to the previous song, wrapping around, and lands in range |
| Playlist.PlaylistController.PlaySong | src/components/MusicPlayer/PlaylistController.tsx:135-142 | an index in range becomes current, any other is ignored |
| LyricsControl.FirstCovering | src/components/MusicPlayer/LyricsController.tsx:39-41 | `find` gives the first lyric whose interval, in seconds, contains the time, or none when no lyric does |
| LyricsControl.ShownEmptyIff | src/components/MusicPlayer/LyricsController.tsx:43-47 | for lyrics from an LRC file, the shown line is empty exactly when no lyric covers the time |
| LyricsControl.FindLabelIff | src/components/MusicPlayer/LyricsController.tsx:64 | the label search succeeds exactly when the text contains the label followed by a colon |
| LyricsControl.SkipWhite | src/components/MusicPlayer/LyricsController.tsx:65 | `\s*` skips the white space after the colon and stops at the first other character |
| LyricsControl.CreditOfLabelledLine | src/components/MusicPlayer/LyricsController.tsx:65 | for `label:value` the credit is the trimmed value |
| LyricsControl.CreditAfterPrefix | src/components/MusicPlayer/LyricsController.tsx:65 | for a label in mid-line, the text before the first label stays: only the label, its colon and the white space after them are cut, and the whole is trimmed |
| LyricsControl.Update | src/components/MusicPlayer/LyricsController.tsx:64-70 | setting one credit leaves the other unchanged |
| LyricsControl.LastLabelledSpec | src/components/MusicPlayer/LyricsController.tsx:63-71 | the last labelled entry is labelled and none after it is; there is none exactly when no entry is labelled |
| LyricsControl.AbsorbGet | src/components/MusicPlayer/LyricsController.tsx:63-71 | an entry sets a credit exactly when it carries that credit's label |
| LyricsControl.LastLabelWins | src/components/MusicPlayer/LyricsController.tsx:63-71 | each credit comes from the last of the examined entries that carries its label, and is empty when none does |
| LyricsControl.FirstFiveOnly | src/components/MusicPlayer/LyricsController.tsx:61 | only the first five lyrics are examined |
| LyricsControl.AbsorbEntry | src/components/MusicPlayer/LyricsController.tsx:63-71 | the loop body applies one entry as AbsorbGet describes |
| LyricsControl.LyricsController.constructor | src/components/MusicPlayer/LyricsController.tsx:6-11 | the initial state is no lyrics, an empty current line, not loaded, and the default lyrics path |
| LyricsControl.LyricsController.LoadLyricsFile | src/components/MusicPlayer/LyricsController.tsx:19-34 | the path is recorded and loading finishes; fetched text is parsed into lyrics, and a failed fetch leaves none |
| LyricsControl.LyricsController.UpdateCurrentLyric | src/components/MusicPlayer/LyricsController.tsx:37-50 | the current line becomes the text of the first lyric covering the time, or empty; nothing else changes |
| LyricsControl.LyricsController.ExtractMetadataFromLyrics | src/components/MusicPlayer/LyricsController.tsx:53-77 | the credits are those LastLabelWins describes over the first five lyrics |

## Left out

- `downloadLyrics`: creating the `Blob`, the object URL, the anchor element, the click and the file name `${songName}.${type}` (src/lib/lyrics.ts:398-403) are DOM side effects. Only the choice of text is modelled. The default arguments (`"separated"`, `" / "`) are left to the caller of Download.DownloadText.
- `downloadImage` (src/lib/lyrics.ts:407-423) is a network download with an alert on failure, and is not modelled.
- Floating point: JavaScript numbers are modelled as unbounded integers in the units listed above. `parseInt` of a very long digit run (beyond 2^53) and float rounding in `min * 60 + sec + ms / 1000` are not modelled.
- LyricsControl.FirstCovering: the lyric bounds are the exact reals `cs / 100` and `cs / 100 + 5`, while src/lib/lrc-parser.ts:27 and :30 compute `minutes * 60 + seconds + centiseconds / 100` and `startTime + 5` in doubles, which LyricsController.tsx:40 compares with `>=` and `<=`. The two agree except for a `currentTime` that lands between a bound and its rounded double: `[00:00.29]` gives the double 0.28999999999999998, so a time equal to that double is covered in the code and not in the model.
- DisplayText.FormatDuration: modelled for non-negative durations only. Negative or fractional durations (`Math.floor` on negatives) are not covered.
- srt-parser.ts converts times to seconds as floats. The model keeps them as whole milliseconds (`hh*3600000 + mm*60000 + ss*1000 + mmm`), which is the same value scaled by 1000.
- `loadPlaylist`'s `fetch("/api/songs")` and its JSON decoding are not modelled. Playlist.PlaylistController.ApplyLoad receives the outcome instead: a song array, any other successful body, or a network error. The `console` logging is also left out.
- `loadLyricsFile`'s `fetch` is a parameter of LyricsControl.LyricsController.LoadLyricsFile: the fetched text, or `None` for a failed request. The effect that calls it and the effect that runs `updateCurrentLyric` on every time change are not modelled.
- React's asynchronous, batched state updates are modelled as sequential updates to the class fields, applied in the order the handlers write them.
- The API routes, pages, `AudioController`, `PlayerControls`, `AlbumInfo` and `LyricsView` are user interface or network code outside this model.
