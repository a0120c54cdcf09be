/**
 * The text `downloadLyrics` (`src/lib/lyrics.ts`) puts in the downloaded
 * file: LRC in one of two layouts, SRT, or nothing for any other type.
 */
module Download {
  import opened LrcExport
  import opened SrtExport

  /** The `lrcFormat` parameter: `"separated"` (the default) or `"merged"`. */
  datatype LrcFormat = Separated | Merged

  /**
   * The choice of text by file type: an LRC file in the chosen layout, an
   * SRT file, or the empty text for a type that is neither. Without a
   * translation an LRC file holds the original lyrics unchanged, whatever
   * the layout.
   */
  method DownloadText(fileType: string, original: string, translated: string, lrcFormat: LrcFormat, separator: string)
    returns (text: string)
    ensures fileType == "lrc" && lrcFormat == Merged ==> text == MergedText(original, translated, separator)
    ensures fileType == "lrc" && lrcFormat == Separated ==> text == DualText(original, translated)
    ensures fileType == "lrc" && translated == "" ==> text == original
    ensures fileType == "srt" ==> text == SrtText(original, translated)
    ensures fileType != "lrc" && fileType != "srt" ==> text == ""
  {
    text := "";
    if fileType == "lrc" {
      if lrcFormat == Merged {
        text := FormatLrcFileMerged(original, translated, separator);
      } else {
        text := FormatLrcFile(original, translated);
      }
    } else if fileType == "srt" {
      text := FormatSrtFile(original, translated);
    }
  }
}
