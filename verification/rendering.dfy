/** What the renderers take from their surroundings: the clock, the date
    formatters, the auto-size measurement of a spreadsheet column, and whether
    the underlying document library fails. The model fixes these as inputs
    instead of calling out for them. */
module Rendering {
  import opened Options
  import opened Text
  import opened Orders

  datatype RenderEnv = RenderEnv(
    /** The instant `LocalDateTime.now()` returns during the call. */
    now: Timestamp,
    /** `DateTimeFormatter.ofPattern("yyyy-MM-dd HH:mm:ss")`. */
    formatDateTime: Timestamp -> string,
    /** `DateTimeFormatter.ofPattern("MM-dd")`. */
    formatMonthDay: Timestamp -> string,
    /** `DateTimeFormatter.ofPattern("yyyyMMdd_HHmmss")`, used in file names. */
    formatFileStamp: Timestamp -> string,
    /** The width `autoSizeColumn` measures for a column of a named sheet. */
    autoWidth: (string, nat) -> int,
    /** The spreadsheet or PDF library throws somewhere inside the call. */
    libraryFails: bool)

  /** The text of a money amount on an invoice or in a summary: the yuan sign
      and the scale-2 decimal. */
  function YuanText(cents: int): string {
    "¥" + FormatCents(cents)
  }

  /** Reads an amount written by `YuanText` back. */
  function ParseYuan(s: string): Option<int> {
    if |s| >= 1 && s[0] == '¥' then ParseCents(s[1..]) else None
  }

  /** An amount written with the yuan sign reads back as that amount. */
  lemma YuanTextReadsBack(cents: int)
    ensures ParseYuan(YuanText(cents)) == Some(cents)
  {
    var s := YuanText(cents);
    assert s[1..] == FormatCents(cents);
  }
}
