/**
 * What yt-dlp's `extract_info` hands the pipelines: either the information
 * dictionary of a video, reduced to the keys they read, or the exception it
 * raised.  A key that is absent from the dictionary is `None`.
 */
module Media {
  import opened Common
  import opened PyText

  datatype Info = Info(
    id: Option<string>,
    title: Option<string>,
    description: Option<string>,
    tags: Option<seq<string>>,
    categories: Option<seq<string>>,
    thumbnail: Option<string>,
    uploadDate: Option<string>,
    /** `'entries' in info`: the URL named a playlist. */
    hasEntries: bool,
    /** `info.get('is_live', False)` is truthy. */
    isLive: bool,
    ageLimit: Option<int>)

  /** The outcome of `extract_info`. */
  datatype Extraction =
    /** A returned dictionary; `None` when it is falsy (`None` or `{}`). */
    | Extracted(info: Option<Info>)
    /** `yt_dlp.utils.DownloadError`, by its text. */
    | ExtractorError(text: string)
    /** `urllib.error.URLError`, by its text. */
    | NetworkError(text: string)
    /** `socket.timeout`, by its text. */
    | TimedOut(text: string)
    /** Any other exception, by its text. */
    | Failed(text: string)

  /** `info.get('tags')` is truthy: present and not empty. */
  predicate HasTags(info: Info) {
    info.tags.Some? && |info.tags.value| > 0
  }

  /** `', '.join(info.get('tags', [])) if info.get('tags') else ''`. */
  function TagsText(info: Info): string {
    if HasTags(info) then Join(info.tags.value, ", ") else ""
  }

  /** `info.get('categories', [''])[0] if info.get('categories') else ''`. */
  function FirstCategory(info: Info): string {
    match info.categories
    case Some(cs) => if |cs| > 0 then cs[0] else ""
    case None => ""
  }
}
