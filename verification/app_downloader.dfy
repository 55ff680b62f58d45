/**
 * The downloader of the `app` package (`app/core/downloader.py`): the
 * screening and shaping of extracted metadata, the mapping of yt-dlp error
 * texts to messages, and the download that ends by promoting the temporary
 * file to its final place.  yt-dlp itself is a parameter: what
 * `extract_info` returned or raised, and what `download` wrote or raised.
 */
module AppDownloader {
  import opened Common
  import opened PyText
  import opened Media
  import opened Files
  import opened AppHelpers

  /** The metadata `get_video_info` returns: exactly these six keys. */
  datatype Metadata = Metadata(
    id: string,
    title: string,
    description: string,
    tags: string,
    category: string,
    thumbnail: string)

  // ---------------------------------------------------------------------------
  // `get_video_info`

  const InfoPrefix := "Failed to get video info: "
  const NoInfoMessage := "Failed to extract video information"
  const PlaylistMessage := "URL appears to be a playlist. Please provide a single video URL."
  const LiveMessage := "Live streams are not supported"
  const AgeMessage := "Age-restricted videos are not supported"
  const TimeoutMessage := "Connection timed out. Please check your internet connection."
  const UnavailableMessage := "Video is unavailable or has been removed"
  const PrivateMessage := "This video is private"
  const AgeGateMessage := "Age-restricted video - cannot download"
  const ExtractorPrefix := "YouTube-DL error: "

  /** What the `try` block of `get_video_info` does with the dictionary. */
  datatype Screening = Accepted(meta: Metadata) | Rejected(text: string)

  /** The age limit with `0` for an absent key. */
  function AgeLimit(info: Info): int {
    info.ageLimit.GetOr(0)
  }

  /** A dictionary that passes every check and has both keys read with `[]`. */
  predicate Admissible(info: Info) {
    !info.hasEntries && !info.isLive && AgeLimit(info) <= 0 && info.id.Some? && info.title.Some?
  }

  /** The checks in order, then the shaping; a missing `id` or `title`
   *  raises `KeyError`, whose text is the quoted key. */
  function ScreenInfo(info: Option<Info>): Screening {
    match info
    case None => Rejected(NoInfoMessage)
    case Some(i) =>
      if i.hasEntries then Rejected(PlaylistMessage)
      else if i.isLive then Rejected(LiveMessage)
      else if AgeLimit(i) > 0 then Rejected(AgeMessage)
      else if i.id.None? then Rejected("'id'")
      else if i.title.None? then Rejected("'title'")
      else Accepted(Metadata(
        i.id.value, i.title.value, i.description.GetOr(""),
        TagsText(i), FirstCategory(i), i.thumbnail.GetOr("")))
  }

  /** The message for a yt-dlp error: the first marker the text contains
   *  decides it, and a text with none keeps its own words behind a prefix. */
  function ExtractorMessage(text: string): (r: string)
    ensures StartsWith(r, ExtractorPrefix) <==>
      !Contains(text, "Video unavailable") && !Contains(text, "Private video")
      && !Contains(text, "Sign in to confirm your age")
    ensures Contains(text, "Video unavailable") ==> r == UnavailableMessage
    ensures !Contains(text, "Video unavailable") && Contains(text, "Private video") ==> r == PrivateMessage
    ensures !Contains(text, "Video unavailable") && !Contains(text, "Private video") && Contains(text, "Sign in to confirm your age")
      ==> r == AgeGateMessage
    ensures StartsWith(r, ExtractorPrefix) ==> r[|ExtractorPrefix|..] == text
  {
    if Contains(text, "Video unavailable") then
      assert UnavailableMessage[0] != ExtractorPrefix[0];
      UnavailableMessage
    else if Contains(text, "Private video") then
      assert PrivateMessage[0] != ExtractorPrefix[0];
      PrivateMessage
    else if Contains(text, "Sign in to confirm your age") then
      assert AgeGateMessage[0] != ExtractorPrefix[0];
      AgeGateMessage
    else ExtractorPrefix + text
  }

  /** `get_video_info`: the metadata of an admissible dictionary, otherwise a
   *  `DownloadError`.  The rejections are raised inside the `try` and caught
   *  again by its last handler, so they carry its prefix. */
  function GetVideoInfo(x: Extraction): (r: Result<Metadata>)
    ensures r.Err? ==> r.error.kind == DownloadError
    ensures r.Ok? <==> x.Extracted? && x.info.Some? && Admissible(x.info.value)
    ensures r.Ok? ==> var i := x.info.value;
      && r.value.id == i.id.value && r.value.title == i.title.value
      && r.value.description == i.description.GetOr("")
      && r.value.thumbnail == i.thumbnail.GetOr("")
      && (HasTags(i) ==> r.value.tags == Join(i.tags.value, ", "))
      && (!HasTags(i) ==> r.value.tags == "")
      && (i.categories.Some? && |i.categories.value| > 0 ==> r.value.category == i.categories.value[0])
      && (i.categories.None? || i.categories.value == [] ==> r.value.category == "")
    ensures x.Extracted? && r.Err? ==> StartsWith(r.error.msg, InfoPrefix)
  {
    match x
    case Extracted(info) =>
      (match ScreenInfo(info)
       case Accepted(m) => Ok(m)
       case Rejected(t) => Err(Error(DownloadError, InfoPrefix + t)))
    case ExtractorError(t) => Err(Error(DownloadError, ExtractorMessage(t)))
    case NetworkError(t) => Err(Error(DownloadError, "Network error: " + t))
    case TimedOut(_) => Err(Error(DownloadError, TimeoutMessage))
    case Failed(t) => Err(Error(DownloadError, InfoPrefix + t))
  }

  /** The checks run in the order no info, playlist, live, age limit: the
   *  first that applies names the error, whatever else holds. */
  lemma ScreeningOrder(info: Info)
    ensures info.hasEntries ==>
      GetVideoInfo(Extracted(Some(info))) == Err(Error(DownloadError, InfoPrefix + PlaylistMessage))
    ensures !info.hasEntries && info.isLive ==>
      GetVideoInfo(Extracted(Some(info))) == Err(Error(DownloadError, InfoPrefix + LiveMessage))
    ensures !info.hasEntries && !info.isLive && AgeLimit(info) > 0 ==>
      GetVideoInfo(Extracted(Some(info))) == Err(Error(DownloadError, InfoPrefix + AgeMessage))
    ensures !info.hasEntries && !info.isLive && AgeLimit(info) <= 0 && info.id.None? ==>
      GetVideoInfo(Extracted(Some(info))) == Err(Error(DownloadError, InfoPrefix + "'id'"))
  {
  }

  /** A text naming both an unavailable and a private video is reported as unavailable. */
  lemma UnavailableWins(text: string)
    requires Contains(text, "Video unavailable") && Contains(text, "Private video")
    ensures GetVideoInfo(ExtractorError(text)) == Err(Error(DownloadError, UnavailableMessage))
  {
  }

  // ---------------------------------------------------------------------------
  // `download_video` and `cleanup`

  /** What `ydl.download` did. */
  datatype Fetch =
    /** It returned; `Some(size)` when it wrote the temporary file with that
     *  many bytes, `None` when it wrote nothing there. */
    | Fetched(written: Option<nat>)
    /** It raised `yt_dlp.utils.DownloadError`, by its text. */
    | FetchError(text: string)
    /** It raised `URLError`, by its text. */
    | FetchNetworkError(text: string)
    /** It raised `socket.timeout`. */
    | FetchTimedOut
    /** It raised anything else, by its text. */
    | FetchFailed(text: string)

  const DownloadPrefix := "Failed to download video: "
  const EmptyFileMessage := "Downloaded file is empty"
  const MissingFileMessage := "Download completed but file not found"
  const NoFormatsMessage := "No suitable video formats found for download"
  const UnsupportedMessage := "URL is not supported"
  const FetchPrefix := "Download failed: "

  /** The message for a yt-dlp download error, before the outer prefix. */
  function FetchErrorMessage(text: string): (r: string)
    ensures StartsWith(r, FetchPrefix) <==>
      !Contains(text, "No video formats found") && !Contains(text, "Unsupported URL")
    ensures Contains(text, "No video formats found") ==> r == NoFormatsMessage
    ensures !Contains(text, "No video formats found") && Contains(text, "Unsupported URL") ==> r == UnsupportedMessage
    ensures StartsWith(r, FetchPrefix) ==> r[|FetchPrefix|..] == text
  {
    if Contains(text, "No video formats found") then
      assert NoFormatsMessage[0] != FetchPrefix[0];
      NoFormatsMessage
    else if Contains(text, "Unsupported URL") then
      assert UnsupportedMessage[0] != FetchPrefix[0];
      UnsupportedMessage
    else FetchPrefix + text
  }

  /** The promote step after the download: a missing or empty temporary file
   *  is an error that leaves the files as they are; otherwise the file moves
   *  to its final path, which is returned. */
  function Promote(files: map<Path, nat>, temp: Path, final: Path): (r: (Result<Path>, map<Path, nat>))
    ensures r.0.Ok? <==> temp in files && files[temp] > 0
    ensures r.0.Ok? ==>
      && r.0.value == final && final in r.1 && r.1[final] == files[temp]
      && (temp != final ==> temp !in r.1)
    ensures r.0.Err? ==> r.1 == files && r.0.error.kind == DownloadError
    ensures r.0.Err? && temp in files ==> r.0.error.msg == DownloadPrefix + EmptyFileMessage
    ensures temp !in files ==> r.0.error.msg == DownloadPrefix + MissingFileMessage
    ensures forall p :: p != temp && p != final ==> (p in r.1 <==> p in files)
  {
    if temp in files then
      if files[temp] == 0 then (Err(Error(DownloadError, DownloadPrefix + EmptyFileMessage)), files)
      else (Ok(final), (files - {temp})[final := files[temp]])
    else (Err(Error(DownloadError, DownloadPrefix + MissingFileMessage)), files)
  }

  /** The whole of `download_video` on the file map: what the download wrote,
   *  then the promote step; a raised error leaves the files unchanged. */
  function DownloadOutcome(files: map<Path, nat>, temp: Path, final: Path, fetch: Fetch): (r: (Result<Path>, map<Path, nat>))
    ensures r.0.Err? ==> r.0.error.kind == DownloadError
    ensures r.0.Ok? ==> r.0.value == final && fetch.Fetched? && final in r.1
    ensures !fetch.Fetched? ==> r.1 == files
  {
    match fetch
    case Fetched(written) =>
      var after := if written.Some? then files[temp := written.value] else files;
      Promote(after, temp, final)
    case FetchError(t) => (Err(Error(DownloadError, DownloadPrefix + FetchErrorMessage(t))), files)
    case FetchNetworkError(t) => (Err(Error(DownloadError, "Network error during download: " + t)), files)
    case FetchTimedOut => (Err(Error(DownloadError, "Download timed out. Please check your internet connection.")), files)
    case FetchFailed(t) => (Err(Error(DownloadError, DownloadPrefix + t)), files)
  }

  /** A download that writes an empty file fails and leaves that file in the
   *  temporary directory; nothing reaches the final path. */
  lemma EmptyDownloadStays(files: map<Path, nat>, temp: Path, final: Path)
    requires temp != final && final !in files
    ensures var r := DownloadOutcome(files, temp, final, Fetched(Some(0)));
      && r.0 == Err(Error(DownloadError, DownloadPrefix + EmptyFileMessage))
      && temp in r.1 && r.1[temp] == 0 && final !in r.1
  {
  }

  /** A file left behind by an earlier attempt is promoted even when the
   *  download writes nothing. */
  lemma StaleTempPromoted(files: map<Path, nat>, temp: Path, final: Path)
    requires temp in files && files[temp] > 0
    ensures DownloadOutcome(files, temp, final, Fetched(None)).0 == Ok(final)
  {
  }

  class YouTubeDownloader {
    /** `VIDEO_DIR`: temporary files go to its `temp` subdirectory. */
    const videoDir: Path
    /** `PROCESSED_DIR`: where finished videos are kept. */
    const processedDir: Path

    constructor (videoDir: Path, processedDir: Path)
      ensures this.videoDir == videoDir && this.processedDir == processedDir
    {
      this.videoDir := videoDir;
      this.processedDir := processedDir;
    }

    function TempPath(meta: Metadata): Path {
      GetVideoPath(meta.id, meta.title, videoDir, true)
    }

    function FinalPath(meta: Metadata): Path {
      GetVideoPath(meta.id, meta.title, processedDir, false)
    }

    /** `download_video`: the file named after the metadata is fetched into
     *  the temporary directory and then promoted to the processed one. */
    method DownloadVideo(fs: FileSystem, meta: Metadata, fetch: Fetch) returns (r: Result<Path>)
      modifies fs
      ensures (r, fs.files) == DownloadOutcome(old(fs.files), TempPath(meta), FinalPath(meta), fetch)
      ensures r.Ok? ==> Name(r.value) == Name(TempPath(meta)) && Parent(r.value) == processedDir
    {
      var temp := TempPath(meta);
      var final := FinalPath(meta);
      TempAndFinalShareName(meta.id, meta.title, videoDir, processedDir);
      match fetch {
        case Fetched(written) =>
          if written.Some? {
            fs.Write(temp, written.value);
          }
          if fs.Exists(temp) {
            if fs.Size(temp) == 0 {
              r := Err(Error(DownloadError, DownloadPrefix + EmptyFileMessage));
            } else {
              var _ := fs.Rename(temp, final);
              r := Ok(final);
            }
          } else {
            r := Err(Error(DownloadError, DownloadPrefix + MissingFileMessage));
          }
        case FetchError(t) =>
          r := Err(Error(DownloadError, DownloadPrefix + FetchErrorMessage(t)));
        case FetchNetworkError(t) =>
          r := Err(Error(DownloadError, "Network error during download: " + t));
        case FetchTimedOut =>
          r := Err(Error(DownloadError, "Download timed out. Please check your internet connection."));
        case FetchFailed(t) =>
          r := Err(Error(DownloadError, DownloadPrefix + t));
      }
    }

    /** `cleanup`: the file is gone afterwards, whether or not it existed. */
    method Cleanup(fs: FileSystem, path: Path)
      modifies fs
      ensures fs.files == old(fs.files) - {path}
    {
      if fs.Exists(path) {
        var _ := fs.Delete(path);
      }
    }
  }
}
