/**
 * The older single-file pipeline (`src/youtube_manager.py`, with the
 * constants of `config/config.py` and the checks of `utils/validators.py`):
 * its own file-name sanitiser, the sheet row built from the video
 * information, the header setup of the sheet, the duplicate-checked append,
 * the upload loop with its progress log, the download with its rename,
 * backup copy and optional deletion, and `process_video`, whose `finally`
 * removes the downloaded file.  yt-dlp, the Google clients and the clock are
 * parameters: what they returned or raised.
 */
module YoutubeManager {
  import opened Common
  import opened PyText
  import opened Files
  import opened Media
  import opened Sheet
  import H = AppHelpers
  import G = AppDrive
  import UV = UtilsValidators

  // ---------------------------------------------------------------------------
  // `sanitize_filename`

  /** The text after its leading non-ASCII characters. */
  function SkipNonAscii(s: string): (r: string)
    ensures |r| <= |s| && r == s[|s| - |r|..]
    ensures r == [] || H.IsAscii(r[0])
  {
    if |s| > 0 && !H.IsAscii(s[0]) then SkipNonAscii(s[1..]) else s
  }

  /** `re.sub(r'[^\x00-\x7F]+', '_', s)`: one underscore per run of non-ASCII
   *  characters. */
  function ReplaceNonAsciiRuns(s: string): (r: string)
    ensures |r| <= |s|
    ensures forall i :: 0 <= i < |r| ==> H.IsAscii(r[i])
    decreases |s|
  {
    if |s| == 0 then ""
    else if H.IsAscii(s[0]) then [s[0]] + ReplaceNonAsciiRuns(s[1..])
    else "_" + ReplaceNonAsciiRuns(SkipNonAscii(s[1..]))
  }

  /** Leading underscores written for leading non-ASCII characters go with
   *  the ones after them. */
  lemma {:induction false} StripSkipped(t: string)
    ensures LStrip(H.ReplaceNonAscii(t), {'_'}) == LStrip(H.ReplaceNonAscii(SkipNonAscii(t)), {'_'})
    decreases |t|
  {
    if |t| > 0 && !H.IsAscii(t[0]) {
      var a := H.ReplaceNonAscii(t);
      assert a == "_" + H.ReplaceNonAscii(t[1..]);
      assert a[1..] == H.ReplaceNonAscii(t[1..]);
      StripSkipped(t[1..]);
    }
  }

  /** A text starting with a character other than an underscore collapses
   *  to that character and the collapsed rest. */
  lemma CollapseCons(c: char, x: string)
    ensures c != '_' ==> H.CollapseUnderscores([c] + x) == [c] + H.CollapseUnderscores(x)
    ensures c == '_' ==> H.CollapseUnderscores([c] + x) == "_" + H.CollapseUnderscores(LStrip(x, {'_'}))
    ensures c == '_' ==> LStrip([c] + x, {'_'}) == LStrip(x, {'_'})
    ensures c != '_' ==> LStrip([c] + x, {'_'}) == [c] + x
  {
    assert ([c] + x)[1..] == x;
  }

  /** Replacing a run of non-ASCII characters by one underscore, or each of
   *  them by its own, makes no difference once underscore runs are
   *  collapsed; the same holds for the text without its leading underscores. */
  lemma {:induction false} RunsCollapseAlike(t: string)
    ensures H.CollapseUnderscores(ReplaceNonAsciiRuns(t)) == H.CollapseUnderscores(H.ReplaceNonAscii(t))
    ensures H.CollapseUnderscores(LStrip(ReplaceNonAsciiRuns(t), {'_'}))
         == H.CollapseUnderscores(LStrip(H.ReplaceNonAscii(t), {'_'}))
    decreases |t|
  {
    if |t| > 0 {
      var rest := t[1..];
      if H.IsAscii(t[0]) {
        assert ReplaceNonAsciiRuns(t) == [t[0]] + ReplaceNonAsciiRuns(rest);
        assert H.ReplaceNonAscii(t) == [t[0]] + H.ReplaceNonAscii(rest);
        RunsCollapseAlike(rest);
        CollapseCons(t[0], ReplaceNonAsciiRuns(rest));
        CollapseCons(t[0], H.ReplaceNonAscii(rest));
      } else {
        var u := SkipNonAscii(rest);
        assert ReplaceNonAsciiRuns(t) == ['_'] + ReplaceNonAsciiRuns(u);
        assert H.ReplaceNonAscii(t) == ['_'] + H.ReplaceNonAscii(rest);
        RunsCollapseAlike(u);
        StripSkipped(rest);
        CollapseCons('_', ReplaceNonAsciiRuns(u));
        CollapseCons('_', H.ReplaceNonAscii(rest));
      }
    }
  }

  /** The name before the length limit: forbidden characters and non-ASCII
   *  runs replaced, underscore runs collapsed, dots and spaces stripped.  It
   *  `CleanNamesAgree` shows it is the clean name of the `app` sanitiser. */
  function CleanName(filename: string): string {
    Strip(H.CollapseUnderscores(ReplaceNonAsciiRuns(H.ReplaceForbidden(filename))), H.StripChars)
  }

  /** One underscore per non-ASCII run, or one per character, ends the same
   *  once runs are collapsed: both packages clean a name alike. */
  lemma CleanNamesAgree(filename: string)
    ensures CleanName(filename) == H.CleanName(filename)
  {
    RunsCollapseAlike(H.ReplaceForbidden(filename));
  }

  /** Cleaning never lengthens a name. */
  lemma CleanNameShorter(s: string)
    ensures |H.CleanName(s)| <= |s|
  {
  }

  /** The length limit: the first 196 characters and `...`. */
  function Truncate(f: string): (r: string)
    requires |f| > 200 && H.AllSafe(f) && H.NoDoubleUnderscore(f)
    ensures H.AllSafe(r) && H.NoDoubleUnderscore(r)
    ensures |r| == 199 && r[..196] == f[..196] && r[196..] == "..."
  {
    H.SubstringKeeps(f, 0, 196);
    assert f[0..196] == f[..196];
    H.ConcatKeeps(f[..196], "...");
    f[..196] + "..."
  }

  /** Below the limit the `app` sanitiser leaves the clean name alone too. */
  lemma UnlimitedAgrees(filename: string)
    requires |H.CleanName(filename)| <= 200
    ensures H.SanitizeFilename(filename) == H.CleanName(filename)
  {
  }

  /** `sanitize_filename`: a clean name over 200 characters keeps its first
   *  196 and gets `...`; below the limit it is the clean name itself. */
  function SanitizeFilename(filename: string): (r: string)
    ensures H.AllSafe(r) && H.NoDoubleUnderscore(r) && |r| <= 200
    ensures |CleanName(filename)| <= 200 ==> r == CleanName(filename)
    ensures |CleanName(filename)| > 200 ==> |r| == 199 && r[..196] == CleanName(filename)[..196] && r[196..] == "..."
  {
    var f := CleanName(filename);
    CleanNamesAgree(filename);
    if |f| > 200 then Truncate(f) else f
  }

  /** Below the limit both sanitisers give the same name. */
  lemma SanitizersAgreeBelowLimit(filename: string)
    requires |CleanName(filename)| <= 200
    ensures SanitizeFilename(filename) == H.SanitizeFilename(filename)
  {
    CleanNamesAgree(filename);
    UnlimitedAgrees(filename);
  }

  /** Below the limit a second pass changes nothing. */
  lemma SanitizeIdempotentBelowLimit(filename: string)
    requires |CleanName(filename)| <= 200
    ensures SanitizeFilename(SanitizeFilename(filename)) == SanitizeFilename(filename)
  {
    var c := H.CleanName(filename);
    CleanNamesAgree(filename);
    H.CleanNameNoop(c);
    CleanNamesAgree(c);
  }

  /** Over the limit a second pass strips the dots the first one added: the
   *  sanitiser is not idempotent. */
  lemma SanitizeNotIdempotent(filename: string)
    requires |CleanName(filename)| > 200
    ensures SanitizeFilename(SanitizeFilename(filename)) != SanitizeFilename(filename)
  {
    var r := SanitizeFilename(filename);
    assert r[198] == r[196..][2] == '.';
    CleanNameShorter(r);
    CleanNamesAgree(r);
    var c := H.CleanName(r);
    assert SanitizeFilename(r) == c;
    assert c == [] || c[|c| - 1] !in H.StripChars;
  }

  /** The two sanitisers part ways on a long extension: `a.` and 199 letters
   *  is cut to 199 characters here and kept over 200 by the `app` one. */
  lemma SanitizersDiverge(t: string)
    requires |t| >= 199 && H.AllLower(t)
    ensures SanitizeFilename("a." + t) != H.SanitizeFilename("a." + t)
  {
    H.SanitizeLongExtension(t);
  }

  // ---------------------------------------------------------------------------
  // The configuration (`config/config.py`)

  /** `HEADERS`. */
  const Headers: seq<string> := [
    "Title", "Description", "Tags", "Category", "Thumbnail",
    "Playlist", "Video ID", "Upload Date", "Drive File ID", "Download Status"]

  /** `PLAYLIST_ID`, written into every row as configured. */
  const PlaylistId := "NOTHINHG"
  /** `KEEP_FILE` as configured. */
  const KeepFileSetting := true
  const SpreadsheetId := "1Zi0Pjsdnd6rOCRuFA-pwKrXlzuGKCaLFebD51fnKDqU"
  const DriveFolderId := "1ZpYOI7VzZVhxtu8B6RGhQTjUbKNyKXwA"

  /** Positions in a row, from 0. */
  const VideoIdIndex: nat := 6
  const DriveFileIdIndex: nat := 8
  const DownloadStatusIndex: nat := 9

  /** The positions `process_video` relies on are those of their headers:
   *  `col_values(7)` is the Video ID column. */
  lemma IndicesNameHeaders()
    ensures IndexIn(Headers, "Video ID") == Some(VideoIdIndex)
    ensures IndexIn(Headers, "Drive File ID") == Some(DriveFileIdIndex)
    ensures IndexIn(Headers, "Download Status") == Some(DownloadStatusIndex)
  {
    assert Headers[6] == "Video ID" && Headers[8] == "Drive File ID" && Headers[9] == "Download Status";
    assert "Video ID" !in Headers[..6];
    assert "Drive File ID" !in Headers[..8];
    assert "Download Status" !in Headers[..9];
  }

  // ---------------------------------------------------------------------------
  // `get_video_data`

  const DataDownloadPrefix := "Download error: "
  const DataExtractionPrefix := "Data extraction error: "
  const NoInformationMessage := "Failed to extract video information"

  /** `f"{d[:4]}-{d[4:6]}-{d[6:]}"` for a non-empty date; the empty date stays. */
  function FormatUploadDate(d: string): string {
    if d == "" then "" else Take(d, 4) + "-" + Drop(Take(d, 6), 4) + "-" + Drop(d, 6)
  }

  /** A date of six characters or more gets its two dashes after the year
   *  and the month, and taking them out gives the date back. */
  lemma UploadDateRoundTrip(d: string)
    requires |d| >= 6
    ensures var r := FormatUploadDate(d);
      && |r| == |d| + 2 && r[4] == '-' && r[7] == '-'
      && r[..4] + r[5..7] + r[8..] == d
  {
    var r := FormatUploadDate(d);
    assert r == d[..4] + "-" + d[4..6] + "-" + d[6..];
    assert r[..4] == d[..4] && r[5..7] == d[4..6] && r[8..] == d[6..];
    assert d == d[..4] + d[4..6] + d[6..];
  }

  /** A failure other than yt-dlp's own error. */
  function ExtractionError(t: string): (e: Error)
    ensures e.kind == YouTubeDataError && !StartsWith(e.msg, DataDownloadPrefix)
  {
    var m := DataExtractionPrefix + t;
    assert m[1] != DataDownloadPrefix[1];
    Error(YouTubeDataError, m)
  }

  /** The row for a video, in `HEADERS` order, with an empty Drive File ID
   *  and the status "Pending". */
  function VideoRow(info: Info): (r: seq<string>)
    ensures |r| == |Headers|
    ensures r[0] == info.title.GetOr("") && r[1] == info.description.GetOr("")
    ensures info.tags.Some? && |info.tags.value| > 0 ==> r[2] == Join(info.tags.value, ", ")
    ensures info.tags.None? || info.tags.value == [] ==> r[2] == ""
    ensures info.categories.Some? && |info.categories.value| > 0 ==> r[3] == info.categories.value[0]
    ensures info.categories.None? || info.categories.value == [] ==> r[3] == ""
    ensures r[4] == info.thumbnail.GetOr("") && r[5] == PlaylistId
    ensures r[VideoIdIndex] == info.id.GetOr("")
    ensures r[7] == FormatUploadDate(info.uploadDate.GetOr(""))
    ensures r[DriveFileIdIndex] == "" && r[DownloadStatusIndex] == "Pending"
  {
    [info.title.GetOr(""), info.description.GetOr(""), TagsText(info), FirstCategory(info),
     info.thumbnail.GetOr(""), PlaylistId, info.id.GetOr(""),
     FormatUploadDate(info.uploadDate.GetOr("")), "", "Pending"]
  }

  /** `get_video_data`: the row of the returned dictionary.  A yt-dlp error
   *  is a download error; any other failure, the missing dictionary
   *  included, is a data extraction error. */
  function GetVideoData(x: Extraction): (r: Result<seq<string>>)
    ensures r.Ok? <==> x.Extracted? && x.info.Some?
    ensures r.Ok? ==> r.value == VideoRow(x.info.value)
    ensures r.Err? ==> r.error.kind == YouTubeDataError
    ensures r.Err? ==> (StartsWith(r.error.msg, DataDownloadPrefix) <==> x.ExtractorError?)
  {
    match x
    case Extracted(info) =>
      if info.None? then Err(ExtractionError(NoInformationMessage))
      else Ok(VideoRow(info.value))
    case ExtractorError(t) =>
      assert (DataDownloadPrefix + t)[..|DataDownloadPrefix|] == DataDownloadPrefix;
      Err(Error(YouTubeDataError, DataDownloadPrefix + t))
    case NetworkError(t) => Err(ExtractionError(t))
    case TimedOut(t) => Err(ExtractionError(t))
    case Failed(t) => Err(ExtractionError(t))
  }

  /** The Upload Date cell of a fetched row is the dashed form of the
   *  dictionary's date: taking the dashes out gives that date back. */
  lemma RowDateRoundTrip(x: Extraction)
    requires GetVideoData(x).Ok? && x.info.value.uploadDate.Some? && |x.info.value.uploadDate.value| >= 6
    ensures var cell := GetVideoData(x).value[7];
      cell[4] == '-' && cell[7] == '-' && cell[..4] + cell[5..7] + cell[8..] == x.info.value.uploadDate.value
  {
    UploadDateRoundTrip(x.info.value.uploadDate.value);
  }

  // ---------------------------------------------------------------------------
  // `get_or_create_sheet`

  /** What `open_by_key(SPREADSHEET_ID)` did. */
  datatype Opening =
    | Opened
    /** `SpreadsheetNotFound`; the `client_email` of the credentials file, if any. */
    | NotFound(clientEmail: Option<string>)
    /** Any other exception, by its text. */
    | AccessFailed(text: string)

  function NotFoundMessage(email: string): string {
    "Spreadsheet with ID '" + SpreadsheetId + "' not found. Please make sure:\n"
      + "1. The spreadsheet exists\n"
      + "2. The spreadsheet is shared with this service account: " + email + "\n"
      + "3. The spreadsheet ID is correct"
  }

  /** The error of a failed opening. */
  function OpeningError(o: Opening): (e: Error)
    requires !o.Opened?
    ensures e.kind == GoogleSheetsError
  {
    match o
    case NotFound(email) => Error(GoogleSheetsError, NotFoundMessage(email.GetOr("Unknown")))
    case AccessFailed(t) => Error(GoogleSheetsError, "Spreadsheet access error: " + t)
  }

  /** The rows after the header check: an empty first row gets the headers
   *  inserted above it, a different one has the sheet cleared first, and
   *  matching headers leave the sheet alone. */
  function Provision(rows: Table): Table {
    var current := if |rows| > 0 then TrimTrailing(rows[0]) else [];
    if current == [] then [Headers] + rows
    else if current != Headers then [Headers]
    else rows
  }

  lemma HeadersUntrimmed()
    ensures TrimTrailing(Headers) == Headers
  {
    assert Headers[|Headers| - 1] != "";
  }

  /** After the check the first row always reads as the headers (the `app`
   *  service appends them instead), every row under a blank first row is
   *  kept, and a second check changes nothing. */
  lemma ProvisionPutsHeadersFirst(rows: Table)
    ensures |Provision(rows)| > 0 && TrimTrailing(Provision(rows)[0]) == Headers
    ensures |rows| == 0 || TrimTrailing(rows[0]) == [] ==> Provision(rows)[1..] == rows
    ensures |rows| > 0 && TrimTrailing(rows[0]) !in {[], Headers} ==> Provision(rows) == [Headers]
    ensures Provision(Provision(rows)) == Provision(rows)
  {
    HeadersUntrimmed();
  }

  // ---------------------------------------------------------------------------
  // `update_spreadsheet`

  const UpdateFailedPrefix := "Spreadsheet update failed: "
  const IndexErrorMessage := "list assignment index out of range"

  /** `video_id in sheet.col_values(7)`. */
  predicate Listed(rows: Table, videoId: string) {
    videoId in TrimTrailing(Column(rows, VideoIdIndex))
  }

  /** For a non-empty identifier, being listed is having a row whose Video
   *  ID cell holds it: the trimmed tail of the column is all empty. */
  lemma ListedByCell(rows: Table, videoId: string)
    requires videoId != ""
    ensures Listed(rows, videoId) <==> exists i :: 0 <= i < |rows| && Cell(rows, i, VideoIdIndex) == videoId
  {
    var col := Column(rows, VideoIdIndex);
    var kept := TrimTrailing(col);
    if Listed(rows, videoId) {
      var k :| 0 <= k < |kept| && kept[k] == videoId;
      assert col[k] == videoId;
    }
    if i :| 0 <= i < |rows| && Cell(rows, i, VideoIdIndex) == videoId {
      assert col[i] == videoId;
      assert i < |kept|;
      assert kept[i] == videoId;
    }
  }

  /** The list after `video_data[8] = drive_file_id` and `video_data[9] = 'Completed'`. */
  function Filled(data: seq<string>, driveFileId: string): seq<string>
    requires |data| > DownloadStatusIndex
  {
    data[DriveFileIdIndex := driveFileId][DownloadStatusIndex := "Completed"]
  }

  /** The outcome and the rows of `update_spreadsheet`: the filled row is
   *  appended unless its identifier is listed.  The sheet only grows, by at
   *  most one row. */
  function Update(rows: Table, data: seq<string>, driveFileId: string): (r: (Result<bool>, Table))
    ensures r.0.Err? ==> r.0.error.kind == GoogleSheetsError && StartsWith(r.0.error.msg, UpdateFailedPrefix)
    ensures |r.1| == |rows| + (if r.0 == Ok(true) then 1 else 0) && r.1[..|rows|] == rows
  {
    if |data| <= DownloadStatusIndex then (Err(Error(GoogleSheetsError, UpdateFailedPrefix + IndexErrorMessage)), rows)
    else if Listed(rows, data[VideoIdIndex]) then (Ok(false), rows)
    else (Ok(true), rows + [Filled(data, driveFileId)])
  }

  /** An appended row is the video's, completed, with the Drive identifier,
   *  and it was not listed before; appending the same video again is
   *  refused and leaves the sheet alone. */
  lemma UpdateAppendsOnce(rows: Table, data: seq<string>, driveFileId: string, again: string)
    requires Update(rows, data, driveFileId).0 == Ok(true) && data[VideoIdIndex] != ""
    ensures var after := Update(rows, data, driveFileId).1;
      && !(exists i :: 0 <= i < |rows| && Cell(rows, i, VideoIdIndex) == data[VideoIdIndex])
      && Cell(after, |rows|, VideoIdIndex) == data[VideoIdIndex]
      && Cell(after, |rows|, DriveFileIdIndex) == driveFileId
      && Cell(after, |rows|, DownloadStatusIndex) == "Completed"
      && Update(after, data, again) == (Ok(false), after)
  {
    var after := Update(rows, data, driveFileId).1;
    ListedByCell(rows, data[VideoIdIndex]);
    ListedByCell(after, data[VideoIdIndex]);
    assert after[|rows|] == Filled(data, driveFileId);
    assert Cell(after, |rows|, VideoIdIndex) == data[VideoIdIndex];
  }

  // ---------------------------------------------------------------------------
  // `upload_to_drive`

  const UploadFailedPrefix := "Upload failed: "
  /** `validate_file_exists`'s message for a missing file, before the path. */
  const FileNotFoundPrefix := "File validation failed: File not found: "

  /** An error of the upload: every failure inside it is caught again and
   *  re-raised with the prefix. */
  function UploadError(t: string): (e: Error)
    ensures e.kind == GoogleDriveError && StartsWith(e.msg, UploadFailedPrefix)
  {
    assert (UploadFailedPrefix + t)[..|UploadFailedPrefix|] == UploadFailedPrefix;
    Error(GoogleDriveError, UploadFailedPrefix + t)
  }

  /** The result of `upload_to_drive`: the identifier in the final response,
   *  possibly absent, or the error. */
  function UploadResult(files: map<Path, nat>, path: Path, chunks: seq<G.Chunk>): (r: Result<Option<string>>)
    requires G.Transcript(chunks)
    ensures r.Err? ==> r.error.kind == GoogleDriveError && StartsWith(r.error.msg, UploadFailedPrefix)
    ensures path !in files ==> r == Err(UploadError(FileNotFoundPrefix + PathText(path)))
  {
    if path !in files then Err(UploadError(FileNotFoundPrefix + PathText(path)))
    else match chunks[|chunks| - 1]
      case ChunkError(t) => Err(UploadError(t))
      case Step(_, response) => Ok(response.value.id)
  }

  /** The chunk reported a percent. */
  predicate Reported(c: G.Chunk) {
    c.Step? && c.status.Some?
  }

  /** The percents the loop logs, from the last logged one `last` on: each
   *  reported percent that exceeds the last logged one. */
  function Logged(chunks: seq<G.Chunk>, last: nat): seq<nat>
    decreases |chunks|
  {
    if |chunks| == 0 then []
    else if Reported(chunks[0]) && chunks[0].status.value > last then
      [chunks[0].status.value] + Logged(chunks[1..], chunks[0].status.value)
    else Logged(chunks[1..], last)
  }

  /** The last logged percent, `last` before any. */
  function Peak(logged: seq<nat>, last: nat): nat {
    if |logged| == 0 then last else logged[|logged| - 1]
  }

  /** The log rises strictly from above its start (so a first 0% is never
   *  logged), holds only reported percents, and ends at the highest one. */
  lemma {:induction false} LoggedRises(chunks: seq<G.Chunk>, last: nat)
    ensures var r := Logged(chunks, last);
      && (forall i :: 0 <= i < |r| ==> r[i] > last)
      && G.StrictlyIncreasing(r)
      && Peak(r, last) >= last
      && (forall k :: 0 <= k < |chunks| && Reported(chunks[k]) ==> chunks[k].status.value <= Peak(r, last))
      && (forall i :: 0 <= i < |r| ==> exists k :: 0 <= k < |chunks| && Reported(chunks[k]) && chunks[k].status.value == r[i])
    decreases |chunks|
  {
    if |chunks| > 0 {
      var c := chunks[0];
      var rest := chunks[1..];
      var r := Logged(chunks, last);
      if Reported(c) && c.status.value > last {
        var p := c.status.value;
        LoggedRises(rest, p);
        var t := Logged(rest, p);
        assert r == [p] + t;
        forall a, b | 0 <= a < b < |r| ensures r[a] < r[b] {
          assert r[b] == t[b - 1];
          if a > 0 {
            assert r[a] == t[a - 1];
          }
        }
        forall i | 0 <= i < |r|
          ensures exists k :: 0 <= k < |chunks| && Reported(chunks[k]) && chunks[k].status.value == r[i]
        {
          if i > 0 {
            var k :| 0 <= k < |rest| && Reported(rest[k]) && rest[k].status.value == t[i - 1];
            assert chunks[k + 1] == rest[k];
          }
        }
        forall k | 0 <= k < |chunks| && Reported(chunks[k]) ensures chunks[k].status.value <= Peak(r, last) {
          if k > 0 {
            assert chunks[k] == rest[k - 1];
          }
        }
      } else {
        LoggedRises(rest, last);
        assert r == Logged(rest, last);
        forall i | 0 <= i < |r|
          ensures exists k :: 0 <= k < |chunks| && Reported(chunks[k]) && chunks[k].status.value == r[i]
        {
          var k :| 0 <= k < |rest| && Reported(rest[k]) && rest[k].status.value == r[i];
          assert chunks[k + 1] == rest[k];
        }
        forall k | 0 <= k < |chunks| && Reported(chunks[k]) ensures chunks[k].status.value <= Peak(r, last) {
          if k > 0 {
            assert chunks[k] == rest[k - 1];
          }
        }
      }
    }
  }

  /** One turn of the loop, on the chunks still to come. */
  lemma LoggedStep(chunks: seq<G.Chunk>, i: nat, last: nat)
    requires i < |chunks|
    ensures Reported(chunks[i]) && chunks[i].status.value > last ==>
      Logged(chunks[i..], last) == [chunks[i].status.value] + Logged(chunks[i + 1..], chunks[i].status.value)
    ensures !(Reported(chunks[i]) && chunks[i].status.value > last) ==>
      Logged(chunks[i..], last) == Logged(chunks[i + 1..], last)
  {
    assert chunks[i..][0] == chunks[i];
    assert chunks[i..][1..] == chunks[i + 1..];
  }

  /** When the chunks still to come log nothing, the log so far is all of it. */
  lemma LoggedAtEnd(chunks: seq<G.Chunk>, i: nat, last: nat, logged: seq<nat>)
    requires i == |chunks| || (i + 1 == |chunks| && !Reported(chunks[i]))
    requires logged + Logged(chunks[i..], last) == Logged(chunks, 0)
    ensures logged == Logged(chunks, 0)
  {
    if i < |chunks| {
      LoggedStep(chunks, i, last);
    }
    assert chunks[|chunks|..] == [];
    assert logged + [] == logged;
  }

  // ---------------------------------------------------------------------------
  // `download_video`

  /** What `extract_info(video_url, download=True)` did. */
  datatype Retrieval =
    /** It returned this dictionary; `written` is the size of the file it
     *  left at `<videos>/<id>.mp4`, `None` when it left none there. */
    | Retrieved(info: Info, written: Option<nat>)
    /** It raised (a missing dictionary included), by the exception text. */
    | RetrievalFailed(text: string)

  const DownloadFailedPrefix := "Video download failed: "
  const NoIdMessage := "Could not extract video ID"
  const NotCreatedMessage := "Download completed but file was not created"

  /** An error of the download: every failure inside it is caught again and
   *  re-raised with the prefix. */
  function DownloadFailure(t: string): (e: Error)
    ensures e.kind == YouTubeDataError && StartsWith(e.msg, DownloadFailedPrefix)
  {
    assert (DownloadFailedPrefix + t)[..|DownloadFailedPrefix|] == DownloadFailedPrefix;
    Error(YouTubeDataError, DownloadFailedPrefix + t)
  }

  /** `videos_dir / f"{video_id}.mp4"`. */
  function TempVideoPath(videosDir: Path, videoId: string): Path {
    videosDir + [videoId + ".mp4"]
  }

  /** `videos_dir / f"{sanitize_filename(video_title)}_{video_id}.mp4"`. */
  function FinalVideoPath(videosDir: Path, title: string, videoId: string): Path {
    videosDir + [SanitizeFilename(title) + "_" + videoId + ".mp4"]
  }

  /** `path.with_name(f"backup_{path.name}")`. */
  function BackupPath(p: Path): Path {
    Parent(p) + ["backup_" + Name(p)]
  }

  /** `info.get('title', video_id)`. */
  function TitleOf(info: Info, videoId: string): string {
    info.title.GetOr(videoId)
  }

  /** The downloaded, renamed and backup paths are three different files. */
  lemma PathsDistinct(videosDir: Path, title: string, videoId: string)
    ensures var temp := TempVideoPath(videosDir, videoId);
      var final := FinalVideoPath(videosDir, title, videoId);
      temp != final && BackupPath(final) != final && BackupPath(final) != temp
  {
    var temp := TempVideoPath(videosDir, videoId);
    var final := FinalVideoPath(videosDir, title, videoId);
    var backup := BackupPath(final);
    assert Name(temp) == videoId + ".mp4";
    assert Name(final) == SanitizeFilename(title) + "_" + videoId + ".mp4";
    assert Name(backup) == "backup_" + Name(final);
    assert |Name(temp)| < |Name(final)| < |Name(backup)|;
  }

  /** The outcome and the files of `download_video`: the file yt-dlp left
   *  under the identifier is renamed after the title, copied to its backup
   *  name, and deleted when files are not kept; its path is returned even
   *  then. */
  function Download(files: map<Path, nat>, videosDir: Path, keepFile: bool, x: Retrieval): (r: (Result<Path>, map<Path, nat>))
    ensures r.0.Err? ==> r.0.error.kind == YouTubeDataError && StartsWith(r.0.error.msg, DownloadFailedPrefix)
    ensures r.0.Ok? ==>
      && x.Retrieved? && x.info.id.Some? && x.info.id.value != ""
      && r.0.value == FinalVideoPath(videosDir, TitleOf(x.info, x.info.id.value), x.info.id.value)
  {
    match x
    case RetrievalFailed(t) => (Err(DownloadFailure(t)), files)
    case Retrieved(info, written) =>
      var videoId := info.id.GetOr("");
      if videoId == "" then (Err(DownloadFailure(NoIdMessage)), files)
      else
        var temp := TempVideoPath(videosDir, videoId);
        var fetched := Fetched(files, temp, written);
        if temp !in fetched then (Err(DownloadFailure(NotCreatedMessage)), fetched)
        else
          var final := FinalVideoPath(videosDir, TitleOf(info, videoId), videoId);
          (Ok(final), Promote(fetched, temp, final, keepFile))
  }

  /** The files after yt-dlp has left `written` bytes at `temp`, if any. */
  function Fetched(files: map<Path, nat>, temp: Path, written: Option<nat>): map<Path, nat> {
    if written.Some? then files[temp := written.value] else files
  }

  /** The files after the rename, the backup copy and, unless files are
   *  kept, the deletion of the renamed file. */
  function Promote(files: map<Path, nat>, temp: Path, final: Path, keepFile: bool): map<Path, nat>
    requires temp in files
  {
    var renamed := (files - {temp})[final := files[temp]];
    var copied := renamed[BackupPath(final) := renamed[final]];
    if keepFile then copied else copied - {final}
  }

  /** With three different paths, promoting moves the bytes to the final
   *  and the backup path and touches nothing else. */
  lemma PromoteEffects(files: map<Path, nat>, temp: Path, final: Path, keepFile: bool)
    requires temp in files && temp != final && BackupPath(final) != final && BackupPath(final) != temp
    ensures var after := Promote(files, temp, final, keepFile);
      && temp !in after
      && BackupPath(final) in after && after[BackupPath(final)] == files[temp]
      && (final in after <==> keepFile)
      && (keepFile ==> after[final] == files[temp])
      && forall q :: q != temp && q != final && q != BackupPath(final) ==>
           (q in after <==> q in files) && (q in files ==> after[q] == files[q])
  {
  }

  /** After a download the temporary file is gone, the backup holds the
   *  downloaded bytes, the returned path exists exactly when files are kept,
   *  and no other file changed. */
  lemma DownloadEffects(files: map<Path, nat>, videosDir: Path, keepFile: bool, x: Retrieval)
    requires Download(files, videosDir, keepFile, x).0.Ok?
    ensures var (got, after) := Download(files, videosDir, keepFile, x);
      var videoId := x.info.id.value;
      var temp := TempVideoPath(videosDir, videoId);
      var final := got.value;
      var size := if x.written.Some? then x.written.value else files[temp];
      && (x.written.None? ==> temp in files)
      && temp !in after
      && BackupPath(final) in after && after[BackupPath(final)] == size
      && (final in after <==> keepFile)
      && (keepFile ==> after[final] == size)
      && forall q :: q != temp && q != final && q != BackupPath(final) ==>
           (q in after <==> q in files) && (q in files ==> after[q] == files[q])
  {
    match x
    case Retrieved(info, written) =>
      var videoId := info.id.value;
      var temp := TempVideoPath(videosDir, videoId);
      var final := FinalVideoPath(videosDir, TitleOf(info, videoId), videoId);
      var fetched := Fetched(files, temp, written);
      assert temp in fetched;
      PathsDistinct(videosDir, TitleOf(info, videoId), videoId);
      PromoteEffects(fetched, temp, final, keepFile);
  }

  // ---------------------------------------------------------------------------
  // `process_video`

  const NoDriveIdMessage := "Failed to upload to Google Drive"

  /** The upload of the downloaded file and the sheet update: an absent or
   *  empty Drive identifier is an error of its own, raised outside the
   *  upload and so without its prefix. */
  function UploadAndRecord(rows: Table, files: map<Path, nat>, path: Path, data: seq<string>, chunks: seq<G.Chunk>): (r: (Result<bool>, Table))
    requires G.Transcript(chunks)
    ensures r.0.Err? ==> r.1 == rows
    ensures r.0.Err? ==> r.0.error.kind in {GoogleDriveError, GoogleSheetsError}
  {
    match UploadResult(files, path, chunks)
    case Err(e) => (Err(e), rows)
    case Ok(id) =>
      if id.None? || id.value == "" then (Err(Error(GoogleDriveError, NoDriveIdMessage)), rows)
      else Update(rows, data, id.value)
  }

  /** Everything from the download on; once the download returned its path,
   *  the `finally` clause deletes that file whatever happened next. */
  function AfterData(rows: Table, files: map<Path, nat>, videosDir: Path, keepFile: bool, data: seq<string>, x: Retrieval, chunks: seq<G.Chunk>): (r: (Result<bool>, Table, map<Path, nat>))
    requires G.Transcript(chunks)
    ensures r.0.Err? ==> r.0.error.kind in {YouTubeDataError, GoogleDriveError, GoogleSheetsError}
  {
    var (got, downloaded) := Download(files, videosDir, keepFile, x);
    if got.Err? then (Err(got.error), rows, downloaded)
    else
      var (outcome, updated) := UploadAndRecord(rows, downloaded, got.value, data, chunks);
      (outcome, updated, downloaded - {got.value})
  }

  /** The outcome, the rows of `sheet1` and the files after `process_video`,
   *  given what URL validation, opening the spreadsheet, reading the
   *  metadata, the download and the upload did.  Errors propagate unchanged. */
  function Process(rows: Table, files: map<Path, nat>, videosDir: Path, keepFile: bool, validated: Result<string>,
                   opening: Opening, data: Result<seq<string>>, x: Retrieval, chunks: seq<G.Chunk>): (r: (Result<bool>, Table, map<Path, nat>))
    requires G.Transcript(chunks)
    ensures validated.Err? || !opening.Opened? ==> r.1 == rows && r.2 == files
    ensures r.2 != files ==> validated.Ok? && opening.Opened? && data.Ok? && x.Retrieved?
  {
    if validated.Err? then (Err(validated.error), rows, files)
    else if !opening.Opened? then (Err(OpeningError(opening)), rows, files)
    else
      var sheet := Provision(rows);
      if data.Err? then (Err(data.error), sheet, files)
      else AfterData(sheet, files, videosDir, keepFile, data.value, x, chunks)
  }

  /** Once URL, spreadsheet and metadata are in hand, the rest is the
   *  download and what follows it, on the provisioned rows. */
  lemma ProcessReachesDownload(rows: Table, files: map<Path, nat>, videosDir: Path, keepFile: bool, validated: Result<string>,
                               opening: Opening, data: Result<seq<string>>, x: Retrieval, chunks: seq<G.Chunk>)
    requires G.Transcript(chunks) && validated.Ok? && opening.Opened? && data.Ok?
    ensures Process(rows, files, videosDir, keepFile, validated, opening, data, x, chunks)
         == AfterData(Provision(rows), files, videosDir, keepFile, data.value, x, chunks)
  {
  }

  /** After a download the files are the download's, less the returned path. */
  lemma AfterDataFiles(rows: Table, files: map<Path, nat>, videosDir: Path, keepFile: bool, data: seq<string>, x: Retrieval, chunks: seq<G.Chunk>)
    requires G.Transcript(chunks) && Download(files, videosDir, keepFile, x).0.Ok?
    ensures var got := Download(files, videosDir, keepFile, x);
      AfterData(rows, files, videosDir, keepFile, data, x, chunks).2 == got.1 - {got.0.value}
  {
  }

  /** Every error comes from the stage that raised it: a validation error
   *  only from the URL, and otherwise one of the kinds the later stages raise. */
  lemma ErrorsByStage(rows: Table, files: map<Path, nat>, videosDir: Path, keepFile: bool, validated: Result<string>,
                      opening: Opening, data: Result<seq<string>>, x: Retrieval, chunks: seq<G.Chunk>)
    requires G.Transcript(chunks)
    requires validated.Err? ==> validated.error.kind == ValidationError
    requires data.Err? ==> data.error.kind == YouTubeDataError
    ensures var r := Process(rows, files, videosDir, keepFile, validated, opening, data, x, chunks);
      r.0.Err? ==>
        && (r.0.error.kind == ValidationError <==> validated.Err?)
        && r.0.error.kind in {ValidationError, GoogleSheetsError, YouTubeDataError, GoogleDriveError}
  {
  }

  /** A downloaded file never outlives the run: the `finally` clause
   *  deletes the returned path, so only the backup copy stays, and no file
   *  other than the download's three paths changes. */
  lemma DownloadedFileRemoved(rows: Table, files: map<Path, nat>, videosDir: Path, keepFile: bool, validated: Result<string>,
                              opening: Opening, data: Result<seq<string>>, x: Retrieval, chunks: seq<G.Chunk>)
    requires G.Transcript(chunks) && validated.Ok? && opening.Opened? && data.Ok?
    requires Download(files, videosDir, keepFile, x).0.Ok?
    ensures var after := Process(rows, files, videosDir, keepFile, validated, opening, data, x, chunks).2;
      var p := Download(files, videosDir, keepFile, x).0.value;
      var temp := TempVideoPath(videosDir, x.info.id.value);
      && p !in after && temp !in after && BackupPath(p) in after
      && forall q :: q != temp && q != p && q != BackupPath(p) ==>
           (q in after <==> q in files) && (q in files ==> after[q] == files[q])
  {
    ProcessReachesDownload(rows, files, videosDir, keepFile, validated, opening, data, x, chunks);
    AfterDataFiles(Provision(rows), files, videosDir, keepFile, data.value, x, chunks);
    DownloadEffects(files, videosDir, keepFile, x);
  }

  /** With files not kept the download deletes the file it returns, so the
   *  upload cannot find it: every run that gets that far fails, and the
   *  sheet gets no row. */
  lemma KeepFileOffFailsUpload(rows: Table, files: map<Path, nat>, videosDir: Path, validated: Result<string>,
                               opening: Opening, data: Result<seq<string>>, x: Retrieval, chunks: seq<G.Chunk>)
    requires G.Transcript(chunks) && validated.Ok? && opening.Opened? && data.Ok?
    requires Download(files, videosDir, false, x).0.Ok?
    ensures var r := Process(rows, files, videosDir, false, validated, opening, data, x, chunks);
      var p := Download(files, videosDir, false, x).0.value;
      r.0 == Err(UploadError(FileNotFoundPrefix + PathText(p))) && r.1 == Provision(rows)
  {
    ProcessReachesDownload(rows, files, videosDir, false, validated, opening, data, x, chunks);
    DownloadEffects(files, videosDir, false, x);
  }

  /** The sheet is provisioned once it is opened and then grows by at most
   *  the one appended row, which only a `True` result reports. */
  lemma SheetGrowsByAtMostOne(rows: Table, files: map<Path, nat>, videosDir: Path, keepFile: bool, validated: Result<string>,
                              opening: Opening, data: Result<seq<string>>, x: Retrieval, chunks: seq<G.Chunk>)
    requires G.Transcript(chunks) && validated.Ok? && opening.Opened?
    ensures var r := Process(rows, files, videosDir, keepFile, validated, opening, data, x, chunks);
      var sheet := Provision(rows);
      && (r.0 == Ok(true) ==> |r.1| == |sheet| + 1 && r.1[..|sheet|] == sheet)
      && (r.0 != Ok(true) ==> r.1 == sheet)
  {
    if data.Ok? {
      ProcessReachesDownload(rows, files, videosDir, keepFile, validated, opening, data, x, chunks);
    }
  }

  /** A `True` result means the whole pipeline ran with files kept: the
   *  upload returned a non-empty identifier, the video was not listed, and
   *  its row went in completed with that identifier. */
  lemma SuccessAppendsCompletedRow(rows: Table, files: map<Path, nat>, videosDir: Path, keepFile: bool, validated: Result<string>,
                                   opening: Opening, data: Result<seq<string>>, x: Retrieval, chunks: seq<G.Chunk>)
    requires G.Transcript(chunks)
    requires Process(rows, files, videosDir, keepFile, validated, opening, data, x, chunks).0 == Ok(true)
    ensures validated.Ok? && opening.Opened? && data.Ok? && keepFile && |data.value| > DownloadStatusIndex
    ensures Download(files, videosDir, keepFile, x).0.Ok?
    ensures var got := Download(files, videosDir, keepFile, x);
      var up := UploadResult(got.1, got.0.value, chunks);
      var r := Process(rows, files, videosDir, keepFile, validated, opening, data, x, chunks);
      && up.Ok? && up.value.Some? && up.value.value != ""
      && !Listed(Provision(rows), data.value[VideoIdIndex])
      && r.1 == Provision(rows) + [Filled(data.value, up.value.value)]
  {
    ProcessReachesDownload(rows, files, videosDir, keepFile, validated, opening, data, x, chunks);
    DownloadEffects(files, videosDir, keepFile, x);
  }

  /** A `False` result comes only after the upload: a video already listed
   *  is still downloaded and uploaded before the duplicate check refuses it. */
  lemma DuplicateCheckedAfterUpload(rows: Table, files: map<Path, nat>, videosDir: Path, keepFile: bool, validated: Result<string>,
                                    opening: Opening, data: Result<seq<string>>, x: Retrieval, chunks: seq<G.Chunk>)
    requires G.Transcript(chunks)
    requires Process(rows, files, videosDir, keepFile, validated, opening, data, x, chunks).0 == Ok(false)
    ensures validated.Ok? && opening.Opened? && data.Ok? && keepFile && |data.value| > DownloadStatusIndex
    ensures Download(files, videosDir, keepFile, x).0.Ok?
    ensures var got := Download(files, videosDir, keepFile, x);
      var up := UploadResult(got.1, got.0.value, chunks);
      && up.Ok? && up.value.Some? && up.value.value != ""
      && Listed(Provision(rows), data.value[VideoIdIndex])
  {
    ProcessReachesDownload(rows, files, videosDir, keepFile, validated, opening, data, x, chunks);
    DownloadEffects(files, videosDir, keepFile, x);
  }

  /** Rows whose first row reads as the headers pass the check unchanged,
   *  whatever is appended below them. */
  lemma ProvisionKeepsAppended(rows: Table, row: seq<string>)
    requires |rows| > 0 && TrimTrailing(rows[0]) == Headers
    ensures Provision(rows + [row]) == rows + [row]
  {
    assert (rows + [row])[0] == rows[0];
  }

  /** When yt-dlp writes the file, the download succeeds and its result
   *  depends on the files only through the promotion. */
  lemma DownloadWritten(files: map<Path, nat>, videosDir: Path, keepFile: bool, x: Retrieval)
    requires x.Retrieved? && x.written.Some? && x.info.id.Some? && x.info.id.value != ""
    ensures var videoId := x.info.id.value;
      var temp := TempVideoPath(videosDir, videoId);
      var final := FinalVideoPath(videosDir, TitleOf(x.info, videoId), videoId);
      Download(files, videosDir, keepFile, x) == (Ok(final), Promote(files[temp := x.written.value], temp, final, keepFile))
  {
  }

  /** Writing, promoting with files kept and deleting the final path a
   *  second time gives the same files as the first time. */
  lemma PromoteAgain(files: map<Path, nat>, temp: Path, final: Path, size: nat)
    requires temp != final && BackupPath(final) != final && BackupPath(final) != temp
    ensures var once := Promote(files[temp := size], temp, final, true) - {final};
      Promote(once[temp := size], temp, final, true) - {final} == once
  {
    var once := Promote(files[temp := size], temp, final, true) - {final};
    var twice := Promote(once[temp := size], temp, final, true) - {final};
    PromoteEffects(files[temp := size], temp, final, true);
    PromoteEffects(once[temp := size], temp, final, true);
    assert forall q :: q in twice <==> q in once;
  }

  /** The upload of a file that exists depends only on the transcript. */
  lemma UploadOfPresentFile(a: map<Path, nat>, b: map<Path, nat>, path: Path, chunks: seq<G.Chunk>)
    requires G.Transcript(chunks) && path in a && path in b
    ensures UploadResult(a, path, chunks) == UploadResult(b, path, chunks)
  {
  }

  /** After a successful download, the run's outcome and rows are those of
   *  the upload and the update, and its files lack the returned path. */
  lemma AfterDownload(rows: Table, files: map<Path, nat>, videosDir: Path, keepFile: bool, data: seq<string>, x: Retrieval, chunks: seq<G.Chunk>)
    requires G.Transcript(chunks) && Download(files, videosDir, keepFile, x).0.Ok?
    ensures var got := Download(files, videosDir, keepFile, x);
      var recorded := UploadAndRecord(rows, got.1, got.0.value, data, chunks);
      AfterData(rows, files, videosDir, keepFile, data, x, chunks) == (recorded.0, recorded.1, got.1 - {got.0.value})
  {
  }

  /** Processing a video a second time, with files kept and yt-dlp writing
   *  the file again, uploads it again but reports it as already listed and
   *  leaves the sheet as the first run left it. */
  lemma SecondRunReportsDuplicate(rows: Table, files: map<Path, nat>, videosDir: Path, keepFile: bool, validated: Result<string>,
                                  opening: Opening, data: Result<seq<string>>, x: Retrieval, chunks: seq<G.Chunk>)
    requires G.Transcript(chunks)
    requires Process(rows, files, videosDir, keepFile, validated, opening, data, x, chunks).0 == Ok(true)
    requires data.Ok? && |data.value| > VideoIdIndex && data.value[VideoIdIndex] != ""
    requires x.Retrieved? && x.written.Some?
    ensures var first := Process(rows, files, videosDir, keepFile, validated, opening, data, x, chunks);
      Process(first.1, first.2, videosDir, keepFile, validated, opening, data, x, chunks) == (Ok(false), first.1, first.2)
  {
    var first := Process(rows, files, videosDir, keepFile, validated, opening, data, x, chunks);
    SuccessAppendsCompletedRow(rows, files, videosDir, keepFile, validated, opening, data, x, chunks);
    var videoId := x.info.id.value;
    var temp := TempVideoPath(videosDir, videoId);
    var got := Download(files, videosDir, keepFile, x);
    var p := got.0.value;
    var id := UploadResult(got.1, p, chunks).value.value;
    var sheet := Provision(rows);
    // The sheet: provisioned once, then the completed row.
    ProvisionPutsHeadersFirst(rows);
    ProvisionKeepsAppended(sheet, Filled(data.value, id));
    UpdateAppendsOnce(sheet, data.value, id, id);
    assert first.1 == Update(sheet, data.value, id).1;
    // The files: the same download lands on the same paths.
    DownloadWritten(files, videosDir, keepFile, x);
    DownloadWritten(first.2, videosDir, keepFile, x);
    PathsDistinct(videosDir, TitleOf(x.info, videoId), videoId);
    ProcessReachesDownload(rows, files, videosDir, keepFile, validated, opening, data, x, chunks);
    AfterDownload(sheet, files, videosDir, keepFile, data.value, x, chunks);
    assert first.2 == got.1 - {p};
    PromoteAgain(files, temp, p, x.written.value);
    var again := Download(first.2, videosDir, keepFile, x);
    assert again.0 == got.0 && again.1 - {p} == first.2;
    PromoteEffects(first.2[temp := x.written.value], temp, p, true);
    UploadOfPresentFile(got.1, again.1, p, chunks);
    ProcessReachesDownload(first.1, first.2, videosDir, keepFile, validated, opening, data, x, chunks);
    AfterDownload(first.1, first.2, videosDir, keepFile, data.value, x, chunks);
  }

  // ---------------------------------------------------------------------------
  // The manager

  class YouTubeManager {
    /** `sheet1` of the spreadsheet `open_by_key(SPREADSHEET_ID)` opens. */
    const sheet1: Worksheet
    /** `VIDEOS_DIR`. */
    const videosDir: Path
    /** `KEEP_FILE`, configured as `KeepFileSetting`. */
    const keepFile: bool

    /** `__init__`, past the service and yt-dlp setup. */
    constructor (sheet1: Worksheet, videosDir: Path, keepFile: bool)
      ensures this.sheet1 == sheet1 && this.videosDir == videosDir && this.keepFile == keepFile
    {
      this.sheet1 := sheet1;
      this.videosDir := videosDir;
      this.keepFile := keepFile;
    }

    /** `get_or_create_sheet`: the opened worksheet with its headers checked. */
    method GetOrCreateSheet(opening: Opening) returns (r: Result<Worksheet>)
      modifies sheet1
      ensures opening.Opened? ==> r == Ok(sheet1) && sheet1.rows == Provision(old(sheet1.rows))
      ensures !opening.Opened? ==> r == Err(OpeningError(opening)) && sheet1.rows == old(sheet1.rows)
    {
      if !opening.Opened? {
        return Err(OpeningError(opening));
      }
      var current := sheet1.RowValues(1);
      if current == [] {
        sheet1.InsertFirstRow(Headers);
      } else if current != Headers {
        sheet1.Clear();
        sheet1.InsertFirstRow(Headers);
      }
      r := Ok(sheet1);
    }

    /** `download_video`: the path of the renamed file, returned even when
     *  it was deleted again. */
    method DownloadVideo(fs: FileSystem, x: Retrieval) returns (r: Result<Path>)
      modifies fs
      ensures (r, fs.files) == Download(old(fs.files), videosDir, keepFile, x)
    {
      if x.RetrievalFailed? {
        return Err(DownloadFailure(x.text));
      }
      var info := x.info;
      var videoId := info.id.GetOr("");
      var title := TitleOf(info, videoId);
      if videoId == "" {
        return Err(DownloadFailure(NoIdMessage));
      }
      var temp := TempVideoPath(videosDir, videoId);
      if x.written.Some? {
        fs.Write(temp, x.written.value);
      }
      if !fs.Exists(temp) {
        return Err(DownloadFailure(NotCreatedMessage));
      }
      var final := FinalVideoPath(videosDir, title, videoId);
      var renamed := fs.Rename(temp, final);
      var backup := BackupPath(final);
      var copied := fs.Copy(final, backup);
      if !keepFile && fs.Exists(final) {
        var deleted := fs.Delete(final);
      }
      r := Ok(final);
    }

    /** `upload_to_drive`: the identifier of the final response, the file
     *  metadata sent (none when the file is missing) and the percents the
     *  loop logs. */
    method UploadToDrive(fs: FileSystem, path: Path, chunks: seq<G.Chunk>)
      returns (r: Result<Option<string>>, sent: Option<G.DriveFile>, logged: seq<nat>)
      requires G.Transcript(chunks)
      ensures r == UploadResult(fs.files, path, chunks)
      ensures path !in fs.files ==> sent.None? && logged == []
      ensures path in fs.files ==> sent == Some(G.DriveFile(Name(path), DriveFolderId)) && logged == Logged(chunks, 0)
    {
      if path !in fs.files {
        return Err(UploadError(FileNotFoundPrefix + PathText(path))), None, [];
      }
      sent := Some(G.DriveFile(Name(path), DriveFolderId));
      var response: Option<G.Response> := None;
      var lastProgress: nat := 0;
      logged := [];
      var i := 0;
      while response.None?
        invariant 0 <= i <= |chunks|
        invariant response.Some? <==> i == |chunks|
        invariant i > 0 ==> chunks[i - 1].Step? && response == chunks[i - 1].response
        invariant logged + Logged(chunks[i..], lastProgress) == Logged(chunks, 0)
        decreases |chunks| - i
      {
        var c := chunks[i];
        LoggedStep(chunks, i, lastProgress);
        if c.ChunkError? {
          assert G.Final(c);
          LoggedAtEnd(chunks, i, lastProgress, logged);
          return Err(UploadError(c.text)), sent, logged;
        }
        if c.status.Some? {
          var current := c.status.value;
          if current > lastProgress {
            assert logged + Logged(chunks[i..], lastProgress) == (logged + [current]) + Logged(chunks[i + 1..], current);
            logged := logged + [current];
            lastProgress := current;
          }
        }
        response := c.response;
        i := i + 1;
      }
      LoggedAtEnd(chunks, i, lastProgress, logged);
      r := Ok(response.value.id);
    }

    /** `update_spreadsheet`: the list is filled in place, one cell at a
     *  time, before the duplicate check. */
    method UpdateSpreadsheet(sheet: Worksheet, videoData: array<string>, driveFileId: string) returns (r: Result<bool>)
      modifies sheet, videoData
      ensures (r, sheet.rows) == Update(old(sheet.rows), old(videoData[..]), driveFileId)
      ensures videoData.Length > DownloadStatusIndex ==> videoData[..] == Filled(old(videoData[..]), driveFileId)
      ensures videoData.Length == DownloadStatusIndex ==> videoData[..] == old(videoData[..])[DriveFileIdIndex := driveFileId]
      ensures videoData.Length < DownloadStatusIndex ==> videoData[..] == old(videoData[..])
    {
      if videoData.Length <= DriveFileIdIndex {
        return Err(Error(GoogleSheetsError, UpdateFailedPrefix + IndexErrorMessage));
      }
      videoData[DriveFileIdIndex] := driveFileId;
      if videoData.Length <= DownloadStatusIndex {
        return Err(Error(GoogleSheetsError, UpdateFailedPrefix + IndexErrorMessage));
      }
      videoData[DownloadStatusIndex] := "Completed";
      var videoId := videoData[VideoIdIndex];
      var existingIds := sheet.ColValues(VideoIdIndex + 1);
      if videoId in existingIds {
        return Ok(false);
      }
      sheet.AppendRow(videoData[..]);
      r := Ok(true);
    }

    /** The upload and the sheet update of `process_video`, on a fresh copy
     *  of the row. */
    method UploadAndUpdate(fs: FileSystem, sheet: Worksheet, path: Path, data: seq<string>, chunks: seq<G.Chunk>) returns (r: Result<bool>)
      requires G.Transcript(chunks)
      modifies sheet
      ensures (r, sheet.rows) == UploadAndRecord(old(sheet.rows), fs.files, path, data, chunks)
    {
      var up, _, _ := UploadToDrive(fs, path, chunks);
      if up.Err? {
        return Err(up.error);
      }
      if up.value.None? || up.value.value == "" {
        return Err(Error(GoogleDriveError, NoDriveIdMessage));
      }
      var videoData := new string[|data|](i requires 0 <= i < |data| => data[i]);
      assert videoData[..] == data;
      r := UpdateSpreadsheet(sheet, videoData, up.value.value);
    }

    /** `process_video`: errors propagate unchanged, and once the download
     *  returned its path the `finally` clause deletes that file. */
    method ProcessVideo(fs: FileSystem, url: string, opening: Opening, extraction: Extraction, x: Retrieval, chunks: seq<G.Chunk>)
      returns (r: Result<bool>)
      requires G.Transcript(chunks)
      modifies fs, sheet1
      ensures (r, sheet1.rows, fs.files) == Process(old(sheet1.rows), old(fs.files), videosDir, keepFile,
                                                    UV.ValidateYoutubeUrl(url), opening, GetVideoData(extraction), x, chunks)
    {
      var videoId := UV.ValidateYoutubeUrl(url);
      r := ProcessValidated(fs, videoId, opening, extraction, x, chunks);
    }

    /** `process_video` after `validate_youtube_url` returned or raised. */
    method ProcessValidated(fs: FileSystem, videoId: Result<string>, opening: Opening, extraction: Extraction, x: Retrieval, chunks: seq<G.Chunk>)
      returns (r: Result<bool>)
      requires G.Transcript(chunks)
      modifies fs, sheet1
      ensures (r, sheet1.rows, fs.files) == Process(old(sheet1.rows), old(fs.files), videosDir, keepFile,
                                                    videoId, opening, GetVideoData(extraction), x, chunks)
    {
      ghost var rows, files := sheet1.rows, fs.files;
      if videoId.Err? {
        return Err(videoId.error);
      }
      var sheet := GetOrCreateSheet(opening);
      if sheet.Err? {
        return Err(sheet.error);
      }
      var videoData := GetVideoData(extraction);
      if videoData.Err? {
        return Err(videoData.error);
      }
      ProcessReachesDownload(rows, files, videosDir, keepFile, videoId, opening, videoData, x, chunks);
      r := DownloadAndRecord(fs, sheet.value, videoData.value, x, chunks);
    }

    /** `process_video` from the download on, with its `finally` clause. */
    method DownloadAndRecord(fs: FileSystem, sheet: Worksheet, videoData: seq<string>, x: Retrieval, chunks: seq<G.Chunk>)
      returns (r: Result<bool>)
      requires G.Transcript(chunks)
      modifies fs, sheet
      ensures (r, sheet.rows, fs.files) == AfterData(old(sheet.rows), old(fs.files), videosDir, keepFile, videoData, x, chunks)
    {
      ghost var rows, files := sheet.rows, fs.files;
      var videoPath := DownloadVideo(fs, x);
      if videoPath.Err? {
        return Err(videoPath.error);
      }
      ghost var downloaded := fs.files;
      AfterDownload(rows, files, videosDir, keepFile, videoData, x, chunks);
      ghost var recorded := UploadAndRecord(rows, downloaded, videoPath.value, videoData, chunks);
      assert AfterData(rows, files, videosDir, keepFile, videoData, x, chunks) == (recorded.0, recorded.1, downloaded - {videoPath.value});
      r := UploadAndUpdate(fs, sheet, videoPath.value, videoData, chunks);
      assert (r, sheet.rows) == recorded;
      if fs.Exists(videoPath.value) {
        var deleted := fs.Delete(videoPath.value);
      }
      assert fs.files == downloaded - {videoPath.value};
    }
  }
}
