/**
 * The pipeline of the `app` package (`app/core/processor.py`): validate the
 * identifier, fetch the metadata, add the sheet row, download, then either
 * upload and mark the row completed or record the local path.  Its effects
 * are on two pieces of state, the worksheet rows and the file map; what the
 * foreign libraries do (extraction, download, upload transport) and the
 * current date are parameters.
 */
module AppProcessor {
  import opened Common
  import opened PyText
  import opened Files
  import opened Media
  import opened Sheet
  import V = AppValidators
  import D = AppDownloader
  import S = AppSheets
  import G = AppDrive

  const ProcessingPrefix := "Processing error: "
  const PlaylistStubMessage := "Playlist processing not yet implemented"

  /** `ProcessingError(f"Processing error: {str(e)}")`. */
  function Wrap(e: Error): (w: Error)
    ensures w.kind == ProcessingError
    ensures StartsWith(w.msg, ProcessingPrefix) && w.msg[|ProcessingPrefix|..] == e.msg
  {
    Error(ProcessingError, ProcessingPrefix + e.msg)
  }

  /** The configuration `process_video` consults. */
  datatype Plan = Plan(
    /** `settings.UPLOAD_TO_DRIVE`. */
    uploadToDrive: bool,
    /** `settings.KEEP_FILES`. */
    keepFiles: bool,
    /** `settings.PLAYLIST_ID`, written into every row. */
    playlistId: Option<string>)

  /** The upload branch, after a download that produced `path`: upload,
   *  then mark the row found by title "Completed" with the file identifier,
   *  then remove the file unless it is to be kept.  An empty identifier
   *  skips both. */
  function UploadBranch(keepFiles: bool, title: string, added: Table, downloaded: map<Path, nat>, path: Path,
                        chunks: seq<G.Chunk>): (r: (Outcome, Table, map<Path, nat>))
    requires G.Transcript(chunks)
    ensures r.0.Fail? ==> r.0.error.kind == ProcessingError && StartsWith(r.0.error.msg, ProcessingPrefix)
  {
    match G.UploadResult(downloaded, path, chunks)
    case Err(e) => (Fail(Wrap(e)), added, downloaded)
    case Ok(fileId) =>
      if fileId == "" then (Pass, added, downloaded)
      else
        var (status, rows) := S.StatusUpdate(added, "Completed", Some(fileId), Some(title));
        if status.Fail? then (Fail(Wrap(status.error)), rows, downloaded)
        else (Pass, rows, if keepFiles then downloaded else downloaded - {path})
  }

  /** The local branch: the row found by title is updated with status
   *  "Completed Locally" and the local path as its Drive File ID. */
  function LocalBranch(title: string, added: Table, downloaded: map<Path, nat>, path: Path): (r: (Outcome, Table, map<Path, nat>))
    ensures r.0.Fail? ==> r.0.error.kind == ProcessingError && StartsWith(r.0.error.msg, ProcessingPrefix)
  {
    var (status, rows) := S.StatusUpdate(added, "Completed Locally", Some(PathText(path)), Some(title));
    (if status.Fail? then Fail(Wrap(status.error)) else Pass, rows, downloaded)
  }

  /** The stages after the metadata fetch, on the rows with the video's row
   *  already appended and the files before the download. */
  function AfterRow(d: D.YouTubeDownloader, plan: Plan, meta: D.Metadata,
                    added: Table, files: map<Path, nat>, fetch: D.Fetch, chunks: seq<G.Chunk>): (r: (Outcome, Table, map<Path, nat>))
    requires G.Transcript(chunks)
    ensures r.0.Fail? ==> r.0.error.kind == ProcessingError && StartsWith(r.0.error.msg, ProcessingPrefix)
  {
    var (got, downloaded) := Downloaded(d, files, meta, fetch);
    if got.Err? then (Fail(Wrap(got.error)), added, downloaded)
    else if plan.uploadToDrive then UploadBranch(plan.keepFiles, meta.title, added, downloaded, got.value, chunks)
    else LocalBranch(meta.title, added, downloaded, got.value)
  }

  /** The outcome, rows and files `process_video` leaves, given what the
   *  identifier check and the metadata fetch produced. */
  function Process(d: D.YouTubeDownloader, plan: Plan, rows: Table, files: map<Path, nat>, validated: Result<string>,
                   info: Result<D.Metadata>, fetch: D.Fetch, chunks: seq<G.Chunk>, today: string): (r: (Outcome, Table, map<Path, nat>))
    requires G.Transcript(chunks)
    ensures r.0.Fail? ==> r.0.error.kind == ProcessingError && StartsWith(r.0.error.msg, ProcessingPrefix)
  {
    if validated.Err? then (Fail(Wrap(validated.error)), rows, files)
    else if info.Err? then (Fail(Wrap(info.error)), rows, files)
    else AfterRow(d, plan, info.value, AddedRows(plan, rows, info.value, today), files, fetch, chunks)
  }

  // ---------------------------------------------------------------------------
  // What the ordering of the effects implies

  /** The rows with the one appended for `meta`. */
  function AddedRows(plan: Plan, rows: Table, meta: D.Metadata, today: string): (r: Table)
    ensures |r| == |rows| + 1 && r[..|rows|] == rows
    ensures Cell(r, |rows|, S.DownloadStatusColumn - 1) == "Pending"
    ensures meta.title in r[|rows|]
  {
    rows + [S.VideoRow(meta, None, plan.playlistId, today)]
  }

  /** The download of the video `meta` describes. */
  function Downloaded(d: D.YouTubeDownloader, files: map<Path, nat>, meta: D.Metadata, fetch: D.Fetch): (Result<Path>, map<Path, nat>) {
    D.DownloadOutcome(files, d.TempPath(meta), d.FinalPath(meta), fetch)
  }

  /** The rows a status update may leave: the same number, and every row
   *  but the first one holding the title exactly as it was. */
  ghost predicate OnlyTitleRow(added: Table, rows: Table, title: string) {
    && |rows| == |added|
    && forall k :: 0 <= k < |rows| && rows[k] != added[k] ==>
         FindIn(added, title).Some? && FindIn(added, title).value.0 == k
  }

  /** The local path of a video is never the empty text, so it is always
   *  written into the sheet. */
  lemma FinalPathText(d: D.YouTubeDownloader, meta: D.Metadata)
    ensures PathText(d.FinalPath(meta)) != ""
  {
    var p := d.FinalPath(meta);
    assert p[|p| - 1] == Name(p);
    JoinKeepsLast(p, "/");
  }

  /** What the local branch does to the rows and the files. */
  lemma LocalBranchEffects(title: string, added: Table, downloaded: map<Path, nat>, path: Path)
    requires PathText(path) != ""
    ensures var r := LocalBranch(title, added, downloaded, path);
      && r.2 == downloaded
      && OnlyTitleRow(added, r.1, title)
      && S.SameColumn(r.1, added, S.DownloadStatusColumn - 1)
      && (r.0.Pass? <==> title != "" && exists i :: 0 <= i < |added| && title in added[i])
      && (r.0.Pass? ==> Cell(r.1, FindIn(added, title).value.0, S.DriveFileIdColumn - 1) == PathText(path))
  {
    var (status, rows) := S.StatusUpdate(added, "Completed Locally", Some(PathText(path)), Some(title));
    assert S.Given(Some(PathText(path)));
  }

  /** What the upload branch does to the rows and the files. */
  lemma UploadBranchEffects(keepFiles: bool, title: string, added: Table, downloaded: map<Path, nat>, path: Path,
                            chunks: seq<G.Chunk>)
    requires G.Transcript(chunks) && path in downloaded
    ensures var r := UploadBranch(keepFiles, title, added, downloaded, path, chunks);
      var up := G.UploadResult(downloaded, path, chunks);
      && OnlyTitleRow(added, r.1, title)
      && (path !in r.2 <==> !keepFiles && r.0.Pass?)
      && (r.0.Fail? || keepFiles ==> r.2 == downloaded)
      && (up.Err? ==> r.0.Fail? && r.1 == added)
      && (up.Ok? ==> (r.0.Pass? <==> title != "" && exists i :: 0 <= i < |added| && title in added[i]))
      && (r.0.Pass? ==> up.Ok? && var i := FindIn(added, title).value.0;
            && Cell(r.1, i, S.DownloadStatusColumn - 1) == "Completed"
            && Cell(r.1, i, S.DriveFileIdColumn - 1) == up.value)
  {
    var up := G.UploadResult(downloaded, path, chunks);
    if up.Ok? {
      assert up.value != "";
      var (status, rows) := S.StatusUpdate(added, "Completed", Some(up.value), Some(title));
      assert S.Given(Some(up.value));
    }
  }

  /** With the metadata in hand, the run is the stages after the row. */
  lemma ProcessAfterRow(d: D.YouTubeDownloader, plan: Plan, rows: Table, files: map<Path, nat>, validated: Result<string>,
                        info: Result<D.Metadata>, fetch: D.Fetch, chunks: seq<G.Chunk>, today: string)
    requires G.Transcript(chunks) && validated.Ok? && info.Ok?
    ensures Process(d, plan, rows, files, validated, info, fetch, chunks, today)
      == AfterRow(d, plan, info.value, AddedRows(plan, rows, info.value, today), files, fetch, chunks)
  {
  }

  /** An identifier or metadata failure comes before any effect: no row, no file. */
  lemma EarlyFailureAddsNoRow(d: D.YouTubeDownloader, plan: Plan, rows: Table, files: map<Path, nat>, validated: Result<string>,
                              info: Result<D.Metadata>, fetch: D.Fetch, chunks: seq<G.Chunk>, today: string)
    requires G.Transcript(chunks) && !(validated.Ok? && info.Ok?)
    ensures var r := Process(d, plan, rows, files, validated, info, fetch, chunks, today);
      r.0.Fail? && r.1 == rows && r.2 == files
  {
  }

  /** Once the metadata is fetched, exactly one row is appended, whatever
   *  happens next, and the only row the status update may change is the
   *  first one holding the title. */
  lemma OneRowAdded(d: D.YouTubeDownloader, plan: Plan, rows: Table, files: map<Path, nat>, validated: Result<string>,
                    info: Result<D.Metadata>, fetch: D.Fetch, chunks: seq<G.Chunk>, today: string)
    requires G.Transcript(chunks) && validated.Ok? && info.Ok?
    ensures var r := Process(d, plan, rows, files, validated, info, fetch, chunks, today);
      && |r.1| == |rows| + 1
      && OnlyTitleRow(AddedRows(plan, rows, info.value, today), r.1, info.value.title)
  {
    var meta := info.value;
    var added := AddedRows(plan, rows, meta, today);
    ProcessAfterRow(d, plan, rows, files, validated, info, fetch, chunks, today);
    var (got, downloaded) := Downloaded(d, files, meta, fetch);
    if got.Ok? {
      if plan.uploadToDrive {
        UploadBranchEffects(plan.keepFiles, meta.title, added, downloaded, got.value, chunks);
      } else {
        FinalPathText(d, meta);
        LocalBranchEffects(meta.title, added, downloaded, got.value);
      }
    }
  }

  /** A failed download leaves the new row in place with its Download Status
   *  still "Pending". */
  lemma DownloadFailureLeavesPendingRow(d: D.YouTubeDownloader, plan: Plan, rows: Table, files: map<Path, nat>, validated: Result<string>,
                                        info: Result<D.Metadata>, fetch: D.Fetch, chunks: seq<G.Chunk>, today: string)
    requires G.Transcript(chunks) && validated.Ok? && info.Ok? && Downloaded(d, files, info.value, fetch).0.Err?
    ensures var r := Process(d, plan, rows, files, validated, info, fetch, chunks, today);
      && r.0.Fail?
      && r.1 == AddedRows(plan, rows, info.value, today)
      && Cell(r.1, |rows|, S.DownloadStatusColumn - 1) == "Pending"
  {
  }

  /** Nothing is cleaned up on failure: after a successful download, a
   *  failing upload or status update leaves the downloaded file in place. */
  lemma FailureKeepsDownload(d: D.YouTubeDownloader, plan: Plan, rows: Table, files: map<Path, nat>, validated: Result<string>,
                             info: Result<D.Metadata>, fetch: D.Fetch, chunks: seq<G.Chunk>, today: string)
    requires G.Transcript(chunks) && validated.Ok? && info.Ok? && Downloaded(d, files, info.value, fetch).0.Ok?
    requires Process(d, plan, rows, files, validated, info, fetch, chunks, today).0.Fail?
    ensures var r := Process(d, plan, rows, files, validated, info, fetch, chunks, today);
      && r.2 == Downloaded(d, files, info.value, fetch).1
      && Downloaded(d, files, info.value, fetch).0.value in r.2
  {
    var meta := info.value;
    var added := AddedRows(plan, rows, meta, today);
    ProcessAfterRow(d, plan, rows, files, validated, info, fetch, chunks, today);
    var (got, downloaded) := Downloaded(d, files, meta, fetch);
    if plan.uploadToDrive {
      UploadBranchEffects(plan.keepFiles, meta.title, added, downloaded, got.value, chunks);
    } else {
      FinalPathText(d, meta);
      LocalBranchEffects(meta.title, added, downloaded, got.value);
    }
  }

  /** The downloaded file is removed exactly when it was uploaded, the sheet
   *  was updated and the files are not to be kept. */
  lemma FileRemovedOnlyAfterUpload(d: D.YouTubeDownloader, plan: Plan, rows: Table, files: map<Path, nat>, validated: Result<string>,
                                   info: Result<D.Metadata>, fetch: D.Fetch, chunks: seq<G.Chunk>, today: string)
    requires G.Transcript(chunks) && validated.Ok? && info.Ok? && Downloaded(d, files, info.value, fetch).0.Ok?
    ensures var r := Process(d, plan, rows, files, validated, info, fetch, chunks, today);
      Downloaded(d, files, info.value, fetch).0.value !in r.2 <==> plan.uploadToDrive && !plan.keepFiles && r.0.Pass?
  {
    var meta := info.value;
    var added := AddedRows(plan, rows, meta, today);
    ProcessAfterRow(d, plan, rows, files, validated, info, fetch, chunks, today);
    var (got, downloaded) := Downloaded(d, files, meta, fetch);
    if plan.uploadToDrive {
      UploadBranchEffects(plan.keepFiles, meta.title, added, downloaded, got.value, chunks);
    } else {
      FinalPathText(d, meta);
      LocalBranchEffects(meta.title, added, downloaded, got.value);
    }
  }

  /** The status update always finds a row once one was added, because the
   *  new row holds the title, unless the title is empty. */
  lemma StatusUpdateFindsTitle(d: D.YouTubeDownloader, plan: Plan, rows: Table, files: map<Path, nat>, validated: Result<string>,
                               info: Result<D.Metadata>, fetch: D.Fetch, chunks: seq<G.Chunk>, today: string)
    requires G.Transcript(chunks) && validated.Ok? && info.Ok?
    requires var got := Downloaded(d, files, info.value, fetch);
      got.0.Ok? && (plan.uploadToDrive ==> G.UploadResult(got.1, got.0.value, chunks).Ok?)
    ensures var r := Process(d, plan, rows, files, validated, info, fetch, chunks, today);
      r.0.Pass? <==> info.value.title != ""
  {
    var meta := info.value;
    var added := AddedRows(plan, rows, meta, today);
    assert meta.title in added[|rows|];
    ProcessAfterRow(d, plan, rows, files, validated, info, fetch, chunks, today);
    var (got, downloaded) := Downloaded(d, files, meta, fetch);
    if plan.uploadToDrive {
      UploadBranchEffects(plan.keepFiles, meta.title, added, downloaded, got.value, chunks);
    } else {
      FinalPathText(d, meta);
      LocalBranchEffects(meta.title, added, downloaded, got.value);
    }
  }

  /** Without the Drive upload the row is "Completed Locally" in name only:
   *  its Download Status column is untouched, so the new row still reads
   *  "Pending", while the Drive File ID column of the row found by title
   *  receives the local path. */
  lemma LocalCompletionStaysPending(d: D.YouTubeDownloader, plan: Plan, rows: Table, files: map<Path, nat>, validated: Result<string>,
                                    info: Result<D.Metadata>, fetch: D.Fetch, chunks: seq<G.Chunk>, today: string)
    requires G.Transcript(chunks) && validated.Ok? && info.Ok? && Downloaded(d, files, info.value, fetch).0.Ok?
    requires !plan.uploadToDrive
    ensures var r := Process(d, plan, rows, files, validated, info, fetch, chunks, today);
      var added := AddedRows(plan, rows, info.value, today);
      && S.SameColumn(r.1, added, S.DownloadStatusColumn - 1)
      && Cell(r.1, |rows|, S.DownloadStatusColumn - 1) == "Pending"
      && (r.0.Pass? ==> Cell(r.1, FindIn(added, info.value.title).value.0, S.DriveFileIdColumn - 1)
                          == PathText(Downloaded(d, files, info.value, fetch).0.value))
  {
    var meta := info.value;
    var added := AddedRows(plan, rows, meta, today);
    ProcessAfterRow(d, plan, rows, files, validated, info, fetch, chunks, today);
    var (got, downloaded) := Downloaded(d, files, meta, fetch);
    FinalPathText(d, meta);
    LocalBranchEffects(meta.title, added, downloaded, got.value);
    var r := LocalBranch(meta.title, added, downloaded, got.value);
    assert Cell(r.1, |rows|, S.DownloadStatusColumn - 1) == Cell(added, |rows|, S.DownloadStatusColumn - 1);
  }

  /** With the Drive upload, a successful run marks the row found by title
   *  "Completed" and files the returned identifier in it. */
  lemma UploadCompletesRow(d: D.YouTubeDownloader, plan: Plan, rows: Table, files: map<Path, nat>, validated: Result<string>,
                           info: Result<D.Metadata>, fetch: D.Fetch, chunks: seq<G.Chunk>, today: string)
    requires G.Transcript(chunks) && validated.Ok? && info.Ok? && plan.uploadToDrive
    requires Process(d, plan, rows, files, validated, info, fetch, chunks, today).0.Pass?
    ensures var r := Process(d, plan, rows, files, validated, info, fetch, chunks, today);
      var got := Downloaded(d, files, info.value, fetch);
      var added := AddedRows(plan, rows, info.value, today);
      var i := FindIn(added, info.value.title).value.0;
      && got.0.Ok? && G.UploadResult(got.1, got.0.value, chunks).Ok?
      && Cell(r.1, i, S.DownloadStatusColumn - 1) == "Completed"
      && Cell(r.1, i, S.DriveFileIdColumn - 1) == G.UploadResult(got.1, got.0.value, chunks).value
  {
    var meta := info.value;
    var added := AddedRows(plan, rows, meta, today);
    ProcessAfterRow(d, plan, rows, files, validated, info, fetch, chunks, today);
    var (got, downloaded) := Downloaded(d, files, meta, fetch);
    UploadBranchEffects(plan.keepFiles, meta.title, added, downloaded, got.value, chunks);
  }

  class VideoProcessor {
    const downloader: D.YouTubeDownloader
    const drive: G.GoogleDriveService
    const sheets: S.GoogleSheetsService
    /** `settings.UPLOAD_TO_DRIVE`. */
    const uploadToDrive: bool
    /** `settings.KEEP_FILES`. */
    const keepFiles: bool

    /** `__init__` with the services already built; `initialize_directories`
     *  is not modelled. */
    constructor (downloader: D.YouTubeDownloader, drive: G.GoogleDriveService, sheets: S.GoogleSheetsService,
                 uploadToDrive: bool, keepFiles: bool)
      ensures this.downloader == downloader && this.drive == drive && this.sheets == sheets
      ensures this.uploadToDrive == uploadToDrive && this.keepFiles == keepFiles
    {
      this.downloader := downloader;
      this.drive := drive;
      this.sheets := sheets;
      this.uploadToDrive := uploadToDrive;
      this.keepFiles := keepFiles;
    }

    /** The configuration as the specification functions take it. */
    function Settings(): Plan {
      Plan(uploadToDrive, keepFiles, sheets.playlistId)
    }

    /** `process_video`. */
    method ProcessVideo(fs: FileSystem, videoUrl: string, extraction: Extraction, fetch: D.Fetch,
                        chunks: seq<G.Chunk>, today: string) returns (r: Outcome)
      requires G.Transcript(chunks)
      modifies fs, sheets.worksheet
      ensures (r, sheets.worksheet.rows, fs.files)
        == Process(downloader, Settings(), old(sheets.worksheet.rows), old(fs.files),
                   V.ValidateYoutubeUrl(videoUrl), D.GetVideoInfo(extraction), fetch, chunks, today)
    {
      r := ProcessChecked(fs, V.ValidateYoutubeUrl(videoUrl), D.GetVideoInfo(extraction), fetch, chunks, today);
    }

    /** `process_video` once the identifier check and the metadata fetch
     *  have produced their results. */
    method ProcessChecked(fs: FileSystem, validated: Result<string>, info: Result<D.Metadata>, fetch: D.Fetch,
                          chunks: seq<G.Chunk>, today: string) returns (r: Outcome)
      requires G.Transcript(chunks)
      modifies fs, sheets.worksheet
      ensures (r, sheets.worksheet.rows, fs.files)
        == Process(downloader, Settings(), old(sheets.worksheet.rows), old(fs.files), validated, info, fetch, chunks, today)
    {
      if validated.Err? {
        return Fail(Wrap(validated.error));
      }
      var videoId := validated.value;
      if info.Err? {
        return Fail(Wrap(info.error));
      }
      var meta := info.value;
      sheets.AddVideo(meta, None, "Pending", today);
      r := DownloadAndTrack(fs, videoId, meta, fetch, chunks);
    }

    /** The stages of `process_video` after the row is added: the download,
     *  then the upload branch or the local one. */
    method DownloadAndTrack(fs: FileSystem, videoId: string, meta: D.Metadata, fetch: D.Fetch, chunks: seq<G.Chunk>)
      returns (r: Outcome)
      requires G.Transcript(chunks)
      modifies fs, sheets.worksheet
      ensures (r, sheets.worksheet.rows, fs.files)
        == AfterRow(downloader, Settings(), meta, old(sheets.worksheet.rows), old(fs.files), fetch, chunks)
    {
      var got := downloader.DownloadVideo(fs, meta, fetch);
      if got.Err? {
        return Fail(Wrap(got.error));
      }
      var path := got.value;
      if uploadToDrive {
        r := UploadAndMark(fs, videoId, meta.title, path, chunks);
      } else {
        var status := sheets.UpdateVideoStatus(videoId, "Completed Locally", Some(PathText(path)), Some(meta.title));
        if status.Fail? {
          return Fail(Wrap(status.error));
        }
        r := Pass;
      }
    }

    /** The upload branch of `process_video`. */
    method UploadAndMark(fs: FileSystem, videoId: string, title: string, path: Path, chunks: seq<G.Chunk>)
      returns (r: Outcome)
      requires G.Transcript(chunks)
      modifies fs, sheets.worksheet
      ensures (r, sheets.worksheet.rows, fs.files)
        == UploadBranch(keepFiles, title, old(sheets.worksheet.rows), old(fs.files), path, chunks)
    {
      var uploaded, _, _, _ := drive.UploadFile(fs, path, Some(title), chunks);
      if uploaded.Err? {
        return Fail(Wrap(uploaded.error));
      }
      var fileId := uploaded.value;
      if fileId != "" {
        var status := sheets.UpdateVideoStatus(videoId, "Completed", Some(fileId), Some(title));
        if status.Fail? {
          return Fail(Wrap(status.error));
        }
        if !keepFiles {
          // The file exists: the upload has just read it.
          var _ := fs.Delete(path);
        }
      }
      r := Pass;
    }

    /** `process_playlist`: a stub that always raises, outside any handler,
     *  so the error is not turned into a processing error. */
    method ProcessPlaylist(playlistUrl: string) returns (r: Outcome)
      ensures r == Fail(Error(NotImplementedError, PlaylistStubMessage))
    {
      r := Fail(Error(NotImplementedError, PlaylistStubMessage));
    }
  }
}
