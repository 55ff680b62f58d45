/**
 * The tracking sheet of the `app` package (`app/services/google_sheets.py`):
 * header provisioning, the row appended per video, the status update found
 * by title and the lookup by identifier, over an in-memory worksheet.  The
 * current date is a parameter.
 */
module AppSheets {
  import opened Common
  import opened PyText
  import opened Sheet
  import opened AppDownloader

  /** `GoogleSheetsService.HEADERS`. */
  const Headers: seq<string> := [
    "Title", "Description", "Tags", "Category", "Drive File ID",
    "Playlist", "Thumbnail", "Upload Date", "Download Status", "Upload Status"]

  /** `HEADERS.index('Drive File ID') + 1`. */
  const DriveFileIdColumn: nat := 5
  /** `HEADERS.index('Download Status') + 1`. */
  const DownloadStatusColumn: nat := 9
  /** The column no operation of the service writes after the row is added. */
  const UploadStatusColumn: nat := 10

  /** The first position of `name` among the headers is `col - 1`, as
   *  `HEADERS.index(name) + 1` computes the column. */
  predicate FirstHeaderAt(name: string, col: nat) {
    0 < col <= |Headers| && Headers[col - 1] == name
    && forall m :: 0 <= m < col - 1 ==> Headers[m] != name
  }

  /** The column numbers are the positions of their headers. */
  lemma ColumnsNameHeaders()
    ensures FirstHeaderAt("Drive File ID", DriveFileIdColumn)
    ensures FirstHeaderAt("Download Status", DownloadStatusColumn)
    ensures FirstHeaderAt("Upload Status", UploadStatusColumn)
  {
    HeaderLengths();
  }

  /** The header names, told apart by their lengths. */
  lemma HeaderLengths()
    ensures |Headers| == 10
    ensures |Headers[0]| == 5 && |Headers[1]| == 11 && |Headers[2]| == 4 && |Headers[3]| == 8
    ensures |Headers[4]| == 13 && Headers[4] == "Drive File ID"
    ensures |Headers[5]| == 8 && |Headers[6]| == 9 && |Headers[7]| == 11
    ensures |Headers[8]| == 15 && Headers[8] == "Download Status"
    ensures |Headers[9]| == 13 && Headers[9] == "Upload Status"
  {
  }

  // ---------------------------------------------------------------------------
  // `_get_or_create_worksheet`

  /** The rows after setup: an empty first row gets the headers appended, a
   *  different one has the sheet cleared first, and matching headers leave
   *  the sheet alone.  `append_row` adds after the last row. */
  function ProvisionHeaders(rows: Table): Table {
    if rows == [] || TrimTrailing(rows[0]) == [] then rows + [Headers]
    else if TrimTrailing(rows[0]) != Headers then [Headers]
    else rows
  }

  lemma HeadersUntrimmed()
    ensures TrimTrailing(Headers) == Headers
  {
    assert Headers[|Headers| - 1] != "";
  }

  /** After setup the first row reads as the headers, unless the first row
   *  was blank above other rows: then the headers land after them. */
  lemma HeadersProvisioned(rows: Table)
    ensures rows == [] || TrimTrailing(rows[0]) != [] ==> TrimTrailing(ProvisionHeaders(rows)[0]) == Headers
    ensures |rows| > 0 && TrimTrailing(rows[0]) == [] ==> ProvisionHeaders(rows)[0] == rows[0]
  {
    HeadersUntrimmed();
  }

  /** Setting up an already set-up sheet changes nothing. */
  lemma ProvisionIdempotent(rows: Table)
    requires rows == [] || TrimTrailing(rows[0]) != []
    ensures ProvisionHeaders(ProvisionHeaders(rows)) == ProvisionHeaders(rows)
  {
    HeadersUntrimmed();
  }

  // ---------------------------------------------------------------------------
  // `add_video`

  /** The row `add_video` appends, in header order.  `drive_file_id or ''`
   *  and `PLAYLIST_ID or ''` turn an absent or empty value into `''`. */
  function VideoRow(meta: Metadata, driveFileId: Option<string>, playlistId: Option<string>, today: string): (r: seq<string>)
    ensures |r| == |Headers|
    ensures r[0] == meta.title && r[1] == meta.description && r[2] == meta.tags && r[3] == meta.category
    ensures r[DriveFileIdColumn - 1] == driveFileId.GetOr("") && r[5] == playlistId.GetOr("")
    ensures r[6] == meta.thumbnail && r[7] == today
    ensures r[DownloadStatusColumn - 1] == "Pending" && r[UploadStatusColumn - 1] == "Pending"
  {
    [meta.title, meta.description, meta.tags, meta.category, driveFileId.GetOr(""),
     playlistId.GetOr(""), meta.thumbnail, today, "Pending", "Pending"]
  }

  // ---------------------------------------------------------------------------
  // `update_video_status`

  const UpdatePrefix := "Failed to update video status: "
  const TitleRequiredMessage := "Video title is required to update status"

  /** A present, non-empty value: Python's truthiness of an optional text. */
  predicate Given(s: Option<string>) {
    s.Some? && s.value != ""
  }

  /** Column `j` reads the same in both tables. */
  ghost predicate SameColumn(a: Table, b: Table, j: nat) {
    forall i: nat :: Cell(a, i, j) == Cell(b, i, j)
  }

  /** The outcome and the rows of `update_video_status`: the row is the one
   *  of the first cell equal to the title. */
  function StatusUpdate(rows: Table, status: string, driveFileId: Option<string>, title: Option<string>): (r: (Outcome, Table))
    ensures r.0.Fail? ==> r.1 == rows && r.0.error.kind == GoogleSheetsError
    ensures r.0.Pass? <==> Given(title) && exists i :: 0 <= i < |rows| && title.value in rows[i]
    ensures |r.1| == |rows|
    ensures forall i: nat, j: nat :: j != DriveFileIdColumn - 1 && j != DownloadStatusColumn - 1 ==>
      Cell(r.1, i, j) == Cell(rows, i, j)
    ensures r.0.Pass? ==> var i := FindIn(rows, title.value).value.0;
      && (forall k :: 0 <= k < |rows| && k != i ==> r.1[k] == rows[k])
      && (status == "Completed" ==> Cell(r.1, i, DownloadStatusColumn - 1) == "Completed")
      && (Given(driveFileId) ==> Cell(r.1, i, DriveFileIdColumn - 1) == driveFileId.value)
    ensures status != "Completed" ==> SameColumn(r.1, rows, DownloadStatusColumn - 1)
    ensures !Given(driveFileId) ==> SameColumn(r.1, rows, DriveFileIdColumn - 1)
  {
    if !Given(title) then (Fail(Error(GoogleSheetsError, UpdatePrefix + TitleRequiredMessage)), rows)
    else match FindIn(rows, title.value)
      case None =>
        (Fail(Error(GoogleSheetsError, UpdatePrefix + "Video '" + title.value + "' not found in spreadsheet")), rows)
      case Some(p) =>
        var i := p.0;
        var marked := if status == "Completed" then WriteCell(rows, i, DownloadStatusColumn - 1, "Completed") else rows;
        var filed := if Given(driveFileId) then WriteCell(marked, i, DriveFileIdColumn - 1, driveFileId.value) else marked;
        (Pass, filed)
  }

  /** `update_cell` on row `i`: that one cell is set, every other cell of the
   *  table reads as before. */
  function WriteCell(rows: Table, i: nat, j: nat, v: string): (r: Table)
    requires i < |rows|
    ensures |r| == |rows|
    ensures forall k :: 0 <= k < |rows| && k != i ==> r[k] == rows[k]
    ensures Cell(r, i, j) == v
    ensures forall k: nat, c: nat :: c != j ==> Cell(r, k, c) == Cell(rows, k, c)
  {
    rows[i := SetCell(rows[i], j, v)]
  }

  /** No status update ever writes the Upload Status column. */
  lemma UploadStatusUntouched(rows: Table, status: string, driveFileId: Option<string>, title: Option<string>, i: nat)
    ensures Cell(StatusUpdate(rows, status, driveFileId, title).1, i, UploadStatusColumn - 1) == Cell(rows, i, UploadStatusColumn - 1)
  {
  }

  /** A status other than "Completed" with no drive id changes nothing, though it succeeds. */
  lemma OtherStatusNoop(rows: Table, status: string, title: Option<string>)
    requires status != "Completed"
    ensures StatusUpdate(rows, status, None, title).1 == rows
  {
  }

  // ---------------------------------------------------------------------------
  // `get_video_info`

  /** `dict(zip(keys, values))` for distinct keys: pairs up to the shorter length. */
  function Zip(keys: seq<string>, values: seq<string>): map<string, string>
    requires forall a, b :: 0 <= a < b < |keys| ==> keys[a] != keys[b]
  {
    if |keys| == 0 || |values| == 0 then map[]
    else Zip(keys[1..], values[1..])[keys[0] := values[0]]
  }

  /** For distinct keys the dictionary holds exactly the paired keys, each
   *  with the value at its position. */
  lemma {:induction false} ZipPairs(keys: seq<string>, values: seq<string>)
    requires forall a, b :: 0 <= a < b < |keys| ==> keys[a] != keys[b]
    ensures forall k :: k in Zip(keys, values) <==> exists a :: 0 <= a < |keys| && a < |values| && keys[a] == k
    ensures forall a :: 0 <= a < |keys| && a < |values| ==> Zip(keys, values)[keys[a]] == values[a]
    decreases |keys|
  {
    if |keys| > 0 && |values| > 0 {
      var ks, vs := keys[1..], values[1..];
      ZipPairs(ks, vs);
      assert forall a :: 1 <= a < |keys| ==> ks[a - 1] == keys[a];
      assert forall a :: 1 <= a < |values| ==> vs[a - 1] == values[a];
      var m := Zip(keys, values);
      forall k | k in m ensures exists a :: 0 <= a < |keys| && a < |values| && keys[a] == k {
        if k != keys[0] {
          var a :| 0 <= a < |ks| && a < |vs| && ks[a] == k;
          assert keys[a + 1] == k;
        }
      }
      forall k | exists a :: 0 <= a < |keys| && a < |values| && keys[a] == k ensures k in m {
        var a :| 0 <= a < |keys| && a < |values| && keys[a] == k;
        if a > 0 {
          assert ks[a - 1] == k;
        }
      }
    }
  }

  lemma HeadersDistinct()
    ensures forall a, b :: 0 <= a < b < |Headers| ==> Headers[a] != Headers[b]
  {
  }

  class GoogleSheetsService {
    const worksheet: Worksheet
    /** `settings.PLAYLIST_ID`, absent when the variable is not set. */
    const playlistId: Option<string>

    /** `__init__` with the opened worksheet: `_get_or_create_worksheet`
     *  provisions its headers. */
    constructor (worksheet: Worksheet, playlistId: Option<string>)
      modifies worksheet
      ensures this.worksheet == worksheet && this.playlistId == playlistId
      ensures worksheet.rows == ProvisionHeaders(old(worksheet.rows))
    {
      this.worksheet := worksheet;
      this.playlistId := playlistId;
      new;
      GetOrCreateWorksheet();
    }

    /** `_get_or_create_worksheet`. */
    method GetOrCreateWorksheet()
      modifies worksheet
      ensures worksheet.rows == ProvisionHeaders(old(worksheet.rows))
    {
      var headers := worksheet.RowValues(1);
      if headers == [] {
        worksheet.AppendRow(Headers);
      } else if headers != Headers {
        worksheet.Clear();
        worksheet.AppendRow(Headers);
      }
    }

    /** `add_video`: one row appended, whatever rows exist; `status` is not used. */
    method AddVideo(meta: Metadata, driveFileId: Option<string>, status: string, today: string)
      modifies worksheet
      ensures worksheet.rows == old(worksheet.rows) + [VideoRow(meta, driveFileId, playlistId, today)]
    {
      worksheet.AppendRow(VideoRow(meta, driveFileId, playlistId, today));
    }

    /** `update_video_status`; `video_id` is only logged. */
    method UpdateVideoStatus(videoId: string, status: string, driveFileId: Option<string>, title: Option<string>)
      returns (r: Outcome)
      modifies worksheet
      ensures (r, worksheet.rows) == StatusUpdate(old(worksheet.rows), status, driveFileId, title)
    {
      if !Given(title) {
        return Fail(Error(GoogleSheetsError, UpdatePrefix + TitleRequiredMessage));
      }
      var cell := worksheet.Find(title.value);
      if cell.None? {
        return Fail(Error(GoogleSheetsError, UpdatePrefix + "Video '" + title.value + "' not found in spreadsheet"));
      }
      var row := cell.value.row;
      if status == "Completed" {
        worksheet.UpdateCell(row, DownloadStatusColumn, "Completed");
      }
      if Given(driveFileId) {
        worksheet.UpdateCell(row, DriveFileIdColumn, driveFileId.value);
      }
      r := Pass;
    }

    /** `get_video_info`: the row of the first cell equal to the identifier,
     *  keyed by the headers. */
    function GetVideoInfo(videoId: string): (r: Option<map<string, string>>)
      reads this, worksheet
      ensures r.None? <==> forall i :: 0 <= i < |worksheet.rows| ==> videoId !in worksheet.rows[i]
      ensures r.Some? ==> var row := worksheet.RowValues(worksheet.Find(videoId).value.row);
        && (forall k :: k in r.value <==> exists a :: 0 <= a < |Headers| && a < |row| && Headers[a] == k)
        && (forall a :: 0 <= a < |Headers| && a < |row| ==> Headers[a] in r.value && r.value[Headers[a]] == row[a])
    {
      match worksheet.Find(videoId)
      case None => None
      case Some(cell) =>
        HeadersDistinct();
        ZipPairs(Headers, worksheet.RowValues(cell.row));
        Some(Zip(Headers, worksheet.RowValues(cell.row)))
    }
  }

  /** A row added for a video does not hold its identifier, so a sheet that
   *  did not hold the identifier before still answers `None` for it, unless
   *  it equals one of the row's own fields. */
  lemma AddedRowNotFoundById(rows: Table, meta: Metadata, driveFileId: Option<string>, playlistId: Option<string>, today: string, videoId: string)
    requires forall i :: 0 <= i < |rows| ==> videoId !in rows[i]
    requires videoId !in VideoRow(meta, driveFileId, playlistId, today)
    ensures FindIn(rows + [VideoRow(meta, driveFileId, playlistId, today)], videoId).None?
  {
    var row := VideoRow(meta, driveFileId, playlistId, today);
    var t := rows + [row];
    forall i | 0 <= i < |t| ensures videoId !in t[i] {
      if i < |rows| { assert t[i] == rows[i]; } else { assert t[i] == row; }
    }
  }
}
