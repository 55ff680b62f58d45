# A verified model of the YouTube-to-Drive pipeline

The repository downloads YouTube videos with yt-dlp, uploads them to Google
Drive and records each one as a row of a Google Sheet. It does this twice,
in two parallel implementations that differ in observable ways:

- the `app/` package: `validators`, `helpers`, the downloader, the Sheets
  and Drive services and the asynchronous `VideoProcessor`;
- the older `src/youtube_manager.py`, with `utils/validators.py` and
  `config/config.py`.

This project models the logic of both in Dafny and proves what that logic
guarantees, and what it does not. The model covers:

- identifier extraction from user input (both versions);
- filename sanitising, path naming and duration formatting;
- metadata screening and error-text mapping in the downloader;
- the promote step on a file map;
- the tracking sheet as an in-memory table;
- the upload progress bookkeeping;
- the two pipelines as sequences of effects on the sheet rows and the files.

Layout, one module per file:

| module | models |
|---|---|
| `Common` | error kinds (one per exception class), `Error`, `Result`, `Outcome`, `Option` |
| `PyText` | the Python `str` operations the code relies on: `find`, `in`, `split`, `join`, `strip`/`lstrip`/`rstrip`, slicing, `str(n)`, `re.match(r'^[A-Za-z0-9_-]{11}$')` including the one final line break that `$` accepts |
| `Urls` | `urlsplit` (generic syntax of RFC 3986 section 3: scheme, `//` network location, path, query, fragment), the `hostname` property, `unquote`, `parse_qs(...).get(name)[0]` |
| `Files` | the filesystem as a map from paths to sizes, in a `FileSystem` class with `Write`, `Rename`, `Copy`, `Delete` |
| `Media` | the information dictionary `extract_info` returns, or the exception it raises |
| `Sheet` | a gspread worksheet as a class holding a table of rows |
| `AppValidators`, `UtilsValidators` | the two identifier extractors, metadata and spreadsheet-id checks |
| `AppHelpers` | `sanitize_filename`, `get_video_path`, `format_duration` of the `app` package |
| `AppDownloader` | `get_video_info`, `download_video`, `cleanup` |
| `AppSheets` | `GoogleSheetsService` |
| `AppDrive` | `GoogleDriveService.upload_file` |
| `AppProcessor` | `VideoProcessor.process_video` / `process_playlist` |
| `YoutubeManager` | `src/youtube_manager.py` with the `config/config.py` constants |

Calls into foreign libraries become parameters of the model:

- yt-dlp's `extract_info` and `download` become an `Extraction`, `Fetch` or
  `Retrieval` value: the dictionary returned, or the exception raised, and
  what was written to disk.
- The opening of the spreadsheet becomes an `Opening` value.
- The resumable upload transport becomes a `Transcript`: the calls of
  `next_chunk` the upload makes, each status already turned into its
  integer percent.
- The current date is passed in as a parameter.

State that the source changes in place is modelled in place:

- worksheets and the filesystem are classes;
- the pipeline and service methods are methods with `modifies` clauses;
- the upload loops are `while` loops;
- `update_spreadsheet` writes into an `array` standing for the caller's
  list.

Each such method is proved equal to a specification function of the old
state. The lemmas state the properties of those functions.

## Where the code and its description differ

The model follows the code in each case:

- **The sanitisers are not idempotent.** A name that is truncated ends in
  `...`, and a second pass strips those dots.
  - `AppHelpers.SanitizeNotIdempotent` and
    `YoutubeManager.SanitizeNotIdempotent` prove this.
  - Below the limit both sanitisers are idempotent.
- **The `app` sanitiser has no length bound.** It keeps the whole extension
  that `os.path.splitext` finds, so its output is not bounded by 203
  characters. `AppHelpers.SanitizeLongExtension` proves this.
- **Only characters from code point 128 up are replaced.** ASCII control
  characters are kept.
- **The duplicate check of `src/youtube_manager.py` runs after the download
  and the upload**, not before them. The `app` pipeline has no duplicate
  check at all and appends a row on every run.
  - `YoutubeManager.DuplicateCheckedAfterUpload` proves the first point.
  - `YoutubeManager.SecondRunReportsDuplicate` shows a second run uploading
    again.

## Model

| member | source | states |
|---|---|---|
| PyText.Strip | app/utils/validators.py:27 | `strip`: never longer than the input; the result is empty or starts and ends outside the stripped set |
| PyText.StripIsLeftThenRight | app/utils/helpers.py:75 | stripping both ends equals `lstrip` followed by `rstrip` |
| PyText.StripTail | app/utils/helpers.py:75 | stripping a text that starts and ends outside the set, followed by characters of the set, gives the text back |
| PyText.LStrip | app/utils/validators.py:54 | `lstrip`: a suffix of the input that starts outside the set, and every removed character is in the set |
| PyText.RStrip | app/utils/helpers.py:75 | `rstrip`: a prefix of the input that ends outside the set, and every removed character is in the set |
| PyText.IndexOf | app/utils/validators.py:42 | `find`: the position of the first occurrence, and no occurrence when absent |
| PyText.Split | app/utils/validators.py:43 | `split`: at least one part, and two or more exactly when the separator occurs |
| PyText.JoinSplit | app/core/downloader.py:125 | `join` after `split` with the same separator gives the text back |
| PyText.SplitJoinChar | app/utils/helpers.py:140 | splitting a join of separator-free parts recovers the parts |
| PyText.SplitPartsFree | app/utils/validators.py:43 | no part of a split contains the separator |
| PyText.LastPartAfter | utils/validators.py:41 | the last `/`-separated segment of `a + "/" + b` is `b` when `b` has no `/` |
| PyText.NatToString | app/utils/helpers.py:140 | `str(n)`: at least one digit and no leading zero |
| PyText.ParseNatToString | app/utils/helpers.py:140 | the digits of `str(n)` read back as `n` |
| PyText.LongNotId | app/utils/validators.py:30 | a text longer than 12 characters never matches the identifier pattern |
| PyText.MatchesIdPatternNoNewline | app/utils/validators.py:30 | without a final line break the pattern accepts exactly 11 characters of `[A-Za-z0-9_-]` |
| PyText.Lower | app/utils/validators.py:37 | `lower()` as `hostname` applies it: same length, `A`-`Z` become `a`-`z`, every other character kept |
| Urls.UrlSplit | app/utils/validators.py:34 | `urlparse`: the network location holds no `/`, `[` or `]`; the path holds no `?` or `#` |
| Urls.SplitNetloc | app/utils/validators.py:34 | the network location runs from `//` to the first `/`, `?` or `#`, and the rest starts with one of them |
| Urls.UrlSplitCompose | app/utils/validators.py:34 | `scheme://netloc path?query` splits back into exactly those parts |
| Urls.Hostname | app/utils/validators.py:37 | `hostname`: when present, non-empty and free of `:` and `@` |
| Urls.HostnameFolds | app/utils/validators.py:37 | without `@` or `:`, the host name is the lower-cased network location |
| Urls.HostnameDropsPort | app/utils/validators.py:37 | a port after the host is not part of the host name |
| Urls.Unquote | app/utils/validators.py:40 | `unquote` leaves text without `%` alone and never lengthens it |
| Urls.QueryField | app/utils/validators.py:40 | `parse_qs` keeps only `name=value` fields with a non-empty value |
| Files.FileSystem.Write | app/core/downloader.py:207 | the download writes the file: the map gains or replaces that one entry |
| Files.FileSystem.Rename | app/core/downloader.py:228 | `rename`: succeeds exactly when the source exists, moves its size to the target and removes the source; otherwise nothing changes |
| Files.FileSystem.Copy | src/youtube_manager.py:248 | `copy2`: succeeds exactly when the source exists and gives the target its size |
| Files.FileSystem.Delete | app/core/downloader.py:257-258 | `unlink` after `exists`: reports whether the file existed and removes it |
| Sheet.TrimTrailing | app/services/google_sheets.py:80 | `row_values` drops trailing empty cells only: the result is a prefix, ends non-empty, and everything dropped is empty |
| Sheet.Column | src/youtube_manager.py:322 | one cell per row, in row order |
| Sheet.IndexIn | app/services/google_sheets.py:170 | `list.index`: the first position holding the value, or none when absent |
| Sheet.FindIn | app/services/google_sheets.py:161 | `find`: the first cell in row-major order equal to the query, or none when no row holds it |
| Sheet.Worksheet.Find | app/services/google_sheets.py:161 | `find` with 1-based row and column: the first matching cell in row-major order |
| Sheet.SetCell | app/services/google_sheets.py:170 | `update_cell` on one row: that cell is set, the row is padded with empty cells if short, and the other cells are unchanged |
| Sheet.Worksheet.AppendRow | app/services/google_sheets.py:82 | `append_row`: one new last row |
| Sheet.Worksheet.InsertFirstRow | src/youtube_manager.py:161 | `insert_row(values, 1)`: one new first row |
| Sheet.Worksheet.Clear | app/services/google_sheets.py:86 | `clear`: no rows left |
| Sheet.Worksheet.UpdateCell | app/services/google_sheets.py:170 | `update_cell`: only that cell of that row changes |
| AppValidators.AfterMarker | app/utils/validators.py:43-49 | the text after the first marker up to the next marker and before any `?`: it contains neither |
| AppValidators.CandidateId | app/utils/validators.py:37-58 | a candidate exists only on the hosts `www.youtube.com`, `youtube.com`, `m.youtube.com` and `youtu.be` |
| AppValidators.AcceptCandidate | app/utils/validators.py:61-64 | accepts exactly a present candidate that matches the identifier pattern, and returns it; otherwise "Could not extract valid video ID from URL" |
| AppValidators.ValidateYoutubeUrl | app/utils/validators.py:12-71 | returns only pattern-matching identifiers; a stripped input that matches is returned as is; every failure is a ValidationError with one of the two messages |
| AppValidators.StrippedDirectId | app/utils/validators.py:27-31 | after `strip`, the direct-identifier test is exactly the 11-character check |
| AppValidators.ValidateKnownHostsOnly | app/utils/validators.py:37-58 | an accepted input that is not a bare identifier was a URL on one of the four known hosts |
| AppValidators.ValidateStripped | app/utils/validators.py:27-62 | for an input that `strip` leaves alone and that is not a bare identifier, the result is the format check of the parsed URL's candidate |
| AppValidators.ValidateParsedUrl | app/utils/validators.py:27-62 | the same for any input longer than 12 characters |
| AppValidators.ValidateKnownHostUrl | app/utils/validators.py:34-62 | an `https` URL on a known host is judged by its candidate |
| AppValidators.CandidateOnWatch | app/utils/validators.py:39-40 | for `/watch` the candidate is the first `v` value of the query |
| AppValidators.CandidateOnShorts | app/utils/validators.py:42-43 | for a path containing `/shorts/`, the text after the marker |
| AppValidators.CandidateOnEmbed | app/utils/validators.py:45-46 | for a path starting with `/embed/`, the text after the marker |
| AppValidators.CandidateOnShare | app/utils/validators.py:48-49 | for a path starting with `/v/`, the text after the marker |
| AppValidators.CandidateOnShortLink | app/utils/validators.py:53-56 | on `youtu.be`, the path without its leading slashes |
| AppValidators.WatchUrlYieldsId | app/utils/validators.py:39-62 | `https://<host>/watch?v=<id>` yields the identifier on each full host |
| AppValidators.ShortsUrlYieldsId | app/utils/validators.py:42-62 | `https://<host>/shorts/<id>` yields the identifier |
| AppValidators.EmbedUrlYieldsId | app/utils/validators.py:45-62 | `https://<host>/embed/<id>` yields the identifier |
| AppValidators.ShareUrlYieldsId | app/utils/validators.py:48-62 | `https://<host>/v/<id>` yields the identifier |
| AppValidators.ShortLinkYieldsId | app/utils/validators.py:53-62 | `https://youtu.be/<id>` yields the identifier |
| AppValidators.MarkerPathUrl | app/utils/validators.py:42-62 | a known-host URL whose path is a marker followed by an identifier is accepted |
| AppValidators.ShortsExtraSegmentRejected | app/utils/validators.py:42-64 | an extra segment after a shorts identifier makes the extraction fail |
| AppValidators.WatchWithoutVRejected | app/utils/validators.py:39-64 | a `watch` URL without a `v` value fails with "Could not extract valid video ID from URL" |
| AppValidators.QueryOfId | app/utils/validators.py:40 | the query `v=<id>` carries the identifier |
| AppValidators.QueryOfIdNewline | app/utils/validators.py:40 | the query `v=<id>%0A` carries the identifier followed by a line break |
| AppValidators.WatchUrlEncodedNewline | app/utils/validators.py:40-62 | `watch?v=<id>%0A` is accepted and returns the identifier with a trailing line break, because `$` accepts one |
| AppValidators.MissingFields | app/utils/validators.py:110 | the required fields that are not keys, in their order |
| AppValidators.MissingRequiredInOrder | app/utils/validators.py:109-115 | the missing fields are exactly those absent among `id`, `title`, `duration`, in that order |
| AppValidators.ValidateVideoMetadata | app/utils/validators.py:99-115 | passes exactly when `id`, `title` and `duration` are all keys; otherwise the message lists the missing ones joined by `, ` |
| AppValidators.ValidateSpreadsheetId | app/utils/validators.py:158-169 | accepts every non-empty text over `[A-Za-z0-9_-]`, and such a text followed by one line break (Python's `$`); nothing else, so a lone line break is refused; failures have the fixed message |
| AppValidators.SpreadsheetIdRejects | app/utils/validators.py:168-169 | the empty text, and any text with a character outside the class (other than a final line break), are rejected |
| UtilsValidators.IdFromParts | utils/validators.py:25-54 | a result only on the exact netlocs; `youtu.be` yields the path without leading slashes; every failure is the unsupported-format error |
| UtilsValidators.ExtractVideoId | utils/validators.py:8-59 | a pattern-matching input is returned as is; every failure is a ValidationError with one of two messages |
| UtilsValidators.CheckIdFormat | utils/validators.py:69-73 | accepts exactly an extracted value that matches the pattern; a malformed one gets "Invalid video ID format..." and errors pass through |
| UtilsValidators.ValidateYoutubeUrl | utils/validators.py:61-73 | the empty input and only it gives "URL cannot be empty"; results match the pattern; a stripped bare identifier is returned as is |
| UtilsValidators.ValidateExactNetlocsOnly | utils/validators.py:27-47 | an accepted input that is not a bare identifier had one of the four exact netlocs |
| UtilsValidators.UnlistedNetloc | utils/validators.py:27-54 | any other netloc fails with the unsupported-format error |
| UtilsValidators.NetlocVariantDiverges | utils/validators.py:28-32 | a netloc with the same host name as a listed one but written differently is refused here while the `app` version sees the same candidate |
| UtilsValidators.PortVariantDiverges | utils/validators.py:28-32 | a listed host with a port is refused here and accepted by host name in the `app` version |
| UtilsValidators.CaseVariantDiverges | utils/validators.py:28-32 | an upper-case variant of a listed host is refused here and folded by the `app` version |
| UtilsValidators.CandidateIdByHostname | app/utils/validators.py:37 | the `app` candidate depends on the netloc only through its host name |
| UtilsValidators.ExtractFromParts | utils/validators.py:19-32 | an input longer than 12 characters is judged by its parsed parts |
| UtilsValidators.ValidateStripped | utils/validators.py:61-73 | for a non-empty input that `strip` leaves alone, validation is the format check of the extraction |
| UtilsValidators.ValidateParsedUrl | utils/validators.py:61-73 | the same, for a long parsed URL, in terms of its parts |
| UtilsValidators.ValidateListedNetlocUrl | utils/validators.py:25-73 | an `https` URL on a listed netloc is judged by its parts |
| UtilsValidators.WatchParts | utils/validators.py:34-37 | a path containing `watch` with a `v` value yields that value |
| UtilsValidators.WatchUrlYieldsId | utils/validators.py:34-37 | `https://<netloc>/watch?v=<id>` yields the identifier |
| UtilsValidators.SegmentParts | utils/validators.py:40-45 | a path containing `shorts` or `embed` yields its last `/`-separated segment |
| UtilsValidators.SegmentUrlYieldsId | utils/validators.py:40-45 | such a URL ending in an identifier segment yields the identifier |
| UtilsValidators.ShortsUrlYieldsId | utils/validators.py:40-41 | `https://www.youtube.com/shorts/<id>` yields the identifier |
| UtilsValidators.TrailingSlashRejected | utils/validators.py:40-71 | a trailing `/` gives an empty segment, which fails with "Invalid video ID format..." |
| UtilsValidators.ShortLinkYieldsId | utils/validators.py:28-29 | `https://youtu.be/<id>` yields the identifier |
| UtilsValidators.PortedUrlRejected | utils/validators.py:27-54 | a listed host with an explicit port is refused |
| AppHelpers.ReplaceForbidden | app/utils/helpers.py:66 | each of `< > : " / \ \| ? *` becomes `_` and every other character is kept, position by position |
| AppHelpers.ReplaceNonAscii | app/utils/helpers.py:69 | each character from code point 128 up becomes `_`, position by position |
| AppHelpers.CollapseUnderscores | app/utils/helpers.py:72 | no two consecutive underscores; never longer; keeps the first character and safety |
| AppHelpers.CollapseKeepsText | app/utils/helpers.py:72 | collapsing changes nothing but underscores |
| AppHelpers.CollapseNoop | app/utils/helpers.py:72 | a text without `__` is left alone |
| AppHelpers.CleanName | app/utils/helpers.py:66-75 | the name before the length limit: no forbidden or non-ASCII character, no `__`, no leading or trailing dot or space |
| AppHelpers.StripKeeps | app/utils/helpers.py:75 | stripping dots and spaces keeps both properties |
| AppHelpers.CleanNameNoop | app/utils/helpers.py:66-75 | a name that already has the three properties is its own clean name |
| AppHelpers.LastIndexOf | app/utils/helpers.py:79 | the last position of a character, and none after it |
| AppHelpers.SplitExt | app/utils/helpers.py:79 | `os.path.splitext`: the parts join to the input; the extension is empty or one dot followed by text without dots or slashes |
| AppHelpers.LimitKeeps | app/utils/helpers.py:78-80 | truncation keeps both properties |
| AppHelpers.SanitizeFilename | app/utils/helpers.py:55-82 | the output has no forbidden or non-ASCII character and no `__` |
| AppHelpers.SanitizeIdempotentUnlimited | app/utils/helpers.py:75-80 | within the limit the output is the clean name and a second pass changes nothing |
| AppHelpers.SanitizeLimitedLength | app/utils/helpers.py:78-80 | over the limit the length is `min(len(name), 196) + 3 + len(ext)` |
| AppHelpers.SanitizeLongExtension | app/utils/helpers.py:78-80 | `a.` followed by 199 or more lower-case letters gives `a...` plus the whole extension, longer than 200 |
| AppHelpers.SanitizeNotIdempotent | app/utils/helpers.py:75-80 | over 200 letters without a dot the output is the first 196 plus `...`, and a second pass strips the dots |
| AppHelpers.TruncatedClean | app/utils/helpers.py:75 | cleaning 196 letters followed by `...` gives the letters |
| AppHelpers.GetVideoPath | app/utils/helpers.py:102-107 | the file name is `<clean title>_<id>.mp4`, under `directory/temp` when temporary and `directory` otherwise |
| AppHelpers.TempAndFinalShareName | app/utils/helpers.py:102-107 | the temporary and final paths have the same file name |
| AppHelpers.VideoFileNameCarriesId | app/utils/helpers.py:102-103 | the file name of a well-formed identifier is safe, has no `/` and ends in `_<id>.mp4` |
| AppHelpers.DurationParts | app/utils/helpers.py:135-137 | hours, minutes and seconds recombine to the input; minutes and seconds lie in [0, 60) |
| AppHelpers.Pad2 | app/utils/helpers.py:140 | `:02d`: two digits |
| AppHelpers.PaddedField | app/utils/helpers.py:140 | a padded field reads back as its number |
| AppHelpers.HoursShown | app/utils/helpers.py:139-140 | from one hour on, the text is `h:mm:ss` |
| AppHelpers.MinutesShown | app/utils/helpers.py:141 | below one hour, the text is `m:ss` |
| AppHelpers.FormatDurationRoundTrip | app/utils/helpers.py:135-141 | reading the fields of `format_duration(s)` back gives `s`, for every `s >= 0` |
| AppHelpers.HoursRoundTrip | app/utils/helpers.py:139-140 | the same from one hour on |
| AppHelpers.MinutesRoundTrip | app/utils/helpers.py:141 | the same below one hour |
| AppHelpers.NegativeDurationWraps | app/utils/helpers.py:135-141 | a negative duration prints as its remainder modulo one hour (Python's floor division) |
| AppDownloader.ExtractorMessage | app/core/downloader.py:138-146 | in the order "Video unavailable", "Private video", "Sign in to confirm your age", the first marker the text contains decides the message; with none, the text itself behind the "YouTube-DL error: " prefix |
| AppDownloader.GetVideoInfo | app/core/downloader.py:107-155 | succeeds exactly on an admissible dictionary, with the six shaped fields (tags joined by `, `, the first category, `''` defaults); every failure is a DownloadError, and a failure on a returned dictionary carries "Failed to get video info: " |
| AppDownloader.ScreeningOrder | app/core/downloader.py:111-122 | playlist, live, then age limit: the first check that applies names the error |
| AppDownloader.UnavailableWins | app/core/downloader.py:139-142 | a text naming an unavailable and a private video is reported as unavailable |
| AppDownloader.FetchErrorMessage | app/core/downloader.py:208-214 | "No video formats found" gives the formats message, else "Unsupported URL" the unsupported message; with neither, the text itself behind "Download failed: " |
| AppDownloader.Promote | app/core/downloader.py:224-232 | a missing or empty temporary file is an error with the files unchanged; otherwise the file moves to the final path, which is returned |
| AppDownloader.DownloadOutcome | app/core/downloader.py:187-244 | every failure is a DownloadError; success needs a finished download and returns the final path, which then exists; a raised download error leaves the files as they were |
| AppDownloader.EmptyDownloadStays | app/core/downloader.py:224-226 | an empty download fails and stays in the temporary directory |
| AppDownloader.StaleTempPromoted | app/core/downloader.py:224-230 | a temporary file left by an earlier attempt is promoted even when the download writes nothing |
| AppDownloader.YouTubeDownloader.DownloadVideo | app/core/downloader.py:157-244 | outcome and files are those of `DownloadOutcome`; the returned path is in the processed directory under the temporary file's name |
| AppDownloader.YouTubeDownloader.Cleanup | app/core/downloader.py:246-262 | the file is gone afterwards, whether or not it existed, and nothing else changes |
| AppDownloader.YouTubeDownloader.constructor | app/core/downloader.py:22-30 | the downloader keeps the configured video and processed directories |
| AppSheets.ColumnsNameHeaders | app/services/google_sheets.py:19-30 | the Drive File ID, Download Status and Upload Status columns are the first positions of those headers |
| AppSheets.HeadersProvisioned | app/services/google_sheets.py:80-88 | after setup the first row reads as `HEADERS`, except that a first row of only empty cells is kept |
| AppSheets.ProvisionIdempotent | app/services/google_sheets.py:80-88 | a second setup changes nothing |
| AppSheets.VideoRow | app/services/google_sheets.py:117-128 | ten fields in `HEADERS` order, `drive_file_id or ''`, `PLAYLIST_ID or ''`, the date, and both statuses "Pending" |
| AppSheets.StatusUpdate | app/services/google_sheets.py:156-183 | fails with GoogleSheetsError and no change when the title is empty or not found; otherwise only the first matching row changes, Download Status only for "Completed", Drive File ID only when given |
| AppSheets.WriteCell | app/services/google_sheets.py:170-178 | one cell of one row set, every other cell unchanged |
| AppSheets.UploadStatusUntouched | app/services/google_sheets.py:167-178 | the Upload Status column never changes |
| AppSheets.OtherStatusNoop | app/services/google_sheets.py:169-178 | a status other than "Completed" without a file id changes nothing |
| AppSheets.ZipPairs | app/services/google_sheets.py:208 | `dict(zip(HEADERS, row))` pairs each header with the cell at its position, up to the shorter length |
| AppSheets.HeadersDistinct | app/services/google_sheets.py:19-30 | the ten headers are pairwise different, so `dict(zip(HEADERS, row))` loses no field |
| AppSheets.GoogleSheetsService.GetOrCreateWorksheet | app/services/google_sheets.py:65-93 | the rows after the header check |
| AppSheets.GoogleSheetsService.AddVideo | app/services/google_sheets.py:95-135 | exactly one row appended, whatever the sheet holds; `status` unused |
| AppSheets.GoogleSheetsService.UpdateVideoStatus | app/services/google_sheets.py:137-183 | outcome and rows are those of `StatusUpdate` |
| AppSheets.GoogleSheetsService.GetVideoInfo | app/services/google_sheets.py:185-211 | none exactly when no cell equals the id; otherwise the keys are exactly the headers at positions the found row reaches, each with the cell at its position (`zip` stops at the shorter) |
| AppSheets.GoogleSheetsService.constructor | app/services/google_sheets.py:32-58 | the service opens its worksheet and provisions the headers as `_get_or_create_worksheet` does |
| AppSheets.AddedRowNotFoundById | app/services/google_sheets.py:200-202 | the row added for a video does not hold its identifier, so a lookup by identifier still finds nothing |
| AppDrive.Percents | app/services/google_drive.py:112-116 | the percents reported by the first `n` chunks: at most one per chunk, each the status of one of them, and every such status listed |
| AppDrive.Track | app/services/google_drive.py:105-126 | the callback values strictly increase; the last recorded percent is the last of them (`-1` before any) and bounds every reported one |
| AppDrive.TrackStep | app/services/google_drive.py:115-124 | one more percent: recorded exactly when it exceeds the last, with `0` printed first on the first status |
| AppDrive.TrackPrefix | app/services/google_drive.py:122-124 | later chunks never change what earlier ones recorded |
| AppDrive.PrintedShape | app/services/google_drive.py:104-135 | the printed percents are `0` then strictly increasing values, or only the closing `100` when no status came |
| AppDrive.ZeroPrintedTwice | app/services/google_drive.py:118-123 | a first status of 0% prints `0` twice |
| AppDrive.IdResult | app/services/google_drive.py:140-145 | success exactly with a non-empty id, which is returned |
| AppDrive.UploadResult | app/services/google_drive.py:79-150 | every failure is a GoogleDriveError with "Upload failed: "; success needs the file and gives a non-empty id |
| AppDrive.Progress | app/services/google_drive.py:115-126 | one status handled: the printed lines, callbacks and last percent advance as the bookkeeping says |
| AppDrive.ChunkLoopError | app/services/google_drive.py:128-131 | the loop ends in the chunk error with what was printed so far |
| AppDrive.ChunkLoopResponse | app/services/google_drive.py:112-145 | the loop ends in the response: id check and closing `100` |
| AppDrive.RunChunks | app/services/google_drive.py:104-145 | the loop's outcome, printed percents and callback values |
| AppDrive.GoogleDriveService.UploadFile | app/services/google_drive.py:79-150 | a missing file fails before any request; otherwise the name is the title if non-empty, else the file name, the parent is the folder, and the callback values strictly increase |
| AppProcessor.Wrap | app/core/processor.py:94-95 | "Processing error: " followed by the original message |
| AppProcessor.UploadBranch | app/core/processor.py:64-81 | every failure is a ProcessingError |
| AppProcessor.LocalBranch | app/core/processor.py:82-90 | every failure is a ProcessingError |
| AppProcessor.AfterRow | app/core/processor.py:59-90 | every failure is a ProcessingError |
| AppProcessor.Process | app/core/processor.py:40-95 | every failure is a ProcessingError with the "Processing error: " prefix |
| AppProcessor.AddedRows | app/core/processor.py:56 | one row appended holding the title, with Download Status "Pending" |
| AppProcessor.UploadBranchEffects | app/core/processor.py:64-81 | upload, status "Completed" with the id on the row found by title, then deletion exactly when not kept and all went well |
| AppProcessor.LocalBranchEffects | app/core/processor.py:82-90 | files unchanged, Download Status untouched, the local path filed as Drive File ID |
| AppProcessor.ProcessAfterRow | app/core/processor.py:52-62 | with id and metadata in hand, the run is the stages after the row |
| AppProcessor.EarlyFailureAddsNoRow | app/core/processor.py:52-56 | a validation or metadata failure changes neither rows nor files |
| AppProcessor.OneRowAdded | app/core/processor.py:56-90 | once the metadata is fetched exactly one row is added, and only the first row holding the title may change |
| AppProcessor.DownloadFailureLeavesPendingRow | app/core/processor.py:56-62 | a failed download leaves the new row with Download Status "Pending" |
| AppProcessor.FailureKeepsDownload | app/core/processor.py:59-95 | a failure after the download leaves the downloaded file in place |
| AppProcessor.FileRemovedOnlyAfterUpload | app/core/processor.py:64-81 | the file is removed exactly when uploading, not keeping files, and the run succeeds |
| AppProcessor.StatusUpdateFindsTitle | app/core/processor.py:56-89 | after the download (and upload), the run succeeds exactly when the title is non-empty |
| AppProcessor.LocalCompletionStaysPending | app/core/processor.py:82-90 | "Completed Locally" leaves Download Status "Pending" and puts the path in Drive File ID |
| AppProcessor.UploadCompletesRow | app/core/processor.py:64-76 | a successful upload run marks the row "Completed" with the Drive id |
| AppProcessor.VideoProcessor.ProcessVideo | app/core/processor.py:40-95 | outcome, rows and files are those of `Process` on the validated id and fetched metadata |
| AppProcessor.VideoProcessor.ProcessChecked | app/core/processor.py:50-62 | the same from the validation and fetch results on |
| AppProcessor.VideoProcessor.DownloadAndTrack | app/core/processor.py:59-90 | the same from the download on |
| AppProcessor.VideoProcessor.UploadAndMark | app/core/processor.py:64-81 | the same for the upload branch |
| AppProcessor.VideoProcessor.ProcessPlaylist | app/core/processor.py:97-111 | always raises NotImplementedError, unwrapped |
| AppProcessor.VideoProcessor.constructor | app/core/processor.py:22-35 | the processor holds its downloader, Drive and Sheets services and the two settings it consults |
| YoutubeManager.ReplaceNonAsciiRuns | src/youtube_manager.py:60 | one underscore per run of non-ASCII characters: ASCII only, never longer |
| YoutubeManager.RunsCollapseAlike | src/youtube_manager.py:60-62 | after collapsing, one underscore per run and one per character give the same text |
| YoutubeManager.CleanNamesAgree | src/youtube_manager.py:58-64 | before the limit both sanitisers give the same name |
| YoutubeManager.Truncate | src/youtube_manager.py:66-67 | the first 196 characters and `...`: length 199, safe, no `__` |
| YoutubeManager.SanitizeFilename | src/youtube_manager.py:52-68 | safe, no `__`, at most 200 characters; the clean name within the limit, 196 of it plus `...` over it |
| YoutubeManager.SanitizersAgreeBelowLimit | src/youtube_manager.py:52-68 | within the limit both sanitisers agree |
| YoutubeManager.SanitizeIdempotentBelowLimit | src/youtube_manager.py:52-68 | within the limit a second pass changes nothing |
| YoutubeManager.SanitizeNotIdempotent | src/youtube_manager.py:64-67 | over the limit a second pass changes the name |
| YoutubeManager.SanitizersDiverge | src/youtube_manager.py:66-67 | the two sanitisers differ on a name with a long extension |
| YoutubeManager.IndicesNameHeaders | config/config.py:19-23 | positions 6, 8 and 9 are the Video ID, Drive File ID and Download Status headers |
| YoutubeManager.UploadDateRoundTrip | src/youtube_manager.py:184-186 | the dashed date has dashes after year and month, and removing them gives the date back |
| YoutubeManager.RowDateRoundTrip | src/youtube_manager.py:184-199 | the Upload Date cell of a fetched row, with its two dashes removed, is the dictionary's date |
| YoutubeManager.VideoRow | src/youtube_manager.py:182-199 | ten fields in `HEADERS` order: title, description, tags joined by `, ` (or `''`), the first category (or `''`), thumbnail, `PLAYLIST_ID`, id, the dashed upload date, an empty Drive File ID and "Pending" |
| YoutubeManager.GetVideoData | src/youtube_manager.py:172-209 | a row exactly for a returned dictionary, and that row is `VideoRow` of it; every failure is a YouTubeDataError, "Download error: " exactly for yt-dlp's own |
| YoutubeManager.ExtractionError | src/youtube_manager.py:207-209 | any other failure is a YouTubeDataError that never carries the "Download error: " prefix |
| YoutubeManager.OpeningError | src/youtube_manager.py:135-153 | a failed opening is a GoogleSheetsError |
| YoutubeManager.ProvisionPutsHeadersFirst | src/youtube_manager.py:155-167 | the first row then reads as `HEADERS`; an empty first row gets them inserted above, a different one clears the sheet; a second check changes nothing |
| YoutubeManager.ProvisionKeepsAppended | src/youtube_manager.py:159-165 | rows under correct headers pass the check unchanged |
| YoutubeManager.ListedByCell | src/youtube_manager.py:321-324 | a non-empty id is in `col_values(7)` exactly when some row's Video ID cell holds it |
| YoutubeManager.Update | src/youtube_manager.py:313-335 | the sheet grows by one row exactly on `True` and is otherwise unchanged; failures are GoogleSheetsError |
| YoutubeManager.UpdateAppendsOnce | src/youtube_manager.py:317-331 | an appended row was not listed, carries the id, the Drive id and "Completed", and the same video is then refused |
| YoutubeManager.UploadError | src/youtube_manager.py:309-311 | a GoogleDriveError with "Upload failed: " |
| YoutubeManager.UploadResult | src/youtube_manager.py:267-311 | a missing file fails with the validation message; every failure has the upload prefix |
| YoutubeManager.LoggedRises | src/youtube_manager.py:291-300 | logged percents exceed the start (so 0% is never logged), strictly increase, are reported ones, and end at the highest reported |
| YoutubeManager.LoggedStep | src/youtube_manager.py:293-300 | one chunk: logged exactly when its percent exceeds the last logged one |
| YoutubeManager.DownloadFailure | src/youtube_manager.py:263-265 | a YouTubeDataError with "Video download failed: " |
| YoutubeManager.PathsDistinct | src/youtube_manager.py:230-246 | the downloaded, renamed and backup paths are three different files |
| YoutubeManager.Download | src/youtube_manager.py:211-265 | success needs an id and returns the title-named path; every failure is a YouTubeDataError with the download prefix |
| YoutubeManager.PromoteEffects | src/youtube_manager.py:238-259 | rename, backup copy and deletion unless kept: nothing else changes |
| YoutubeManager.DownloadEffects | src/youtube_manager.py:211-261 | the temporary file is gone, the backup holds the bytes, the returned path exists exactly when files are kept |
| YoutubeManager.DownloadWritten | src/youtube_manager.py:221-261 | when yt-dlp writes the file the download succeeds |
| YoutubeManager.PromoteAgain | src/youtube_manager.py:238-256 | a repeated download with files kept, followed by the `finally` deletion, lands on the same files |
| YoutubeManager.UploadOfPresentFile | src/youtube_manager.py:267-307 | for a file that exists the upload depends only on the transport |
| YoutubeManager.UploadAndRecord | src/youtube_manager.py:361-374 | failures leave the rows alone and are Drive or Sheets errors |
| YoutubeManager.AfterData | src/youtube_manager.py:354-386 | failures are download, Drive or Sheets errors |
| YoutubeManager.AfterDownload | src/youtube_manager.py:356-386 | after the download the outcome is that of upload and update, and the returned path is deleted |
| YoutubeManager.AfterDataFiles | src/youtube_manager.py:379-386 | the files are the download's less the returned path |
| YoutubeManager.Process | src/youtube_manager.py:337-386 | a validation or opening failure changes nothing; files change only once the download was reached |
| YoutubeManager.ProcessReachesDownload | src/youtube_manager.py:339-356 | with id, sheet and data in hand, the rest is the download and after, on the provisioned rows |
| YoutubeManager.ErrorsByStage | src/youtube_manager.py:339-378 | a ValidationError only from the URL; otherwise one of the kinds the stages raise |
| YoutubeManager.DownloadedFileRemoved | src/youtube_manager.py:379-386 | once downloaded, the returned path and the temporary file are gone and only the backup stays |
| YoutubeManager.KeepFileOffFailsUpload | src/youtube_manager.py:254-270 | with `KEEP_FILE` off the upload cannot find the file: every such run fails and adds no row |
| YoutubeManager.SheetGrowsByAtMostOne | src/youtube_manager.py:313-331 | after provisioning the sheet grows by one row exactly on `True` |
| YoutubeManager.SuccessAppendsCompletedRow | src/youtube_manager.py:361-371 | `True` means the upload gave a non-empty id, the video was not listed, and its completed row was appended |
| YoutubeManager.DuplicateCheckedAfterUpload | src/youtube_manager.py:356-374 | `False` comes only after a download and an upload that succeeded, for a listed video |
| YoutubeManager.SecondRunReportsDuplicate | src/youtube_manager.py:320-326 | a second run of the same video reports `False` and leaves rows and files as the first left them |
| YoutubeManager.YouTubeManager.GetOrCreateSheet | src/youtube_manager.py:129-170 | the opened sheet with its headers checked, or the opening error with the rows unchanged |
| YoutubeManager.YouTubeManager.DownloadVideo | src/youtube_manager.py:211-265 | outcome and files are those of `Download` |
| YoutubeManager.YouTubeManager.UploadToDrive | src/youtube_manager.py:267-311 | the result of `UploadResult`; the name is the file's own and the parent the configured folder; the percents logged by the loop |
| YoutubeManager.YouTubeManager.UpdateSpreadsheet | src/youtube_manager.py:313-335 | outcome and rows are those of `Update`; the caller's list receives the Drive id and "Completed" before the check |
| YoutubeManager.YouTubeManager.UploadAndUpdate | src/youtube_manager.py:361-374 | outcome and rows are those of `UploadAndRecord` |
| YoutubeManager.YouTubeManager.ProcessVideo | src/youtube_manager.py:337-386 | outcome, rows and files are those of `Process` |
| YoutubeManager.YouTubeManager.ProcessValidated | src/youtube_manager.py:339-353 | the same from the validation result on |
| YoutubeManager.YouTubeManager.DownloadAndRecord | src/youtube_manager.py:354-386 | the same from the download on, `finally` included |
| YoutubeManager.YouTubeManager.constructor | src/youtube_manager.py:81-106 | the manager holds its worksheet, its videos directory and the `KEEP_FILE` setting |

## Left out

- IPv6 literals in URLs: `urlsplit`'s bracket check becomes an error result; bracketed hosts are not parsed further.
- `;params` splitting and the replacement character U+FFFD that `unquote` produces for invalid UTF-8: percent escapes are decoded byte by byte, and only ASCII is exercised.
- Floating point: `format_size`, the download progress fraction and `int(status.progress() * 100)`. Percents are given as integers, and callback values are those integers.
- Logging and printing, apart from the printed and logged upload percents, which the model returns.
- The download progress hooks (`progress_hook`, `_download_progress_hook`): they only log.
- Interactive loops (`main.py`, `src/youtube_manager.py:388-437`): terminal I/O.
- Directory creation (`mkdir`, `ensure_video_dir`, `initialize_directories`).
- Credential and FFmpeg checks, `validate_file_exists`/`validate_directory_exists` of `app/utils/validators.py` (other than the upload's existence test), and the service and yt-dlp setup.
- `GoogleDriveService.delete_file` and `get_file_info`: not used by the pipeline.
- `async`: everything runs sequentially.
- The current date and the service account's e-mail address are parameters; the clock and the credentials file are not read.
- YoutubeManager.YouTubeManager.DownloadVideo: an OSError from `rename`, `copy2` or `unlink` is not modelled. The rename fallback of `src/youtube_manager.py:241-243` is therefore never taken.
- AppDownloader.YouTubeDownloader.DownloadVideo: the filesystem never raises. The `OSError` handler of `app/core/downloader.py:240-241` ("File system error: ") is therefore not modelled.
- YoutubeManager.Download: yt-dlp's file is modelled only under its identifier's name. A download whose dictionary lacks `id` fails before any file is considered.
- YoutubeManager.GetOrCreateSheet: the in-memory worksheet never fails, so the "Worksheet error: " path is not modelled. The same holds for the sheet-operation failures of `AppSheets`.
- YoutubeManager.Process: the checks "Failed to get video data" and "Failed to download video" cannot fail once the earlier stage returned, and have no branch.
- AppDrive.UploadResult: an `HttpError` from a chunk becomes a `GoogleDriveError` inside the loop. That error is not an `HttpError`, so the outer `except Exception` wraps it as "Upload failed: ", and so does the model. An `HttpError` raised outside the loop would get "Drive API error: " instead. Creating the request never fails here, so that path is not modelled.
- AppSheets.Zip: defined for distinct keys only. There Python's "later key wins" and the model agree, and `HEADERS` is distinct.
- Media.Info: a key present with the value `None` is treated as absent, as `.get(key, default)` would not do for a few keys.
- `KEEP_FILE` of `config/config.py` is a constructor parameter of `YoutubeManager.YouTubeManager`, with the configured value `KeepFileSetting`.
