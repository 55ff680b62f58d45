/**
 * The Drive upload of the `app` package (`app/services/google_drive.py`):
 * the existence check, the name and folder of the new file, the loop over
 * the chunks of a resumable upload with its progress bookkeeping, and the
 * check of the returned identifier.  The transport is a parameter: the
 * sequence of what `next_chunk` returned or raised, each status already
 * turned into its integer percent.
 */
module AppDrive {
  import opened Common
  import opened PyText
  import opened Files

  /** The body of `files().create`'s response. */
  datatype Response = Response(id: Option<string>)

  /** One call of `next_chunk`. */
  datatype Chunk =
    /** It returned `(status, response)`; the status as `int(progress() * 100)`. */
    | Step(status: Option<nat>, response: Option<Response>)
    /** It raised `HttpError`, by its text. */
    | ChunkError(text: string)

  /** A chunk after which the loop does not go on. */
  predicate Final(c: Chunk) {
    c.ChunkError? || c.response.Some?
  }

  /** The file metadata sent with the upload. */
  datatype DriveFile = DriveFile(name: string, parent: string)

  const FailurePrefix := "Upload failed: "
  const NoIdMessage := "Upload successful but file ID not received"

  /** The percents the first `n` chunks report, in order. */
  function Percents(chunks: seq<Chunk>, n: nat): (ps: seq<nat>)
    requires n <= |chunks|
    ensures |ps| <= n
    ensures forall i :: 0 <= i < |ps| ==>
      exists k :: 0 <= k < n && chunks[k].Step? && chunks[k].status == Some(ps[i])
    ensures forall k :: 0 <= k < n && chunks[k].Step? && chunks[k].status.Some? ==> chunks[k].status.value in ps
  {
    if n == 0 then []
    else
      var c := chunks[n - 1];
      Percents(chunks, n - 1) + (if c.Step? && c.status.Some? then [c.status.value] else [])
  }

  predicate StrictlyIncreasing(s: seq<int>) {
    forall a, b :: 0 <= a < b < |s| ==> s[a] < s[b]
  }

  /** The progress bookkeeping over a list of percents: the values passed to
   *  the callback and the last recorded percent, `-1` before any. */
  function Track(ps: seq<nat>): (r: (seq<nat>, int))
    ensures StrictlyIncreasing(r.0)
    ensures r.1 == -1 <==> |ps| == 0
    ensures |ps| > 0 ==> |r.0| > 0 && r.0[|r.0| - 1] == r.1
    ensures forall i :: 0 <= i < |ps| ==> ps[i] <= r.1
  {
    if |ps| == 0 then ([], -1)
    else
      var (calls, last) := Track(ps[..|ps| - 1]);
      var p := ps[|ps| - 1];
      assert forall i :: 0 <= i < |ps| - 1 ==> ps[i] == ps[..|ps| - 1][i];
      if p > last then (calls + [p], p) else (calls, last)
  }

  /** What is printed during the loop: `0` on the first status, then each
   *  percent that exceeds the last recorded one, which is also what the
   *  callback receives. */
  function PrintedInLoop(ps: seq<nat>): seq<int> {
    if |ps| == 0 then [] else [0] + Track(ps).0
  }

  /** The calls of `next_chunk` one upload makes: every one but the last
   *  returns without a response, and the last raises or carries one. */
  predicate Transcript(chunks: seq<Chunk>) {
    && |chunks| > 0
    && Final(chunks[|chunks| - 1])
    && forall j :: 0 <= j < |chunks| - 1 ==> !Final(chunks[j])
  }

  /** Everything printed when the loop ends on a response: the lines of the
   *  loop, then `100` unless the last recorded percent already reached it. */
  function PrintedAll(ps: seq<nat>): seq<int> {
    PrintedInLoop(ps) + Closing(Track(ps).1)
  }

  /** The `100` printed after the loop, unless the last percent reached it. */
  function Closing(last: int): seq<int> {
    if last < 100 then [100] else []
  }

  /** The printed percents are `0`, then strictly increasing values; with no
   *  status at all, only the closing `100`. */
  lemma PrintedShape(ps: seq<nat>)
    ensures |ps| > 0 ==> PrintedAll(ps)[0] == 0 && StrictlyIncreasing(PrintedAll(ps)[1..])
    ensures |ps| == 0 ==> PrintedAll(ps) == [100]
  {
    if |ps| > 0 {
      var calls: seq<int> := Track(ps).0;
      var tail: seq<int> := if Track(ps).1 < 100 then [100] else [];
      CallsThenTail(calls, tail, Track(ps).1);
      assert PrintedAll(ps) == [0] + (calls + tail);
      IncreasingAfterHead(0, calls + tail);
    }
  }

  lemma CallsThenTail(calls: seq<int>, tail: seq<int>, last: int)
    requires StrictlyIncreasing(calls) && |calls| > 0 && calls[|calls| - 1] == last
    requires tail == if last < 100 then [100] else []
    ensures StrictlyIncreasing(calls + tail)
  {
    if last < 100 {
      AppendIncreasing(calls, 100);
    } else {
      assert calls + tail == calls;
    }
  }

  lemma IncreasingAfterHead(x: int, rest: seq<int>)
    requires StrictlyIncreasing(rest)
    ensures StrictlyIncreasing(([x] + rest)[1..])
  {
    assert ([x] + rest)[1..] == rest;
  }

  lemma AppendIncreasing(s: seq<int>, x: int)
    requires StrictlyIncreasing(s) && (|s| == 0 || s[|s| - 1] < x)
    ensures StrictlyIncreasing(s + [x])
  {
    var t := s + [x];
    forall a, b | 0 <= a < b < |t| ensures t[a] < t[b] {
      if b == |s| && a < |s| {
        assert s[a] <= s[|s| - 1];
      }
    }
  }

  /** One more percent: how the bookkeeping and the printed lines grow. */
  lemma TrackStep(ps: seq<nat>, p: nat)
    ensures var (calls, last) := Track(ps);
      && Track(ps + [p]) == (if p > last then (calls + [p], p) else (calls, last))
      && PrintedInLoop(ps + [p]) ==
           (if last == -1 then PrintedInLoop(ps) + [0] else PrintedInLoop(ps)) + (if p > last then [p] else [])
  {
    var q := ps + [p];
    assert q[..|q| - 1] == ps;
    var t := Track(ps);
    if |ps| > 0 && p > t.1 {
      assert [0] + (t.0 + [p]) == ([0] + t.0) + [p];
    }
  }

  /** One more chunk: the percents grow by its status, if it has one. */
  lemma PercentsStep(chunks: seq<Chunk>, i: nat)
    requires i < |chunks|
    ensures chunks[i].Step? && chunks[i].status.Some? ==>
      Percents(chunks, i + 1) == Percents(chunks, i) + [chunks[i].status.value]
    ensures !(chunks[i].Step? && chunks[i].status.Some?) ==> Percents(chunks, i + 1) == Percents(chunks, i)
  {
    var ps := Percents(chunks, i);
    assert ps + [] == ps;
  }

  /** A first status of 0% prints `0` twice: once as the opening line and
   *  once because it exceeds the initial `-1`. */
  lemma ZeroPrintedTwice(rest: seq<nat>)
    ensures PrintedInLoop([0] + rest)[..2] == [0, 0]
  {
    TrackPrefix([0], rest);
  }

  /** Later percents do not change what the earlier ones recorded. */
  lemma {:induction false} TrackPrefix(ps: seq<nat>, more: seq<nat>)
    ensures Track(ps).0 <= Track(ps + more).0
    decreases |more|
  {
    if |more| > 0 {
      var init := more[..|more| - 1];
      TrackPrefix(ps, init);
      assert (ps + more)[..|ps + more| - 1] == ps + init;
    } else {
      assert ps + more == ps;
    }
  }

  /** The outcome when `next_chunk` raises. */
  function ChunkFailure(text: string): Result<string> {
    Err(Error(GoogleDriveError, FailurePrefix + "Error during upload chunk: " + text))
  }

  /** The outcome of a response: its non-empty identifier, or the error. */
  function IdResult(id: Option<string>): (r: Result<string>)
    ensures r.Ok? <==> id.Some? && id.value != ""
    ensures r.Ok? ==> r.value == id.value
  {
    if id.Some? && id.value != "" then Ok(id.value)
    else Err(Error(GoogleDriveError, FailurePrefix + NoIdMessage))
  }

  /** What the upload loop yields for the chunks of an existing file: the
   *  outcome, the percents printed and the values passed to the callback. */
  function ChunkLoop(chunks: seq<Chunk>): (Result<string>, seq<int>, seq<nat>)
    requires Transcript(chunks)
  {
    Exit(chunks[|chunks| - 1], Percents(chunks, |chunks|))
  }

  /** The loop's yield when it stops at chunk `c` having seen the percents `ps`. */
  function Exit(c: Chunk, ps: seq<nat>): (Result<string>, seq<int>, seq<nat>)
    requires Final(c)
  {
    match c
    case ChunkError(text) => (ChunkFailure(text), PrintedInLoop(ps), Track(ps).0)
    case Step(_, response) => (IdResult(response.value.id), PrintedAll(ps), Track(ps).0)
  }

  /** The loop's variables after the percents `ps`. */
  ghost predicate Recorded(ps: seq<nat>, printed: seq<int>, callbacks: seq<nat>, last: int) {
    printed == PrintedInLoop(ps) && callbacks == Track(ps).0 && last == Track(ps).1
  }

  /** The `if status:` block of the loop: print `0` on the first status,
   *  then record and report a percent that exceeds the last one. */
  method Progress(ghost ps: seq<nat>, printed: seq<int>, callbacks: seq<nat>, last: int, current: nat)
    returns (printed': seq<int>, callbacks': seq<nat>, last': int)
    requires Recorded(ps, printed, callbacks, last)
    ensures Recorded(ps + [current], printed', callbacks', last')
  {
    TrackStep(ps, current);
    printed', callbacks', last' := printed, callbacks, last;
    if last == -1 {
      printed' := printed' + [0];
    }
    if current > last {
      printed' := printed' + [current];
      last' := current;
      callbacks' := callbacks' + [current];
    }
  }

  /** The `while response is None` loop of `upload_file` with the check of
   *  the identifier after it. */
  method RunChunks(chunks: seq<Chunk>) returns (r: Result<string>, printed: seq<int>, callbacks: seq<nat>)
    requires Transcript(chunks)
    ensures (r, printed, callbacks) == ChunkLoop(chunks)
  {
    var response: Option<Response> := None;
    var last: int := -1;
    printed, callbacks := [], [];
    ghost var ps: seq<nat> := [];
    var i := 0;
    while response.None?
      invariant 0 <= i <= |chunks|
      invariant response.Some? <==> i == |chunks|
      invariant i > 0 ==> chunks[i - 1].Step? && response == chunks[i - 1].response
      invariant ps == Percents(chunks, i)
      invariant Recorded(ps, printed, callbacks, last)
      decreases |chunks| - i
    {
      var c := chunks[i];
      PercentsStep(chunks, i);
      if c.ChunkError? {
        assert i == |chunks| - 1;
        ChunkLoopError(chunks, ps, printed, callbacks, last);
        return ChunkFailure(c.text), printed, callbacks;
      }
      if c.status.Some? {
        printed, callbacks, last := Progress(ps, printed, callbacks, last, c.status.value);
        ps := ps + [c.status.value];
      }
      response := c.response;
      i := i + 1;
    }
    ChunkLoopResponse(chunks, ps, printed, callbacks, last);
    printed := printed + Closing(last);
    r := IdResult(response.value.id);
  }

  lemma ChunkLoopError(chunks: seq<Chunk>, ps: seq<nat>, printed: seq<int>, callbacks: seq<nat>, last: int)
    requires Transcript(chunks) && chunks[|chunks| - 1].ChunkError?
    requires ps == Percents(chunks, |chunks| - 1) && Recorded(ps, printed, callbacks, last)
    ensures ChunkLoop(chunks) == (ChunkFailure(chunks[|chunks| - 1].text), printed, callbacks)
  {
    assert Percents(chunks, |chunks|) == ps + [];
    assert ps + [] == ps;
  }

  lemma ChunkLoopResponse(chunks: seq<Chunk>, ps: seq<nat>, printed: seq<int>, callbacks: seq<nat>, last: int)
    requires Transcript(chunks) && chunks[|chunks| - 1].Step?
    requires ps == Percents(chunks, |chunks|) && Recorded(ps, printed, callbacks, last)
    ensures ChunkLoop(chunks) ==
      (IdResult(chunks[|chunks| - 1].response.value.id), printed + Closing(last), callbacks)
  {
  }

  /** What `upload_file` returns or raises for the file at `path`. */
  function UploadResult(files: map<Path, nat>, path: Path, chunks: seq<Chunk>): (r: Result<string>)
    requires Transcript(chunks)
    ensures r.Err? ==> r.error.kind == GoogleDriveError && StartsWith(r.error.msg, FailurePrefix)
    ensures r.Ok? ==> path in files && r.value != ""
  {
    if path !in files then Err(Error(GoogleDriveError, FailurePrefix + "File not found: " + PathText(path)))
    else ChunkLoop(chunks).0
  }

  class GoogleDriveService {
    /** `settings.DRIVE_FOLDER_ID`. */
    const folderId: string

    constructor (folderId: string)
      ensures this.folderId == folderId
    {
      this.folderId := folderId;
    }

    /** `upload_file`: the outcome, the metadata sent (none when the file is
     *  missing), the percents printed and the values passed to the callback. */
    method UploadFile(fs: FileSystem, path: Path, title: Option<string>, chunks: seq<Chunk>)
      returns (r: Result<string>, sent: Option<DriveFile>, printed: seq<int>, callbacks: seq<nat>)
      requires Transcript(chunks)
      ensures path !in fs.files ==>
        r == Err(Error(GoogleDriveError, FailurePrefix + "File not found: " + PathText(path)))
        && sent.None? && printed == [] && callbacks == []
      ensures path in fs.files ==>
        && sent == Some(DriveFile(if title.Some? && title.value != "" then title.value else Name(path), folderId))
        && (r, printed, callbacks) == ChunkLoop(chunks)
      ensures r == UploadResult(fs.files, path, chunks)
      ensures StrictlyIncreasing(callbacks)
    {
      if path !in fs.files {
        return Err(Error(GoogleDriveError, FailurePrefix + "File not found: " + PathText(path))), None, [], [];
      }
      sent := Some(DriveFile(if title.Some? && title.value != "" then title.value else Name(path), folderId));
      r, printed, callbacks := RunChunks(chunks);
    }
  }
}
