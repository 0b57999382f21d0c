/** `DownloadTaskFactory`: the executor of one download. It follows redirects, copies the
    response body into a temporary file under the incomplete-downloads root while reporting
    progress, and moves that file to its destination, trying the next sequence number while
    the name is taken. */
module Executor {
  import opened Wrappers
  import opened Text
  import opened Http
  import opened FileSystems
  import opened Directories
  import Links
  import SaveAs

  /** `DownloadJob.JobId`: a GUID, here the string its `ToString()` gives. */
  datatype JobId = JobId(text: string)

  /** A call of one of the two callbacks the job hands to the executor. */
  datatype Callback = SetTotalBytes(totalBytes: nat) | SetBytesDownloaded(bytesDownloaded: nat)

  /** `Args` without the HTTP client and the callbacks: the server is a parameter of the
      executor and the callbacks are returned as the list of calls made. */
  datatype Args = Args(id: JobId, link: Links.Link, saveAsFile: SaveAs.SaveAsFile)

  /** How the task of `CreateDownloadTask` ends: it returns a result, throws, or never
      completes (a request left unanswered, or more redirects or taken names in a row than
      the model follows). */
  datatype TaskOutcome =
    | Returned(result: Result<SaveAs.SaveAsFile>)
    | Threw(message: string)
    | Hung

  /** The effect of a download: how it ends, the callbacks made in order, the file system
      after it and the operations performed on the file system. */
  datatype Run = Run(outcome: TaskOutcome, calls: seq<Callback>, disk: Disk, log: seq<Operation>)

  /** `Moved`, `Redirect`, `TemporaryRedirect` and `PermanentRedirect`. */
  const RedirectStatuses: seq<nat> := [301, 302, 307, 308]

  /** `ResponseIsRedirect`. */
  function ResponseIsRedirect(response: Response): (b: bool)
    ensures b <==> response.status in {301, 302, 307, 308}
  {
    response.status in RedirectStatuses
  }

  /** The failure for a redirect without a usable `Location`. The link is formatted by the
      default `ToString()` of the `Link` class, which gives its type name, not its URL. */
  const UndefinedLocationMessage := "Api.Downloading.Link redirects to undefined location."

  /** The path of the temporary file: the incomplete-downloads root followed by the id. */
  function TemporaryFile(incomplete: DownloadsDirectory, id: JobId): string {
    incomplete.path + id.text
  }

  // ---------------------------------------------------------------------------------------
  // The copy loop.

  /** The number of bytes received once read `i` has been made; read `|chunks|` is the final
      one, which returns nothing. */
  function ReceivedAfter(chunks: seq<Chunk>, i: nat): nat
    requires i <= |chunks|
  {
    if i < |chunks| then |Concat(chunks[..i + 1])| else |Concat(chunks)|
  }

  /** The calls of `setBytesDownloaded` the copy loop makes: one after every read, the final
      empty read included. */
  function ProgressCalls(chunks: seq<Chunk>): seq<Callback> {
    seq(|chunks| + 1, i requires 0 <= i <= |chunks| => SetBytesDownloaded(ReceivedAfter(chunks, i)))
  }

  /** One write of each chunk read. */
  function Writes(path: string, chunks: seq<Chunk>): seq<Operation> {
    seq(|chunks|, i requires 0 <= i < |chunks| => Wrote(path, chunks[i]))
  }

  /** The operations of the copy loop: the writes, the write of the empty final read, then a
      flush. */
  function CopyLog(path: string, chunks: seq<Chunk>): seq<Operation> {
    Writes(path, chunks) + [Wrote(path, []), Flushed(path)]
  }

  /** The progress reports count up the bytes read: they never decrease, there is one per
      read plus the final one, and the last two both give the length of the body. */
  lemma ProgressCounts(chunks: seq<Chunk>)
    ensures var p := ProgressCalls(chunks);
      && |p| == |chunks| + 1
      && p[|chunks|] == SetBytesDownloaded(|Concat(chunks)|)
      && (forall i, j :: 0 <= i < j <= |chunks| ==> p[i].bytesDownloaded <= p[j].bytesDownloaded)
      && (forall i, j :: 0 <= i < j < |chunks| ==> p[i].bytesDownloaded < p[j].bytesDownloaded)
  {
    var p := ProgressCalls(chunks);
    forall i, j | 0 <= i < j <= |chunks| ensures p[i].bytesDownloaded <= p[j].bytesDownloaded {
      ReceivedGrows(chunks, i, j);
    }
    forall i, j | 0 <= i < j < |chunks| ensures p[i].bytesDownloaded < p[j].bytesDownloaded {
      ReceivedGrows(chunks, i, j);
    }
  }

  /** A later read has received at least as many bytes, and strictly more before the final
      read. */
  lemma ReceivedGrows(chunks: seq<Chunk>, i: nat, j: nat)
    requires i < j <= |chunks|
    ensures ReceivedAfter(chunks, i) <= ReceivedAfter(chunks, j)
    ensures j < |chunks| ==> ReceivedAfter(chunks, i) < ReceivedAfter(chunks, j)
  {
    assert chunks[..|chunks|] == chunks;
    if j < |chunks| {
      ConcatGrows(chunks, i + 1, j + 1);
    } else if i + 1 < j {
      ConcatGrows(chunks, i + 1, j);
    }
  }

  /** `CopyResponseContentToTemporaryFile`: read into the buffer, add what was read to the
      total, report the total, write what was read, and stop after the read that returns
      nothing; then flush. The file receives the whole body. */
  method CopyResponseContentToTemporaryFile(chunks: seq<Chunk>, fileSystem: FileSystem, path: string)
    returns (calls: seq<Callback>)
    requires path in fileSystem.files
    modifies fileSystem
    ensures calls == ProgressCalls(chunks)
    ensures fileSystem.files == old(fileSystem.files)[path := old(fileSystem.files[path]) + Concat(chunks)]
    ensures fileSystem.directories == old(fileSystem.directories)
    ensures fileSystem.log == old(fileSystem.log) + CopyLog(path, chunks)
  {
    ghost var start := fileSystem.files[path];
    assert chunks[..0] == [] && start + [] == start;
    assert old(fileSystem.files)[path := start] == old(fileSystem.files);
    var i := 0;
    var totalBytesDownloaded := 0;
    calls := [];
    while true
      invariant i <= |chunks| && path in fileSystem.files
      invariant totalBytesDownloaded == |Concat(chunks[..i])|
      invariant calls == ProgressCalls(chunks)[..i]
      invariant fileSystem.files == old(fileSystem.files)[path := start + Concat(chunks[..i])]
      invariant fileSystem.directories == old(fileSystem.directories)
      invariant fileSystem.log == old(fileSystem.log) + Writes(path, chunks)[..i]
      decreases |chunks| - i
    {
      var buffer: seq<byte> := if i < |chunks| then chunks[i] else [];
      var bytesRead := |buffer|;
      totalBytesDownloaded := totalBytesDownloaded + bytesRead;
      calls := calls + [SetBytesDownloaded(totalBytesDownloaded)];
      fileSystem.Write(path, buffer);
      if bytesRead == 0 {
        break;
      }
      CopyStep(chunks, i, path, start);
      i := i + 1;
    }
    CopyDone(chunks, i, path, start);
    fileSystem.Flush(path);
  }

  /** One more chunk read: the file, the writes and the reports grow by that chunk. */
  lemma CopyStep(chunks: seq<Chunk>, i: nat, path: string, start: seq<byte>)
    requires i < |chunks|
    ensures start + Concat(chunks[..i + 1]) == start + Concat(chunks[..i]) + chunks[i]
    ensures |Concat(chunks[..i + 1])| == |Concat(chunks[..i])| + |chunks[i]|
    ensures Writes(path, chunks)[..i + 1] == Writes(path, chunks)[..i] + [Wrote(path, chunks[i])]
    ensures ProgressCalls(chunks)[..i + 1] == ProgressCalls(chunks)[..i] + [SetBytesDownloaded(|Concat(chunks[..i + 1])|)]
  {
    ConcatSnoc(chunks, i);
  }

  /** The read that returns nothing: the whole body has been written and reported. */
  lemma CopyDone(chunks: seq<Chunk>, i: nat, path: string, start: seq<byte>)
    requires i == |chunks|
    ensures start + Concat(chunks[..i]) + [] == start + Concat(chunks)
    ensures Writes(path, chunks)[..i] == Writes(path, chunks)
    ensures ProgressCalls(chunks) == ProgressCalls(chunks)[..i] + [SetBytesDownloaded(|Concat(chunks[..i])|)]
  {
    assert chunks[..i] == chunks;
  }

  // ---------------------------------------------------------------------------------------
  // The move loop.

  /** How the move loop ends: the file is saved under a name, a renaming throws, or the
      names tried run past the model's bound. */
  datatype MoveOutcome = Saved(file: SaveAs.SaveAsFile) | MoveThrew(message: string) | MoveHung

  datatype MoveRun = MoveRun(outcome: MoveOutcome, log: seq<Operation>)

  /** `op` is an attempt to move `source` to `destination`, refused or not. */
  predicate IsAttempt(op: Operation, source: string, destination: string) {
    (op.Moved? || op.MoveRefused?) && op.source == source && op.destination == destination
  }

  /** A renaming the move loop may apply after a refusal: defined on every destination under
      a normalised root, it keeps the root and adds one to the sequence number, or fails.
      `SaveAsFile.IncrementSequence` is one (`IncrementSequenceIsIncrement`). */
  ghost predicate IsIncrement(increment: SaveAs.SaveAsFile --> Result<SaveAs.SaveAsFile>) {
    forall s: SaveAs.SaveAsFile {:trigger increment.requires(s)} {:trigger increment(s)} ::
      SaveAs.IsNormalised(s.downloadsDirectory) ==>
      && increment.requires(s)
      && (increment(s).Success? ==>
            && increment(s).value.downloadsDirectory == s.downloadsDirectory
            && increment(s).value.sequence == s.sequence + 1)
  }

  lemma IncrementSequenceIsIncrement()
    ensures IsIncrement(SaveAs.IncrementSequence)
  {
    forall s: SaveAs.SaveAsFile | SaveAs.IsNormalised(s.downloadsDirectory)
      ensures SaveAs.IncrementSequence.requires(s)
    {
    }
  }

  /** A move of `source` to `destination` goes through on a file system with the paths
      `files` and `directories`: the source file exists and neither a file nor a directory
      holds the destination. */
  predicate MoveGoesThrough(files: set<string>, directories: set<string>, source: string, destination: string) {
    source in files && destination !in files && destination !in directories
  }

  /** The move loop over a file system whose files and directories are at the paths `files`
      and `directories`, allowed `fuel` attempts: move without overwriting; on refusal take
      the next name and try again. A file is only ever saved under a name that was free
      (`MoveAttemptsFacts` says more). */
  function MoveAttempts(files: set<string>, directories: set<string>, temporaryFile: string, saveAsFile: SaveAs.SaveAsFile,
                        increment: SaveAs.SaveAsFile --> Result<SaveAs.SaveAsFile>, fuel: nat)
    : (r: MoveRun)
    requires SaveAs.IsNormalised(saveAsFile.downloadsDirectory) && IsIncrement(increment)
    ensures r.outcome.Saved? ==> MoveGoesThrough(files, directories, temporaryFile, r.outcome.file.fullName)
    decreases fuel
  {
    if fuel == 0 then MoveRun(MoveHung, [])
    else if MoveGoesThrough(files, directories, temporaryFile, saveAsFile.fullName) then
      MoveRun(Saved(saveAsFile), [Moved(temporaryFile, saveAsFile.fullName)])
    else
      var refused := [MoveRefused(temporaryFile, saveAsFile.fullName)];
      match increment(saveAsFile)
      case Failure(e) => MoveRun(MoveThrew(e), refused)
      case Success(next) =>
        var rest := MoveAttempts(files, directories, temporaryFile, next, increment, fuel - 1);
        MoveRun(rest.outcome, refused + rest.log)
  }

  /** The move loop tries the destination first, then names with ever higher sequence numbers
      under the same root; every attempt moves the temporary file; every refused attempt
      was refused because a file or a directory held the name (or the temporary file was
      missing); and the file
      is saved exactly when the last attempt succeeds. */
  lemma {:induction false} MoveAttemptsFacts(files: set<string>, directories: set<string>, temporaryFile: string, saveAsFile: SaveAs.SaveAsFile,
                                             increment: SaveAs.SaveAsFile --> Result<SaveAs.SaveAsFile>, fuel: nat)
    requires SaveAs.IsNormalised(saveAsFile.downloadsDirectory) && IsIncrement(increment)
    ensures var r := MoveAttempts(files, directories, temporaryFile, saveAsFile, increment, fuel);
      && (r.outcome.Saved? ==>
            && r.outcome.file.downloadsDirectory == saveAsFile.downloadsDirectory
            && r.outcome.file.sequence >= saveAsFile.sequence
            && (r.outcome.file.sequence == saveAsFile.sequence ==> r.outcome.file == saveAsFile))
      && (fuel > 0 ==> |r.log| > 0 && IsAttempt(r.log[0], temporaryFile, saveAsFile.fullName))
      && (forall i :: 0 <= i < |r.log| ==> (r.log[i].Moved? || r.log[i].MoveRefused?) && r.log[i].source == temporaryFile)
      && (forall i :: 0 <= i < |r.log| && r.log[i].MoveRefused? ==>
            !MoveGoesThrough(files, directories, temporaryFile, r.log[i].destination))
      && (r.outcome.Saved? <==> |r.log| > 0 && r.log[|r.log| - 1].Moved?)
    decreases fuel
  {
    var r := MoveAttempts(files, directories, temporaryFile, saveAsFile, increment, fuel);
    if fuel > 0 && !(MoveGoesThrough(files, directories, temporaryFile, saveAsFile.fullName)) && increment(saveAsFile).Success? {
      var next := increment(saveAsFile).value;
      MoveAttemptsFacts(files, directories, temporaryFile, next, increment, fuel - 1);
      var rest := MoveAttempts(files, directories, temporaryFile, next, increment, fuel - 1);
      assert r.log == [MoveRefused(temporaryFile, saveAsFile.fullName)] + rest.log;
      forall i | 1 <= i < |r.log| ensures r.log[i] == rest.log[i - 1] {
      }
    }
  }

  /** The loop has made the attempts `done` and goes on from `current` with `remaining`
      attempts left: what is left of it finishes the whole loop. */
  predicate Continues(files: set<string>, directories: set<string>, temporaryFile: string, saveAsFile: SaveAs.SaveAsFile,
                      increment: SaveAs.SaveAsFile --> Result<SaveAs.SaveAsFile>, fuel: nat,
                      done: seq<Operation>, current: SaveAs.SaveAsFile, remaining: nat)
    requires SaveAs.IsNormalised(saveAsFile.downloadsDirectory) && SaveAs.IsNormalised(current.downloadsDirectory)
    requires IsIncrement(increment)
  {
    var whole := MoveAttempts(files, directories, temporaryFile, saveAsFile, increment, fuel);
    var rest := MoveAttempts(files, directories, temporaryFile, current, increment, remaining);
    whole.outcome == rest.outcome && whole.log == done + rest.log
  }

  /** After a refused attempt the loop goes on from the next sequence number, with the
      refusal recorded and one attempt fewer left. */
  lemma ContinuesAfterRefusal(files: set<string>, directories: set<string>, temporaryFile: string, saveAsFile: SaveAs.SaveAsFile,
                              increment: SaveAs.SaveAsFile --> Result<SaveAs.SaveAsFile>, fuel: nat,
                              done: seq<Operation>, current: SaveAs.SaveAsFile, remaining: nat,
                              done': seq<Operation>, next: SaveAs.SaveAsFile, remaining': nat)
    requires SaveAs.IsNormalised(saveAsFile.downloadsDirectory) && SaveAs.IsNormalised(current.downloadsDirectory)
    requires IsIncrement(increment)
    requires Continues(files, directories, temporaryFile, saveAsFile, increment, fuel, done, current, remaining)
    requires remaining > 0 && !(MoveGoesThrough(files, directories, temporaryFile, current.fullName))
    requires increment(current) == Success(next)
    requires done' == done + [MoveRefused(temporaryFile, current.fullName)] && remaining' == remaining - 1
    ensures SaveAs.IsNormalised(next.downloadsDirectory)
    ensures Continues(files, directories, temporaryFile, saveAsFile, increment, fuel, done', next, remaining')
  {
    var rest := MoveAttempts(files, directories, temporaryFile, next, increment, remaining').log;
    var refused := [MoveRefused(temporaryFile, current.fullName)];
    assert MoveAttempts(files, directories, temporaryFile, current, increment, remaining).log == refused + rest;
    assert done + (refused + rest) == (done + refused) + rest;
  }

  /** Before the first attempt the rest of the loop is the whole loop. */
  lemma ContinuesAtStart(files: set<string>, directories: set<string>, temporaryFile: string, saveAsFile: SaveAs.SaveAsFile,
                         increment: SaveAs.SaveAsFile --> Result<SaveAs.SaveAsFile>, fuel: nat)
    requires SaveAs.IsNormalised(saveAsFile.downloadsDirectory) && IsIncrement(increment)
    ensures Continues(files, directories, temporaryFile, saveAsFile, increment, fuel, [], saveAsFile, fuel)
  {
    assert [] + MoveAttempts(files, directories, temporaryFile, saveAsFile, increment, fuel).log
      == MoveAttempts(files, directories, temporaryFile, saveAsFile, increment, fuel).log;
  }

  /** How the loop ends from `current`: the outcome and the last operations of the whole
      loop. */
  lemma ContinuesToEnd(files: set<string>, directories: set<string>, temporaryFile: string, saveAsFile: SaveAs.SaveAsFile,
                       increment: SaveAs.SaveAsFile --> Result<SaveAs.SaveAsFile>, fuel: nat,
                       done: seq<Operation>, current: SaveAs.SaveAsFile, remaining: nat)
    requires SaveAs.IsNormalised(saveAsFile.downloadsDirectory) && SaveAs.IsNormalised(current.downloadsDirectory)
    requires IsIncrement(increment)
    requires Continues(files, directories, temporaryFile, saveAsFile, increment, fuel, done, current, remaining)
    ensures var whole := MoveAttempts(files, directories, temporaryFile, saveAsFile, increment, fuel);
      && (remaining == 0 ==> whole == MoveRun(MoveHung, done))
      && (remaining > 0 && MoveGoesThrough(files, directories, temporaryFile, current.fullName) ==>
            whole == MoveRun(Saved(current), done + [Moved(temporaryFile, current.fullName)]))
      && (remaining > 0 && !(MoveGoesThrough(files, directories, temporaryFile, current.fullName)) && increment(current).Failure? ==>
            whole == MoveRun(MoveThrew(increment(current).error), done + [MoveRefused(temporaryFile, current.fullName)]))
  {
    assert done + [] == done;
  }

  /** The retry loop shared by `MoveTemporaryFileToSaveAsFile` and the legacy `Download`:
      the outcome and the operations are those of `MoveAttempts`; the temporary file is
      moved to the saved name and nothing else changes. */
  method MoveWithRetries(fileSystem: FileSystem, temporaryFile: string, saveAsFile: SaveAs.SaveAsFile,
                         increment: SaveAs.SaveAsFile --> Result<SaveAs.SaveAsFile>, fuel: nat)
    returns (outcome: MoveOutcome)
    requires SaveAs.IsNormalised(saveAsFile.downloadsDirectory) && IsIncrement(increment)
    modifies fileSystem
    ensures var run := MoveAttempts(old(fileSystem.files).Keys, old(fileSystem.directories), temporaryFile, saveAsFile, increment, fuel);
      outcome == run.outcome && fileSystem.log == old(fileSystem.log) + run.log
    ensures outcome.Saved? ==>
      fileSystem.files == (old(fileSystem.files) - {temporaryFile})[outcome.file.fullName := old(fileSystem.files)[temporaryFile]]
    ensures !outcome.Saved? ==> fileSystem.files == old(fileSystem.files)
    ensures fileSystem.directories == old(fileSystem.directories)
  {
    ghost var files, directories := fileSystem.files.Keys, fileSystem.directories;
    ghost var done: seq<Operation> := [];
    ContinuesAtStart(files, directories, temporaryFile, saveAsFile, increment, fuel);
    var current := saveAsFile;
    var remaining := fuel;
    while true
      invariant SaveAs.IsNormalised(current.downloadsDirectory)
      invariant fileSystem.files == old(fileSystem.files) && fileSystem.directories == old(fileSystem.directories)
      invariant fileSystem.log == old(fileSystem.log) + done
      invariant Continues(files, directories, temporaryFile, saveAsFile, increment, fuel, done, current, remaining)
      decreases remaining
    {
      ContinuesToEnd(files, directories, temporaryFile, saveAsFile, increment, fuel, done, current, remaining);
      if remaining == 0 {
        return MoveHung;
      }
      var moved := fileSystem.Move(temporaryFile, current.fullName);
      if moved {
        return Saved(current);
      }
      var incremented := increment(current);
      if incremented.Failure? {
        return MoveThrew(incremented.error);
      }
      ghost var before, previous, left := done, current, remaining;
      done := done + [MoveRefused(temporaryFile, current.fullName)];
      current := incremented.value;
      remaining := remaining - 1;
      ContinuesAfterRefusal(files, directories, temporaryFile, saveAsFile, increment, fuel, before, previous, left, done, current, remaining);
    }
  }

  // ---------------------------------------------------------------------------------------
  // The whole download, as a function of the server and the file system.

  /** The two library operations the executor calls: `Link.Create` on a redirect's location
      and `SaveAsFile.IncrementSequence` after a refused move. The executor's definitions and
      proofs take them as values, so that they do not depend on how those operations work;
      `RealLibrary` holds the real ones. */
  datatype Library = Library(
    createLink: string -> Result<Links.Link>,
    increment: SaveAs.SaveAsFile --> Result<SaveAs.SaveAsFile>)

  const RealLibrary := Library(Links.Create, SaveAs.IncrementSequence)

  lemma RealLibraryIncrements()
    ensures IsIncrement(RealLibrary.increment)
  {
    IncrementSequenceIsIncrement();
  }

  /** The `setTotalBytes` call made when the response has a `Content-Length`. */
  function TotalBytesCalls(response: Response): seq<Callback> {
    if response.contentLength.Some? then [SetTotalBytes(response.contentLength.value)] else []
  }

  /** The calls a job receives: `setTotalBytes` at most once and first, then progress
      reports that never decrease. */
  predicate IsCallTrace(calls: seq<Callback>) {
    && (forall i :: 0 < i < |calls| ==> calls[i].SetBytesDownloaded?)
    && (forall i, j :: 0 <= i < j < |calls| && calls[i].SetBytesDownloaded? ==>
          calls[i].bytesDownloaded <= calls[j].bytesDownloaded)
  }

  /** Every file that existed before is still there with the same contents. */
  predicate KeepsFiles(before: Disk, after: Disk) {
    forall p :: p in before.files ==> p in after.files && after.files[p] == before.files[p]
  }

  /** A download that returned a saved file: the file exists, the temporary file is gone,
      and the last progress report gives the file's length. */
  predicate Delivered(r: Run, temporaryFile: string)
    requires r.outcome.Returned? && r.outcome.result.Success?
  {
    var f := r.outcome.result.value;
    && f.fullName in r.disk.files && temporaryFile !in r.disk.files
    && |r.calls| > 0 && r.calls[|r.calls| - 1] == SetBytesDownloaded(|r.disk.files[f.fullName]|)
  }

  /** What every download task promises its job: the calls form a trace, no file that
      existed before is changed, the parents of every directory remain directories, a task
      that returns a failure has had no effect at all, and a task that returns a file has
      delivered it under the root it was asked for. */
  predicate Promised(r: Run, incomplete: DownloadsDirectory, disk: Disk, args: Args) {
    && IsCallTrace(r.calls) && KeepsFiles(disk, r.disk)
    && (AncestorClosed(disk.directories) ==> AncestorClosed(r.disk.directories))
    && (r.outcome.Returned? && r.outcome.result.Failure? ==> r.calls == [] && r.disk == disk && r.log == [])
    && (r.outcome.Returned? && r.outcome.result.Success? ==>
          && Delivered(r, TemporaryFile(incomplete, args.id))
          && r.outcome.result.value.downloadsDirectory == args.saveAsFile.downloadsDirectory)
  }

  /** `CreateDownloadTask`: ask the server for the link; follow a redirect; let a status
      other than success throw; otherwise save the body. */
  function Download(server: Server, incomplete: DownloadsDirectory, disk: Disk, args: Args,
                    library: Library, fuel: nat): Run
    requires SaveAs.IsNormalised(args.saveAsFile.downloadsDirectory) && IsIncrement(library.increment)
    decreases fuel, 1
  {
    match server(Links.Url(args.link))
    case NeverResponds => Run(Hung, [], disk, [])
    case Throws(message) => Run(Threw(message), [], disk, [])
    case Responds(response) =>
      if ResponseIsRedirect(response) then Redirect(server, incomplete, disk, response, args, library, fuel)
      else if !IsSuccessStatusCode(response.status) then Run(Threw(StatusMessage(response)), [], disk, [])
      else Save(incomplete, disk, response, args, library, fuel)
  }

  /** `CreateRedirectedDownloadTask`: a missing or blank `Location` and a location `Link`
      refuses are failures; otherwise the download starts over from the new link with the
      same id, callbacks and destination. */
  function Redirect(server: Server, incomplete: DownloadsDirectory, disk: Disk, response: Response, args: Args,
                    library: Library, fuel: nat): Run
    requires SaveAs.IsNormalised(args.saveAsFile.downloadsDirectory) && IsIncrement(library.increment)
    decreases fuel, 0
  {
    if response.location.None? || IsNullOrWhiteSpace(response.location.value) then
      Run(Returned(Failure(UndefinedLocationMessage)), [], disk, [])
    else
      match library.createLink(response.location.value)
      case Failure(e) => Run(Returned(Failure(e)), [], disk, [])
      case Success(link) =>
        if fuel == 0 then Run(Hung, [], disk, [])
        else Download(server, incomplete, disk, args.(link := link), library, fuel - 1)
  }

  /** The outcome of the task once the move loop has ended. */
  function Finished(m: MoveOutcome): TaskOutcome {
    match m
    case Saved(f) => Returned(Success(f))
    case MoveThrew(e) => Threw(e)
    case MoveHung => Hung
  }

  /** The files after the move loop: the body under the saved name when there is one,
      otherwise still in the temporary file. */
  function FilesAfterMove(written: map<string, seq<byte>>, temporaryFile: string, body: seq<byte>, m: MoveOutcome)
    : (files: map<string, seq<byte>>)
    requires m.Saved? ==> temporaryFile in written && m.file.fullName !in written
    ensures forall p :: p in written && p != temporaryFile ==> p in files && files[p] == written[p]
    ensures m.Saved? ==> temporaryFile !in files && m.file.fullName in files && files[m.file.fullName] == body
  {
    if m.Saved? then (written - {temporaryFile})[m.file.fullName := body] else written
  }

  /** A successful response: report the content length, create the temporary file, copy the
      body into it, create the destination directory and run the move loop. */
  function Save(incomplete: DownloadsDirectory, disk: Disk, response: Response, args: Args,
                library: Library, fuel: nat): Run
    requires SaveAs.IsNormalised(args.saveAsFile.downloadsDirectory) && IsIncrement(library.increment)
  {
    var sizeCalls := TotalBytesCalls(response);
    var temporaryFile := TemporaryFile(incomplete, args.id);
    if temporaryFile in disk.files then
      Run(Threw(FileExistsMessage(temporaryFile)), sizeCalls, disk, [])
    else
      var body := Concat(response.chunks);
      var written := disk.files[temporaryFile := body];
      var directory := args.saveAsFile.directory;
      var move := MoveAttempts(written.Keys, disk.directories + Ancestors(directory), temporaryFile, args.saveAsFile, library.increment, fuel);
      Run(Finished(move.outcome), sizeCalls + ProgressCalls(response.chunks),
          Disk(FilesAfterMove(written, temporaryFile, body, move.outcome), disk.directories + Ancestors(directory)),
          [CreatedNew(temporaryFile)] + CopyLog(temporaryFile, response.chunks) + [CreatedDirectory(directory)] + move.log)
  }

  /** Every download keeps the promises, whatever the server answers. */
  lemma {:induction false} DownloadKeepsPromises(server: Server, incomplete: DownloadsDirectory, disk: Disk, args: Args,
                                                 library: Library, fuel: nat)
    requires SaveAs.IsNormalised(args.saveAsFile.downloadsDirectory) && IsIncrement(library.increment)
    ensures Promised(Download(server, incomplete, disk, args, library, fuel), incomplete, disk, args)
    decreases fuel, 1
  {
    match server(Links.Url(args.link))
    case NeverResponds =>
    case Throws(_) =>
    case Responds(response) =>
      if ResponseIsRedirect(response) {
        RedirectKeepsPromises(server, incomplete, disk, response, args, library, fuel);
      } else if IsSuccessStatusCode(response.status) {
        SaveKeepsPromises(incomplete, disk, response, args, library, fuel);
      }
  }

  /** A redirect keeps the promises: the download it starts has the same id and
      destination. */
  lemma {:induction false} RedirectKeepsPromises(server: Server, incomplete: DownloadsDirectory, disk: Disk,
                                                 response: Response, args: Args,
                                                 library: Library, fuel: nat)
    requires SaveAs.IsNormalised(args.saveAsFile.downloadsDirectory) && IsIncrement(library.increment)
    ensures Promised(Redirect(server, incomplete, disk, response, args, library, fuel), incomplete, disk, args)
    decreases fuel, 0
  {
    if response.location.Some? && !IsNullOrWhiteSpace(response.location.value) {
      var created := library.createLink(response.location.value);
      if created.Success? && fuel > 0 {
        DownloadKeepsPromises(server, incomplete, disk, args.(link := created.value), library, fuel - 1);
      }
    }
  }

  /** Saving keeps the promises; a temporary file left from before makes it throw without
      effect; and a saved file holds exactly the body of the response. */
  lemma SaveKeepsPromises(incomplete: DownloadsDirectory, disk: Disk, response: Response, args: Args,
                          library: Library, fuel: nat)
    requires SaveAs.IsNormalised(args.saveAsFile.downloadsDirectory) && IsIncrement(library.increment)
    ensures var r := Save(incomplete, disk, response, args, library, fuel);
      && Promised(r, incomplete, disk, args)
      && (TemporaryFile(incomplete, args.id) in disk.files ==>
            r.outcome == Threw(FileExistsMessage(TemporaryFile(incomplete, args.id))) && r.disk == disk && r.log == [])
      && (TemporaryFile(incomplete, args.id) !in disk.files ==>
            r.disk.directories == disk.directories + Ancestors(args.saveAsFile.directory))
      && (r.outcome.Returned? ==>
            r.outcome.result.Success? && r.disk.files[r.outcome.result.value.fullName] == Concat(response.chunks))
  {
    var temporaryFile := TemporaryFile(incomplete, args.id);
    if temporaryFile in disk.files {
      SizeCallsAreTrace(response);
    } else {
      var written := disk.files[temporaryFile := Concat(response.chunks)];
      MoveAttemptsFacts(written.Keys, disk.directories + Ancestors(args.saveAsFile.directory), temporaryFile, args.saveAsFile, library.increment, fuel);
      SaveCallsAreTrace(response);
      if AncestorClosed(disk.directories) {
        CreatingKeepsAncestorClosed(disk.directories, args.saveAsFile.directory);
      }
    }
  }

  lemma SizeCallsAreTrace(response: Response)
    ensures IsCallTrace(TotalBytesCalls(response))
  {
  }

  /** The calls of a saved download form a trace ending with the body's length. */
  lemma SaveCallsAreTrace(response: Response)
    ensures var calls := TotalBytesCalls(response) + ProgressCalls(response.chunks);
      IsCallTrace(calls) && calls[|calls| - 1] == SetBytesDownloaded(|Concat(response.chunks)|)
  {
    var chunks := response.chunks;
    var s := TotalBytesCalls(response);
    var p := ProgressCalls(chunks);
    var calls := s + p;
    ProgressCounts(chunks);
    forall i, j | 0 <= i < j < |calls| && calls[i].SetBytesDownloaded?
      ensures calls[i].bytesDownloaded <= calls[j].bytesDownloaded
    {
      assert i >= |s|;
      assert calls[i] == p[i - |s|] && calls[j] == p[j - |s|];
    }
  }

  // ---------------------------------------------------------------------------------------
  // The executor itself.

  /** The executor over an incomplete-downloads root and a file system. Each method is the
      function of the same name above run against the file system: it returns that
      function's outcome and callback calls, leaves the file system as that function's disk
      and appends that function's operations to the log. */
  class DownloadTaskFactory {
    const incompleteDownloadsDirectory: DownloadsDirectory
    const fileSystem: FileSystem
    /** The static `Link.Create` and `SaveAsFile.IncrementSequence` the methods call. */
    const library: Library

    constructor (incompleteDownloadsDirectory: DownloadsDirectory, fileSystem: FileSystem)
      ensures this.incompleteDownloadsDirectory == incompleteDownloadsDirectory
      ensures this.fileSystem == fileSystem && library == RealLibrary
    {
      this.incompleteDownloadsDirectory := incompleteDownloadsDirectory;
      this.fileSystem := fileSystem;
      library := RealLibrary;
    }

    /** `CreateDownloadTask`. */
    method CreateDownloadTask(server: Server, args: Args,
                              fuel: nat)
      returns (outcome: TaskOutcome, calls: seq<Callback>)
      requires SaveAs.IsNormalised(args.saveAsFile.downloadsDirectory) && IsIncrement(library.increment)
      modifies fileSystem
      ensures var run := Download(server, incompleteDownloadsDirectory, old(fileSystem.Contents()), args, library, fuel);
        && outcome == run.outcome && calls == run.calls
        && fileSystem.Contents() == run.disk && fileSystem.log == old(fileSystem.log) + run.log
      decreases fuel, 1
    {
      var reply := server(Links.Url(args.link));
      if reply.NeverResponds? {
        return Hung, [];
      } else if reply.Throws? {
        return Threw(reply.message), [];
      }
      var response := reply.response;
      if ResponseIsRedirect(response) {
        outcome, calls := CreateRedirectedDownloadTask(server, response, args, fuel);
        return;
      }
      if !IsSuccessStatusCode(response.status) {
        return Threw(StatusMessage(response)), [];
      }
      outcome, calls := SaveResponse(response, args, fuel);
    }

    /** Lines 41-51 of `CreateDownloadTask`, once the response is known to be a success:
        report the content length, create the temporary file, copy the body into it and
        move it to its destination. */
    method SaveResponse(response: Response, args: Args,
                        fuel: nat)
      returns (outcome: TaskOutcome, calls: seq<Callback>)
      requires SaveAs.IsNormalised(args.saveAsFile.downloadsDirectory) && IsIncrement(library.increment)
      modifies fileSystem
      ensures var run := Save(incompleteDownloadsDirectory, old(fileSystem.Contents()), response, args, library, fuel);
        && outcome == run.outcome && calls == run.calls
        && fileSystem.Contents() == run.disk && fileSystem.log == old(fileSystem.log) + run.log
    {
      calls := TotalBytesCalls(response);
      var temporaryFile := TemporaryFile(incompleteDownloadsDirectory, args.id);
      var error := fileSystem.CreateNew(temporaryFile);
      if error.Some? {
        return Threw(error.value), calls;
      }
      ghost var body := Concat(response.chunks);
      ghost var written := old(fileSystem.files)[temporaryFile := body];
      assert fileSystem.files[temporaryFile := body] == written;
      ghost var directories := old(fileSystem.directories) + Ancestors(args.saveAsFile.directory);
      ghost var move := MoveAttempts(written.Keys, directories, temporaryFile, args.saveAsFile, library.increment, fuel);
      var progress, moved := CopyAndMove(response, args, fuel, temporaryFile);
      calls := calls + progress;
      outcome := Finished(moved);
      assert fileSystem.log == old(fileSystem.log)
        + ([CreatedNew(temporaryFile)] + CopyLog(temporaryFile, response.chunks)
           + [CreatedDirectory(args.saveAsFile.directory)] + move.log);
    }

    /** Lines 45-51 of `CreateDownloadTask`, once the temporary file exists and is empty:
        copy the body into it, then move it to its destination. */
    method CopyAndMove(response: Response, args: Args, fuel: nat, temporaryFile: string)
      returns (progress: seq<Callback>, moved: MoveOutcome)
      requires SaveAs.IsNormalised(args.saveAsFile.downloadsDirectory) && IsIncrement(library.increment)
      requires temporaryFile in fileSystem.files && fileSystem.files[temporaryFile] == []
      modifies fileSystem
      ensures var body := Concat(response.chunks);
        var written := old(fileSystem.files)[temporaryFile := body];
        var directories := old(fileSystem.directories) + Ancestors(args.saveAsFile.directory);
        var move := MoveAttempts(written.Keys, directories, temporaryFile, args.saveAsFile, library.increment, fuel);
        && progress == ProgressCalls(response.chunks) && moved == move.outcome
        && fileSystem.Contents() == Disk(FilesAfterMove(written, temporaryFile, body, move.outcome), directories)
        && fileSystem.log == old(fileSystem.log) + CopyLog(temporaryFile, response.chunks)
                             + [CreatedDirectory(args.saveAsFile.directory)] + move.log
    {
      ghost var body := Concat(response.chunks);
      ghost var written := old(fileSystem.files)[temporaryFile := body];
      progress := CopyResponseContentToTemporaryFile(response.chunks, fileSystem, temporaryFile);
      assert [] + body == body;
      assert fileSystem.files == written;
      moved := MoveTemporaryFileToSaveAsFile(temporaryFile, args.saveAsFile, fuel);
    }

    /** `CreateRedirectedDownloadTask`. */
    method CreateRedirectedDownloadTask(server: Server, response: Response, args: Args,
                                        fuel: nat)
      returns (outcome: TaskOutcome, calls: seq<Callback>)
      requires SaveAs.IsNormalised(args.saveAsFile.downloadsDirectory) && IsIncrement(library.increment)
      modifies fileSystem
      ensures var run := Redirect(server, incompleteDownloadsDirectory, old(fileSystem.Contents()), response, args, library, fuel);
        && outcome == run.outcome && calls == run.calls
        && fileSystem.Contents() == run.disk && fileSystem.log == old(fileSystem.log) + run.log
      decreases fuel, 0
    {
      ghost var disk := fileSystem.Contents();
      ghost var run := Redirect(server, incompleteDownloadsDirectory, disk, response, args, library, fuel);
      if response.location.None? || IsNullOrWhiteSpace(response.location.value) {
        assert run == Run(Returned(Failure(UndefinedLocationMessage)), [], disk, []);
        return Returned(Failure(UndefinedLocationMessage)), [];
      }
      var newLinkResult := library.createLink(response.location.value);
      if newLinkResult.Failure? {
        assert run == Run(Returned(Failure(newLinkResult.error)), [], disk, []);
        return Returned(Failure(newLinkResult.error)), [];
      }
      if fuel == 0 {
        assert run == Run(Hung, [], disk, []);
        return Hung, [];
      }
      assert run == Download(server, incompleteDownloadsDirectory, disk, args.(link := newLinkResult.value), library, fuel - 1);
      outcome, calls := CreateDownloadTask(server, args.(link := newLinkResult.value), fuel - 1);
    }

    /** `MoveTemporaryFileToSaveAsFile`: create the destination directory, then run the move
        loop. */
    method MoveTemporaryFileToSaveAsFile(temporaryFile: string, saveAsFile: SaveAs.SaveAsFile,
                                         fuel: nat)
      returns (outcome: MoveOutcome)
      requires SaveAs.IsNormalised(saveAsFile.downloadsDirectory) && IsIncrement(library.increment)
      modifies fileSystem
      ensures var run := MoveAttempts(old(fileSystem.files).Keys, old(fileSystem.directories) + Ancestors(saveAsFile.directory), temporaryFile,
                                       saveAsFile, library.increment, fuel);
        && outcome == run.outcome
        && fileSystem.log == old(fileSystem.log) + [CreatedDirectory(saveAsFile.directory)] + run.log
      ensures outcome.Saved? ==>
        fileSystem.files == (old(fileSystem.files) - {temporaryFile})[outcome.file.fullName := old(fileSystem.files)[temporaryFile]]
      ensures !outcome.Saved? ==> fileSystem.files == old(fileSystem.files)
      ensures fileSystem.directories == old(fileSystem.directories) + Ancestors(saveAsFile.directory)
    {
      fileSystem.CreateDirectory(saveAsFile.directory);
      outcome := MoveWithRetries(fileSystem, temporaryFile, saveAsFile, library.increment, fuel);
    }
  }
}
