/** The earlier `Download` and its registry `Downloads`: a download without progress reports,
    status checks or redirects, whose task copies the response into the temporary file and
    then runs the same move loop as the executor. */
module Legacy {
  import opened Wrappers
  import opened Http
  import opened FileSystems
  import opened Directories
  import opened Executor
  import Links
  import SaveAs

  /** The legacy `DownloadStatus`: there is no failed state. */
  datatype DownloadStatus = NotStarted | Downloading | Completed

  const AlreadyDownloadingMessage := "Already downloading"
  const NotFoundMessage := "Not found"

  /** `_task`: none yet; started with the client and file system it was given, body not run
      yet; waiting for ever; ran to completion; faulted. */
  datatype TaskState =
    | NotCreated
    | Scheduled(client: Server, fileSystem: FileSystem)
    | Suspended
    | RanToCompletion
    | Faulted(message: string)

  /** The `Status` getter: a task that has ended, in whatever way, is Completed. */
  function StatusOf(task: TaskState): DownloadStatus {
    match task
    case NotCreated => NotStarted
    case RanToCompletion => Completed
    case Faulted(_) => Completed
    case _ => Downloading
  }

  /** How the legacy task ends. */
  datatype Ending = Completes | Faults(message: string) | NeverEnds

  /** The effect of the legacy task: how it ends, where the body was saved (the source does
      not report it; it is the name the move loop settled on), the file system after it and
      the operations performed. */
  datatype LegacyRun = LegacyRun(ending: Ending, savedAs: Option<SaveAs.SaveAsFile>, disk: Disk, log: seq<Operation>)

  /** `StartDownload`: GET the link; whatever the status, save the body. */
  function LegacyDownload(server: Server, incomplete: DownloadsDirectory, disk: Disk, id: JobId,
                          link: Links.Link, saveAsFile: SaveAs.SaveAsFile,
                          increment: SaveAs.SaveAsFile --> Result<SaveAs.SaveAsFile>, fuel: nat): LegacyRun
    requires SaveAs.IsNormalised(saveAsFile.downloadsDirectory) && IsIncrement(increment)
  {
    match server(Links.Url(link))
    case NeverResponds => LegacyRun(NeverEnds, None, disk, [])
    case Throws(message) => LegacyRun(Faults(message), None, disk, [])
    case Responds(response) => LegacySave(incomplete, disk, response, id, saveAsFile, increment, fuel)
  }

  /** The rest of `StartDownload` once a response has come: create the temporary file and
      copy the whole body into it; then move it, taking the next name after each refusal. */
  function LegacySave(incomplete: DownloadsDirectory, disk: Disk, response: Response, id: JobId,
                      saveAsFile: SaveAs.SaveAsFile,
                      increment: SaveAs.SaveAsFile --> Result<SaveAs.SaveAsFile>, fuel: nat): LegacyRun
    requires SaveAs.IsNormalised(saveAsFile.downloadsDirectory) && IsIncrement(increment)
  {
    var temporaryFile := TemporaryFile(incomplete, id);
    if temporaryFile in disk.files then LegacyRun(Faults(FileExistsMessage(temporaryFile)), None, disk, [])
    else
      var body := Concat(response.chunks);
      var written := disk.files[temporaryFile := body];
      var move := MoveAttempts(written.Keys, disk.directories, temporaryFile, saveAsFile, increment, fuel);
      LegacyRun(
        EndingOf(move.outcome),
        if move.outcome.Saved? then Some(move.outcome.file) else None,
        Disk(FilesAfterMove(written, temporaryFile, body, move.outcome), disk.directories),
        [CreatedNew(temporaryFile), Wrote(temporaryFile, body)] + move.log)
  }

  /** How the task ends once the move loop has ended. */
  function EndingOf(m: MoveOutcome): Ending {
    match m
    case Saved(_) => Completes
    case MoveThrew(e) => Faults(e)
    case MoveHung => NeverEnds
  }

  /** The task once the legacy body has ended. */
  function TaskAfter(ending: Ending): TaskState {
    match ending
    case Completes => RanToCompletion
    case Faults(message) => Faulted(message)
    case NeverEnds => Suspended
  }

  /** A legacy download never changes a file that was there before; it completes exactly
      when it has saved the body, under a name that was free, in the root it was asked for;
      and a task that faults or never ends leaves no file but perhaps the temporary one. */
  lemma LegacyDownloadKeepsFiles(server: Server, incomplete: DownloadsDirectory, disk: Disk, id: JobId,
                                 link: Links.Link, saveAsFile: SaveAs.SaveAsFile,
                                 increment: SaveAs.SaveAsFile --> Result<SaveAs.SaveAsFile>, fuel: nat)
    requires SaveAs.IsNormalised(saveAsFile.downloadsDirectory) && IsIncrement(increment)
    ensures var r := LegacyDownload(server, incomplete, disk, id, link, saveAsFile, increment, fuel);
      && KeepsFiles(disk, r.disk)
      && (r.ending.Completes? <==> r.savedAs.Some?)
      && (r.savedAs.Some? ==>
            && r.savedAs.value.fullName !in disk.files && r.savedAs.value.fullName !in disk.directories
            && r.savedAs.value.fullName in r.disk.files
            && TemporaryFile(incomplete, id) !in r.disk.files
            && r.savedAs.value.downloadsDirectory == saveAsFile.downloadsDirectory)
      && (r.savedAs.None? ==> forall p :: p in r.disk.files ==> p in disk.files || p == TemporaryFile(incomplete, id))
  {
    var temporaryFile := TemporaryFile(incomplete, id);
    if server(Links.Url(link)).Responds? && temporaryFile !in disk.files {
      var body := Concat(server(Links.Url(link)).response.chunks);
      var written := disk.files[temporaryFile := body];
      MoveAttemptsFacts(written.Keys, disk.directories, temporaryFile, saveAsFile, increment, fuel);
    }
  }

  /** Unlike the executor, the legacy task saves any response, whatever its status: a 404
      page lands under the requested name when that name is free. The legacy task never
      creates the destination directory, so this holds only where it already exists. */
  lemma LegacySavesAnyStatus(server: Server, incomplete: DownloadsDirectory, disk: Disk, id: JobId,
                             link: Links.Link, saveAsFile: SaveAs.SaveAsFile,
                             increment: SaveAs.SaveAsFile --> Result<SaveAs.SaveAsFile>, fuel: nat,
                             response: Response)
    requires SaveAs.IsNormalised(saveAsFile.downloadsDirectory) && IsIncrement(increment)
    requires server(Links.Url(link)) == Responds(response) && fuel > 0
    requires TemporaryFile(incomplete, id) !in disk.files && saveAsFile.fullName !in disk.files
    requires saveAsFile.fullName !in disk.directories && saveAsFile.directory in disk.directories
    requires saveAsFile.fullName != TemporaryFile(incomplete, id)
    ensures var r := LegacyDownload(server, incomplete, disk, id, link, saveAsFile, increment, fuel);
      && r.ending == Completes && r.savedAs == Some(saveAsFile)
      && saveAsFile.fullName in r.disk.files && r.disk.files[saveAsFile.fullName] == Concat(response.chunks)
  {
    var temporaryFile := TemporaryFile(incomplete, id);
    var written := disk.files[temporaryFile := Concat(response.chunks)];
    assert MoveAttempts(written.Keys, disk.directories, temporaryFile, saveAsFile, increment, fuel).outcome == Saved(saveAsFile);
  }

  /** Once the legacy task has run, the download reads Completed exactly when the task has
      ended, faulted or not, and Downloading otherwise. */
  lemma StatusAfterEnding(ending: Ending)
    ensures StatusOf(TaskAfter(ending)) == Completed <==> !ending.NeverEnds?
    ensures StatusOf(TaskAfter(ending)) == Downloading <==> ending.NeverEnds?
    ensures ending.Faults? ==> StatusOf(TaskAfter(ending)) == Completed
  {
  }

  class Download {
    const id: JobId
    const link: Links.Link
    const incompleteDownloadsDirectory: DownloadsDirectory
    const saveAsFile: SaveAs.SaveAsFile
    /** The static `SaveAsFile.IncrementSequence` the move loop calls. */
    const increment: SaveAs.SaveAsFile --> Result<SaveAs.SaveAsFile>
    var task: TaskState

    constructor (id: JobId, link: Links.Link, incompleteDownloadsDirectory: DownloadsDirectory,
                 saveAsFile: SaveAs.SaveAsFile)
      ensures this.id == id && this.link == link && this.saveAsFile == saveAsFile
      ensures this.incompleteDownloadsDirectory == incompleteDownloadsDirectory
      ensures increment == RealLibrary.increment
      ensures task == NotCreated && Status() == NotStarted
    {
      this.id := id;
      this.link := link;
      this.incompleteDownloadsDirectory := incompleteDownloadsDirectory;
      this.saveAsFile := saveAsFile;
      increment := RealLibrary.increment;
      task := NotCreated;
    }

    function Status(): DownloadStatus
      reads this
    {
      StatusOf(task)
    }

    /** `Start`: only a download without a task gets one. */
    method Start(client: Server, fileSystem: FileSystem) returns (r: Outcome)
      modifies this
      ensures old(task).NotCreated? ==> r == Pass && task == Scheduled(client, fileSystem) && Status() == Downloading
      ensures !old(task).NotCreated? ==> r == Fail(AlreadyDownloadingMessage) && task == old(task)
    {
      if !task.NotCreated? {
        return Fail(AlreadyDownloadingMessage);
      }
      task := Scheduled(client, fileSystem);
      return Pass;
    }

    /** `StartDownload`, the body of the task `Start` created. */
    method StartDownload(fuel: nat)
      requires task.Scheduled? && SaveAs.IsNormalised(saveAsFile.downloadsDirectory) && IsIncrement(increment)
      modifies this, task.fileSystem
      ensures var run := LegacyDownload(old(task).client, incompleteDownloadsDirectory, old(task.fileSystem.Contents()),
                                        id, link, saveAsFile, increment, fuel);
        && task == TaskAfter(run.ending)
        && old(task).fileSystem.Contents() == run.disk
        && old(task).fileSystem.log == old(task.fileSystem.log) + run.log
    {
      var client, fileSystem := task.client, task.fileSystem;
      var reply := client(Links.Url(link));
      if reply.NeverResponds? {
        task := Suspended;
        return;
      } else if reply.Throws? {
        task := Faulted(reply.message);
        return;
      }
      var ending := SaveResponse(fileSystem, reply.response, fuel);
      task := TaskAfter(ending);
    }

    /** The part of `StartDownload` after `GetAsync`: `CreateNew`, `CopyToAsync` and
        `MoveToSaveAsFile`. */
    method SaveResponse(fileSystem: FileSystem, response: Response, fuel: nat) returns (ending: Ending)
      requires SaveAs.IsNormalised(saveAsFile.downloadsDirectory) && IsIncrement(increment)
      modifies fileSystem
      ensures var run := LegacySave(incompleteDownloadsDirectory, old(fileSystem.Contents()), response, id,
                                    saveAsFile, increment, fuel);
        && ending == run.ending
        && fileSystem.Contents() == run.disk
        && fileSystem.log == old(fileSystem.log) + run.log
    {
      var temporaryFile := TemporaryFile(incompleteDownloadsDirectory, id);
      var error := fileSystem.CreateNew(temporaryFile);
      if error.Some? {
        return Faults(error.value);
      }
      var body := Concat(response.chunks);
      ghost var written := old(fileSystem.files)[temporaryFile := body];
      fileSystem.Write(temporaryFile, body);
      assert [] + body == body;
      assert fileSystem.files == written;
      ghost var move := MoveAttempts(written.Keys, old(fileSystem.directories), temporaryFile, saveAsFile, increment, fuel);
      var moved := MoveWithRetries(fileSystem, temporaryFile, saveAsFile, increment, fuel);
      assert fileSystem.files == FilesAfterMove(written, temporaryFile, body, move.outcome);
      ending := EndingOf(moved);
      assert fileSystem.log == old(fileSystem.log) + ([CreatedNew(temporaryFile), Wrote(temporaryFile, body)] + move.log);
    }
  }

  /** `Downloads`: the registry of legacy downloads. */
  class Downloads {
    const incompleteDownloadsDirectory: DownloadsDirectory
    const fileSystem: FileSystem
    const client: Server
    var tasks: map<JobId, Download>

    constructor (incompleteDownloadsDirectory: DownloadsDirectory, fileSystem: FileSystem, client: Server,
                 tasks: map<JobId, Download>)
      ensures this.incompleteDownloadsDirectory == incompleteDownloadsDirectory
      ensures this.fileSystem == fileSystem && this.client == client && this.tasks == tasks
    {
      this.incompleteDownloadsDirectory := incompleteDownloadsDirectory;
      this.fileSystem := fileSystem;
      this.client := client;
      this.tasks := tasks;
    }

    /** `AddAndStart`: a new download under the fresh id (the parameter `id` is the value of the
        id generator), stored and started; the id is returned whatever `Start` says. */
    method AddAndStart(link: Links.Link, saveAsFile: SaveAs.SaveAsFile, id: JobId) returns (r: Result<JobId>)
      modifies this
      ensures r == Success(id)
      ensures id in tasks && fresh(tasks[id]) && tasks == old(tasks)[id := tasks[id]]
      ensures tasks[id].id == id && tasks[id].link == link && tasks[id].saveAsFile == saveAsFile
      ensures tasks[id].incompleteDownloadsDirectory == incompleteDownloadsDirectory
      ensures tasks[id].task == Scheduled(client, fileSystem)
    {
      var download := new Download(id, link, incompleteDownloadsDirectory, saveAsFile);
      tasks := tasks[id := download];
      var _ := download.Start(client, fileSystem);
      return Success(id);
    }

    /** `Get`: the stored download, or "Not found". */
    method Get(id: JobId) returns (r: Result<Download>)
      ensures id in tasks ==> r == Success(tasks[id])
      ensures id !in tasks ==> r == Failure(NotFoundMessage)
    {
      if id in tasks {
        return Success(tasks[id]);
      }
      return Failure(NotFoundMessage);
    }

    /** `GetAll`: every stored download, once per id. */
    method GetAll() returns (r: seq<Download>)
      ensures |r| == |tasks|
      ensures forall id :: id in tasks ==> tasks[id] in r
      ensures forall i :: 0 <= i < |r| ==> r[i] in tasks.Values
    {
      r := [];
      var left := tasks.Keys;
      while left != {}
        invariant left <= tasks.Keys
        invariant |r| + |left| == |tasks|
        invariant forall id :: id in tasks && id !in left ==> tasks[id] in r
        invariant forall i :: 0 <= i < |r| ==> r[i] in tasks.Values
        decreases |left|
      {
        var id :| id in left;
        assert tasks[id] in tasks.Values;
        r := r + [tasks[id]];
        left := left - {id};
      }
    }
  }
}
