/** `DownloadJob`: one download as the rest of the server sees it. Its status follows its
    task; the executor's callbacks update its counters and raise events; the end of the run
    records the saved file or the reason for failure and releases the event handlers. */
module Jobs {
  import opened Wrappers
  import opened Http
  import opened FileSystems
  import opened Executor
  import Links
  import SaveAs

  datatype DownloadStatus = NotStarted | Downloading | Completed | Failed

  /** `TotalBytes` before a `Content-Length` is recorded. */
  const UnknownContentLength := -1

  const NotStartedMessage := "Download not started."
  const AlreadyStartedMessage := "Already started"

  /** `_downloadTask`: no task yet; a task started with the client it was given, whose body has
      not run yet; a task whose body is waiting for something that never comes; a task that
      ran to completion; a faulted task. */
  datatype TaskState =
    | NotCreated
    | Scheduled(client: Server)
    | Suspended
    | RanToCompletion
    | Faulted(message: string)

  /** The `Status` getter. */
  function StatusOf(task: TaskState): DownloadStatus {
    match task
    case NotCreated => NotStarted
    case RanToCompletion => Completed
    case Faulted(_) => Failed
    case _ => Downloading
  }

  /** One invocation of one of the four events, with its arguments. */
  datatype JobEvent =
    | TotalBytesRecordedEvent(id: JobId, totalBytes: int)
    | ProgressEvent(id: JobId, totalBytesRead: int)
    | FinishedEvent(id: JobId, savedAsFile: SaveAs.SaveAsFile)
    | FailedEvent(id: JobId, reason: string)

  /** The mutable part of a job: its fields, the events its subscribers have received, and
      whether the handlers they attached are still in place. */
  datatype JobState = JobState(
    saveAsFile: SaveAs.SaveAsFile,
    totalBytes: int,
    bytesDownloaded: int,
    reasonForFailure: string,
    task: TaskState,
    events: seq<JobEvent>,
    subscribed: bool)

  /** The events after raising `e`: the subscribers receive it while their handlers are in
      place; after `ReleaseEventHandlers` it goes to the no-op handlers. */
  function Raise(s: JobState, e: JobEvent): seq<JobEvent> {
    if s.subscribed then s.events + [e] else s.events
  }

  /** The `TotalBytes` setter. */
  function WithTotalBytes(s: JobState, id: JobId, value: int): JobState {
    if value <= 0 then s else s.(totalBytes := value, events := Raise(s, TotalBytesRecordedEvent(id, value)))
  }

  /** The `BytesDownloaded` setter. */
  function WithBytesDownloaded(s: JobState, id: JobId, value: int): JobState {
    if value <= 0 then s else s.(bytesDownloaded := value, events := Raise(s, ProgressEvent(id, value)))
  }

  /** The `ReasonForFailure` setter. */
  function WithReasonForFailure(s: JobState, id: JobId, reason: string): JobState {
    s.(reasonForFailure := reason, events := Raise(s, FailedEvent(id, reason)))
  }

  /** `ReleaseEventHandlers`. */
  function Released(s: JobState): JobState {
    s.(subscribed := false)
  }

  /** The effect of one callback call: `totalBytes => TotalBytes = totalBytes` or
      `bytesDownloaded => BytesDownloaded = bytesDownloaded`. */
  function AfterCall(s: JobState, id: JobId, c: Callback): JobState {
    match c
    case SetTotalBytes(n) => WithTotalBytes(s, id, n)
    case SetBytesDownloaded(n) => WithBytesDownloaded(s, id, n)
  }

  /** The effect of the callback calls, in order. Callbacks only touch the counters and the
      events. */
  function Replayed(s: JobState, id: JobId, calls: seq<Callback>): (r: JobState)
    ensures r.saveAsFile == s.saveAsFile && r.reasonForFailure == s.reasonForFailure
    ensures r.task == s.task && r.subscribed == s.subscribed
    ensures |r.events| >= |s.events| && r.events[..|s.events|] == s.events
  {
    if calls == [] then s else AfterCall(Replayed(s, id, calls[..|calls| - 1]), id, calls[|calls| - 1])
  }

  /** The end of `StartDownloadTask` once the executor's task has ended. */
  function Ended(s: JobState, id: JobId, outcome: TaskOutcome): JobState {
    match outcome
    case Returned(Failure(error)) => Released(WithReasonForFailure(s, id, error).(task := RanToCompletion))
    case Returned(Success(file)) =>
      var saved := s.(saveAsFile := file);
      Released(saved.(events := Raise(saved, FinishedEvent(id, file)), task := RanToCompletion))
    case Threw(message) => Released(WithReasonForFailure(s, id, message).(task := Faulted(message)))
    case Hung => s.(task := Suspended)
  }

  /** The job after its task has run the executor to `run`. */
  function AfterRun(s: JobState, id: JobId, run: Run): JobState {
    Ended(Replayed(s, id, run.calls), id, run.outcome)
  }

  class DownloadJob {
    const id: JobId
    const link: Links.Link
    const createdTicks: int
    const downloadTaskFactory: DownloadTaskFactory
    var saveAsFile: SaveAs.SaveAsFile
    var totalBytes: int
    var bytesDownloaded: int
    var reasonForFailure: string
    var task: TaskState
    /** What the subscribers of the four events have received. */
    var events: seq<JobEvent>
    /** Whether the subscribers' handlers are still attached. */
    var subscribed: bool

    function State(): JobState
      reads this
    {
      JobState(saveAsFile, totalBytes, bytesDownloaded, reasonForFailure, task, events, subscribed)
    }

    function Status(): DownloadStatus
      reads this
    {
      StatusOf(task)
    }

    constructor (id: JobId, link: Links.Link, saveAsFile: SaveAs.SaveAsFile, createdTicks: int,
                 downloadTaskFactory: DownloadTaskFactory)
      ensures this.id == id && this.link == link && this.createdTicks == createdTicks
      ensures this.downloadTaskFactory == downloadTaskFactory
      ensures State() == JobState(saveAsFile, UnknownContentLength, 0, "", NotCreated, [], true)
      ensures Status() == NotStarted
    {
      this.id := id;
      this.link := link;
      this.createdTicks := createdTicks;
      this.downloadTaskFactory := downloadTaskFactory;
      this.saveAsFile := saveAsFile;
      totalBytes := UnknownContentLength;
      bytesDownloaded := 0;
      reasonForFailure := "";
      task := NotCreated;
      events := [];
      subscribed := true;
    }

    /** `DownloadTask`: the task, or the "not started" exception as a failure. */
    method DownloadTask() returns (r: Result<TaskState>)
      ensures r.Failure? <==> Status() == NotStarted
      ensures r.Failure? ==> r.error == NotStartedMessage
      ensures r.Success? ==> r.value == task
    {
      if task.NotCreated? {
        return Failure(NotStartedMessage);
      }
      return Success(task);
    }

    /** `Start`: only a job without a task gets one; its body runs later, in
        `StartDownloadTask`. */
    method Start(client: Server) returns (r: Outcome)
      modifies this
      ensures old(task).NotCreated? ==> r == Pass && task == Scheduled(client)
      ensures old(task).NotCreated? ==> State() == old(State()).(task := Scheduled(client)) && Status() == Downloading
      ensures !old(task).NotCreated? ==> r == Fail(AlreadyStartedMessage) && State() == old(State())
    {
      if !task.NotCreated? {
        return Fail(AlreadyStartedMessage);
      }
      task := Scheduled(client);
      return Pass;
    }

    method SetTotalBytes(value: int)
      modifies this
      ensures State() == WithTotalBytes(old(State()), id, value)
    {
      if value <= 0 {
        return;
      }
      totalBytes := value;
      if subscribed {
        events := events + [TotalBytesRecordedEvent(id, value)];
      }
    }

    method SetBytesDownloaded(value: int)
      modifies this
      ensures State() == WithBytesDownloaded(old(State()), id, value)
    {
      if value <= 0 {
        return;
      }
      bytesDownloaded := value;
      if subscribed {
        events := events + [ProgressEvent(id, value)];
      }
    }

    method SetReasonForFailure(reason: string)
      modifies this
      ensures State() == WithReasonForFailure(old(State()), id, reason)
    {
      reasonForFailure := reason;
      if subscribed {
        events := events + [FailedEvent(id, reason)];
      }
    }

    method ReleaseEventHandlers()
      modifies this
      ensures State() == Released(old(State()))
    {
      subscribed := false;
    }

    /** `StartDownloadTask`, the body of the task `Start` created: run the executor with the
        job's id, link and destination, feeding its callback calls to the setters, then
        record how it ended. */
    method StartDownloadTask(fuel: nat)
      requires task.Scheduled?
      requires SaveAs.IsNormalised(saveAsFile.downloadsDirectory)
      requires IsIncrement(downloadTaskFactory.library.increment)
      modifies this, downloadTaskFactory.fileSystem
      ensures var run := Download(old(task.client), downloadTaskFactory.incompleteDownloadsDirectory,
                                  old(downloadTaskFactory.fileSystem.Contents()), Args(id, link, old(saveAsFile)),
                                  downloadTaskFactory.library, fuel);
        && State() == AfterRun(old(State()), id, run)
        && downloadTaskFactory.fileSystem.Contents() == run.disk
        && downloadTaskFactory.fileSystem.log == old(downloadTaskFactory.fileSystem.log) + run.log
    {
      var outcome, calls := downloadTaskFactory.CreateDownloadTask(task.client, Args(id, link, saveAsFile), fuel);
      Replay(calls);
      Finish(outcome);
    }

    /** The callback calls the executor made, fed to the setters in order. */
    method Replay(calls: seq<Callback>)
      modifies this
      ensures State() == Replayed(old(State()), id, calls)
    {
      var i := 0;
      while i < |calls|
        invariant 0 <= i <= |calls|
        invariant State() == Replayed(old(State()), id, calls[..i])
      {
        assert calls[..i + 1][..i] == calls[..i];
        match calls[i] {
          case SetTotalBytes(n) => SetTotalBytes(n);
          case SetBytesDownloaded(n) => SetBytesDownloaded(n);
        }
        i := i + 1;
      }
      assert calls[..i] == calls;
    }

    /** The rest of `StartDownloadTask` once the executor's task has ended: the result and
        the exception handlers, then the `finally` block. */
    method Finish(outcome: TaskOutcome)
      modifies this
      ensures State() == Ended(old(State()), id, outcome)
    {
      match outcome
      case Returned(Failure(error)) =>
        SetReasonForFailure(error);
        task := RanToCompletion;
        ReleaseEventHandlers();
      case Returned(Success(file)) =>
        saveAsFile := file;
        if subscribed {
          events := events + [FinishedEvent(id, file)];
        }
        task := RanToCompletion;
        ReleaseEventHandlers();
      case Threw(message) =>
        SetReasonForFailure(message);
        task := Faulted(message);
        ReleaseEventHandlers();
      case Hung =>
        task := Suspended;
    }
  }

  // ---------------------------------------------------------------------------------------
  // What a run does to a job.

  /** After its task has run, a started job is Completed exactly when the task returned (a
      saved file or a failure), Failed exactly when it threw, and still Downloading exactly
      when it never ends. */
  lemma StatusAfterRun(s: JobState, id: JobId, run: Run)
    requires s.task.Scheduled?
    ensures var status := StatusOf(AfterRun(s, id, run).task);
      && (status == Completed <==> run.outcome.Returned?)
      && (status == Failed <==> run.outcome.Threw?)
      && (status == Downloading <==> run.outcome.Hung?)
  {
  }

  /** A task that returns a failure records the reason and tells the subscribers, yet, since
      the task itself ends normally, leaves the job Completed. */
  lemma ReturnedFailureCompletes(s: JobState, id: JobId, run: Run, error: string)
    requires s.task.Scheduled? && s.subscribed && run.outcome == Returned(Failure(error))
    ensures var t := AfterRun(s, id, run);
      && StatusOf(t.task) == Completed
      && t.reasonForFailure == error && t.saveAsFile == s.saveAsFile
      && |t.events| > 0 && t.events[|t.events| - 1] == FailedEvent(id, error)
      && !t.subscribed
  {
  }

  /** A task that throws records the exception's message, tells the subscribers, and leaves
      the job Failed. */
  lemma ThrownFails(s: JobState, id: JobId, run: Run, message: string)
    requires s.task.Scheduled? && s.subscribed && run.outcome == Threw(message)
    ensures var t := AfterRun(s, id, run);
      && StatusOf(t.task) == Failed
      && t.reasonForFailure == message && t.saveAsFile == s.saveAsFile
      && |t.events| > 0 && t.events[|t.events| - 1] == FailedEvent(id, message)
      && !t.subscribed
  {
  }

  /** A task that returns a file makes it the job's `SaveAsFile`, tells the subscribers, and
      leaves the job Completed with no reason for failure added. */
  lemma SuccessFinishes(s: JobState, id: JobId, run: Run, file: SaveAs.SaveAsFile)
    requires s.task.Scheduled? && s.subscribed && run.outcome == Returned(Success(file))
    ensures var t := AfterRun(s, id, run);
      && StatusOf(t.task) == Completed
      && t.saveAsFile == file && t.reasonForFailure == s.reasonForFailure
      && |t.events| > 0 && t.events[|t.events| - 1] == FinishedEvent(id, file)
      && !t.subscribed
  {
  }

  /** A task that never ends keeps the handlers attached and the reason unchanged. */
  lemma HungKeepsDownloading(s: JobState, id: JobId, run: Run)
    requires s.task.Scheduled? && run.outcome == Hung
    ensures var t := AfterRun(s, id, run);
      && StatusOf(t.task) == Downloading && t.subscribed == s.subscribed
      && t.reasonForFailure == s.reasonForFailure && t.saveAsFile == s.saveAsFile
  {
  }

  /** Once the handlers are released, no callback reaches the former subscribers. */
  lemma {:induction false} SilentAfterRelease(s: JobState, id: JobId, calls: seq<Callback>)
    requires !s.subscribed
    ensures Replayed(s, id, calls).events == s.events
    decreases |calls|
  {
    if calls != [] {
      SilentAfterRelease(s, id, calls[..|calls| - 1]);
    }
  }

  /** While subscribed, each callback call that changes a counter raises exactly one event with
      the job's id and the new value, and a call with a value that is not positive raises
      none. */
  lemma CallEvents(s: JobState, id: JobId, c: Callback)
    requires s.subscribed
    ensures var t := AfterCall(s, id, c);
      match c
      case SetTotalBytes(n) =>
        if n <= 0 then t == s
        else t.totalBytes == n && t.events == s.events + [TotalBytesRecordedEvent(id, n)]
      case SetBytesDownloaded(n) =>
        if n <= 0 then t == s
        else t.bytesDownloaded == n && t.events == s.events + [ProgressEvent(id, n)]
  {
  }

  /** The index of the last progress report among the calls, or -1. */
  function LastProgressIndex(calls: seq<Callback>): (k: int)
    ensures -1 <= k < |calls|
    ensures k >= 0 ==> calls[k].SetBytesDownloaded?
    ensures forall j :: k < j < |calls| ==> !calls[j].SetBytesDownloaded?
  {
    if calls == [] then -1
    else if calls[|calls| - 1].SetBytesDownloaded? then |calls| - 1
    else LastProgressIndex(calls[..|calls| - 1])
  }

  /** Replaying a call trace onto a job that has counted nothing leaves `BytesDownloaded` at
      the last progress report: a report of 0 is ignored, but then no earlier report was
      larger. */
  lemma {:induction false} BytesDownloadedAfterTrace(s: JobState, id: JobId, calls: seq<Callback>)
    requires s.bytesDownloaded == 0 && IsCallTrace(calls)
    ensures var k := LastProgressIndex(calls);
      Replayed(s, id, calls).bytesDownloaded == if k < 0 then 0 else calls[k].bytesDownloaded
    decreases |calls|
  {
    if calls != [] {
      var prefix := calls[..|calls| - 1];
      assert IsCallTrace(prefix) by {
        forall i, j | 0 <= i < j < |prefix| && prefix[i].SetBytesDownloaded?
          ensures prefix[i].bytesDownloaded <= prefix[j].bytesDownloaded
        {
          assert prefix[i] == calls[i] && prefix[j] == calls[j];
        }
      }
      BytesDownloadedAfterTrace(s, id, prefix);
      var last := calls[|calls| - 1];
      var k := LastProgressIndex(prefix);
      if last.SetBytesDownloaded? && last.bytesDownloaded == 0 && k >= 0 {
        assert prefix[k] == calls[k];
        assert calls[k].bytesDownloaded <= calls[|calls| - 1].bytesDownloaded;
      }
    }
  }

  /** Replaying a call trace leaves `TotalBytes` at the first call's value when that call
      records a positive total, and unchanged otherwise. */
  lemma {:induction false} TotalBytesAfterTrace(s: JobState, id: JobId, calls: seq<Callback>)
    requires IsCallTrace(calls)
    ensures Replayed(s, id, calls).totalBytes ==
      if |calls| > 0 && calls[0].SetTotalBytes? && calls[0].totalBytes > 0 then calls[0].totalBytes
      else s.totalBytes
    decreases |calls|
  {
    if |calls| > 1 {
      var prefix := calls[..|calls| - 1];
      assert prefix[0] == calls[0];
      assert IsCallTrace(prefix) by {
        forall i, j | 0 <= i < j < |prefix| && prefix[i].SetBytesDownloaded?
          ensures prefix[i].bytesDownloaded <= prefix[j].bytesDownloaded
        {
          assert prefix[i] == calls[i] && prefix[j] == calls[j];
        }
      }
      TotalBytesAfterTrace(s, id, prefix);
    }
  }

  /** A new job whose download saves a file reports, in `BytesDownloaded`, the size of the
      file saved. */
  lemma SavedJobCountsFile(server: Server, incomplete: Directories.DownloadsDirectory, disk: Disk, args: Args,
                           library: Library, fuel: nat, s: JobState)
    requires SaveAs.IsNormalised(args.saveAsFile.downloadsDirectory) && IsIncrement(library.increment)
    requires s.bytesDownloaded == 0
    ensures var run := Download(server, incomplete, disk, args, library, fuel);
      run.outcome.Returned? && run.outcome.result.Success? ==>
        var file := run.outcome.result.value.fullName;
        && file in run.disk.files
        && Replayed(s, args.id, run.calls).bytesDownloaded == |run.disk.files[file]|
  {
    var run := Download(server, incomplete, disk, args, library, fuel);
    DownloadKeepsPromises(server, incomplete, disk, args, library, fuel);
    BytesDownloadedAfterTrace(s, args.id, run.calls);
  }
}
