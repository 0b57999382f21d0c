/** The situations the executor's tests set up, stated over the model of `CreateDownloadTask`:
    what the server answers, what the file system holds, and what the task then returns,
    reports and leaves behind. */
module ExecutorScenarios {
  import opened Wrappers
  import opened Text
  import opened Http
  import opened FileSystems
  import opened Directories
  import opened Executor
  import Links
  import SaveAs
  import Jobs

  /** A status other than success or redirect throws from `EnsureSuccessStatusCode`, before
      any callback or file-system operation. */
  lemma FailureStatusThrows(server: Server, incomplete: DownloadsDirectory, disk: Disk, args: Args,
                            library: Library, fuel: nat, response: Response)
    requires SaveAs.IsNormalised(args.saveAsFile.downloadsDirectory) && IsIncrement(library.increment)
    requires server(Links.Url(args.link)) == Responds(response)
    requires !ResponseIsRedirect(response) && !IsSuccessStatusCode(response.status)
    ensures Download(server, incomplete, disk, args, library, fuel)
         == Run(Threw(StatusMessage(response)), [], disk, [])
  {
  }

  /** A redirect without a `Location`, or with a blank one, returns the undefined-location
      failure and does nothing else. */
  lemma UndefinedLocationFails(server: Server, incomplete: DownloadsDirectory, disk: Disk, args: Args,
                               library: Library, fuel: nat, response: Response)
    requires SaveAs.IsNormalised(args.saveAsFile.downloadsDirectory) && IsIncrement(library.increment)
    requires server(Links.Url(args.link)) == Responds(response) && ResponseIsRedirect(response)
    requires response.location.None? || IsNullOrWhiteSpace(response.location.value)
    ensures Download(server, incomplete, disk, args, library, fuel)
         == Run(Returned(Failure(UndefinedLocationMessage)), [], disk, [])
  {
  }

  /** A redirect to a location `Link.Create` refuses returns that refusal and does nothing
      else. */
  lemma RefusedLocationFails(server: Server, incomplete: DownloadsDirectory, disk: Disk, args: Args,
                             library: Library, fuel: nat, response: Response, error: string)
    requires SaveAs.IsNormalised(args.saveAsFile.downloadsDirectory) && IsIncrement(library.increment)
    requires server(Links.Url(args.link)) == Responds(response) && ResponseIsRedirect(response)
    requires response.location.Some? && !IsNullOrWhiteSpace(response.location.value)
    requires library.createLink(response.location.value) == Failure(error)
    ensures Download(server, incomplete, disk, args, library, fuel)
         == Run(Returned(Failure(error)), [], disk, [])
  {
  }

  /** A redirect to an ftp link is refused with the http-only message. */
  lemma RedirectToFtpFails(server: Server, incomplete: DownloadsDirectory, disk: Disk, args: Args,
                           fuel: nat, response: Response)
    requires SaveAs.IsNormalised(args.saveAsFile.downloadsDirectory)
    requires server(Links.Url(args.link)) == Responds(response) && response.status == 302
    requires response.location == Some("ftp://server.com/file.iso")
    ensures Download(server, incomplete, disk, args, RealLibrary, fuel)
         == Run(Returned(Failure(Links.HttpOnlyMessage)), [], disk, [])
  {
    RealLibraryIncrements();
    Links.FtpLinkTestCase();
    assert !IsNullOrWhiteSpace("ftp://server.com/file.iso") by {
      assert "ftp://server.com/file.iso"[0] == 'f';
    }
    RefusedLocationFails(server, incomplete, disk, args, RealLibrary, fuel, response, Links.HttpOnlyMessage);
  }

  /** A redirect to a location `Link.Create` accepts starts the download over from the new
      link, with the same id and destination, on the same file system. */
  lemma RedirectIsFollowed(server: Server, incomplete: DownloadsDirectory, disk: Disk, args: Args,
                           library: Library, fuel: nat, response: Response, link: Links.Link)
    requires SaveAs.IsNormalised(args.saveAsFile.downloadsDirectory) && IsIncrement(library.increment)
    requires server(Links.Url(args.link)) == Responds(response) && ResponseIsRedirect(response)
    requires response.location.Some? && !IsNullOrWhiteSpace(response.location.value)
    requires library.createLink(response.location.value) == Success(link)
    ensures Download(server, incomplete, disk, args, library, fuel + 1)
         == Download(server, incomplete, disk, args.(link := link), library, fuel)
  {
  }

  /** A link that redirects to itself is followed for ever: the task never completes, and
      it makes no call and touches no file on the way. */
  lemma {:induction false} RedirectLoopHangs(server: Server, incomplete: DownloadsDirectory, disk: Disk,
                                             args: Args, library: Library, fuel: nat, response: Response)
    requires SaveAs.IsNormalised(args.saveAsFile.downloadsDirectory) && IsIncrement(library.increment)
    requires server(Links.Url(args.link)) == Responds(response) && ResponseIsRedirect(response)
    requires response.location.Some? && !IsNullOrWhiteSpace(response.location.value)
    requires library.createLink(response.location.value) == Success(args.link)
    ensures Download(server, incomplete, disk, args, library, fuel) == Run(Hung, [], disk, [])
  {
    if fuel > 0 {
      RedirectLoopHangs(server, incomplete, disk, args, library, fuel - 1, response);
      assert args.(link := args.link) == args;
      RedirectIsFollowed(server, incomplete, disk, args, library, fuel - 1, response, args.link);
    }
  }

  /** The body of a download whose requested name is free is saved under that name: the
      file system gains exactly that file, and the log is the creation of the temporary
      file, the copy, the creation of the destination directory and one move. */
  lemma SavedUnderRequestedName(incomplete: DownloadsDirectory, disk: Disk, response: Response, args: Args,
                                library: Library, fuel: nat)
    requires SaveAs.IsNormalised(args.saveAsFile.downloadsDirectory) && IsIncrement(library.increment)
    requires fuel > 0
    requires TemporaryFile(incomplete, args.id) !in disk.files
    requires args.saveAsFile.fullName !in disk.files && args.saveAsFile.fullName != TemporaryFile(incomplete, args.id)
    requires args.saveAsFile.fullName !in disk.directories && args.saveAsFile.fullName !in Ancestors(args.saveAsFile.directory)
    ensures var temporaryFile := TemporaryFile(incomplete, args.id);
      var r := Save(incomplete, disk, response, args, library, fuel);
      && r.outcome == Returned(Success(args.saveAsFile))
      && r.calls == TotalBytesCalls(response) + ProgressCalls(response.chunks)
      && r.disk == Disk(disk.files[args.saveAsFile.fullName := Concat(response.chunks)],
                        disk.directories + Ancestors(args.saveAsFile.directory))
      && r.log == [CreatedNew(temporaryFile)] + CopyLog(temporaryFile, response.chunks)
                  + [CreatedDirectory(args.saveAsFile.directory), Moved(temporaryFile, args.saveAsFile.fullName)]
  {
    var temporaryFile := TemporaryFile(incomplete, args.id);
    var body := Concat(response.chunks);
    var written := disk.files[temporaryFile := body];
    var directories := disk.directories + Ancestors(args.saveAsFile.directory);
    var move := MoveAttempts(written.Keys, directories, temporaryFile, args.saveAsFile, library.increment, fuel);
    assert move == MoveRun(Saved(args.saveAsFile), [Moved(temporaryFile, args.saveAsFile.fullName)]);
    TemporaryFileReplaced(disk.files, temporaryFile, args.saveAsFile.fullName, body);
  }

  /** The body of a download whose requested name is taken, by a file or by a directory,
      and whose next name is free, is saved under the next name: the first move is refused,
      the second succeeds, and every file that was there before is left as it was. */
  lemma SavedUnderNextName(incomplete: DownloadsDirectory, disk: Disk, response: Response, args: Args,
                           library: Library, fuel: nat, next: SaveAs.SaveAsFile)
    requires SaveAs.IsNormalised(args.saveAsFile.downloadsDirectory) && IsIncrement(library.increment)
    requires fuel > 1
    requires TemporaryFile(incomplete, args.id) !in disk.files
    requires || args.saveAsFile.fullName in disk.files || args.saveAsFile.fullName in disk.directories
             || args.saveAsFile.fullName in Ancestors(args.saveAsFile.directory)
    requires library.increment(args.saveAsFile) == Success(next)
    requires next.fullName !in disk.files && next.fullName != TemporaryFile(incomplete, args.id)
    requires next.fullName !in disk.directories && next.fullName !in Ancestors(args.saveAsFile.directory)
    ensures var temporaryFile := TemporaryFile(incomplete, args.id);
      var r := Save(incomplete, disk, response, args, library, fuel);
      && r.outcome == Returned(Success(next))
      && r.calls == TotalBytesCalls(response) + ProgressCalls(response.chunks)
      && r.disk == Disk(disk.files[next.fullName := Concat(response.chunks)],
                        disk.directories + Ancestors(args.saveAsFile.directory))
      && r.log == [CreatedNew(temporaryFile)] + CopyLog(temporaryFile, response.chunks)
                  + [CreatedDirectory(args.saveAsFile.directory),
                     MoveRefused(temporaryFile, args.saveAsFile.fullName), Moved(temporaryFile, next.fullName)]
  {
    var temporaryFile := TemporaryFile(incomplete, args.id);
    var body := Concat(response.chunks);
    var written := disk.files[temporaryFile := body];
    var directories := disk.directories + Ancestors(args.saveAsFile.directory);
    var after := MoveAttempts(written.Keys, directories, temporaryFile, next, library.increment, fuel - 1);
    assert after == MoveRun(Saved(next), [Moved(temporaryFile, next.fullName)]);
    var move := MoveAttempts(written.Keys, directories, temporaryFile, args.saveAsFile, library.increment, fuel);
    assert move == MoveRun(Saved(next), [MoveRefused(temporaryFile, args.saveAsFile.fullName)] + after.log);
    TemporaryFileReplaced(disk.files, temporaryFile, next.fullName, body);
  }

  /** Writing the temporary file and then moving it to a free name is the same as writing
      that name. */
  lemma TemporaryFileReplaced(files: map<string, seq<byte>>, temporaryFile: string, destination: string,
                              body: seq<byte>)
    requires temporaryFile !in files && destination != temporaryFile
    ensures (files[temporaryFile := body] - {temporaryFile})[destination := body] == files[destination := body]
  {
    assert files[temporaryFile := body] - {temporaryFile} == files;
  }

  /** The roots of the integration test. */
  const IncompleteRoot := DownloadsDirectory("/incomplete/")

  /** The integration test of posting a download: the server answers 200 with a
      `Content-Length` of 42, and "saveAsFile.iso" already exists under the completed root.
      The task first reports the total size, creates "/incomplete/{id}", and saves the body
      as "/completed/saveAsFile(1).iso", leaving the existing file as it was. */
  lemma PostScenario(server: Server, disk: Disk, id: JobId, link: Links.Link, response: Response, fuel: nat)
    returns (saveAsFile: SaveAs.SaveAsFile)
    requires server(Links.Url(link)) == Responds(response) && response.status == 200
    requires response.contentLength == Some(42)
    requires "/completed/saveAsFile.iso" in disk.files && "/completed/saveAsFile(1).iso" !in disk.files
    requires "/completed/saveAsFile(1).iso" !in disk.directories
    requires TemporaryFile(IncompleteRoot, id) !in disk.files
    requires fuel > 1
    ensures SaveAs.New(SaveAs.CompletedRoot, "saveAsFile.iso", 0) == Success(saveAsFile)
    ensures var r := Download(server, IncompleteRoot, disk, Args(id, link, saveAsFile), RealLibrary, fuel);
      && r.outcome.Returned? && r.outcome.result.Success?
      && r.outcome.result.value.fullName == "/completed/saveAsFile(1).iso"
      && |r.calls| > 0 && r.calls[0] == SetTotalBytes(42)
      && r.disk.files == disk.files["/completed/saveAsFile(1).iso" := Concat(response.chunks)]
      && |r.log| > 0 && r.log[0] == CreatedNew("/incomplete/" + id.text)
  {
    var next;
    saveAsFile, next := SaveAs.PostTestNames();
    RealLibraryIncrements();
    IncrementOfRealLibrary(saveAsFile);
    PostedDownload(server, disk, id, link, response, RealLibrary, fuel, saveAsFile, next);
  }

  lemma IncrementOfRealLibrary(s: SaveAs.SaveAsFile)
    requires SaveAs.IsNormalised(s.downloadsDirectory)
    ensures RealLibrary.increment(s) == SaveAs.IncrementSequence(s)
  {
  }

  /** The integration test over any library whose increment of the requested file gives
      the file "/completed/saveAsFile(1).iso". */
  lemma PostedDownload(server: Server, disk: Disk, id: JobId, link: Links.Link, response: Response,
                       library: Library, fuel: nat, saveAsFile: SaveAs.SaveAsFile, next: SaveAs.SaveAsFile)
    requires SaveAs.IsNormalised(saveAsFile.downloadsDirectory) && IsIncrement(library.increment)
    requires server(Links.Url(link)) == Responds(response) && response.status == 200
    requires response.contentLength == Some(42)
    requires saveAsFile.fullName == "/completed/saveAsFile.iso" && library.increment(saveAsFile) == Success(next)
    requires saveAsFile.directory == "/completed/"
    requires next.fullName == "/completed/saveAsFile(1).iso"
    requires "/completed/saveAsFile.iso" in disk.files && "/completed/saveAsFile(1).iso" !in disk.files
    requires "/completed/saveAsFile(1).iso" !in disk.directories
    requires TemporaryFile(IncompleteRoot, id) !in disk.files
    requires fuel > 1
    ensures var r := Download(server, IncompleteRoot, disk, Args(id, link, saveAsFile), library, fuel);
      && r.outcome.Returned? && r.outcome.result.Success?
      && r.outcome.result.value.fullName == "/completed/saveAsFile(1).iso"
      && |r.calls| > 0 && r.calls[0] == SetTotalBytes(42)
      && r.disk.files == disk.files["/completed/saveAsFile(1).iso" := Concat(response.chunks)]
      && |r.log| > 0 && r.log[0] == CreatedNew("/incomplete/" + id.text)
  {
    var args := Args(id, link, saveAsFile);
    IncompleteIsNotCompleted(id.text);
    SavedUnderNextName(IncompleteRoot, disk, response, args, library, fuel, next);
    DownloadOfSuccess(server, IncompleteRoot, disk, args, library, fuel, response);
  }

  /** A path ending in a separator names a directory, which the task itself creates before
      moving: "dir/" is the destination "/completed/dir", the move onto that directory is
      refused, and the body is saved as "/completed/dir(1)". */
  lemma DirectoryDestinationIsRenamed(incomplete: DownloadsDirectory, disk: Disk, response: Response,
                                      id: JobId, link: Links.Link, fuel: nat)
    returns (saveAsFile: SaveAs.SaveAsFile, next: SaveAs.SaveAsFile)
    requires TemporaryFile(incomplete, id) !in disk.files && fuel > 1
    requires "/completed/dir(1)" !in disk.files && "/completed/dir(1)" !in disk.directories
    requires TemporaryFile(incomplete, id) != "/completed/dir(1)"
    ensures SaveAs.New(SaveAs.CompletedRoot, "dir/", 0) == Success(saveAsFile)
    ensures saveAsFile.fullName == "/completed/dir" && saveAsFile.directory == "/completed/dir"
    ensures next.fullName == "/completed/dir(1)"
    ensures var r := Save(incomplete, disk, response, Args(id, link, saveAsFile), RealLibrary, fuel);
      && r.outcome == Returned(Success(next))
      && r.disk.files == disk.files["/completed/dir(1)" := Concat(response.chunks)]
  {
    saveAsFile, next := SaveAs.DirectoryNames();
    LongerIsNotAncestor(saveAsFile.directory, next.fullName);
    RealLibraryIncrements();
    IncrementOfRealLibrary(saveAsFile);
    SavedUnderNextName(incomplete, disk, response, Args(id, link, saveAsFile), RealLibrary, fuel, next);
  }

  /** `Directory.CreateDirectory` also creates the missing parents: once a save into the
      sub-directory "dir/sub" has made "/completed/dir/sub" exist, "/completed/dir" is a
      directory as well, on any disk whose directories keep their parents, as every download
      leaves them (`Executor.DownloadKeepsPromises`). A later download saved as "dir" then
      meets that directory, and its body is saved as "/completed/dir(1)". */
  lemma SaveOntoCreatedParentIsRenamed(incomplete: DownloadsDirectory, disk: Disk, response: Response,
                                       id: JobId, link: Links.Link, fuel: nat)
    returns (saveAsFile: SaveAs.SaveAsFile, next: SaveAs.SaveAsFile)
    requires TemporaryFile(incomplete, id) !in disk.files && fuel > 1
    requires "/completed/dir/sub" in disk.directories && AncestorClosed(disk.directories)
    requires "/completed/dir(1)" !in disk.files && "/completed/dir(1)" !in disk.directories
    requires TemporaryFile(incomplete, id) != "/completed/dir(1)"
    ensures SaveAs.New(SaveAs.CompletedRoot, "dir", 0) == Success(saveAsFile)
    ensures saveAsFile.fullName == "/completed/dir" && next.fullName == "/completed/dir(1)"
    ensures var r := Save(incomplete, disk, response, Args(id, link, saveAsFile), RealLibrary, fuel);
      && r.outcome == Returned(Success(next))
      && r.disk.files == disk.files["/completed/dir(1)" := Concat(response.chunks)]
  {
    saveAsFile, next := SaveAs.BareNames();
    CreatedParent(disk.directories);
    LongerIsNotAncestor(saveAsFile.directory, next.fullName);
    RealLibraryIncrements();
    IncrementOfRealLibrary(saveAsFile);
    SavedUnderNextName(incomplete, disk, response, Args(id, link, saveAsFile), RealLibrary, fuel, next);
  }

  lemma CreatedParent(directories: set<string>)
    requires "/completed/dir/sub" in directories && AncestorClosed(directories)
    ensures "/completed/dir" in directories
  {
    var sub := "/completed/dir/sub";
    assert sub[14] == '/' && sub[..14] == "/completed/dir";
  }

  /** A link to the server root, such as "http://server.com/" (see
      `Links.RootLinkTestCase`), has the file name "/", which names the completed root
      itself. The task creates that directory, the move onto it is refused, and the next
      name is blank: the task throws the blank-path message and the body stays in the
      temporary file. */
  lemma RootLinkThrows(server: Server, disk: Disk, id: JobId, link: Links.Link, response: Response, fuel: nat)
    returns (saveAsFile: SaveAs.SaveAsFile)
    requires link.fileName == "/"
    requires server(Links.Url(link)) == Responds(response) && response.status == 200
    requires TemporaryFile(IncompleteRoot, id) !in disk.files && fuel > 0
    ensures SaveAs.Create(link, SaveAs.CompletedRoot, "") == Success(saveAsFile)
    ensures saveAsFile.fullName == "/completed/"
    ensures var r := Download(server, IncompleteRoot, disk, Args(id, link, saveAsFile), RealLibrary, fuel);
      && r.outcome == Threw(BlankPathMessage)
      && r.disk.files == disk.files[TemporaryFile(IncompleteRoot, id) := Concat(response.chunks)]
  {
    saveAsFile := SaveAs.RootNames();
    assert SaveAs.Create(link, SaveAs.CompletedRoot, "") == SaveAs.New(SaveAs.CompletedRoot, "/", 0);
    RealLibraryIncrements();
    IncrementOfRealLibrary(saveAsFile);
    DownloadOntoBlankNamedDirectoryThrows(server, IncompleteRoot, disk, response, Args(id, link, saveAsFile),
                                          RealLibrary, fuel);
  }

  /** A download whose destination is its own directory, and whose next name is refused,
      ends the move loop with that refusal; the body stays in the temporary file. */
  lemma DownloadOntoBlankNamedDirectoryThrows(server: Server, incomplete: DownloadsDirectory, disk: Disk,
                                              response: Response, args: Args, library: Library, fuel: nat)
    requires SaveAs.IsNormalised(args.saveAsFile.downloadsDirectory) && IsIncrement(library.increment)
    requires server(Links.Url(args.link)) == Responds(response) && response.status == 200
    requires TemporaryFile(incomplete, args.id) !in disk.files && fuel > 0
    requires args.saveAsFile.fullName == args.saveAsFile.directory
    requires library.increment(args.saveAsFile) == Failure(BlankPathMessage)
    ensures var r := Download(server, incomplete, disk, args, library, fuel);
      && r.outcome == Threw(BlankPathMessage)
      && r.disk.files == disk.files[TemporaryFile(incomplete, args.id) := Concat(response.chunks)]
  {
    DownloadOfSuccess(server, incomplete, disk, args, library, fuel, response);
    SaveOntoBlankNamedDirectoryThrows(incomplete, disk, response, args, library, fuel);
  }

  lemma SaveOntoBlankNamedDirectoryThrows(incomplete: DownloadsDirectory, disk: Disk, response: Response,
                                          args: Args, library: Library, fuel: nat)
    requires SaveAs.IsNormalised(args.saveAsFile.downloadsDirectory) && IsIncrement(library.increment)
    requires TemporaryFile(incomplete, args.id) !in disk.files && fuel > 0
    requires args.saveAsFile.fullName == args.saveAsFile.directory
    requires library.increment(args.saveAsFile) == Failure(BlankPathMessage)
    ensures var r := Save(incomplete, disk, response, args, library, fuel);
      && r.outcome == Threw(BlankPathMessage)
      && r.disk.files == disk.files[TemporaryFile(incomplete, args.id) := Concat(response.chunks)]
  {
    var temporaryFile := TemporaryFile(incomplete, args.id);
    var written := disk.files[temporaryFile := Concat(response.chunks)];
    var move := MoveAttempts(written.Keys, disk.directories + Ancestors(args.saveAsFile.directory), temporaryFile,
                             args.saveAsFile, library.increment, fuel);
    assert move.outcome == MoveThrew(BlankPathMessage);
  }

  /** The job of a root link therefore ends Failed, with the blank-path message as its
      reason for failure. */
  lemma RootLinkJobFails(server: Server, disk: Disk, id: JobId, link: Links.Link, response: Response, fuel: nat,
                         s: Jobs.JobState)
    returns (saveAsFile: SaveAs.SaveAsFile)
    requires link.fileName == "/"
    requires server(Links.Url(link)) == Responds(response) && response.status == 200
    requires TemporaryFile(IncompleteRoot, id) !in disk.files && fuel > 0
    requires s.task.Scheduled? && s.subscribed
    ensures SaveAs.Create(link, SaveAs.CompletedRoot, "") == Success(saveAsFile)
    ensures var t := Jobs.AfterRun(s, id, Download(server, IncompleteRoot, disk, Args(id, link, saveAsFile), RealLibrary, fuel));
      Jobs.StatusOf(t.task) == Jobs.Failed && t.reasonForFailure == BlankPathMessage
  {
    saveAsFile := RootLinkThrows(server, disk, id, link, response, fuel);
    Jobs.ThrownFails(s, id, Download(server, IncompleteRoot, disk, Args(id, link, saveAsFile), RealLibrary, fuel),
                     BlankPathMessage);
  }

  /** A success status that is not a redirect goes straight to saving the body. */
  lemma DownloadOfSuccess(server: Server, incomplete: DownloadsDirectory, disk: Disk, args: Args,
                          library: Library, fuel: nat, response: Response)
    requires SaveAs.IsNormalised(args.saveAsFile.downloadsDirectory) && IsIncrement(library.increment)
    requires server(Links.Url(args.link)) == Responds(response)
    requires !ResponseIsRedirect(response) && IsSuccessStatusCode(response.status)
    ensures Download(server, incomplete, disk, args, library, fuel)
         == Save(incomplete, disk, response, args, library, fuel)
  {
  }

  /** No temporary file is under the completed root. */
  lemma IncompleteIsNotCompleted(id: string)
    ensures "/incomplete/" + id != "/completed/saveAsFile(1).iso"
  {
    assert ("/incomplete/" + id)[1] == 'i';
  }
}
