# Download engine of a self-hosted HTTP downloader

The server accepts a link and an optional save-as path. It creates a *download job* and
starts a background task. That task GETs the link, follows redirects, and streams the body
into a temporary file under the *incomplete* root while it reports progress. It then moves
the file under the *completed* root. When the name is taken, it retries with "(1)", "(2)", …
inserted before the extension. A job's status follows its task: NotStarted, Downloading,
Completed or Failed. The job raises events when the total size is known, on progress, on
success and on failure. The manager keeps the jobs by id and clears out the ones that have
ended. An earlier, simpler `Download`/`Downloads` pair is still in the repository. The
React form that posts a download checks the save-as path on the client before sending it.

This Dafny project models that core:

| file | module | models |
|---|---|---|
| `wrappers.dfy` | `Wrappers` | `Result`/`Option`; exceptions that the core catches become `Failure(message)` |
| `text.dfy` | `Text` | the .NET and JavaScript string operations the core relies on |
| `paths.dfy` | `Paths` | `System.IO.Path` on a Unix-like platform |
| `directories.dfy` | `Directories` | `AbstractDownloadsDirectory`: root normalisation |
| `uri.dfy` | `UriParser` | the parts of `System.Uri` that `Link` reads |
| `link.dfy` | `Links` | `Link.Create` |
| `save_as_file.dfy` | `SaveAs` | `SaveAsFile`: path splitting, validation, sequence numbers |
| `environment.dfy` | `Http`, `FileSystems` | the server as a function from URL to reply, and an in-memory file system that logs every operation |
| `download_task_factory.dfy` | `Executor` | `DownloadTaskFactory`: redirects, the copy loop, the move-with-retries loop |
| `download_scenarios.dfy` | `ExecutorScenarios` | the executor's situations from the unit and integration tests |
| `download_job.dfy` | `Jobs` | `DownloadJob`: status, setters, events, `Start`, the task body |
| `download_manager.dfy` | `Manager` | `DownloadManager.CreateDownloadJob` and the cleanup of ended jobs |
| `legacy_download.dfy` | `Legacy` | the legacy `Download` and `Downloads` |
| `post_form.dfy` | `PostForm` | the client's `isSaveAsValid` and `handleSaveAsInputChange` |

Each operation that works step by step is a `method` on a `class` whose fields the source
updates in place:

- the file system;
- the executor's copy and move loops;
- the job's setters and task body;
- the manager's and the legacy registry's dictionaries;
- the form's state.

Each such method is proved against a specification function. For example,
`DownloadTaskFactory.CreateDownloadTask` leaves the file system as
`Download(server, …, disk, args, library, fuel)` says. The lemmas then state what the
source promises about those functions. Path parsing, validation and link parsing are pure
functions with lemmas.

The executor's and the legacy task's specification functions take `Link.Create` and
`SaveAsFile.IncrementSequence` as function values: the datatype `Library` or the field
`increment`. The ghost predicate `IsIncrement` fixes what the retry loop needs of the
renaming. The classes hold the real operations (`RealLibrary`).

Behaviour of the code worth knowing:

- **The counter setters.** They ignore values that are not positive, not values below the
  current count.
- **Sequence numbers accumulate.** `IncrementSequence` re-parses `Name`, which already
  carries the previous suffix. So the names tried are "f.iso", "f(1).iso", "f(1)(2).iso",
  … and never "f(2).iso" (`SaveAs.IncrementedAccumulates`).
- **The undefined-location failure message.** It formats the link with `Link`'s default
  `ToString()`, which gives the type name, so the message reads
  "Api.Downloading.Link redirects to undefined location."
- **A failed download can read Completed.** A task that returns a failure (an unusable
  redirect) ends normally. The job records the reason and raises `OnFailed`, yet its
  status is Completed (`Jobs.ReturnedFailureCompletes`).
- **A destination can name a directory.** A path ending in '/' has no file name, so its
  `FullName` is its own `Directory`, which the task creates just before moving. The move
  onto that directory is refused like a taken name: "dir/" is saved as "dir(1)"
  (`ExecutorScenarios.DirectoryDestinationIsRenamed`). A link to the server root has the
  file name "/", which names the completed root itself; its next name is blank, so the
  task throws and the job ends Failed (`ExecutorScenarios.RootLinkJobFails`).
- **Parents are directories too.** `Directory.CreateDirectory` creates every missing
  parent, so a save into "dir/sub" also makes "/completed/dir" a directory, and a later
  download saved as "dir" is renamed "dir(1)"
  (`ExecutorScenarios.SaveOntoCreatedParentIsRenamed`).
- **White space around a link.** `Uri` skips spaces, tabs and line breaks around the
  string, and `Url` keeps them: " http://server.com/file.iso" is accepted with the file
  name "file.iso" (`Links.PaddedLinkTestCase`).

## Model

| member | source | states |
|---|---|---|
| Directories.Create | Api/Downloading/Directories/AbstractDownloadsDirectory.cs:7-22 | a blank path fails with the `ArgumentException` message. Otherwise the root ends with the primary separator; without it, it is a prefix of the input, and the input holds only separators after it |
| Directories.TrailingSeparatorsCollapse | Api/Downloading/Directories/AbstractDownloadsDirectory.cs:17-21 | appending any run of primary separators to a non-blank path gives the same root |
| Directories.NormaliseIsIdempotent | Api/Downloading/Directories/AbstractDownloadsDirectory.cs:17-21 | with one separator character, normalising a normalised root changes nothing |
| Directories.MixedTrailingSeparatorsLeaveTwo | Api/Downloading/Directories/AbstractDownloadsDirectory.cs:17-21 | with '\\' and '/' as separators, "C:\\dl\\/" becomes "C:\\dl\\\\": the two trims in a row leave two separators |
| Directories.ConfiguredRoots | Tests.Integration/StartupTest.cs:33-40 | the configured "/incomplete" and "/completed" become "/incomplete/" and "/completed/"; "/completed//" gives the same root |
| Paths.Combine | Api/Downloading/SaveAsFile.cs:31-40 | `Path.Combine` returns `b` when `a` is empty or `b` is rooted, and `a` when `b` is empty. Otherwise the result starts with `a`, ends with `b` and adds at most one separator |
| Paths.CombineAfterSeparator | Api/Downloading/SaveAsFile.cs:40 | combining onto a root ending in the separator is concatenation |
| Text.Trim | Api/Downloading/SaveAsFile.cs:52 | the result is the slice after the leading white space; only white space follows it; its ends are not white space |
| Text.TrimIsEmptyIffBlank | Api/Downloading/SaveAsFile.cs:18-21 | trimming gives "" exactly when the text is null-or-white-space |
| Text.TrimOfTrimmed | Api/Downloading/SaveAsFile.cs:81 | trimming text without surrounding white space changes nothing |
| Text.AbsentFromTrim | Api/Downloading/SaveAsFile.cs:76-81 | a character absent from the text is absent from its trim |
| Text.TrimEndChar | Api/Downloading/Directories/AbstractDownloadsDirectory.cs:17-21 | the result is a prefix, only the trimmed character follows it, and it does not end with that character |
| Text.LastIndexOf | Api/Downloading/SaveAsFile.cs:51 | the result is -1 or an index of the character, and the character does not occur after it |
| Text.LastIndexOfIs | Api/Downloading/SaveAsFile.cs:72-73 | an index of the character with none after it is the last index |
| Text.IndexOf | Api/Downloading/Link.cs:14 | the result is -1 or an index of the character, and the character does not occur before it |
| Text.ContainsOfInfix | Api/Downloading/SaveAsFile.cs:65 | an occurrence in an infix is an occurrence in the whole text |
| Text.NatToString | Api/Downloading/SaveAsFile.cs:37 | the decimal form is a non-empty string of digits |
| Text.NatToStringValue | Api/Downloading/SaveAsFile.cs:37 | reading the digits back gives the number |
| Text.NatToStringInjective | Api/Downloading/SaveAsFile.cs:36-38 | different sequence numbers are formatted differently |
| Text.ToLowerAscii | Api/Downloading/Link.cs:14-15 | the result has the same length; every upper-case ASCII letter is lowered and every other character kept |
| UriParser.Parse | Api/Downloading/Link.cs:14 | spaces, tabs and line breaks around the string are ignored. A parsed URI keeps its original string, unstripped, has a rooted path, and its segments are the path's segments, at least one |
| UriParser.Stripped | Api/Downloading/Link.cs:14 | the text parsed neither starts nor ends with linear white space |
| UriParser.StrippedOfPadded | Api/Downloading/Link.cs:14 | linear white space added around a string is stripped away again |
| UriParser.ParseOfPadded | Api/Downloading/Link.cs:14 | linear white space around a URI string changes only `OriginalString`: same acceptance, same message, same scheme, host and path |
| UriParser.Segments | Api/Downloading/Link.cs:20-25 | a non-empty path has segments, and the last one is its last segment |
| UriParser.LastSegment | Api/Downloading/Link.cs:25 | the last segment is non-empty and ends the path; it holds a '/' only as its last character; it is the whole path or follows a '/' |
| UriParser.LastSegmentAfter | Api/Downloading/Link.cs:25 | the last segment is what follows the last '/' that is not the final character |
| UriParser.LastSegmentOfRoot | Api/Downloading/Link.cs:25 | the root path's last segment is "/" |
| UriParser.ParseParts | Api/Downloading/Link.cs:14 | "scheme://host/path?query" parses into the lower-cased scheme, the host, and the path ("/" when empty) |
| Links.Create | Api/Downloading/Link.cs:32-43 | succeeds exactly when the string parses with scheme http or https. A parse failure keeps the parser's message; another scheme fails with "Only http(s) links are supported.". The link keeps the string, and its file name is the last path segment |
| Links.Url | Api/Downloading/Link.cs:30 | the original string, white space included: `Links.Create` promises that `Url` gives back exactly the string the link was created from, and `Links.CreateOfPadded` that padding survives in it |
| Links.CreateOfPadded | Api/Downloading/Link.cs:14 | a link padded with linear white space is accepted or refused as without it, with the same file name, and `Url` keeps the padding |
| Links.PaddedLinkTestCase | Api/Downloading/Link.cs:14 | " http://server.com/file.iso" is accepted, with file name "file.iso" |
| Links.FromParsed | Api/Downloading/Link.cs:11-26 | the constructor after `new Uri`: the same cases, given the parse result |
| Links.CreateHttpLink | Api/Downloading/Link.cs:11-26 | every http(s) link to a host with a path is accepted; its file name is the text after the path's last '/' that is not its final character |
| Links.CreateRootLink | Api/Downloading/Link.cs:20-25 | a link to the server root is accepted, with "/" as its file name |
| Links.CreateOtherScheme | Api/Downloading/Link.cs:15-18 | every other well-formed scheme is refused with the http-only message |
| Links.FileLinkTestCase | Tests.Unit/Downloading/LinkTests.cs:9-20 | "http://server.com/file.iso" is accepted with file name "file.iso" |
| Links.FileLinkWithQueryTestCase | Tests.Unit/Downloading/LinkTests.cs:9-20 | "https://server.com/path/file.iso?queryString=ignored" is accepted with file name "file.iso" |
| Links.RootLinkTestCase | Tests.Unit/Downloading/LinkTests.cs:30-39 | "http://server.com/" is accepted, with file name "/" |
| Links.RootLinkWithQueryTestCase | Tests.Unit/Downloading/LinkTests.cs:30-39 | "https://server.com/?queryString=value" is accepted, with file name "/" |
| Links.FtpLinkTestCase | Tests.Unit/Downloading/LinkTests.cs:22-28 | "ftp://server.com/file.iso" is refused with the http-only message |
| SaveAs.IsValidSubDir | Api/Downloading/SaveAsFile.cs:59-67 | no invalid path character, not rooted, no trailing separator, no ".." and no trailing '.'; `SaveAs.New` fails exactly when the sub-directory breaks it, and `SaveAs.ParentSubDirFails`, `SaveAs.RootedSubDirFails` and `PostForm.ValidSubDirHasNoParent` state instances |
| SaveAs.SplitSubDir | Api/Downloading/SaveAsFile.cs:49-53 | no sub-directory when the last separator is at index 1 or less; otherwise the trimmed text before it |
| SaveAs.SplitNameAndExtension | Api/Downloading/SaveAsFile.cs:69-82 | fails with the negative-length message exactly when the last '.' lies before the file name. Otherwise the name and the extension hold no separator, and the extension is empty or starts with '.' |
| SaveAs.SequenceSuffix | Api/Downloading/SaveAsFile.cs:36-38 | the suffix is "" exactly for 0; otherwise it is "(…)" with no '.', separator or blank inside |
| SaveAs.New | Api/Downloading/SaveAsFile.cs:13-41 | fails exactly for a blank path, an invalid sub-directory, or an extension inside the sub-directory, with that order's message. A result keeps the root and the sequence number, its directory is root + sub-directory, its `Name` is not rooted, and its `FullName` is root + `Name` and starts with its directory |
| SaveAs.Assemble | Api/Downloading/SaveAsFile.cs:31-40 | the assembled file lies in its directory, under the root, with `Name` = sub-directory combined with the file name |
| SaveAs.Create | Api/Downloading/SaveAsFile.cs:84-98 | the requested path when it is not blank, else the link's file name, with sequence 0 under the given root |
| SaveAs.IncrementSequence | Api/Downloading/SaveAsFile.cs:100-106 | the next file keeps the root and has the next sequence number; a blank `Name` fails |
| SaveAs.AsPath | Api/Downloading/SaveAsFile.cs:108-111 | the implicit conversion gives `FullName`, the name every move attempt uses; `SaveAs.New` promises it is root + `Name` and starts with `Directory` |
| SaveAs.NewOfPlainPath | Api/Downloading/SaveAsFile.cs:13-41 | "sub/name.ext" is accepted; the suffix goes between name and extension and the sub-directory is kept |
| SaveAs.IncrementSequenceAppendsSuffix | Api/Downloading/SaveAsFile.cs:100-106 | the new suffix is appended after the name already carrying the old one, in the same directory |
| SaveAs.IncrementedAccumulates | Api/Downloading/SaveAsFile.cs:100-106 | after k increments the name carries "(1)"…"(k)", with sequence number k, in the same directory |
| SaveAs.SaveAsFileTestCase | Tests.Integration/PostTest.cs:96-98 | "saveAsFile.iso" is stored as "/completed/saveAsFile.iso", and the next name is "/completed/saveAsFile(1).iso" |
| SaveAs.NewOfShortPrefix | Api/Downloading/SaveAsFile.cs:49-53 | a prefix of at most one character before the separator is dropped: the file goes in the root |
| SaveAs.OneCharacterSubDirIsDropped | Api/Downloading/SaveAsFile.cs:51-52 | "a/f.iso" is stored as "f.iso" in the root |
| SaveAs.DotOnlyInSubDirFails | Api/Downloading/SaveAsFile.cs:72-81 | "a.b/file" fails with the negative-length message |
| SaveAs.ParentSubDirFails | Api/Downloading/SaveAsFile.cs:59-67 | "../f" fails: ".." is not a valid sub-directory |
| SaveAs.RootedSubDirFails | Api/Downloading/SaveAsFile.cs:59-67 | "/etc/f" fails: a rooted sub-directory is not valid |
| SaveAs.RootFileNameIsTheRoot | Api/Downloading/SaveAsFile.cs:100-106 | the root link's file name "/" names the root itself, as both `FullName` and `Directory`, and its increment fails as blank |
| SaveAs.DotIsAccepted | Api/Downloading/SaveAsFile.cs:13-41 | "." passes every check: no sub-directory, no extension, name ".", `FullName` "/completed/." in the directory "/completed/" |
| SaveAs.TrailingSeparatorNamesTheDirectory | Api/Downloading/SaveAsFile.cs:13-41 | "dir/" has `FullName` and `Directory` both "/completed/dir"; its next name is "/completed/dir(1)" |
| SaveAs.BareNames | Api/Downloading/SaveAsFile.cs:13-41 | "dir" is the file "/completed/dir" in the completed root; its next name is "/completed/dir(1)" |
| SaveAs.NewOfSpacedSubDir | Api/Downloading/SaveAsFile.cs:49-53 | " c/name.ext" keeps the sub-directory "c" |
| SaveAs.SpacedSubDirLostOnIncrement | Api/Downloading/SaveAsFile.cs:100-106 | after that, the re-parsed name "c/name.ext" loses "c": the next name is "name(1).ext" in the root |
| Http.ConcatGrows | Api/Downloading/DownloadTaskFactory.cs:94-101 | every further read adds bytes to the body |
| FileSystems.FileSystem.CreateNew | Api/Downloading/DownloadTaskFactory.cs:48 | an existing path fails with the file-exists message and changes nothing; otherwise an empty file is added |
| FileSystems.FileSystem.Write | Api/Downloading/DownloadTaskFactory.cs:100 | the bytes are appended to the file |
| FileSystems.FileSystem.Flush | Api/Downloading/DownloadTaskFactory.cs:103 | contents unchanged |
| FileSystems.FileSystem.CreateDirectory | Api/Downloading/DownloadTaskFactory.cs:110 | the directory and every missing parent (`FileSystems.Ancestors`) are added, whether or not they existed |
| FileSystems.InAncestors | Api/Downloading/DownloadTaskFactory.cs:110 | the directories created for a path are exactly the path and its non-empty prefixes that stop just before a '/' |
| FileSystems.ParentIsAncestor | Api/Downloading/DownloadTaskFactory.cs:110 | creating "parent/rest" creates "parent" |
| FileSystems.LongerIsNotAncestor | Api/Downloading/DownloadTaskFactory.cs:110 | no path longer than the created one is created |
| FileSystems.CreatingKeepsAncestorClosed | Api/Downloading/DownloadTaskFactory.cs:110 | when every parent of a directory is a directory, it stays so after creating any directory |
| FileSystems.FileSystem.Move | Api/Downloading/DownloadTaskFactory.cs:116 | moves exactly when the source exists and neither a file nor a directory holds the destination; otherwise it changes nothing |
| Executor.Download | Api/Downloading/DownloadTaskFactory.cs:29-52 | the specification of `CreateDownloadTask`; `Executor.DownloadKeepsPromises` proves its promises for every server reply and the `ExecutorScenarios` lemmas its cases |
| Executor.Redirect | Api/Downloading/DownloadTaskFactory.cs:60-84 | the specification of `CreateRedirectedDownloadTask`; `Executor.RedirectKeepsPromises`, `ExecutorScenarios.UndefinedLocationFails`, `RefusedLocationFails` and `RedirectIsFollowed` state its cases |
| Executor.Save | Api/Downloading/DownloadTaskFactory.cs:40-51 | the specification of saving the body; `Executor.SaveKeepsPromises` and `ExecutorScenarios.SavedUnderRequestedName` and `SavedUnderNextName` state what it does |
| Executor.ResponseIsRedirect | Api/Downloading/DownloadTaskFactory.cs:13-19 | true exactly for 301, 302, 307 and 308 |
| Executor.ProgressCounts | Api/Downloading/DownloadTaskFactory.cs:91-101 | one report per read plus the final one. The reports never decrease and strictly increase while bytes arrive; the last gives the body's length |
| Executor.CopyResponseContentToTemporaryFile | Api/Downloading/DownloadTaskFactory.cs:86-104 | the loop reports `ProgressCalls`, appends the whole body to the file, writes the empty final read and flushes |
| Executor.IncrementSequenceIsIncrement | Api/Downloading/SaveAsFile.cs:100-106 | `IncrementSequence` keeps the root and adds one to the sequence number |
| Executor.MoveAttempts | Api/Downloading/DownloadTaskFactory.cs:111-123 | a file is only saved under a name that no file and no directory held, and only when the temporary file exists |
| Executor.MoveAttemptsFacts | Api/Downloading/DownloadTaskFactory.cs:111-123 | the first attempt is the requested name. Every logged operation is a move of the temporary file, and each refusal was for a name a file or a directory held, or a missing temporary file. The saved file is under the same root with a sequence number no lower (the requested file itself if equal). It is saved exactly when the last attempt moved |
| Executor.MoveWithRetries | Api/Downloading/DownloadTaskFactory.cs:111-123 | the loop ends as `MoveAttempts` over the files and directories says, with its operations. The temporary file is moved to the saved name, and nothing else changes |
| Executor.FilesAfterMove | Api/Downloading/DownloadTaskFactory.cs:116 | other files unchanged; a saved body is under the saved name and the temporary file is gone |
| Executor.DownloadKeepsPromises | Api/Downloading/DownloadTaskFactory.cs:29-52 | for every server reply: the callbacks form a trace, no existing file changes, and when every parent of a directory was a directory it still is. A returned failure has no effect at all. A returned file exists under the requested root, the temporary file is gone, and the last progress report is the file's size |
| Executor.RedirectKeepsPromises | Api/Downloading/DownloadTaskFactory.cs:60-84 | the same promises for a download that starts with a redirect |
| Executor.SaveKeepsPromises | Api/Downloading/DownloadTaskFactory.cs:40-51 | the same for saving. A leftover temporary file throws the file-exists message with no effect on the file system. Otherwise the destination directory and its parents are added to the directories. A saved file holds exactly the body |
| Executor.SaveCallsAreTrace | Api/Downloading/DownloadTaskFactory.cs:41-50 | the content length comes first, then non-decreasing progress ending with the body's length |
| Executor.DownloadTaskFactory.constructor | Api/Downloading/DownloadTaskFactory.cs:21-27 | keeps the incomplete root and the file system |
| Executor.DownloadTaskFactory.CreateDownloadTask | Api/Downloading/DownloadTaskFactory.cs:29-52 | outcome, callbacks, file system and operations are those of `Download` |
| Executor.DownloadTaskFactory.SaveResponse | Api/Downloading/DownloadTaskFactory.cs:40-51 | outcome, callbacks, file system and operations are those of `Save` |
| Executor.DownloadTaskFactory.CopyAndMove | Api/Downloading/DownloadTaskFactory.cs:45-51 | from an empty temporary file: the body is copied in, with `ProgressCalls`, and the move loop ends as `MoveAttempts` says over the files and the directories with the destination and its parents |
| Executor.DownloadTaskFactory.CreateRedirectedDownloadTask | Api/Downloading/DownloadTaskFactory.cs:60-84 | outcome, callbacks, file system and operations are those of `Redirect` |
| Executor.DownloadTaskFactory.MoveTemporaryFileToSaveAsFile | Api/Downloading/DownloadTaskFactory.cs:106-124 | creates the destination directory and its missing parents, then ends as `MoveAttempts` says over the files and all those directories, so a destination naming one of them is refused; the temporary file is moved to the saved name |
| ExecutorScenarios.FailureStatusThrows | Api/Downloading/DownloadTaskFactory.cs:40 | a non-success, non-redirect status throws the status message, with no call and no file operation |
| ExecutorScenarios.UndefinedLocationFails | Api/Downloading/DownloadTaskFactory.cs:64-67 | a redirect with a missing or blank location returns the undefined-location failure and does nothing else |
| ExecutorScenarios.RefusedLocationFails | Api/Downloading/DownloadTaskFactory.cs:69-73 | a location `Link.Create` refuses returns that refusal and does nothing else |
| ExecutorScenarios.RedirectToFtpFails | Api/Downloading/DownloadTaskFactory.cs:69-73 | a redirect to an ftp link fails with the http-only message |
| ExecutorScenarios.RedirectIsFollowed | Api/Downloading/DownloadTaskFactory.cs:75-83 | an accepted location restarts the download from the new link, with the same id and destination and one step less of fuel |
| ExecutorScenarios.RedirectLoopHangs | Api/Downloading/DownloadTaskFactory.cs:60-84 | a link that redirects to itself never completes and makes no call and no file operation |
| ExecutorScenarios.SavedUnderRequestedName | Tests.Unit/Downloading/DownloadJobTests.cs:322-351 | a requested name that no file and no directory holds, and that is not its own directory or a parent of it, receives the body. The file system gains exactly that file, and the log is create, copy, create directory, one move |
| ExecutorScenarios.SavedUnderNextName | Api/Downloading/DownloadTaskFactory.cs:111-122 | a requested name taken by a file or a directory, existing or just created, with a free next name: one refused move, then the body is saved under the next name, and every existing file is left alone |
| ExecutorScenarios.DirectoryDestinationIsRenamed | Api/Downloading/DownloadTaskFactory.cs:106-124 | "dir/" names the directory the task creates; the move onto it is refused and the body is saved as "/completed/dir(1)", the only change to the files |
| ExecutorScenarios.SaveOntoCreatedParentIsRenamed | Api/Downloading/DownloadTaskFactory.cs:110-122 | once "/completed/dir/sub" exists on a disk whose directories keep their parents, "/completed/dir" is a directory, so "dir" is saved as "/completed/dir(1)", the only change to the files |
| ExecutorScenarios.RootLinkThrows | Api/Downloading/DownloadTaskFactory.cs:106-124 | a link whose file name is "/", with no save-as path, targets the completed root itself; the move is refused, the next name is blank, the task throws the blank-path message, and the body stays in the temporary file |
| ExecutorScenarios.DownloadOntoBlankNamedDirectoryThrows | Api/Downloading/DownloadTaskFactory.cs:110-122 | any destination that is its own directory and whose next name is refused as blank ends the task with that exception |
| ExecutorScenarios.RootLinkJobFails | Api/Downloading/DownloadJob.cs:156-165 | the job of such a root link ends Failed, with the blank-path message as its reason |
| ExecutorScenarios.DownloadOfSuccess | Api/Downloading/DownloadTaskFactory.cs:40-51 | a success status goes straight to saving |
| ExecutorScenarios.PostedDownload | Tests.Integration/PostTest.cs:32-111 | the posting scenario for any library whose next name is "saveAsFile(1).iso" |
| ExecutorScenarios.PostScenario | Tests.Integration/PostTest.cs:32-111 | with "saveAsFile.iso" taken and a `Content-Length` of 42, the task reports 42 first and creates "/incomplete/{id}". It saves the body as "/completed/saveAsFile(1).iso" and leaves the other files as they were |
| Jobs.StatusOf | Api/Downloading/DownloadJob.cs:81-102 | NotStarted without a task, Completed when it ran to completion, Failed when it faulted, Downloading otherwise; `Jobs.StatusAfterRun` states which run ends in which |
| Jobs.Ended | Api/Downloading/DownloadJob.cs:146-165 | the job after its task ends; `Jobs.ReturnedFailureCompletes`, `Jobs.ThrownFails`, `Jobs.SuccessFinishes` and `Jobs.HungKeepsDownloading` state each ending |
| Jobs.Replayed | Api/Downloading/DownloadJob.cs:143-144 | the callbacks touch only the counters and the events: destination, reason, task and subscriptions are unchanged, and events are only appended |
| Jobs.DownloadJob.constructor | Api/Downloading/DownloadJob.cs:29-41 | a new job has total -1, nothing downloaded, no reason, no task, no events, and is NotStarted |
| Jobs.DownloadJob.DownloadTask | Api/Downloading/DownloadJob.cs:48-49 | fails with "Download not started." exactly when the job is NotStarted, otherwise gives the task |
| Jobs.DownloadJob.Start | Api/Downloading/DownloadJob.cs:121-131 | a job without a task gets one and becomes Downloading; otherwise "Already started" and nothing changes |
| Jobs.DownloadJob.SetTotalBytes | Api/Downloading/DownloadJob.cs:51-64 | a positive value is stored and raises `OnTotalBytesRecorded`; anything else is ignored |
| Jobs.DownloadJob.SetBytesDownloaded | Api/Downloading/DownloadJob.cs:66-79 | a positive value is stored and raises `OnProgress`; anything else is ignored |
| Jobs.DownloadJob.SetReasonForFailure | Api/Downloading/DownloadJob.cs:104-112 | stores the reason and raises `OnFailed` |
| Jobs.DownloadJob.ReleaseEventHandlers | Api/Downloading/DownloadJob.cs:168-174 | detaches the subscribers |
| Jobs.DownloadJob.StartDownloadTask | Api/Downloading/DownloadJob.cs:133-166 | the job ends as `AfterRun` of the executor's run, and the file system as the run leaves it |
| Jobs.DownloadJob.Replay | Api/Downloading/DownloadJob.cs:143-144 | the setters applied to the calls in order give `Replayed` |
| Jobs.DownloadJob.Finish | Api/Downloading/DownloadJob.cs:146-165 | the job after the task's end is `Ended` |
| Jobs.StatusAfterRun | Api/Downloading/DownloadJob.cs:81-102 | a started job is Completed exactly when its task returned, Failed exactly when it threw, and Downloading exactly when it never ends |
| Jobs.ReturnedFailureCompletes | Api/Downloading/DownloadJob.cs:146-150 | a returned failure records the reason and raises `OnFailed` last, releases the handlers, and leaves the job Completed |
| Jobs.ThrownFails | Api/Downloading/DownloadJob.cs:156-165 | an exception records its message and raises `OnFailed` last, releases the handlers, and leaves the job Failed |
| Jobs.SuccessFinishes | Api/Downloading/DownloadJob.cs:152-154 | a returned file becomes the job's `SaveAsFile` and raises `OnFinished` last; the job is Completed with its reason unchanged |
| Jobs.HungKeepsDownloading | Tests.Unit/Downloading/DownloadJobTests.cs:33-44 | a task that never ends leaves the job Downloading, subscribed, with reason and destination unchanged |
| Jobs.SilentAfterRelease | Api/Downloading/DownloadJob.cs:168-174 | after release, no callback reaches the former subscribers |
| Jobs.CallEvents | Api/Downloading/DownloadJob.cs:51-79 | each counter change raises exactly one event with the job's id and the new value; a non-positive value changes nothing |
| Jobs.BytesDownloadedAfterTrace | Api/Downloading/DownloadJob.cs:66-79 | after a call trace, `BytesDownloaded` is the last progress report (0 if none) |
| Jobs.TotalBytesAfterTrace | Api/Downloading/DownloadJob.cs:51-64 | after a call trace, `TotalBytes` is the reported content length when positive, and unchanged otherwise |
| Jobs.SavedJobCountsFile | Tests.Unit/Downloading/DownloadJobTests.cs:200-225 | a job starting from zero bytes whose download saves a file ends with `BytesDownloaded` equal to the saved file's size |
| Manager.DownloadManager.constructor | Api/Downloading/DownloadManager.cs:14-24 | keeps the dictionary and the factory |
| Manager.DownloadManager.CreateDownloadJob | Api/Downloading/DownloadManager.cs:26-40 | a fresh, not-started job with the given link, destination, id and ticks is stored under its id; the other entries are unchanged |
| Manager.DownloadManager.Cleanup | Tests.Integration/DeleteTests.cs:25-79 | exactly the jobs that are neither Completed nor Failed remain, under the same ids |
| Legacy.LegacyDownload | Api/Downloading/Download.cs:70-103 | the specification of `StartDownload`; `Legacy.LegacyDownloadKeepsFiles` and `Legacy.LegacySavesAnyStatus` state what it does |
| Legacy.LegacySave | Api/Downloading/Download.cs:74-101 | the create, copy and move of `StartDownload`; the same two lemmas state its effect |
| Legacy.LegacyDownloadKeepsFiles | Api/Downloading/Download.cs:70-103 | no existing file changes. The task completes exactly when it saved the body, under a name no file and no directory held, in the requested root, with the temporary file gone. Otherwise nothing new remains but perhaps the temporary file |
| Legacy.LegacySavesAnyStatus | Api/Downloading/Download.cs:78-85 | unlike the executor, any response status is saved: its body lands under the requested name when no file and no directory holds it and its directory exists |
| Legacy.StatusOf | Api/Downloading/Download.cs:44-55 | NotStarted without a task, Completed once it has ended, faulted or not, Downloading otherwise; `Legacy.StatusAfterEnding` states it for every ending |
| Legacy.StatusAfterEnding | Api/Downloading/Download.cs:44-55 | once the task has ended, faulted or not, the download reads Completed; otherwise Downloading |
| Legacy.Download.constructor | Api/Downloading/Download.cs:30-40 | keeps id, link, roots and destination; NotStarted |
| Legacy.Download.Start | Api/Downloading/Download.cs:57-68 | a download without a task gets one; otherwise "Already downloading" and nothing changes |
| Legacy.Download.StartDownload | Api/Downloading/Download.cs:70-103 | the task ends, and the file system changes, as `LegacyDownload` says |
| Legacy.Download.SaveResponse | Api/Downloading/Download.cs:74-101 | create, copy and move as `LegacySave` says |
| Legacy.Downloads.constructor | Api/Downloading/Downloads.cs:21-33 | keeps the root, file system, client and dictionary |
| Legacy.Downloads.AddAndStart | Api/Downloading/Downloads.cs:35-51 | a fresh download is stored under the new id and started with the client and file system; the id is returned |
| Legacy.Downloads.Get | Api/Downloading/Downloads.cs:53-60 | the stored download, or "Not found" |
| Legacy.Downloads.GetAll | Api/Downloading/Downloads.cs:62-65 | one entry per id, each a stored download, every stored download included |
| PostForm.IsSaveAsValid | client/src/components/PostForm.tsx:59-73 | the client's rule; `PostForm.SaveAsValidIff` proves it equal to the character-by-character reference `IsAcceptedPath` |
| PostForm.SaveAsValidIff | client/src/components/PostForm.tsx:59-73 | accepted exactly when the value is present and its trimmed text is non-empty, not ".", does not start or end with '/', does not end with "/.", and has no two '.' in a row |
| PostForm.TrimmedValueDecides | client/src/components/PostForm.tsx:63 | trimming the value first changes nothing |
| PostForm.ValidityOfTrimmed | client/src/components/PostForm.tsx:63-71 | text without surrounding white space is judged as written |
| PostForm.ValidIsNotBlank | client/src/components/PostForm.tsx:63-65 | an accepted value is never blank, so the server never refuses it as blank |
| PostForm.ValidSubDirHasNoParent | client/src/components/PostForm.tsx:70 | an accepted value never yields a server sub-directory containing ".." |
| PostForm.RefusedEmptyExamples | client/src/components/PostForm.tsx:60-66 | an absent value, "" and "." are refused |
| PostForm.RefusedSeparatorExamples | client/src/components/PostForm.tsx:67-69 | "/f.iso", "dir/" and "dir/." are refused |
| PostForm.RefusedParentExample | client/src/components/PostForm.tsx:70 | "a/../f" is refused |
| PostForm.AcceptedExample | client/src/components/PostForm.tsx:64-71 | "sub/file.iso" and "a.b/file" are accepted |
| PostForm.DotInSubDirPassesTheForm | client/src/components/PostForm.tsx:59-73 | the form accepts "a.b/file", which the server refuses |
| PostForm.LeadingSeparatorIsRefusedByTheFormOnly | client/src/components/PostForm.tsx:67 | the form refuses "/f.iso", which the server stores as "f.iso" in the root |
| PostForm.SaveAsInput.constructor | client/src/components/PostForm.tsx:13-17 | the field starts empty, untouched and invalid |
| PostForm.SaveAsInput.HandleSaveAsInputChange | client/src/components/PostForm.tsx:49-56 | stores the text, marks it as the user's choice exactly when it is non-empty, and validates it. A valid value is always the user's choice |

## Left out

- **Asynchrony and concurrency.** `Start` only records the task. Its body runs later, in one
  step (`StartDownloadTask`, `StartDownload`), so no other operation interleaves with it.
  The dictionaries are plain maps, not concurrent ones.
- Jobs.DownloadJob.StartDownloadTask: the executor's callback calls are collected during
  the run and applied to the job afterwards, in order. So a reader cannot observe the
  counters part-way through a download.
- **Fuel.** The redirect chain and the move-retry loop take a `fuel` bound. Running out
  counts as a task that never completes, because the source loops without limit: a
  redirect cycle, or names that stay taken.
- **Integer widths.** `long` counters and the `int` sequence number are unbounded here.
  Overflow after 2^31 retries is not modelled.
- **Chunks.** The response body is a list of reads of 1 to 8192 bytes. Which sizes a real
  stream hands out is not modelled.
- **I/O errors.** Exceptions from reading the response stream or from writing and flushing
  the temporary file mid-copy are not modelled. Neither are a `File.Move` that throws
  something other than a name clash, nor a failing `CreateDirectory`.
- FileSystems.FileSystem.CreateNew and FileSystems.FileSystem.CreateDirectory: a file and
  a directory may share a path here. .NET refuses a new file where a directory is and a
  directory where a file is; the model checks only the file map for `CreateNew` and lets
  `CreateDirectory` succeed always. `Move` does refuse a destination held by a directory,
  including a parent that `CreateDirectory` created. A disk given as input may break the
  rule that parents of directories are directories; `Executor.DownloadKeepsPromises`
  proves that no download breaks it.
- FileSystems.FileSystem.Move: paths are compared as written. .NET resolves both paths
  before moving: it drops "." segments, resolves ".." and collapses repeated separators.
  `CreateNew` and `CreateDirectory` (through `FileSystems.Ancestors`) compare paths as
  written too. So a name the model treats as free can be an existing file or directory on
  disk, and the source would then rename it. Examples:
  - Save-as "." is accepted (`SaveAs.DotIsAccepted`) with the full name "/completed/.",
    which is the completed root. .NET refuses that move and saves "/completed/.(1)"; the
    model saves "/completed/.".
  - ".." resolves to the root's parent, which .NET also refuses.
  - "a/./b/f" is the same file as "a/b/f".
  - "ab//cd" creates the same directory as "ab/cd".
- Legacy.LegacySave: the legacy task never creates the destination directory, and `Move`
  here does not check that the destination's parent directory exists. In .NET a missing
  sub-directory makes every `File.Move` throw `DirectoryNotFoundException`, an
  `IOException`, so the legacy loop retries without end; the model moves the file into
  the missing directory instead. `Legacy.LegacySavesAnyStatus` therefore requires the
  directory to exist.
- Legacy.Download.SaveResponse: `CopyToAsync` is modelled as a single write of the whole
  body.
- **Disposal.** Disposing the temporary file's stream and the response is not modelled.
- **`System.Uri`.** It is reduced to "scheme://authority path?query#fragment", with linear
  white space around the string skipped. Escaping, dot-segment removal, ports, user info,
  IPv6 hosts and file URIs are not modelled; the query and fragment only end the path.
- **`System.IO.Path`.** It is modelled as on a Unix-like platform: the separator is '/',
  rooted means starting with '/', and the only invalid path character is NUL.
  `AbstractDownloadsDirectory` takes the separator pair as a parameter.
- **White space.** `Trim`, `IsNullOrWhiteSpace` and JavaScript's `trim` recognise ASCII
  white space only.
- **Generated values.** The id generator, the clock and `Guid.ToString()` are parameters:
  `id`, `ticks`, and `JobId.text`.
- **Event payloads.** Subscribers are a log of the events they received. The notification
  hub and the background service that forward them are not part of this model.
- Manager.DownloadManager.Cleanup: its body is not in the repository. It is modelled on the
  controller's call and the integration test that deletes completed and failed jobs.
- **Form and controller.** The link-input handler, form submission and reset, and the
  controller's DTO mapping are not part of this model.
