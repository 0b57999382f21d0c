/** What a download talks to, as the executor sees it: a server that answers a GET of a URL
    with a response, an exception or nothing at all. */
module Http {
  import opened Wrappers
  import opened Text

  /** An octet of a response body. */
  newtype byte = b: int | 0 <= b < 256

  /** The size of the buffer the copy loop reads into. */
  const BufferSize := 8192

  /** What one `ReadAsync` into the buffer hands out before the end of the stream: between
      one byte and a full buffer. */
  type Chunk = c: seq<byte> | 0 < |c| <= BufferSize witness [0]

  /** A response read with `ResponseHeadersRead`: the status line, the original string of the
      `Location` header, the `Content-Length` header and the body as the successive reads of
      the response stream before the read that returns nothing. */
  datatype Response = Response(
    status: nat,
    reasonPhrase: string,
    location: Option<string>,
    contentLength: Option<nat>,
    chunks: seq<Chunk>)

  /** What `GetAsync` does: complete with a response, throw, or never complete. */
  datatype Reply = Responds(response: Response) | Throws(message: string) | NeverResponds

  /** The `HttpClient` with whatever stands behind it: the reply to a GET of each URL. */
  type Server = string -> Reply

  /** `HttpResponseMessage.IsSuccessStatusCode`. */
  predicate IsSuccessStatusCode(status: nat) {
    200 <= status <= 299
  }

  /** The message of the `HttpRequestException` thrown by `EnsureSuccessStatusCode`. */
  function StatusMessage(response: Response): string {
    "Response status code does not indicate success: " + NatToString(response.status)
      + " (" + response.reasonPhrase + ")."
  }

  /** The bytes of successive chunks, in order. */
  function Concat(chunks: seq<Chunk>): (body: seq<byte>)
    ensures |body| >= |chunks|
  {
    if chunks == [] then [] else Concat(chunks[..|chunks| - 1]) + chunks[|chunks| - 1]
  }

  /** Reading one more chunk appends it to the body. */
  lemma ConcatSnoc(chunks: seq<Chunk>, i: nat)
    requires i < |chunks|
    ensures Concat(chunks[..i + 1]) == Concat(chunks[..i]) + chunks[i]
  {
    assert chunks[..i + 1][..i] == chunks[..i];
  }

  /** A longer prefix of the reads holds strictly more of the body. */
  lemma {:induction false} ConcatGrows(chunks: seq<Chunk>, i: nat, j: nat)
    requires i < j <= |chunks|
    ensures |Concat(chunks[..i])| < |Concat(chunks[..j])|
    decreases j - i
  {
    ConcatSnoc(chunks, j - 1);
    if i < j - 1 {
      ConcatGrows(chunks, i, j - 1);
    }
  }
}

/** The part of `IFileSystem` the download engine uses, as an in-memory file system: files
    with their contents, directories, and the log of the operations performed. */
module FileSystems {
  import opened Wrappers
  import opened Http
  import Paths

  /** One operation on the file system, as it would be seen by a recording mock. */
  datatype Operation =
    | CreatedNew(path: string)
    | Wrote(path: string, bytes: seq<byte>)
    | Flushed(path: string)
    | CreatedDirectory(path: string)
    | Moved(source: string, destination: string)
    | MoveRefused(source: string, destination: string)

  /** The contents of the file system at one moment. */
  datatype Disk = Disk(files: map<string, seq<byte>>, directories: set<string>)

  /** The message of the `IOException` thrown when `FileMode.CreateNew` meets an existing
      file. */
  function FileExistsMessage(path: string): string {
    "The file '" + path + "' already exists."
  }

  /** The directories `Directory.CreateDirectory(path)` makes exist: the path itself and
      every missing parent, that is every non-empty prefix of the path that ends just
      before a separator. */
  function Ancestors(path: string): (dirs: set<string>)
    ensures path in dirs
  {
    {path} + set i | 0 < i < |path| && path[i] == Paths.Separator :: path[..i]
  }

  /** Exactly the path and its prefixes that stop at a separator are created. */
  lemma InAncestors(path: string, d: string)
    ensures d in Ancestors(path) <==>
      d == path || (0 < |d| < |path| && d == path[..|d|] && path[|d|] == Paths.Separator)
  {
    if 0 < |d| < |path| && d == path[..|d|] && path[|d|] == Paths.Separator {
      var i := |d|;
      assert path[..i] in (set i | 0 < i < |path| && path[i] == Paths.Separator :: path[..i]);
    }
  }

  /** A path longer than the created one is not among the directories created. */
  lemma LongerIsNotAncestor(path: string, d: string)
    requires |d| > |path|
    ensures d !in Ancestors(path)
  {
    InAncestors(path, d);
  }

  /** A directory below an existing parent has that parent among its ancestors. */
  lemma ParentIsAncestor(parent: string, rest: string)
    requires parent != ""
    ensures parent in Ancestors(parent + [Paths.Separator] + rest)
  {
    var path := parent + [Paths.Separator] + rest;
    assert path[..|parent|] == parent;
    InAncestors(path, parent);
  }

  /** Every parent of a directory is a directory too, as on a real file system. */
  predicate AncestorClosed(directories: set<string>) {
    forall d, i :: d in directories && 0 < i < |d| && d[i] == Paths.Separator ==> d[..i] in directories
  }

  /** Creating a directory keeps the parents of every directory present. */
  lemma CreatingKeepsAncestorClosed(directories: set<string>, path: string)
    requires AncestorClosed(directories)
    ensures AncestorClosed(directories + Ancestors(path))
  {
    var after := directories + Ancestors(path);
    forall d, i | d in after && 0 < i < |d| && d[i] == Paths.Separator
      ensures d[..i] in after
    {
      if d !in directories {
        InAncestors(path, d);
        assert path[i] == d[i];
        assert path[..i] == d[..i];
        InAncestors(path, d[..i]);
      }
    }
  }

  class FileSystem {
    var files: map<string, seq<byte>>
    var directories: set<string>
    var log: seq<Operation>

    /** The current contents. */
    function Contents(): Disk
      reads this
    {
      Disk(files, directories)
    }

    constructor (disk: Disk)
      ensures Contents() == disk && log == []
    {
      files := disk.files;
      directories := disk.directories;
      log := [];
    }

    /** `FileStream.New(path, FileMode.CreateNew)`: an empty new file, or an `IOException`
        when the path is taken. */
    method CreateNew(path: string) returns (error: Option<string>)
      modifies this
      ensures path in old(files) ==> error == Some(FileExistsMessage(path))
      ensures path in old(files) ==> files == old(files) && log == old(log)
      ensures path !in old(files) ==> error == None
      ensures path !in old(files) ==> files == old(files)[path := []] && log == old(log) + [CreatedNew(path)]
      ensures directories == old(directories)
    {
      if path in files {
        error := Some(FileExistsMessage(path));
      } else {
        error := None;
        files := files[path := []];
        log := log + [CreatedNew(path)];
      }
    }

    /** `WriteAsync` on the stream of an open file: appends the bytes. */
    method Write(path: string, bytes: seq<byte>)
      requires path in files
      modifies this
      ensures files == old(files)[path := old(files)[path] + bytes]
      ensures directories == old(directories)
      ensures log == old(log) + [Wrote(path, bytes)]
    {
      files := files[path := files[path] + bytes];
      log := log + [Wrote(path, bytes)];
    }

    /** `FlushAsync` on the stream of an open file. */
    method Flush(path: string)
      modifies this
      ensures Contents() == old(Contents())
      ensures log == old(log) + [Flushed(path)]
    {
      log := log + [Flushed(path)];
    }

    /** `Directory.CreateDirectory`: creates the directory and its missing parents, and
        succeeds whether or not they exist. */
    method CreateDirectory(path: string)
      modifies this
      ensures files == old(files)
      ensures directories == old(directories) + Ancestors(path)
      ensures log == old(log) + [CreatedDirectory(path)]
    {
      directories := directories + Ancestors(path);
      log := log + [CreatedDirectory(path)];
    }

    /** `File.Move(source, destination, overwrite: false)`: moves the file when the source
        exists and neither a file nor a directory holds the destination; otherwise it throws
        an `IOException`, reported here as `false`. Paths are compared as written, without
        resolving "." and ".." segments or repeated separators. */
    method Move(source: string, destination: string) returns (moved: bool)
      modifies this
      ensures moved <==> source in old(files) && destination !in old(files) && destination !in old(directories)
      ensures moved ==> files == (old(files) - {source})[destination := old(files)[source]]
      ensures moved ==> log == old(log) + [Moved(source, destination)]
      ensures !moved ==> files == old(files) && log == old(log) + [MoveRefused(source, destination)]
      ensures directories == old(directories)
    {
      moved := source in files && destination !in files && destination !in directories;
      if moved {
        files := (files - {source})[destination := files[source]];
        log := log + [Moved(source, destination)];
      } else {
        log := log + [MoveRefused(source, destination)];
      }
    }
  }
}
