/** `SaveAsFile`: where a finished download is stored under the completed-downloads root.
    A requested path is split into an optional sub-directory, a file name and an extension;
    a sequence number greater than zero is written as "(n)" between the name and the
    extension, which is how name collisions are resolved. */
module SaveAs {
  import opened Wrappers
  import opened Text
  import opened Paths
  import opened Directories
  import Links

  /** `FullName` is the absolute path of the file, `Name` its path below the root and
      `Directory` the absolute path of the directory it goes in. */
  datatype SaveAsFile = SaveAsFile(
    downloadsDirectory: DownloadsDirectory,
    sequence: nat,
    fullName: string,
    name: string,
    directory: string)

  /** The message of the `ArgumentOutOfRangeException` that `Substring` throws for a
      negative length. */
  const NegativeLengthMessage := "Length cannot be less than zero. (Parameter 'length')"

  /** The message for a rejected sub-directory; the root is formatted by its path. */
  function InvalidSubDirMessage(subDir: string, root: DownloadsDirectory): string {
    subDir + " is not a valid subdirectory of " + root.path
  }

  /** A root as `Directories.Create` builds it: ending with the separator. */
  predicate IsNormalised(root: DownloadsDirectory) {
    EndsInDirectorySeparator(root.path)
  }

  predicate NoSeparator(s: string) {
    forall i :: 0 <= i < |s| ==> s[i] != Separator
  }

  /** `SplitSubDir`: the trimmed text before the last separator, but only when that separator
      sits at an index above 1; a one-character sub-directory ("a/f.iso") and a leading
      separator ("/f.iso") yield no sub-directory at all. */
  function SplitSubDir(path: string): (r: string)
    ensures LastIndexOf(path, Separator) <= 1 ==> r == ""
    ensures LastIndexOf(path, Separator) > 1 ==> r == Trim(path[..LastIndexOf(path, Separator)])
    ensures r != "" ==> !IsWhiteSpace(r[0]) && !IsWhiteSpace(r[|r| - 1])
  {
    var fileNameIndex := LastIndexOf(path, Separator);
    if fileNameIndex > 1 then Trim(path[..fileNameIndex]) else ""
  }

  /** `IsValidSubDir`: no invalid path character, not rooted, no trailing separator, no ".."
      anywhere and no trailing '.'. */
  predicate IsValidSubDir(subDir: string) {
    && (forall i :: 0 <= i < |subDir| ==> !IsInvalidPathChar(subDir[i]))
    && !IsPathRooted(subDir)
    && !EndsInDirectorySeparator(subDir)
    && !Contains(subDir, "..")
    && !EndsWith(subDir, ".")
  }

  /** The last '.' of the whole path lies before the start of the file name (it is in the
      sub-directory part), so `Substring` is asked for a negative length. */
  predicate ExtensionBeforeFileName(path: string) {
    var extensionIndex := LastIndexOf(path, '.');
    1 <= extensionIndex < LastIndexOf(path, Separator) + 1
  }

  datatype NameAndExtension = NameAndExtension(name: string, extension: string)

  /** An extension as `SplitNameAndExtension` returns it: empty, or a '.' followed by text
      without '.' and without separator. */
  predicate IsExtension(e: string) {
    e == "" || (e[0] == '.' && forall i :: 1 <= i < |e| ==> e[i] != '.' && e[i] != Separator)
  }

  /** `SplitNameAndExtension`: the file name is what follows the last separator; when the path
      has a '.' after its first character, the extension starts at the last '.'. Both parts
      are trimmed. */
  function SplitNameAndExtension(path: string): (r: Result<NameAndExtension>)
    ensures r.Failure? <==> ExtensionBeforeFileName(path)
    ensures r.Failure? ==> r.error == NegativeLengthMessage
    ensures r.Success? ==>
      NoSeparator(r.value.name) && NoSeparator(r.value.extension) && IsExtension(r.value.extension)
    ensures r.Success? && LastIndexOf(path, '.') < 1 ==> r.value.extension == ""
  {
    var fileNameIndex := LastIndexOf(path, Separator) + 1;
    var extensionIndex := LastIndexOf(path, '.');
    if extensionIndex < 1 then
      AbsentFromTrim(path[fileNameIndex..], Separator);
      Success(NameAndExtension(Trim(path[fileNameIndex..]), ""))
    else if extensionIndex < fileNameIndex then
      Failure(NegativeLengthMessage)
    else
      var name := path[fileNameIndex..extensionIndex];
      var extension := path[extensionIndex..];
      AbsentFromTrim(name, Separator);
      AbsentFromTrim(extension, Separator);
      TrimKeepsExtension(extension);
      Success(NameAndExtension(Trim(name), Trim(extension)))
  }

  /** The text from the last '.' of a path on is still an extension once trimmed. */
  lemma TrimKeepsExtension(extension: string)
    requires extension != [] && extension[0] == '.'
    requires forall i :: 1 <= i < |extension| ==> extension[i] != '.' && extension[i] != Separator
    ensures IsExtension(Trim(extension))
  {
    var t := Trim(extension);
    assert LeadingWhiteSpace(extension) == 0;
    assert t == extension[..|t|];
    assert t != [] by {
      TrimIsEmptyIffBlank(extension);
    }
  }

  /** The "(n)" written between name and extension for a positive sequence number. */
  function SequenceSuffix(sequence: nat): (r: string)
    ensures sequence == 0 <==> r == ""
    ensures r != "" ==> r[0] == '(' && r[|r| - 1] == ')'
    ensures forall i :: 0 <= i < |r| ==> r[i] != '.' && r[i] != Separator && !IsWhiteSpace(r[i])
  {
    if sequence > 0 then "(" + NatToString(sequence) + ")" else ""
  }

  /** The constructor, with its exceptions as failures: a blank path, then an invalid
      sub-directory, then an extension found inside the sub-directory are rejected, in that
      order. Otherwise the file lies in `Directory`, which lies under the root. */
  function New(root: DownloadsDirectory, path: string, sequence: nat): (r: Result<SaveAsFile>)
    requires IsNormalised(root)
    ensures r.Failure? <==>
      IsNullOrWhiteSpace(path) || !IsValidSubDir(SplitSubDir(path)) || ExtensionBeforeFileName(path)
    ensures IsNullOrWhiteSpace(path) ==> r == Failure(BlankPathMessage)
    ensures !IsNullOrWhiteSpace(path) && !IsValidSubDir(SplitSubDir(path)) ==>
      r == Failure(InvalidSubDirMessage(SplitSubDir(path), root))
    ensures !IsNullOrWhiteSpace(path) && IsValidSubDir(SplitSubDir(path)) && ExtensionBeforeFileName(path) ==>
      r == Failure(NegativeLengthMessage)
    ensures r.Success? ==>
      && r.value.downloadsDirectory == root && r.value.sequence == sequence
      && r.value.directory == root.path + SplitSubDir(path)
      && r.value.fullName == root.path + r.value.name
      && !IsPathRooted(r.value.name)
      && StartsWith(r.value.fullName, r.value.directory)
  {
    if IsNullOrWhiteSpace(path) then Failure(BlankPathMessage)
    else
      var subDir := SplitSubDir(path);
      if !IsValidSubDir(subDir) then Failure(InvalidSubDirMessage(subDir, root))
      else
        match SplitNameAndExtension(path)
        case Failure(e) => Failure(e)
        case Success(parts) => Success(Assemble(root, subDir, parts, sequence))
  }

  /** The name with its sequence suffix and its extension. */
  function FileName(parts: NameAndExtension, sequence: nat): string {
    parts.name + SequenceSuffix(sequence) + parts.extension
  }

  /** The constructor once the path is split: `Directory` is the sub-directory under the
      root, `Name` the file name under the sub-directory and `FullName` the name under the
      root, so the file lies in its directory. */
  function Assemble(root: DownloadsDirectory, subDir: string, parts: NameAndExtension, sequence: nat)
    : (r: SaveAsFile)
    requires IsNormalised(root) && IsValidSubDir(subDir)
    requires NoSeparator(parts.name) && NoSeparator(parts.extension)
    ensures r.downloadsDirectory == root && r.sequence == sequence
    ensures r.directory == root.path + subDir
    ensures r.name == Combine(subDir, FileName(parts, sequence))
    ensures r.fullName == root.path + r.name
    ensures !IsPathRooted(r.name) && StartsWith(r.fullName, r.directory)
  {
    var fileName := FileName(parts, sequence);
    var name := Combine(subDir, fileName);
    FileNameHasNoSeparator(parts, sequence);
    NameUnderSubDir(subDir, fileName);
    UnderRoot(root, subDir, name);
    SaveAsFile(root, sequence, Combine(root.path, name), name, Combine(root.path, subDir))
  }

  /** Below a normalised root, combining is concatenation, so a name that starts with the
      sub-directory lies in the sub-directory's directory. */
  lemma UnderRoot(root: DownloadsDirectory, subDir: string, name: string)
    requires IsNormalised(root) && IsValidSubDir(subDir)
    requires !IsPathRooted(name) && StartsWith(name, subDir)
    ensures Combine(root.path, name) == root.path + name
    ensures Combine(root.path, subDir) == root.path + subDir
    ensures StartsWith(root.path + name, root.path + subDir)
  {
    assert root.path + "" == root.path;
    CombineAfterSeparator(root.path, name);
    assert (root.path + name)[..|root.path + subDir|] == root.path + name[..|subDir|];
  }

  lemma FileNameHasNoSeparator(parts: NameAndExtension, sequence: nat)
    requires NoSeparator(parts.name) && NoSeparator(parts.extension)
    ensures NoSeparator(FileName(parts, sequence))
  {
    var f := FileName(parts, sequence);
    var suffix := SequenceSuffix(sequence);
    forall i | 0 <= i < |f| ensures f[i] != Separator {
      if i < |parts.name| { assert f[i] == parts.name[i]; }
      else if i < |parts.name| + |suffix| { assert f[i] == suffix[i - |parts.name|]; }
      else { assert f[i] == parts.extension[i - |parts.name| - |suffix|]; }
    }
  }

  /** The file's path below the root starts with its sub-directory and is not rooted. */
  lemma NameUnderSubDir(subDir: string, fileName: string)
    requires IsValidSubDir(subDir) && NoSeparator(fileName)
    ensures !IsPathRooted(Combine(subDir, fileName))
    ensures StartsWith(Combine(subDir, fileName), subDir)
  {
  }

  /** `SaveAsFile.Create`: the path requested by the user, or the link's file name when that
      is blank, with sequence number 0. */
  function Create(link: Links.Link, root: DownloadsDirectory, fileName: string): (r: Result<SaveAsFile>)
    requires IsNormalised(root)
    ensures r.Success? ==> r.value.sequence == 0 && r.value.downloadsDirectory == root
    ensures !IsNullOrWhiteSpace(fileName) ==> r == New(root, fileName, 0)
    ensures IsNullOrWhiteSpace(fileName) ==> r == New(root, link.fileName, 0)
  {
    New(root, if IsNullOrWhiteSpace(fileName) then link.fileName else fileName, 0)
  }

  /** `IncrementSequence`: the same root and the current `Name`, parsed again, with the next
      sequence number. It throws (here: fails) where the constructor would. */
  function IncrementSequence(s: SaveAsFile): (r: Result<SaveAsFile>)
    requires IsNormalised(s.downloadsDirectory)
    ensures r.Success? ==> r.value.sequence == s.sequence + 1 && r.value.downloadsDirectory == s.downloadsDirectory
    ensures IsNullOrWhiteSpace(s.name) ==> r == Failure(BlankPathMessage)
  {
    New(s.downloadsDirectory, s.name, s.sequence + 1)
  }

  /** The implicit `string` conversion. */
  function AsPath(s: SaveAsFile): string {
    s.fullName
  }

  // ---------------------------------------------------------------------------------------
  // Paths of the usual shape: an optional sub-directory, a name and an extension.

  /** A name without separator or '.', starting and ending with a non-blank character. */
  predicate IsPlainName(n: string) {
    && n != "" && !IsWhiteSpace(n[0]) && !IsWhiteSpace(n[|n| - 1])
    && forall i :: 0 <= i < |n| ==> n[i] != Separator && n[i] != '.'
  }

  /** A '.' and text without '.' or separator, ending with a non-blank character. */
  predicate IsPlainExtension(e: string) {
    && e != "" && e[0] == '.' && !IsWhiteSpace(e[|e| - 1])
    && forall i :: 1 <= i < |e| ==> e[i] != Separator && e[i] != '.'
  }

  /** No sub-directory, or a valid one of at least two characters that is already trimmed. */
  predicate IsPlainSubDir(d: string) {
    d == "" || (|d| >= 2 && IsValidSubDir(d) && !IsWhiteSpace(d[0]) && !IsWhiteSpace(d[|d| - 1]))
  }

  function PlainPath(d: string, n: string, e: string): string {
    DirPrefix(d) + n + e
  }

  /** The sub-directory followed by a separator, or nothing. */
  function DirPrefix(d: string): (r: string)
    ensures r == "" || r[|r| - 1] == Separator
  {
    if d == "" then "" else d + [Separator]
  }

  /** In "prefix/name.ext" the last separator ends the prefix and the last '.' starts the
      extension. */
  lemma PrefixedIndices(prefix: string, n: string, e: string)
    requires prefix == "" || prefix[|prefix| - 1] == Separator
    requires IsPlainName(n) && IsPlainExtension(e)
    ensures LastIndexOf(prefix + n + e, Separator) == |prefix| - 1
    ensures LastIndexOf(prefix + n + e, '.') == |prefix| + |n|
  {
    PrefixedLastSeparator(prefix, n, e);
    PrefixedLastDot(prefix, n, e);
  }

  lemma PrefixedLastSeparator(prefix: string, n: string, e: string)
    requires prefix == "" || prefix[|prefix| - 1] == Separator
    requires IsPlainName(n) && IsPlainExtension(e)
    ensures LastIndexOf(prefix + n + e, Separator) == |prefix| - 1
  {
    var tail := n + e;
    forall j | 0 <= j < |tail| ensures tail[j] != Separator {
      if j < |n| { assert tail[j] == n[j]; } else { assert tail[j] == e[j - |n|]; }
    }
    var path := prefix + tail;
    assert prefix + n + e == path;
    forall j | |prefix| <= j < |path| ensures path[j] != Separator {
      assert path[j] == tail[j - |prefix|];
    }
    LastIndexOfIs(path, Separator, |prefix| - 1);
  }

  lemma PrefixedLastDot(prefix: string, n: string, e: string)
    requires IsPlainName(n) && IsPlainExtension(e)
    ensures LastIndexOf(prefix + n + e, '.') == |prefix| + |n|
  {
    var head := prefix + n;
    var path := head + e;
    assert path[|head|] == e[0];
    forall j | |head| < j < |path| ensures path[j] != '.' {
      assert path[j] == e[j - |head|];
    }
    LastIndexOfIs(path, '.', |head|);
  }

  /** `SplitNameAndExtension` once the last separator and the last '.' are known. */
  lemma SplitNameAt(path: string, fileNameIndex: nat, extensionIndex: nat)
    requires LastIndexOf(path, Separator) + 1 == fileNameIndex
    requires LastIndexOf(path, '.') == extensionIndex
    requires 1 <= extensionIndex && fileNameIndex <= extensionIndex
    ensures !ExtensionBeforeFileName(path)
    ensures SplitNameAndExtension(path)
         == Success(NameAndExtension(Trim(path[fileNameIndex..extensionIndex]), Trim(path[extensionIndex..])))
  {
  }

  lemma PrefixedSlices(prefix: string, n: string, e: string)
    ensures (prefix + n + e)[|prefix|..|prefix| + |n|] == n
    ensures (prefix + n + e)[|prefix| + |n|..] == e
  {
  }

  lemma PrefixedIsNotBlank(prefix: string, n: string, e: string)
    requires IsPlainName(n)
    ensures !IsNullOrWhiteSpace(prefix + n + e)
  {
    assert (prefix + n + e)[|prefix|] == n[0];
  }

  /** "prefix/name.ext" is not blank and splits into the name and the extension. */
  lemma SplitNameOfPrefixed(prefix: string, n: string, e: string)
    requires IsPlainName(n) && IsPlainExtension(e)
    requires LastIndexOf(prefix + n + e, Separator) == |prefix| - 1
    requires LastIndexOf(prefix + n + e, '.') == |prefix| + |n|
    ensures !IsNullOrWhiteSpace(prefix + n + e)
    ensures !ExtensionBeforeFileName(prefix + n + e)
    ensures SplitNameAndExtension(prefix + n + e) == Success(NameAndExtension(n, e))
  {
    PrefixedIsNotBlank(prefix, n, e);
    SplitNameAt(prefix + n + e, |prefix|, |prefix| + |n|);
    PrefixedSlices(prefix, n, e);
    TrimOfTrimmed(n);
    TrimOfTrimmed(e);
  }

  /** How a path of the usual shape is split. */
  lemma SplitPlainPath(d: string, n: string, e: string)
    requires IsPlainSubDir(d) && IsPlainName(n) && IsPlainExtension(e)
    ensures var path := PlainPath(d, n, e);
      && !IsNullOrWhiteSpace(path)
      && SplitSubDir(path) == d
      && !ExtensionBeforeFileName(path)
      && SplitNameAndExtension(path) == Success(NameAndExtension(n, e))
  {
    PrefixedIndices(DirPrefix(d), n, e);
    SplitNameOfPrefixed(DirPrefix(d), n, e);
    SplitSubDirOfPlainPath(d, n, e);
  }

  lemma SplitSubDirOfPlainPath(d: string, n: string, e: string)
    requires IsPlainSubDir(d)
    requires LastIndexOf(PlainPath(d, n, e), Separator) == |DirPrefix(d)| - 1
    ensures SplitSubDir(PlainPath(d, n, e)) == d
  {
    if d != "" {
      assert PlainPath(d, n, e)[..|d|] == d;
      TrimOfTrimmed(d);
    }
  }

  /** A prefix of at most one character before the last separator is not a sub-directory:
      "a/name.ext" and "/name.ext" are split like "name.ext". */
  lemma SplitShortPrefix(p: string, n: string, e: string)
    requires |p| <= 1 && IsPlainName(n) && IsPlainExtension(e)
    ensures var path := p + [Separator] + n + e;
      && !IsNullOrWhiteSpace(path)
      && SplitSubDir(path) == ""
      && !ExtensionBeforeFileName(path)
      && SplitNameAndExtension(path) == Success(NameAndExtension(n, e))
  {
    PrefixedIndices(p + [Separator], n, e);
    SplitNameOfPrefixed(p + [Separator], n, e);
  }

  /** `New` once the path's parts are known. */
  lemma NewOfSplit(root: DownloadsDirectory, path: string, sequence: nat, subDir: string, parts: NameAndExtension)
    requires IsNormalised(root) && !IsNullOrWhiteSpace(path)
    requires SplitSubDir(path) == subDir && IsValidSubDir(subDir)
    requires SplitNameAndExtension(path) == Success(parts)
    ensures NoSeparator(parts.name) && NoSeparator(parts.extension)
    ensures New(root, path, sequence) == Success(Assemble(root, subDir, parts, sequence))
  {
  }

  /** A plain extension holds no separator. */
  lemma PlainExtensionHasNoSeparator(e: string)
    requires IsPlainExtension(e)
    ensures NoSeparator(e)
  {
    forall i | 0 <= i < |e| ensures e[i] != Separator {
      if i == 0 { assert e[0] == '.'; }
    }
  }

  /** Under a plain sub-directory, the file name is joined with a single separator. */
  lemma CombinePlain(d: string, n: string, e: string, sequence: nat)
    requires d == "" || !EndsInDirectorySeparator(d)
    requires n != "" && n[0] != Separator
    ensures Combine(d, FileName(NameAndExtension(n, e), sequence))
         == PlainPath(d, n + SequenceSuffix(sequence), e)
  {
    var m := n + SequenceSuffix(sequence);
    var fileName := m + e;
    assert FileName(NameAndExtension(n, e), sequence) == fileName;
    assert fileName[0] == n[0];
    if d != "" {
      assert Combine(d, fileName) == d + [Separator] + fileName;
      PrefixThenName(d, m, e);
    }
  }

  lemma PrefixThenName(d: string, m: string, e: string)
    requires d != ""
    ensures PlainPath(d, m, e) == d + [Separator] + (m + e)
  {
    assert DirPrefix(d) == d + [Separator];
  }

  /** Assembling a name and an extension of the usual shape. */
  lemma AssemblePlain(root: DownloadsDirectory, d: string, n: string, e: string, sequence: nat)
    requires IsNormalised(root)
    requires IsPlainSubDir(d) && IsPlainName(n) && IsPlainExtension(e)
    ensures NoSeparator(n) && NoSeparator(e)
    ensures var name := PlainPath(d, n + SequenceSuffix(sequence), e);
      Assemble(root, d, NameAndExtension(n, e), sequence)
        == SaveAsFile(root, sequence, root.path + name, name, root.path + d)
  {
    PlainExtensionHasNoSeparator(e);
    assert d == "" || !EndsInDirectorySeparator(d);
    CombinePlain(d, n, e, sequence);
  }

  /** A path of the usual shape is accepted: the sequence suffix goes between name and
      extension, and the sub-directory is kept. */
  lemma NewOfPlainPath(root: DownloadsDirectory, d: string, n: string, e: string, sequence: nat)
    requires IsNormalised(root)
    requires IsPlainSubDir(d) && IsPlainName(n) && IsPlainExtension(e)
    ensures var r := New(root, PlainPath(d, n, e), sequence);
      && r.Success?
      && r.value.name == PlainPath(d, n + SequenceSuffix(sequence), e)
      && r.value.directory == root.path + d
  {
    SplitPlainPath(d, n, e);
    AssemblePlain(root, d, n, e, sequence);
    NewOfSplit(root, PlainPath(d, n, e), sequence, d, NameAndExtension(n, e));
  }

  /** A plain name followed by a sequence suffix is still a plain name. */
  lemma SuffixedNameIsPlain(n: string, sequence: nat)
    requires IsPlainName(n)
    ensures IsPlainName(n + SequenceSuffix(sequence))
  {
    var m := n + SequenceSuffix(sequence);
    forall i | 0 <= i < |m| ensures m[i] != Separator && m[i] != '.' {
      if i >= |n| { assert m[i] == SequenceSuffix(sequence)[i - |n|]; }
    }
  }

  /** `IncrementSequence` re-parses `Name`, which already holds the previous suffix: the new
      suffix is appended after it, so suffixes accumulate ("file(1).iso", then
      "file(1)(2).iso"), and the sub-directory is kept. */
  lemma IncrementSequenceAppendsSuffix(s: SaveAsFile, d: string, m: string, e: string)
    requires IsNormalised(s.downloadsDirectory)
    requires IsPlainSubDir(d) && IsPlainName(m) && IsPlainExtension(e)
    requires s.name == PlainPath(d, m, e)
    ensures var r := IncrementSequence(s);
      && r.Success?
      && r.value.name == PlainPath(d, m + SequenceSuffix(s.sequence + 1), e)
      && r.value.directory == s.downloadsDirectory.path + d
  {
    NewOfPlainPath(s.downloadsDirectory, d, m, e, s.sequence + 1);
    IncrementSequenceOfName(s, PlainPath(d, m, e));
  }

  lemma IncrementSequenceOfName(s: SaveAsFile, path: string)
    requires IsNormalised(s.downloadsDirectory) && s.name == path
    ensures IncrementSequence(s) == New(s.downloadsDirectory, path, s.sequence + 1)
  {
  }

  /** The suffixes "(1)" … "(k)" one after the other. */
  function Suffixes(k: nat): (r: string)
    ensures forall i :: 0 <= i < |r| ==> r[i] != '.' && r[i] != Separator && !IsWhiteSpace(r[i])
  {
    if k == 0 then "" else Suffixes(k - 1) + SequenceSuffix(k)
  }

  /** `k` increments in a row, stopping at the first failure. */
  function Incremented(s: SaveAsFile, k: nat): (r: Result<SaveAsFile>)
    requires IsNormalised(s.downloadsDirectory)
    ensures r.Success? ==> r.value.downloadsDirectory == s.downloadsDirectory
  {
    if k == 0 then Success(s)
    else match Incremented(s, k - 1)
      case Failure(e) => Failure(e)
      case Success(t) => IncrementSequence(t)
  }

  /** A plain name followed by suffixes is still a plain name. */
  lemma SuffixesKeepNamePlain(n: string, k: nat)
    requires IsPlainName(n)
    ensures IsPlainName(n + Suffixes(k))
  {
    var m := n + Suffixes(k);
    forall i | 0 <= i < |m| ensures m[i] != Separator && m[i] != '.' {
      if i >= |n| { assert m[i] == Suffixes(k)[i - |n|]; }
    }
    if k > 0 { assert m[|m| - 1] == Suffixes(k)[|Suffixes(k)| - 1]; }
    else { assert m == n; }
  }

  lemma SuffixesStep(n: string, k: nat)
    requires k > 0
    ensures n + Suffixes(k - 1) + SequenceSuffix(k) == n + Suffixes(k)
  {
  }

  /** After `k` increments, a file created with sequence number 0 carries every suffix
      "(1)" … "(k)" and stays in its directory. */
  lemma {:induction false} IncrementedAccumulates(s: SaveAsFile, d: string, n: string, e: string, k: nat)
    requires IsNormalised(s.downloadsDirectory) && s.sequence == 0
    requires IsPlainSubDir(d) && IsPlainName(n) && IsPlainExtension(e)
    requires s.name == PlainPath(d, n, e) && s.directory == s.downloadsDirectory.path + d
    ensures var r := Incremented(s, k);
      && r.Success? && r.value.sequence == k
      && r.value.name == PlainPath(d, n + Suffixes(k), e)
      && r.value.directory == s.downloadsDirectory.path + d
  {
    if k == 0 {
      assert n + Suffixes(0) == n;
    } else {
      IncrementedAccumulates(s, d, n, e, k - 1);
      var t := Incremented(s, k - 1).value;
      SuffixesKeepNamePlain(n, k - 1);
      var m := n + Suffixes(k - 1);
      IncrementSequenceAppendsSuffix(t, d, m, e);
      var r := IncrementSequence(t);
      assert Incremented(s, k) == r;
      assert t.sequence + 1 == k;
      SuffixesStep(n, k);
    }
  }

  // ---------------------------------------------------------------------------------------
  // Cases from the integration tests and edge cases of the path rules.

  const CompletedRoot := DownloadsDirectory("/completed/")

  lemma SuffixOfOne()
    ensures SequenceSuffix(1) == "(1)"
  {
    assert NatToString(1) == "1";
  }

  /** The path of the integration test is a plain path. */
  lemma SaveAsFileShape()
    ensures IsPlainName("saveAsFile") && IsPlainExtension(".iso") && IsPlainSubDir("")
    ensures PlainPath("", "saveAsFile", ".iso") == "saveAsFile.iso"
  {
  }

  /** The names the integration test expects. */
  lemma SaveAsFileNames()
    ensures PlainPath("", "saveAsFile" + SequenceSuffix(0), ".iso") == "saveAsFile.iso"
    ensures PlainPath("", "saveAsFile" + SequenceSuffix(1), ".iso") == "saveAsFile(1).iso"
    ensures CompletedRoot.path + "saveAsFile.iso" == "/completed/saveAsFile.iso"
    ensures CompletedRoot.path + "saveAsFile(1).iso" == "/completed/saveAsFile(1).iso"
  {
    SuffixOfOne();
  }

  /** The requested "saveAsFile.iso" is stored as "/completed/saveAsFile.iso"; when that
      exists, the next name tried is "/completed/saveAsFile(1).iso". */
  lemma SaveAsFileTestCase()
    ensures var s := New(CompletedRoot, "saveAsFile.iso", 0);
      && s.Success? && s.value.fullName == "/completed/saveAsFile.iso" && s.value.directory == "/completed/"
      && IncrementSequence(s.value).Success?
      && IncrementSequence(s.value).value.fullName == "/completed/saveAsFile(1).iso"
  {
    SaveAsFileShape();
    SaveAsFileNames();
    NewOfPlainPath(CompletedRoot, "", "saveAsFile", ".iso", 0);
    var s := New(CompletedRoot, "saveAsFile.iso", 0).value;
    IncrementSequenceAppendsSuffix(s, "", "saveAsFile", ".iso");
  }

  /** The names of the integration test, as values: the requested file and the one tried
      after it. */
  lemma PostTestNames() returns (s: SaveAsFile, next: SaveAsFile)
    ensures New(CompletedRoot, "saveAsFile.iso", 0) == Success(s)
    ensures IncrementSequence(s) == Success(next)
    ensures IsNormalised(s.downloadsDirectory)
    ensures s.fullName == "/completed/saveAsFile.iso" && next.fullName == "/completed/saveAsFile(1).iso"
    ensures s.directory == "/completed/"
  {
    SaveAsFileTestCase();
    s := New(CompletedRoot, "saveAsFile.iso", 0).value;
    next := IncrementSequence(s).value;
  }

  /** A one-character sub-directory, or a leading separator, is dropped: the file goes in
      the root under its plain name. */
  lemma NewOfShortPrefix(root: DownloadsDirectory, p: string, n: string, e: string, sequence: nat)
    requires IsNormalised(root)
    requires |p| <= 1 && IsPlainName(n) && IsPlainExtension(e)
    ensures var r := New(root, p + [Separator] + n + e, sequence);
      && r.Success?
      && r.value.name == PlainPath("", n + SequenceSuffix(sequence), e)
      && r.value.directory == root.path
  {
    SplitShortPrefix(p, n, e);
    AssemblePlain(root, "", n, e, sequence);
    NewOfSplit(root, p + [Separator] + n + e, sequence, "", NameAndExtension(n, e));
    assert root.path + "" == root.path;
  }

  lemma ShortPrefixNames()
    ensures IsPlainName("f") && IsPlainExtension(".iso")
    ensures "a/f.iso" == "a" + [Separator] + "f" + ".iso"
    ensures PlainPath("", "f" + SequenceSuffix(0), ".iso") == "f.iso"
    ensures PlainPath("", "f" + SequenceSuffix(1), ".iso") == "f(1).iso"
  {
    SuffixOfOne();
  }

  /** "a/f.iso" is stored as "f.iso" in the root. */
  lemma OneCharacterSubDirIsDropped()
    ensures var s := New(CompletedRoot, "a/f.iso", 0);
      s.Success? && s.value.name == "f.iso" && s.value.directory == "/completed/"
  {
    ShortPrefixNames();
    NewOfShortPrefix(CompletedRoot, "a", "f", ".iso", 0);
  }

  /** A '.' in the sub-directory with none in the file name sends `Substring` a negative
      length: "a.b/file" is refused. */
  lemma DotOnlyInSubDirFails()
    ensures New(CompletedRoot, "a.b/file", 0) == Failure(NegativeLengthMessage)
  {
    var path := "a.b/file";
    LastIndexOfIs(path, Separator, 3);
    LastIndexOfIs(path, '.', 1);
    assert path[..3] == "a.b";
    TrimOfTrimmed("a.b");
    assert !IsWhiteSpace(path[0]);
    assert !Contains("a.b", "..") by {
      forall i | 0 <= i <= 1 ensures !OccursAt("a.b", "..", i) {
        assert "a.b"[i..i + 2] != "..";
      }
    }
  }

  /** A sub-directory that climbs out of the root is refused. */
  lemma ParentSubDirFails()
    ensures New(CompletedRoot, "../f", 0) == Failure(InvalidSubDirMessage("..", CompletedRoot))
  {
    var path := "../f";
    LastIndexOfIs(path, Separator, 2);
    assert path[..2] == "..";
    TrimOfTrimmed("..");
    assert !IsWhiteSpace(path[0]);
    assert OccursAt("..", "..", 0);
  }

  /** An absolute sub-directory is refused. */
  lemma RootedSubDirFails()
    ensures New(CompletedRoot, "/etc/f", 0) == Failure(InvalidSubDirMessage("/etc", CompletedRoot))
  {
    var path := "/etc/f";
    LastIndexOfIs(path, Separator, 4);
    assert path[..4] == "/etc";
    TrimOfTrimmed("/etc");
    assert !IsWhiteSpace(path[0]);
  }

  /** The file name of a link to the server root is "/", which names the root itself; when
      that cannot be used, the next name is blank and `IncrementSequence` throws. */
  lemma RootFileNameIsTheRoot()
    ensures var s := New(CompletedRoot, "/", 0);
      && s.Success? && s.value.name == "" && s.value.fullName == "/completed/"
      && s.value.directory == "/completed/"
      && IncrementSequence(s.value) == Failure(BlankPathMessage)
  {
    LastIndexOfIs("/", Separator, 0);
    LastIndexOfIs("/", '.', -1);
    assert "/"[1..] == "";
    TrimOfTrimmed("");
    assert !IsWhiteSpace("/"[0]);
    assert CompletedRoot.path + "" == "/completed/";
  }

  /** A path ending in a separator has no file name: "dir/" names the sub-directory "dir"
      itself, so `FullName` equals `Directory`; the next name is "dir(1)" in the root. */
  lemma TrailingSeparatorNamesTheDirectory()
    ensures var s := New(CompletedRoot, "dir/", 0);
      && s.Success? && s.value.name == "dir"
      && s.value.fullName == "/completed/dir" && s.value.directory == "/completed/dir"
      && IncrementSequence(s.value).Success?
      && IncrementSequence(s.value).value.fullName == "/completed/dir(1)"
  {
    var s := NewOfTrailingSeparator();
    IncrementSequenceOfName(s, "dir");
    NewOfBareName();
  }

  /** The names of "dir/", as values. */
  lemma DirectoryNames() returns (s: SaveAsFile, next: SaveAsFile)
    ensures New(CompletedRoot, "dir/", 0) == Success(s)
    ensures IncrementSequence(s) == Success(next)
    ensures IsNormalised(s.downloadsDirectory)
    ensures s.fullName == "/completed/dir" && s.directory == "/completed/dir"
    ensures next.fullName == "/completed/dir(1)"
  {
    TrailingSeparatorNamesTheDirectory();
    s := New(CompletedRoot, "dir/", 0).value;
    next := IncrementSequence(s).value;
  }

  /** The names of "/", as a value. */
  lemma RootNames() returns (s: SaveAsFile)
    ensures New(CompletedRoot, "/", 0) == Success(s)
    ensures IsNormalised(s.downloadsDirectory)
    ensures s.fullName == "/completed/" && s.directory == "/completed/"
    ensures IncrementSequence(s) == Failure(BlankPathMessage)
  {
    RootFileNameIsTheRoot();
    s := New(CompletedRoot, "/", 0).value;
  }

  /** The names of "dir", as values: the file "/completed/dir" in the completed root, and
      next "/completed/dir(1)". */
  lemma BareNames() returns (s: SaveAsFile, next: SaveAsFile)
    ensures New(CompletedRoot, "dir", 0) == Success(s)
    ensures IncrementSequence(s) == Success(next)
    ensures IsNormalised(s.downloadsDirectory)
    ensures s.fullName == "/completed/dir" && s.directory == "/completed/"
    ensures next.fullName == "/completed/dir(1)"
  {
    s := NewOfBareNameAtZero();
    IncrementSequenceOfName(s, "dir");
    NewOfBareName();
    next := IncrementSequence(s).value;
  }

  lemma NewOfBareNameAtZero() returns (s: SaveAsFile)
    ensures New(CompletedRoot, "dir", 0) == Success(s)
    ensures s == SaveAsFile(CompletedRoot, 0, "/completed/dir", "dir", "/completed/")
  {
    SplitBareName();
    NewOfSplit(CompletedRoot, "dir", 0, "", NameAndExtension("dir", ""));
    s := AssembleBareNameAtZero();
  }

  lemma AssembleBareNameAtZero() returns (s: SaveAsFile)
    ensures IsValidSubDir("") && NoSeparator("dir") && NoSeparator("")
    ensures Assemble(CompletedRoot, "", NameAndExtension("dir", ""), 0) == s
    ensures s == SaveAsFile(CompletedRoot, 0, "/completed/dir", "dir", "/completed/")
  {
    assert FileName(NameAndExtension("dir", ""), 0) == "dir";
    assert Combine("", "dir") == "dir";
    assert CompletedRoot.path + "" == "/completed/";
    s := Assemble(CompletedRoot, "", NameAndExtension("dir", ""), 0);
  }

  /** "." is accepted: it has no sub-directory and no extension, so its name is "." and
      its `FullName` is "/completed/.", which a file system resolves to the root itself. */
  lemma DotIsAccepted()
    ensures var s := New(CompletedRoot, ".", 0);
      && s.Success? && s.value.name == "."
      && s.value.fullName == "/completed/." && s.value.directory == "/completed/"
  {
    LastIndexOfIs(".", Separator, -1);
    LastIndexOfIs(".", '.', 0);
    assert "."[0..] == ".";
    TrimOfTrimmed(".");
    assert !IsWhiteSpace("."[0]);
    var s := AssembleDot();
    NewOfSplit(CompletedRoot, ".", 0, "", NameAndExtension(".", ""));
  }

  lemma AssembleDot() returns (s: SaveAsFile)
    ensures IsValidSubDir("") && NoSeparator(".") && NoSeparator("")
    ensures Assemble(CompletedRoot, "", NameAndExtension(".", ""), 0) == s
    ensures s == SaveAsFile(CompletedRoot, 0, "/completed/.", ".", "/completed/")
  {
    assert FileName(NameAndExtension(".", ""), 0) == ".";
    assert Combine("", ".") == ".";
    assert CompletedRoot.path + "" == "/completed/";
    s := Assemble(CompletedRoot, "", NameAndExtension(".", ""), 0);
  }

  lemma NewOfTrailingSeparator() returns (s: SaveAsFile)
    ensures New(CompletedRoot, "dir/", 0) == Success(s)
    ensures s == SaveAsFile(CompletedRoot, 0, "/completed/dir", "dir", "/completed/dir")
  {
    SplitTrailingSeparator();
    NewOfSplit(CompletedRoot, "dir/", 0, "dir", NameAndExtension("", ""));
    s := AssembleTrailingSeparator();
  }

  lemma AssembleTrailingSeparator() returns (s: SaveAsFile)
    ensures IsValidSubDir("dir") && NoSeparator("")
    ensures Assemble(CompletedRoot, "dir", NameAndExtension("", ""), 0) == s
    ensures s == SaveAsFile(CompletedRoot, 0, "/completed/dir", "dir", "/completed/dir")
  {
    ValidSubDirDir();
    assert FileName(NameAndExtension("", ""), 0) == "";
    s := Assemble(CompletedRoot, "dir", NameAndExtension("", ""), 0);
  }

  lemma NewOfBareName()
    ensures New(CompletedRoot, "dir", 1).Success?
    ensures New(CompletedRoot, "dir", 1).value.fullName == "/completed/dir(1)"
  {
    SplitBareName();
    NewOfSplit(CompletedRoot, "dir", 1, "", NameAndExtension("dir", ""));
    AssembleBareName();
  }

  lemma AssembleBareName()
    ensures IsValidSubDir("") && NoSeparator("dir") && NoSeparator("")
    ensures Assemble(CompletedRoot, "", NameAndExtension("dir", ""), 1).fullName == "/completed/dir(1)"
  {
    SuffixOfOne();
    var fileName := FileName(NameAndExtension("dir", ""), 1);
    assert fileName == "dir(1)";
    assert Combine("", fileName) == fileName;
  }

  /** "dir/" splits into the sub-directory "dir" and an empty name. */
  lemma SplitTrailingSeparator()
    ensures !IsNullOrWhiteSpace("dir/") && SplitSubDir("dir/") == "dir" && IsValidSubDir("dir")
    ensures SplitNameAndExtension("dir/") == Success(NameAndExtension("", ""))
  {
    var path := "dir/";
    assert !IsWhiteSpace(path[0]);
    LastIndexOfIs(path, Separator, 3);
    assert path[..3] == "dir";
    TrimOfTrimmed("dir");
    ValidSubDirDir();
    LastIndexOfIs(path, '.', -1);
    assert path[4..] == "";
    TrimOfTrimmed("");
  }

  lemma ValidSubDirDir()
    ensures IsValidSubDir("dir")
  {
    assert !Contains("dir", "..") by {
      forall i | 0 <= i <= 1 ensures !OccursAt("dir", "..", i) {
        assert "dir"[i..i + 2][0] == "dir"[i] != '.';
      }
    }
  }

  /** "dir" has no sub-directory and no extension. */
  lemma SplitBareName()
    ensures !IsNullOrWhiteSpace("dir") && SplitSubDir("dir") == "" && IsValidSubDir("")
    ensures SplitNameAndExtension("dir") == Success(NameAndExtension("dir", ""))
  {
    LastIndexOfIs("dir", Separator, -1);
    LastIndexOfIs("dir", '.', -1);
    assert "dir"[0..] == "dir";
    TrimOfTrimmed("dir");
    assert !IsWhiteSpace("dir"[0]);
  }

  /** " c/name.ext" is split into the sub-directory "c", the name and the extension. */
  lemma SplitSpacedSubDir(c: char, n: string, e: string)
    requires c != Separator && c != '.' && !IsWhiteSpace(c) && !IsInvalidPathChar(c)
    requires IsPlainName(n) && IsPlainExtension(e)
    ensures var path := [' ', c, Separator] + n + e;
      && !IsNullOrWhiteSpace(path)
      && SplitSubDir(path) == [c] && IsValidSubDir([c])
      && SplitNameAndExtension(path) == Success(NameAndExtension(n, e))
  {
    var prefix := [' ', c, Separator];
    var path := prefix + n + e;
    PrefixedIndices(prefix, n, e);
    SplitNameOfPrefixed(prefix, n, e);
    SpacedHead(c, n, e);
    SpacedSubDir(c, path);
  }

  lemma SpacedHead(c: char, n: string, e: string)
    ensures |[' ', c, Separator] + n + e| > 2 && ([' ', c, Separator] + n + e)[..2] == [' ', c]
  {
    var path := [' ', c, Separator] + n + e;
    assert path[0] == ' ' && path[1] == c;
  }

  lemma SpacedSubDir(c: char, path: string)
    requires c != Separator && c != '.' && !IsWhiteSpace(c) && !IsInvalidPathChar(c)
    requires |path| > 2 && path[..2] == [' ', c] && LastIndexOf(path, Separator) == 2
    ensures SplitSubDir(path) == [c] && IsValidSubDir([c])
  {
    TrimOfSpaced(c);
    OneCharSubDirIsValid(c);
  }

  lemma TrimOfSpaced(c: char)
    requires !IsWhiteSpace(c)
    ensures Trim([' ', c]) == [c]
  {
    var spaced := [' ', c];
    assert spaced[1..] == [c];
    assert TrimStart([c]) == [c];
    assert TrimStart(spaced) == [c];
    assert TrimEnd([c]) == [c];
  }

  /** A single character that is neither a separator, a '.' nor invalid is a valid
      sub-directory. */
  lemma OneCharSubDirIsValid(c: char)
    requires c != Separator && c != '.' && !IsInvalidPathChar(c)
    ensures IsValidSubDir([c])
  {
    assert !EndsWith([c], ".") by {
      assert [c][0..] == [c] != ".";
    }
  }

  /** The name of a file in a one-character sub-directory. */
  lemma CombineShortSubDir(c: char, n: string, e: string)
    requires c != Separator && IsPlainName(n) && IsPlainExtension(e)
    ensures Combine([c], FileName(NameAndExtension(n, e), 0)) == [c, Separator] + n + e
  {
    var fileName := FileName(NameAndExtension(n, e), 0);
    assert fileName == n + e;
    assert fileName[0] == n[0];
    assert Combine([c], fileName) == [c] + [Separator] + fileName;
    assert [c] + [Separator] + (n + e) == [c, Separator] + n + e;
  }

  /** A one-character sub-directory behind a blank is kept: " c/name.ext" goes in "c". */
  lemma NewOfSpacedSubDir(root: DownloadsDirectory, c: char, n: string, e: string)
    requires IsNormalised(root)
    requires c != Separator && c != '.' && !IsWhiteSpace(c) && !IsInvalidPathChar(c)
    requires IsPlainName(n) && IsPlainExtension(e)
    ensures var r := New(root, [' ', c, Separator] + n + e, 0);
      && r.Success?
      && r.value.name == [c, Separator] + n + e
      && r.value.directory == root.path + [c]
  {
    SplitSpacedSubDir(c, n, e);
    PlainExtensionHasNoSeparator(e);
    NewOfSplit(root, [' ', c, Separator] + n + e, 0, [c], NameAndExtension(n, e));
    CombineShortSubDir(c, n, e);
  }

  /** A sub-directory kept at creation can be lost on a retry: " c/name.ext" keeps "c"
      (the separator is at index 2), but the re-parsed name "c/name.ext" has it at index 1,
      so the next name tried is "name(1).ext" in the root. */
  lemma SpacedSubDirLostOnIncrement(s: SaveAsFile, c: char, n: string, e: string)
    requires IsNormalised(s.downloadsDirectory) && s.sequence == 0
    requires IsPlainName(n) && IsPlainExtension(e)
    requires s.name == [c, Separator] + n + e
    ensures var r := IncrementSequence(s);
      && r.Success?
      && r.value.name == PlainPath("", n + SequenceSuffix(1), e)
      && r.value.directory == s.downloadsDirectory.path
  {
    assert [c, Separator] + n + e == [c] + [Separator] + n + e;
    NewOfShortPrefix(s.downloadsDirectory, [c], n, e, 1);
  }
}
