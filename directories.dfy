/** The two configured download roots (`AbstractDownloadsDirectory` and its
    `IncompleteDownloadsDirectory` / `CompletedDownloadsDirectory` subclasses): a path
    normalised once, when the root is built, to end with the primary separator. */
module Directories {
  import opened Wrappers
  import opened Text

  /** The platform's `(DirectorySeparatorChar, AltDirectorySeparatorChar)` pair. */
  datatype DirectorySeparatorChars = DirectorySeparatorChars(separator: char, altSeparator: char)

  /** The pair on a Unix-like platform, where both separators are '/'. */
  const UnixSeparators := DirectorySeparatorChars('/', '/')

  /** A normalised root. Its `path` is what both the implicit `string` conversion and
      `ToString()` return. */
  datatype DownloadsDirectory = DownloadsDirectory(path: string)

  /** The message of the `ArgumentException` thrown for a blank `path` parameter. */
  const BlankPathMessage := "Value cannot be null or whitespace. (Parameter 'path')"

  /** The constructor: a blank path is rejected; otherwise the trailing primary separators,
      then the trailing alternative separators, are trimmed and one primary separator is
      appended. */
  function Create(path: string, chars: DirectorySeparatorChars): (r: Result<DownloadsDirectory>)
    ensures r.Failure? <==> IsNullOrWhiteSpace(path)
    ensures r.Failure? ==> r.error == BlankPathMessage
    ensures r.Success? ==>
      var p := r.value.path;
      && |p| >= 1 && p[|p| - 1] == chars.separator
      && StartsWith(path, p[..|p| - 1])
      && (forall i :: |p| - 1 <= i < |path| ==> path[i] == chars.separator || path[i] == chars.altSeparator)
  {
    if IsNullOrWhiteSpace(path) then Failure(BlankPathMessage)
    else
      var trimmed := TrimEndChar(TrimEndChar(path, chars.separator), chars.altSeparator);
      Success(DownloadsDirectory(trimmed + [chars.separator]))
  }

  /** `n` copies of `c`. */
  function Repeat(c: char, n: nat): (r: string)
    ensures |r| == n && forall i :: 0 <= i < n ==> r[i] == c
  {
    if n == 0 then [] else Repeat(c, n - 1) + [c]
  }

  lemma {:induction false} TrimEndCharOfRepeat(p: string, c: char, n: nat)
    ensures TrimEndChar(p + Repeat(c, n), c) == TrimEndChar(p, c)
  {
    if n > 0 {
      var s := p + Repeat(c, n);
      assert s == (p + Repeat(c, n - 1)) + [c];
      assert s[..|s| - 1] == p + Repeat(c, n - 1);
      TrimEndCharOfRepeat(p, c, n - 1);
    } else {
      assert p + Repeat(c, n) == p;
    }
  }

  /** A trailing run of primary separators makes no difference: `/completed` and
      `/completed//` give the same root. */
  lemma TrailingSeparatorsCollapse(path: string, chars: DirectorySeparatorChars, n: nat)
    requires !IsNullOrWhiteSpace(path)
    ensures Create(path + Repeat(chars.separator, n), chars) == Create(path, chars)
  {
    var longer := path + Repeat(chars.separator, n);
    assert !IsNullOrWhiteSpace(longer) by {
      var i :| 0 <= i < |path| && !IsWhiteSpace(path[i]);
      assert longer[i] == path[i];
    }
    TrimEndCharOfRepeat(path, chars.separator, n);
  }

  /** With a single separator character (the Unix case), normalising a normalised root
      changes nothing. */
  lemma NormaliseIsIdempotent(path: string, sep: char)
    requires !IsNullOrWhiteSpace(path) && !IsWhiteSpace(sep)
    ensures var chars := DirectorySeparatorChars(sep, sep);
      Create(path, chars).Success? && Create(Create(path, chars).value.path, chars) == Create(path, chars)
  {
    var chars := DirectorySeparatorChars(sep, sep);
    var p := Create(path, chars).value.path;
    var x := p[..|p| - 1];
    assert p == x + [sep];
    assert !IsNullOrWhiteSpace(p) by {
      assert !IsWhiteSpace(p[|p| - 1]);
    }
    assert TrimEndChar(p, sep) == x;
  }

  /** The roots the integration tests configure. */
  lemma ConfiguredRoots()
    ensures Create("/incomplete", UnixSeparators) == Success(DownloadsDirectory("/incomplete/"))
    ensures Create("/completed", UnixSeparators) == Success(DownloadsDirectory("/completed/"))
    ensures Create("/completed//", UnixSeparators) == Create("/completed", UnixSeparators)
  {
    assert !IsWhiteSpace("/incomplete"[0]) && !IsWhiteSpace("/completed"[0]);
    assert TrimEndChar("/incomplete", '/') == "/incomplete";
    assert TrimEndChar("/completed", '/') == "/completed";
    assert "/incomplete" + ['/'] == "/incomplete/";
    assert "/completed" + ['/'] == "/completed/";
    assert "/completed//" == "/completed" + Repeat('/', 2);
    TrailingSeparatorsCollapse("/completed", UnixSeparators, 2);
  }

  /** With two distinct separators a trailing primary separator followed by an alternative
      one survives the trimming, so the root ends with two primary separators
      (Windows: "C:\dl\/" becomes "C:\dl\\"). */
  lemma MixedTrailingSeparatorsLeaveTwo()
    ensures Create("C:\\dl\\/", DirectorySeparatorChars('\\', '/'))
         == Success(DownloadsDirectory("C:\\dl\\\\"))
  {
    var path := "C:\\dl\\/";
    assert !IsWhiteSpace(path[0]);
    assert TrimEndChar(path, '\\') == path;
    assert TrimEndChar(path, '/') == TrimEndChar(path[..|path| - 1], '/');
    assert path[..|path| - 1] == "C:\\dl\\";
    assert TrimEndChar("C:\\dl\\", '/') == "C:\\dl\\";
    assert "C:\\dl\\" + ['\\'] == "C:\\dl\\\\";
  }
}
