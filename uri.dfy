/** A simplified `System.Uri` parser for absolute "scheme://authority/path?query#fragment"
    strings: just the parts `Link` reads (`Scheme`, `Segments`, `OriginalString`); the query
    and fragment are recognised only where they end the path. */
module UriParser {
  import opened Wrappers
  import opened Text
  import opened Paths

  /** A parsed absolute URI. `segments` is `Uri.Segments`: the path cut after every '/',
      so "/path/file.iso" gives ["/", "path/", "file.iso"]. */
  datatype Uri = Uri(scheme: string, host: string, path: string, segments: seq<string>,
                     originalString: string)

  const EmptyMessage := "Invalid URI: The URI is empty."
  const FormatMessage := "Invalid URI: The format of the URI could not be determined."
  const HostMessage := "Invalid URI: The hostname could not be parsed."

  /** `Uri.Segments` of a path: the path cut after every '/'. */
  function Segments(path: string): (r: seq<string>)
    ensures path != "" ==> |r| > 0 && r[|r| - 1] == LastSegment(path)
    decreases |path|
  {
    if path == "" then []
    else
      var j := LastIndexOf(path[..|path| - 1], '/');
      Segments(path[..j + 1]) + [path[j + 1..]]
  }

  /** `f` is the last segment of `path`: non-empty, holding a '/' at most as its last
      character, and either the whole path or preceded by a '/'. */
  predicate IsLastSegment(f: string, path: string) {
    && f != "" && EndsWith(path, f)
    && (forall i :: 0 <= i < |f| - 1 ==> f[i] != '/')
    && (|f| == |path| || path[|path| - |f| - 1] == '/')
  }

  /** The last segment: what follows the last '/' that is not the final character. */
  function LastSegment(path: string): (f: string)
    requires path != ""
    ensures IsLastSegment(f, path)
  {
    var j := LastIndexOf(path[..|path| - 1], '/');
    var f := path[j + 1..];
    assert forall i :: 0 <= i < |f| - 1 ==> f[i] == path[..|path| - 1][j + 1 + i];
    f
  }

  /** The last segment is determined by the path: whatever satisfies `IsLastSegment` follows
      the last '/' that is not the final character. */
  lemma LastSegmentAfter(f: string, path: string, k: nat)
    requires IsLastSegment(f, path)
    requires k < |path| - 1 && path[k] == '/'
    requires forall j :: k < j < |path| - 1 ==> path[j] != '/'
    ensures f == path[k + 1..]
  {
  }

  /** The first index in `s` of a character from `stops`, or `|s|`. */
  function IndexOfAny(s: string, stops: set<char>): (r: nat)
    ensures r <= |s|
    ensures r < |s| ==> s[r] in stops
    ensures forall j :: 0 <= j < r ==> s[j] !in stops
  {
    IndexOfAnyFrom(s, stops, 0)
  }

  /** The first index at or after `i` of a character from `stops`, or `|s|`. */
  function IndexOfAnyFrom(s: string, stops: set<char>, i: nat): (r: nat)
    requires i <= |s|
    ensures i <= r <= |s|
    ensures r < |s| ==> s[r] in stops
    ensures forall j :: i <= j < r ==> s[j] !in stops
    decreases |s| - i
  {
    if i == |s| || s[i] in stops then i else IndexOfAnyFrom(s, stops, i + 1)
  }

  predicate IsSchemeChar(c: char) {
    ('a' <= c <= 'z') || ('A' <= c <= 'Z') || ('0' <= c <= '9') || c == '+' || c == '-' || c == '.'
  }

  predicate IsValidScheme(s: string) {
    |s| > 0 && (('a' <= s[0] <= 'z') || ('A' <= s[0] <= 'Z'))
    && forall i :: 0 <= i < |s| ==> IsSchemeChar(s[i])
  }

  /** `UriHelper.IsLWS`: the white space `Uri` skips before the scheme and drops after the
      end of the string. */
  predicate IsLinearWhiteSpace(c: char) {
    c == ' ' || c == '\t' || c == '\r' || c == '\n'
  }

  predicate AllLinearWhiteSpace(s: string) {
    forall i :: 0 <= i < |s| ==> IsLinearWhiteSpace(s[i])
  }

  /** `s` without its leading linear white space. */
  function StripStart(s: string): (r: string)
    ensures |r| <= |s| && r == s[|s| - |r|..]
    ensures AllLinearWhiteSpace(s[..|s| - |r|])
    ensures r != [] ==> !IsLinearWhiteSpace(r[0])
  {
    if |s| > 0 && IsLinearWhiteSpace(s[0]) then
      var r := StripStart(s[1..]);
      StripStartStep(s, r);
      r
    else s
  }

  lemma StripStartStep(s: string, r: string)
    requires |s| > 0 && IsLinearWhiteSpace(s[0])
    requires |r| <= |s| - 1 && r == s[1..][|s| - 1 - |r|..]
    requires AllLinearWhiteSpace(s[1..][..|s| - 1 - |r|])
    ensures r == s[|s| - |r|..] && AllLinearWhiteSpace(s[..|s| - |r|])
  {
    var dropped := s[..|s| - |r|];
    var rest := s[1..][..|s| - 1 - |r|];
    forall i | 1 <= i < |dropped| ensures IsLinearWhiteSpace(dropped[i]) {
      assert dropped[i] == rest[i - 1];
    }
  }

  /** `s` without its trailing linear white space. */
  function StripEnd(s: string): (r: string)
    ensures |r| <= |s| && r == s[..|r|]
    ensures AllLinearWhiteSpace(s[|r|..])
    ensures r != [] ==> !IsLinearWhiteSpace(r[|r| - 1])
  {
    if |s| > 0 && IsLinearWhiteSpace(s[|s| - 1]) then
      var r := StripEnd(s[..|s| - 1]);
      assert forall i :: |r| <= i < |s| - 1 ==> s[i] == s[..|s| - 1][i];
      r
    else s
  }

  /** The text `Uri` parses: `s` without the linear white space around it. */
  function Stripped(s: string): (r: string)
    ensures r != [] ==> !IsLinearWhiteSpace(r[0]) && !IsLinearWhiteSpace(r[|r| - 1])
  {
    StripEnd(StripStart(s))
  }

  /** `new Uri(s)`: linear white space around `s` is ignored (but kept in
      `OriginalString`); then the scheme (lower-cased), the authority up to the first '/',
      '?' or '#' and the path up to '?' or '#' ("/" when empty). A string that is blank,
      has no valid "scheme://" prefix or has an empty host is a `UriFormatException`. */
  function Parse(s: string): (r: Result<Uri>)
    ensures r.Success? ==>
      && r.value.originalString == s
      && IsPathRooted(r.value.path)
      && r.value.segments == Segments(r.value.path)
      && |r.value.segments| > 0
  {
    if IsNullOrWhiteSpace(s) then Failure(EmptyMessage)
    else ParseStripped(s, Stripped(s))
  }

  /** The part of `Parse` after the white space is stripped: `t` is what is parsed and `s`
      the original string. */
  function ParseStripped(s: string, t: string): (r: Result<Uri>)
    ensures r.Success? ==>
      && r.value.originalString == s
      && IsPathRooted(r.value.path)
      && r.value.segments == Segments(r.value.path)
      && |r.value.segments| > 0
  {
    var colon := IndexOf(t, ':');
    if colon <= 0 || !IsValidScheme(t[..colon]) || !StartsWith(t[colon..], "://") then Failure(FormatMessage)
    else ParseAuthority(s, ToLowerAscii(t[..colon]), t[colon + 3..])
  }

  /** The part of `Parse` after "scheme://": `rest` is the authority and what follows it. */
  function ParseAuthority(s: string, scheme: string, rest: string): (r: Result<Uri>)
    ensures r.Success? ==>
      && r.value.originalString == s
      && IsPathRooted(r.value.path)
      && r.value.segments == Segments(r.value.path)
      && |r.value.segments| > 0
  {
    var hostEnd := IndexOfAny(rest, {'/', '?', '#'});
    if hostEnd == 0 then Failure(HostMessage)
    else
      var afterHost := rest[hostEnd..];
      var pathEnd := IndexOfAny(afterHost, {'?', '#'});
      var path := PathOf(afterHost, pathEnd);
      Success(Uri(scheme, rest[..hostEnd], path, Segments(path), s))
  }

  /** The path: what precedes the query or fragment, or "/" when that is empty. */
  function PathOf(afterHost: string, pathEnd: nat): (r: string)
    requires pathEnd <= |afterHost|
    requires pathEnd > 0 ==> afterHost[0] == '/'
    ensures IsPathRooted(r)
  {
    if pathEnd == 0 then "/" else afterHost[..pathEnd]
  }

  /** The only segment of the root path is the root itself. */
  lemma LastSegmentOfRoot(f: string)
    requires IsLastSegment(f, "/")
    ensures f == "/"
  {
    assert |f| == 1;
    assert f == "/"[1 - |f|..];
  }

  /** `IndexOfAny` is characterised by its contract: it is the first index of a stop. */
  lemma IndexOfAnyIs(s: string, stops: set<char>, k: nat)
    requires k <= |s| && (k < |s| ==> s[k] in stops)
    requires forall j :: 0 <= j < k ==> s[j] !in stops
    ensures IndexOfAny(s, stops) == k
  {
  }

  /** The scheme of "scheme://…" ends at the first ':'. */
  lemma SchemeEndsAtColon(scheme: string, rest: string)
    requires IsValidScheme(scheme) && rest != [] && rest[0] == ':'
    ensures IndexOf(scheme + rest, ':') == |scheme|
  {
    var s := scheme + rest;
    var colon := IndexOf(s, ':');
    assert s[|scheme|] == ':';
  }

  /** A host free of '/', '?' and '#' ends at the first of them, and a path free of '?' and
      '#' ends at the first of those. */
  lemma AuthorityBounds(host: string, path: string, query: string)
    requires forall i :: 0 <= i < |host| ==> host[i] != '/' && host[i] != '?' && host[i] != '#'
    requires path == [] || path[0] == '/'
    requires forall i :: 0 <= i < |path| ==> path[i] != '?' && path[i] != '#'
    requires query == [] || query[0] == '?' || query[0] == '#'
    ensures IndexOfAny(host + path + query, {'/', '?', '#'}) == |host|
    ensures IndexOfAny(path + query, {'?', '#'}) == |path|
  {
    IndexOfAnyIs(host + path + query, {'/', '?', '#'}, |host|);
    IndexOfAnyIs(path + query, {'?', '#'}, |path|);
  }

  /** Given where the host and the path end, `ParseAuthority` reads back the host and the
      path. */
  lemma ParseAuthorityAt(s: string, scheme: string, rest: string, h: nat, p: nat)
    requires 0 < h <= |rest|
    requires IndexOfAny(rest, {'/', '?', '#'}) == h
    requires IndexOfAny(rest[h..], {'?', '#'}) == p
    ensures var path := PathOf(rest[h..], p);
      ParseAuthority(s, scheme, rest) == Success(Uri(scheme, rest[..h], path, Segments(path), s))
  {
  }

  /** A string that neither starts nor ends with linear white space is parsed as it is. */
  lemma StrippedOfUnpadded(s: string)
    requires s != [] ==> !IsLinearWhiteSpace(s[0]) && !IsLinearWhiteSpace(s[|s| - 1])
    ensures Stripped(s) == s
  {
  }

  /** Linear white space before a string is skipped. */
  lemma {:induction false} StripStartOfPrefixed(pre: string, x: string)
    requires AllLinearWhiteSpace(pre)
    ensures StripStart(pre + x) == StripStart(x)
    decreases |pre|
  {
    if pre == [] {
      assert pre + x == x;
    } else {
      assert (pre + x)[0] == pre[0];
      assert (pre + x)[1..] == pre[1..] + x;
      StripStartOfPrefixed(pre[1..], x);
    }
  }

  /** Linear white space after a string is dropped. */
  lemma {:induction false} StripEndOfSuffixed(y: string, post: string)
    requires AllLinearWhiteSpace(post)
    ensures StripEnd(y + post) == StripEnd(y)
    decreases |post|
  {
    if post == [] {
      assert y + post == y;
    } else {
      var p := post[..|post| - 1];
      assert (y + post)[|y + post| - 1] == post[|post| - 1];
      assert (y + post)[..|y + post| - 1] == y + p;
      StripEndOfSuffixed(y, p);
    }
  }

  /** Trailing linear white space makes no difference once both ends are stripped. */
  lemma {:induction false} StripOfSuffixed(x: string, post: string)
    requires AllLinearWhiteSpace(post)
    ensures StripEnd(StripStart(x + post)) == StripEnd(StripStart(x))
    decreases |x|
  {
    if x == [] {
      assert x + post == post;
      assert StripStart(post) == [];
    } else if IsLinearWhiteSpace(x[0]) {
      assert (x + post)[1..] == x[1..] + post;
      StripOfSuffixed(x[1..], post);
    } else {
      StripEndOfSuffixed(x, post);
    }
  }

  /** Linear white space around a string is stripped away. */
  lemma StrippedOfPadded(pre: string, x: string, post: string)
    requires AllLinearWhiteSpace(pre) && AllLinearWhiteSpace(post)
    ensures Stripped(pre + x + post) == Stripped(x)
  {
    assert pre + x + post == pre + (x + post);
    StripStartOfPrefixed(pre, x + post);
    StripOfSuffixed(x, post);
  }

  /** Linear white space around a URI string changes only its `OriginalString`: the string
      is accepted or refused as before, with the same message, scheme, host and path. */
  lemma ParseOfPadded(pre: string, s: string, post: string)
    requires AllLinearWhiteSpace(pre) && AllLinearWhiteSpace(post)
    ensures var r := Parse(pre + s + post);
      && (r.Success? <==> Parse(s).Success?)
      && (r.Failure? ==> r == Parse(s))
      && (r.Success? ==> r.value == Parse(s).value.(originalString := pre + s + post))
  {
    var padded := pre + s + post;
    if IsNullOrWhiteSpace(s) {
      PaddedBlank(pre, s, post);
    } else {
      var i :| 0 <= i < |s| && !IsWhiteSpace(s[i]);
      assert padded[|pre| + i] == s[i];
      StrippedOfPadded(pre, s, post);
      ParseStrippedOfOriginal(padded, s, Stripped(s));
    }
  }

  /** Padding a blank string with linear white space leaves it blank. */
  lemma PaddedBlank(pre: string, s: string, post: string)
    requires AllLinearWhiteSpace(pre) && AllLinearWhiteSpace(post) && IsNullOrWhiteSpace(s)
    ensures IsNullOrWhiteSpace(pre + s + post)
  {
    var padded := pre + s + post;
    forall i | 0 <= i < |padded| ensures IsWhiteSpace(padded[i]) {
      if i < |pre| {
        assert padded[i] == pre[i];
      } else if i < |pre| + |s| {
        assert padded[i] == s[i - |pre|];
      } else {
        assert padded[i] == post[i - |pre| - |s|];
      }
    }
  }

  /** The original string is only recorded, never read. */
  lemma ParseStrippedOfOriginal(s1: string, s2: string, t: string)
    ensures ParseStripped(s1, t).Success? <==> ParseStripped(s2, t).Success?
    ensures ParseStripped(s1, t).Failure? ==> ParseStripped(s1, t) == ParseStripped(s2, t)
    ensures ParseStripped(s1, t).Success? ==>
      ParseStripped(s1, t).value == ParseStripped(s2, t).value.(originalString := s1)
  {
  }

  /** "scheme://" followed by `rest` is handed to `ParseAuthority` with the scheme
      lower-cased. */
  lemma ParseOfScheme(scheme: string, rest: string)
    requires IsValidScheme(scheme)
    requires rest != [] ==> !IsLinearWhiteSpace(rest[|rest| - 1])
    ensures var s := scheme + "://" + rest;
      Parse(s) == ParseAuthority(s, ToLowerAscii(scheme), rest)
  {
    var s := scheme + "://" + rest;
    SchemeStringIsUnpadded(scheme, rest);
    ParseStrippedOfScheme(scheme, rest);
  }

  /** "scheme://rest" is not blank and has no linear white space to strip. */
  lemma SchemeStringIsUnpadded(scheme: string, rest: string)
    requires IsValidScheme(scheme)
    requires rest != [] ==> !IsLinearWhiteSpace(rest[|rest| - 1])
    ensures var s := scheme + "://" + rest;
      !IsNullOrWhiteSpace(s) && Stripped(s) == s
  {
    var s := scheme + "://" + rest;
    assert s == scheme + ("://" + rest);
    assert s[0] == scheme[0] && s[|s| - 1] == ("://" + rest)[|"://" + rest| - 1];
    StrippedOfUnpadded(s);
  }

  /** The scheme of "scheme://rest" ends at its first ':', and `rest` follows the "://". */
  lemma ParseStrippedOfScheme(scheme: string, rest: string)
    requires IsValidScheme(scheme)
    ensures var s := scheme + "://" + rest;
      ParseStripped(s, s) == ParseAuthority(s, ToLowerAscii(scheme), rest)
  {
    var s := scheme + "://" + rest;
    assert s == scheme + ("://" + rest);
    SchemeEndsAtColon(scheme, "://" + rest);
    assert s[..|scheme|] == scheme;
    assert s[|scheme|..][..3] == "://";
    assert s[|scheme| + 3..] == rest;
  }

  /** An absolute "scheme://host/path?query" string parses into its scheme (lower-cased),
      host and path (an empty path read as "/"). */
  lemma ParseParts(scheme: string, host: string, path: string, query: string)
    requires IsValidScheme(scheme)
    requires host != [] && forall i :: 0 <= i < |host| ==> host[i] != '/' && host[i] != '?' && host[i] != '#'
    requires path == [] || path[0] == '/'
    requires forall i :: 0 <= i < |path| ==> path[i] != '?' && path[i] != '#'
    requires query == [] || query[0] == '?' || query[0] == '#'
    requires !IsLinearWhiteSpace((host + path + query)[|host + path + query| - 1])
    ensures var s := scheme + "://" + (host + path + query);
      var p := if path == [] then "/" else path;
      Parse(s) == Success(Uri(ToLowerAscii(scheme), host, p, Segments(p), s))
  {
    var rest := host + path + query;
    var s := scheme + "://" + rest;
    var p := if path == [] then "/" else path;
    assert rest[|host|..] == path + query;
    assert rest[..|host|] == host;
    assert PathOf(rest[|host|..], |path|) == p by {
      assert (path + query)[..|path|] == path;
    }
    AuthorityBounds(host, path, query);
    ParseAuthorityAt(s, ToLowerAscii(scheme), rest, |host|, |path|);
    ParseOfScheme(scheme, rest);
  }
}
