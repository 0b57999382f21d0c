/** `Link`: a download URL, accepted only with the http or https scheme, whose file name is
    the last segment of its path. */
module Links {
  import opened Wrappers
  import opened Text
  import opened UriParser
  import opened Paths

  /** The parsed URI and the file name read from it once, in the constructor. */
  datatype Link = Link(value: Uri, fileName: string)

  const HttpOnlyMessage := "Only http(s) links are supported."

  predicate IsHttpScheme(scheme: string) {
    scheme == "http" || scheme == "https"
  }

  /** `Url` and the implicit `string` conversion: the string the link was created from. */
  function Url(link: Link): string {
    link.value.originalString
  }

  /** `Link.Create`: the constructor's checks with its exceptions caught. A string that does
      not parse fails with the parser's message and a non-http(s) scheme with
      `HttpOnlyMessage`; otherwise the file name is the last path segment. */
  function Create(link: string): (r: Result<Link>)
    ensures r.Success? <==> Parse(link).Success? && IsHttpScheme(Parse(link).value.scheme)
    ensures Parse(link).Failure? ==> r == Failure(Parse(link).error)
    ensures Parse(link).Success? && !IsHttpScheme(Parse(link).value.scheme) ==>
      r == Failure(HttpOnlyMessage)
    ensures r.Success? ==> Url(r.value) == link && r.value.value == Parse(link).value
    ensures r.Success? ==> r.value.fileName == LastSegment(r.value.value.path)
  {
    FromParsed(link, Parse(link))
  }

  /** The constructor body after `new Uri(link)`. The segments of a parsed URI are never
      empty, so the "is not a file link." branch cannot be taken. */
  function FromParsed(link: string, parsed: Result<Uri>): (r: Result<Link>)
    requires parsed.Success? ==>
      && parsed.value.originalString == link && IsPathRooted(parsed.value.path)
      && parsed.value.segments == Segments(parsed.value.path)
    ensures r.Success? <==> parsed.Success? && IsHttpScheme(parsed.value.scheme)
    ensures parsed.Failure? ==> r == Failure(parsed.error)
    ensures parsed.Success? && !IsHttpScheme(parsed.value.scheme) ==> r == Failure(HttpOnlyMessage)
    ensures r.Success? ==> Url(r.value) == link && r.value.value == parsed.value
    ensures r.Success? ==> r.value.fileName == LastSegment(r.value.value.path)
  {
    match parsed
    case Failure(e) => Failure(e)
    case Success(u) =>
      if u.scheme != "http" && u.scheme != "https" then Failure(HttpOnlyMessage)
      else if |u.segments| == 0 then Failure(link + " is not a file link.")
      else
        Success(Link(u, u.segments[|u.segments| - 1]))
  }

  /** "http" and "https" are well-formed, lower-case schemes. */
  lemma HttpSchemeIsValid(scheme: string)
    requires IsHttpScheme(scheme)
    ensures IsValidScheme(scheme) && ToLowerAscii(scheme) == scheme
  {
    if scheme == "http" {
      assert IsValidScheme("http");
      assert ToLowerAscii("http") == "http";
    } else {
      assert IsValidScheme("https");
      assert ToLowerAscii("https") == "https";
    }
  }

  /** What `Create` makes of a string that parses with an http(s) scheme. */
  lemma CreateOfParsed(link: string, u: Uri)
    requires Parse(link) == Success(u) && IsHttpScheme(u.scheme)
    ensures Create(link).Success? && Create(link).value.value == u
    ensures Create(link).value.fileName == LastSegment(u.path)
  {
  }

  /** An http(s) link to `host` with the given path and query parses into those parts. */
  lemma ParseHttpLink(scheme: string, host: string, path: string, query: string) returns (u: Uri)
    requires IsHttpScheme(scheme)
    requires host != [] && forall i :: 0 <= i < |host| ==> host[i] != '/' && host[i] != '?' && host[i] != '#'
    requires path != [] && path[0] == '/'
    requires forall i :: 0 <= i < |path| ==> path[i] != '?' && path[i] != '#'
    requires query == [] || query[0] == '?' || query[0] == '#'
    requires !IsLinearWhiteSpace((host + path + query)[|host + path + query| - 1])
    ensures Parse(scheme + "://" + (host + path + query)) == Success(u)
    ensures u.scheme == scheme && u.host == host && u.path == path
  {
    HttpSchemeIsValid(scheme);
    ParseParts(scheme, host, path, query);
    u := Parse(scheme + "://" + (host + path + query)).value;
  }

  /** "http(s)://host/…/name?query" is accepted, and its file name is the text after the
      last '/' of the path. */
  lemma CreateHttpLink(scheme: string, host: string, path: string, k: nat, query: string)
    requires IsHttpScheme(scheme)
    requires host != [] && forall i :: 0 <= i < |host| ==> host[i] != '/' && host[i] != '?' && host[i] != '#'
    requires k < |path| - 1 && path[0] == '/' && path[k] == '/'
    requires forall j :: k < j < |path| - 1 ==> path[j] != '/'
    requires forall i :: 0 <= i < |path| ==> path[i] != '?' && path[i] != '#'
    requires query == [] || query[0] == '?' || query[0] == '#'
    requires !IsLinearWhiteSpace((host + path + query)[|host + path + query| - 1])
    ensures var r := Create(scheme + "://" + (host + path + query));
      r.Success? && r.value.fileName == path[k + 1..]
  {
    var link := scheme + "://" + (host + path + query);
    var u := ParseHttpLink(scheme, host, path, query);
    CreateOfParsed(link, u);
    LastSegmentAfter(LastSegment(path), path, k);
  }

  /** A link to the server root is accepted too: its last segment is "/" itself. */
  lemma CreateRootLink(scheme: string, host: string, query: string)
    requires IsHttpScheme(scheme)
    requires host != [] && forall i :: 0 <= i < |host| ==> host[i] != '/' && host[i] != '?' && host[i] != '#'
    requires query == [] || query[0] == '?' || query[0] == '#'
    requires !IsLinearWhiteSpace((host + "/" + query)[|host + "/" + query| - 1])
    ensures var r := Create(scheme + "://" + (host + "/" + query));
      r.Success? && r.value.fileName == "/"
  {
    var link := scheme + "://" + (host + "/" + query);
    var u := ParseHttpLink(scheme, host, "/", query);
    CreateOfParsed(link, u);
    LastSegmentOfRoot(LastSegment("/"));
  }

  /** A link with any other well-formed scheme is refused with `HttpOnlyMessage`. */
  lemma CreateOtherScheme(scheme: string, host: string, path: string, query: string)
    requires IsValidScheme(scheme) && !IsHttpScheme(ToLowerAscii(scheme))
    requires host != [] && forall i :: 0 <= i < |host| ==> host[i] != '/' && host[i] != '?' && host[i] != '#'
    requires path == [] || path[0] == '/'
    requires forall i :: 0 <= i < |path| ==> path[i] != '?' && path[i] != '#'
    requires query == [] || query[0] == '?' || query[0] == '#'
    requires !IsLinearWhiteSpace((host + path + query)[|host + path + query| - 1])
    ensures Create(scheme + "://" + (host + path + query)) == Failure(HttpOnlyMessage)
  {
    ParseParts(scheme, host, path, query);
  }

  /** The host of the unit tests' links is a host name without '/', '?' or '#'. */
  lemma ServerHost()
    ensures "server.com" != [] && forall i :: 0 <= i < |"server.com"| ==>
      "server.com"[i] != '/' && "server.com"[i] != '?' && "server.com"[i] != '#'
  {
  }

  /** An accepted link of the unit tests that names a file. */
  lemma FileLinkTestCase()
    ensures var r := Create("http://server.com/file.iso"); r.Success? && r.value.fileName == "file.iso"
  {
    ServerHost();
    assert "http://server.com/file.iso" == "http" + "://" + ("server.com" + "/file.iso" + "");
    CreateHttpLink("http", "server.com", "/file.iso", 0, "");
    assert "/file.iso"[1..] == "file.iso";
  }

  /** `Link.Create` ignores linear white space around the link, as `Uri` does: the link is
      accepted or refused as without it, with the same file name, while `Url` keeps the
      string as given. */
  lemma CreateOfPadded(pre: string, link: string, post: string)
    requires AllLinearWhiteSpace(pre) && AllLinearWhiteSpace(post)
    ensures var r := Create(pre + link + post);
      && (r.Success? <==> Create(link).Success?)
      && (r.Failure? ==> r == Create(link))
      && (r.Success? ==> r.value.fileName == Create(link).value.fileName && Url(r.value) == pre + link + post)
  {
    ParseOfPadded(pre, link, post);
  }

  /** A link typed with a leading space is accepted, with the file name of the link
      without it. */
  lemma PaddedLinkTestCase()
    ensures var r := Create(" " + "http://server.com/file.iso"); r.Success? && r.value.fileName == "file.iso"
  {
    FileLinkTestCase();
    LeadingSpaceIgnored("http://server.com/file.iso");
  }

  lemma LeadingSpaceIgnored(link: string)
    requires Create(link).Success?
    ensures Create(" " + link).Success? && Create(" " + link).value.fileName == Create(link).value.fileName
  {
    assert AllLinearWhiteSpace(" ") && AllLinearWhiteSpace("");
    assert " " + link + "" == " " + link;
    CreateOfPadded(" ", link, "");
  }

  lemma FileLinkWithQueryParts()
    ensures var head := "https://server.com/path/file.iso";
      head + "?queryString=ignored"
        == "https" + "://" + ("server.com" + "/path/file.iso" + "?queryString=ignored")
    ensures "/path/file.iso"[6..] == "file.iso"
    ensures "/path/file.iso"[5] == '/'
    ensures forall j :: 5 < j < |"/path/file.iso"| - 1 ==> "/path/file.iso"[j] != '/'
  {
    var head := "https://server.com/path/file.iso";
    assert head == "https" + "://" + ("server.com" + "/path/file.iso");
  }

  /** An accepted link of the unit tests with a sub-path and a query. */
  lemma FileLinkWithQueryTestCase()
    ensures var r := Create("https://server.com/path/file.iso" + "?queryString=ignored");
      r.Success? && r.value.fileName == "file.iso"
  {
    ServerHost();
    FileLinkWithQueryParts();
    CreateHttpLink("https", "server.com", "/path/file.iso", 5, "?queryString=ignored");
  }

  /** A root link of the unit tests, accepted with "/" as file name. */
  lemma RootLinkTestCase()
    ensures var r := Create("http://server.com/"); r.Success? && r.value.fileName == "/"
  {
    assert "http://server.com/" == "http" + "://" + ("server.com" + "/" + "");
    CreateRootLink("http", "server.com", "");
  }

  /** A root link with a query, accepted with "/" as file name. */
  lemma RootLinkWithQueryTestCase()
    ensures var r := Create("https://server.com/?queryString=value"); r.Success? && r.value.fileName == "/"
  {
    var link := "https://server.com/?queryString=value";
    assert link == "https" + "://" + ("server.com" + "/" + "?queryString=value");
    CreateRootLink("https", "server.com", "?queryString=value");
  }

  lemma FtpScheme()
    ensures IsValidScheme("ftp") && ToLowerAscii("ftp") == "ftp"
    ensures "ftp://server.com/file.iso" == "ftp" + "://" + ("server.com" + "/file.iso" + "")
  {
    var ftp := "ftp";
    assert ftp[0] == 'f' && ftp[1] == 't' && ftp[2] == 'p';
    assert ToLowerAscii(ftp)[0] == 'f' && ToLowerAscii(ftp)[1] == 't' && ToLowerAscii(ftp)[2] == 'p';
  }

  /** The ftp link of the unit tests is refused. */
  lemma FtpLinkTestCase()
    ensures Create("ftp://server.com/file.iso") == Failure(HttpOnlyMessage)
  {
    ServerHost();
    FtpScheme();
    CreateOtherScheme("ftp", "server.com", "/file.iso", "");
  }
}
