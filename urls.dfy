/** The path component that Python's `urllib.parse.urlparse` extracts from a
    URL (the `path` of section 3.3 of RFC 3986, with the `;params` of the last
    segment split off for the schemes that use them), and the list of
    non-empty path segments that the resume listing derives from it. */
module Urls {
  import opened Strings

  /** Characters `urlsplit` deletes anywhere in the URL. */
  const UnsafeUrlChars: set<char> := {'\t', '\r', '\n'}

  /** Characters that end the network location after `//`. */
  const NetlocDelims: set<char> := {'/', '?', '#'}

  /** Schemes whose last path segment may carry `;params`
      (`urllib.parse.uses_params`). */
  const UsesParams: set<string> :=
    {"", "ftp", "hdl", "prospero", "http", "imap", "https", "shttp", "rtsp",
     "rtsps", "rtspu", "sip", "sips", "mms", "sftp", "tel"}

  /** C0 control characters and the space, stripped from the front. */
  predicate IsC0OrSpace(c: char) { c <= ' ' }

  predicate IsAsciiAlpha(c: char) { ('a' <= c <= 'z') || ('A' <= c <= 'Z') }

  /** `urllib.parse.scheme_chars`. */
  predicate IsSchemeChar(c: char)
  {
    IsAsciiAlpha(c) || IsDigit(c) || c == '+' || c == '-' || c == '.'
  }

  function LStripC0(s: string): (r: string)
    ensures |r| <= |s| && r == s[|s| - |r|..]
    ensures r != "" ==> !IsC0OrSpace(r[0])
  {
    if s != [] && IsC0OrSpace(s[0]) then LStripC0(s[1..]) else s
  }

  /** The scheme (lower-cased) and the rest, when the text before the first
      ':' is non-empty, starts with an ASCII letter and holds only scheme
      characters; otherwise no scheme and the whole text. */
  function SplitScheme(u: string): (string, string)
  {
    if ':' in u then
      var i := IndexOf(u, ':');
      if i > 0 && IsAsciiAlpha(u[0]) && forall k | 0 <= k < i :: IsSchemeChar(u[k]) then
        (Lower(u[..i]), u[i + 1..])
      else ("", u)
    else ("", u)
  }

  /** The first index at or after `start` holding '/', '?' or '#', or the
      length of `u`. */
  function FirstDelim(u: string, start: nat): (d: nat)
    requires start <= |u|
    ensures start <= d <= |u|
    ensures forall k :: start <= k < d ==> u[k] !in NetlocDelims
    ensures d < |u| ==> u[d] in NetlocDelims
    decreases |u| - start
  {
    if start == |u| then |u|
    else if u[start] in NetlocDelims then start
    else FirstDelim(u, start + 1)
  }

  /** `s.split(c, 1)` read as a pair, the second part "" when `c` is absent. */
  function SplitOnce(s: string, c: char): (string, string)
  {
    if c in s then
      var i := IndexOf(s, c);
      (s[..i], s[i + 1..])
    else (s, "")
  }

  /** The path without `;params`: the ';' searched for is the first one
      after the last '/', or the first one when there is no '/'. */
  function StripParams(u: string): string
  {
    var j := LastIndexOf(u, '/');
    if j >= 0 then
      if ';' in u[j..] then u[..j + IndexOf(u[j..], ';')] else u
    else if ';' in u then u[..IndexOf(u, ';')]
    else u
  }

  /** `urlparse(url).path`. */
  function UrlPath(url: string): string
  {
    var u0 := RemoveChars(LStripC0(url), UnsafeUrlChars);
    var (scheme, u1) := SplitScheme(u0);
    var u2 := if |u1| >= 2 && u1[..2] == "//" then u1[FirstDelim(u1, 2)..] else u1;
    var u3 := SplitOnce(u2, '#').0;
    var u4 := SplitOnce(u3, '?').0;
    if scheme in UsesParams && ';' in u4 then StripParams(u4) else u4
  }

  /** `[p for p in urlparse(url).path.strip('/').split('/') if p]`. */
  function PathSegments(url: string): seq<string>
  {
    NonEmpty(Split(StripChar(UrlPath(url), '/'), '/'))
  }

  /** Characters a path may not hold for `UrlPath` to return it unchanged. */
  const PathStops: set<char> := {'?', '#', ';', '\t', '\r', '\n'}

  /** A host that `urlparse` reads as the whole network location. */
  predicate CleanHost(host: string)
  {
    NoneOf(host, NetlocDelims + UnsafeUrlChars)
  }

  /** Every segment is clean. */
  predicate AllClean(segs: seq<string>)
  {
    segs == [] || (CleanSegment(segs[0]) && AllClean(segs[1..]))
  }

  lemma {:induction false} AllCleanAt(segs: seq<string>)
    requires AllClean(segs)
    ensures forall i :: 0 <= i < |segs| ==> CleanSegment(segs[i])
  {
    if segs != [] {
      AllCleanAt(segs[1..]);
      forall i | 1 <= i < |segs| ensures CleanSegment(segs[i]) {
        assert segs[i] == segs[1..][i - 1];
      }
    }
  }

  /** A path segment that `urlparse` and the '/' split leave intact. */
  predicate CleanSegment(s: string)
  {
    s != "" && NoneOf(s, PathStops + {'/'})
  }

  lemma {:induction false} FirstDelimAt(u: string, start: nat, d: nat)
    requires start <= d < |u| && u[d] in NetlocDelims
    requires forall k :: start <= k < d ==> u[k] !in NetlocDelims
    ensures FirstDelim(u, start) == d
    decreases d - start
  {
    if start < d {
      FirstDelimAt(u, start + 1, d);
    }
  }

  lemma SplitOnceAbsent(s: string, c: char)
    requires c !in s
    ensures SplitOnce(s, c).0 == s
  {
  }

  lemma CleanUrlUnchanged(url: string)
    requires url != "" && url[0] == 'h' && NoneOf(url, UnsafeUrlChars)
    ensures RemoveChars(LStripC0(url), UnsafeUrlChars) == url
  {
    assert LStripC0(url) == url;
    RemoveCharsAbsent(url, UnsafeUrlChars);
  }

  lemma SchemeOfHttp(scheme: string, rest: string)
    requires scheme == "http" || scheme == "https"
    ensures SplitScheme(scheme + [':'] + rest) == (scheme, rest)
  {
    var u := scheme + [':'] + rest;
    IndexOfAfter(scheme, ':', rest);
    assert u[..|scheme|] == scheme;
    assert Lower(scheme) == scheme;
    assert u[|scheme| + 1..] == rest;
  }

  lemma NetlocOfHost(host: string, path: string)
    requires NoneOf(host, NetlocDelims)
    requires path != "" && path[0] == '/'
    ensures var u := "//" + host + path;
      |u| >= 2 && u[..2] == "//" && u[FirstDelim(u, 2)..] == path
  {
    var u := "//" + host + path;
    assert u[2 + |host|] == path[0];
    forall k | 2 <= k < 2 + |host| ensures u[k] !in NetlocDelims {
      assert u[k] == host[k - 2];
    }
    FirstDelimAt(u, 2, 2 + |host|);
    assert u[2 + |host|..] == path;
  }

  /** For an http or https URL whose host holds none of '/', '?', '#' and
      whose path holds none of the stop characters, `urlparse` returns that
      path exactly. */
  lemma UrlPathOfHttp(scheme: string, host: string, path: string)
    requires scheme == "http" || scheme == "https"
    requires NoneOf(host, NetlocDelims + UnsafeUrlChars)
    requires path != "" && path[0] == '/'
    requires NoneOf(path, PathStops)
    ensures UrlPath(scheme + "://" + host + path) == path
  {
    var rest := "//" + host + path;
    HttpUrlClean(scheme, host, path);
    HttpUrlShape(scheme, host, path);
    SchemeOfHttp(scheme, rest);
    NetlocOfHost(host, path);
    UrlPathFromParts(scheme + "://" + host + path, scheme, rest, path);
  }

  lemma HttpUrlShape(scheme: string, host: string, path: string)
    ensures scheme + "://" + host + path == scheme + [':'] + ("//" + host + path)
  {
    assert "://" == [':'] + "//";
  }

  lemma HttpUrlClean(scheme: string, host: string, path: string)
    requires scheme == "http" || scheme == "https"
    requires NoneOf(host, NetlocDelims + UnsafeUrlChars)
    requires path != "" && path[0] == '/'
    requires NoneOf(path, PathStops)
    ensures var url := scheme + "://" + host + path;
      RemoveChars(LStripC0(url), UnsafeUrlChars) == url
    ensures NoneOf(host, NetlocDelims)
    ensures '#' !in path && '?' !in path && ';' !in path
  {
    var url := scheme + "://" + host + path;
    assert NoneOf(scheme + "://", UnsafeUrlChars);
    SubsetNoneOf(host, NetlocDelims + UnsafeUrlChars, UnsafeUrlChars);
    SubsetNoneOf(host, NetlocDelims + UnsafeUrlChars, NetlocDelims);
    SubsetNoneOf(path, PathStops, UnsafeUrlChars);
    NoneOfConcat(scheme + "://", host, UnsafeUrlChars);
    NoneOfConcat(scheme + "://" + host, path, UnsafeUrlChars);
    CleanUrlUnchanged(url);
  }

  lemma SubsetNoneOf(s: string, big: set<char>, small: set<char>)
    requires NoneOf(s, big) && small <= big
    ensures NoneOf(s, small)
  {
  }

  lemma UrlPathFromParts(url: string, scheme: string, rest: string, path: string)
    requires RemoveChars(LStripC0(url), UnsafeUrlChars) == url
    requires SplitScheme(url) == (scheme, rest)
    requires |rest| >= 2 && rest[..2] == "//" && rest[FirstDelim(rest, 2)..] == path
    requires '#' !in path && '?' !in path && ';' !in path
    ensures UrlPath(url) == path
  {
    SplitOnceAbsent(path, '#');
    SplitOnceAbsent(path, '?');
  }

  /** Stripping '/' from '/' followed by a text that neither starts nor
      ends with '/' gives that text. */
  lemma StripLeadingSlash(j: string)
    requires j != "" && j[0] != '/' && j[|j| - 1] != '/'
    ensures StripChar("/" + j, '/') == j
  {
    var s := "/" + j;
    assert s[1..] == j;
    assert StripStart(j, '/') == j;
    assert StripStart(s, '/') == j;
    assert StripEnd(j, '/') == j;
  }

  /** The segments of a path made of '/' followed by '/'-joined clean
      segments are those segments, and the path holds no stop character. */
  lemma JoinedPath(segs: seq<string>)
    requires segs != [] && AllClean(segs)
    ensures NoneOf("/" + Join(segs, "/"), PathStops)
    ensures NonEmpty(Split(StripChar("/" + Join(segs, "/"), '/'), '/')) == segs
  {
    AllCleanAt(segs);
    CleanPath(segs);
    SegmentsOfJoined(segs);
  }

  lemma SegmentsOfJoined(segs: seq<string>)
    requires |segs| >= 1
    requires forall i :: 0 <= i < |segs| ==> segs[i] != "" && '/' !in segs[i]
    ensures NonEmpty(Split(StripChar("/" + Join(segs, "/"), '/'), '/')) == segs
  {
    var j := Join(segs, "/");
    JoinEnds(segs, "/");
    assert segs[0][0] in segs[0];
    var last := segs[|segs| - 1];
    assert last[|last| - 1] in last;
    StripLeadingSlash(j);
    JoinSplit(segs, '/');
    NonEmptyKeepsAll(segs);
  }

  /** Segment lists of http(s) URLs: with a host as above and a path made of
      clean segments, `PathSegments` recovers the segments. */
  lemma PathSegmentsOfHttp(scheme: string, host: string, segs: seq<string>)
    requires scheme == "http" || scheme == "https"
    requires CleanHost(host)
    requires segs != [] && AllClean(segs)
    ensures PathSegments(scheme + "://" + host + "/" + Join(segs, "/")) == segs
  {
    JoinedPath(segs);
    HttpPathSegments(scheme, host, Join(segs, "/"), segs);
  }

  lemma HttpPathSegments(scheme: string, host: string, j: string, segs: seq<string>)
    requires scheme == "http" || scheme == "https"
    requires CleanHost(host)
    requires NoneOf("/" + j, PathStops)
    requires NonEmpty(Split(StripChar("/" + j, '/'), '/')) == segs
    ensures PathSegments(scheme + "://" + host + "/" + j) == segs
  {
    var prefix := scheme + "://" + host;
    ConcatAssoc(prefix, "/", j);
    UrlPathOfHttp(scheme, host, "/" + j);
    SegmentsOfPath(prefix + "/" + j, "/" + j);
  }

  lemma SegmentsOfPath(url: string, path: string)
    requires UrlPath(url) == path
    ensures PathSegments(url) == NonEmpty(Split(StripChar(path, '/'), '/'))
  {
  }

  lemma CleanPath(segs: seq<string>)
    requires forall i :: 0 <= i < |segs| ==> CleanSegment(segs[i])
    ensures NoneOf("/" + Join(segs, "/"), PathStops)
    ensures forall i :: 0 <= i < |segs| ==> segs[i] != "" && '/' !in segs[i]
  {
    forall i | 0 <= i < |segs| ensures NoneOf(segs[i], PathStops) && '/' !in segs[i] {
      var s := segs[i];
      assert CleanSegment(s);
      forall k | 0 <= k < |s| ensures s[k] !in PathStops && s[k] != '/' {
        assert s[k] !in PathStops + {'/'};
      }
    }
    JoinNoneOf(segs, "/", PathStops);
    NoneOfConcat("/", Join(segs, "/"), PathStops);
  }
}
