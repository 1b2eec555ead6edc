/**
 * The scheme / network location / path split of Python's
 * `urllib.parse.urlparse`, as far as the core reads it (the network location
 * and the path): scheme, then `//netloc`, then `#fragment`, then `?query`,
 * then `;params` of the last path segment for the schemes that use
 * parameters. Input sanitising and the bracket check of `urlsplit` are not
 * part of this model.
 */
module Urls {
  import opened Strings

  datatype ParsedUrl = ParsedUrl(scheme: string, netloc: string, path: string,
                                 params: string, query: string, fragment: string)

  /** Python `s.find(c, start)`, with -1 for "absent". */
  function FindFrom(s: string, c: char, start: nat): (i: int)
    ensures -1 <= i < |s|
    ensures i >= 0 ==> start <= i && s[i] == c && forall k :: start <= k < i ==> s[k] != c
    ensures i == -1 ==> forall k :: start <= k < |s| ==> s[k] != c
    decreases |s| - start
  {
    if start >= |s| then -1
    else if s[start] == c then start
    else FindFrom(s, c, start + 1)
  }

  /** Python `s.find(c)`. */
  function Find(s: string, c: char): int {
    FindFrom(s, c, 0)
  }

  /** Python `s.rfind(c)`. */
  function RFind(s: string, c: char): (i: int)
    ensures -1 <= i < |s|
    ensures i >= 0 ==> s[i] == c && forall k :: i < k < |s| ==> s[k] != c
    ensures i == -1 ==> c !in s
    decreases |s|
  {
    if s == [] then -1
    else if s[|s| - 1] == c then |s| - 1
    else RFind(s[..|s| - 1], c)
  }

  predicate SchemeChar(c: char) {
    'a' <= c <= 'z' || 'A' <= c <= 'Z' || '0' <= c <= '9' || c == '+' || c == '-' || c == '.'
  }

  predicate AsciiAlpha(c: char) {
    'a' <= c <= 'z' || 'A' <= c <= 'Z'
  }

  /** The schemes for which `urlparse` splits off `;params`. */
  const UsesParams: set<string> :=
    {"", "ftp", "hdl", "prospero", "http", "imap", "https", "shttp", "rtsp",
     "rtspu", "sip", "sips", "mms", "sftp", "tel"}

  /** Scheme and remainder: a scheme is a run of scheme characters, starting with a letter, before the first ':'. */
  function SplitScheme(url: string): (string, string) {
    var i := Find(url, ':');
    if i > 0 && AsciiAlpha(url[0]) && forall k :: 0 <= k < i ==> SchemeChar(url[k])
    then (Lower(url[..i]), url[i + 1..])
    else ("", url)
  }

  /** Index of the first of '/', '?', '#' at or after 0, or |s|. */
  function NetlocEnd(s: string): (d: nat)
    ensures d <= |s|
    ensures forall k :: 0 <= k < d ==> s[k] !in "/?#"
    ensures d < |s| ==> s[d] in "/?#"
    decreases |s|
  {
    if s == [] then 0
    else if s[0] in "/?#" then 0
    else 1 + NetlocEnd(s[1..])
  }

  function SplitNetloc(rest: string): (string, string) {
    if StartsWith(rest, "//") then
      var r := rest[2..];
      var d := NetlocEnd(r);
      (r[..d], r[d..])
    else ("", rest)
  }

  /** Python `s.split(c, 1)` when `c in s`, else `(s, "")`. */
  function SplitOnce(s: string, c: char): (string, string) {
    var i := Find(s, c);
    if i >= 0 then (s[..i], s[i + 1..]) else (s, [])
  }

  /** `_splitparams`: the parameters of the last path segment. */
  function SplitParams(path: string): (string, string) {
    var slash := RFind(path, '/');
    var i := if slash >= 0 then FindFrom(path, ';', slash) else Find(path, ';');
    if i < 0 then (path, []) else (path[..i], path[i + 1..])
  }

  function UrlParse(url: string): ParsedUrl {
    var (scheme, afterScheme) := SplitScheme(url);
    var (netloc, afterNetloc) := SplitNetloc(afterScheme);
    var (beforeFragment, fragment) := SplitOnce(afterNetloc, '#');
    var (beforeQuery, query) := SplitOnce(beforeFragment, '?');
    var (path, params) :=
      if scheme in UsesParams && ';' in beforeQuery then SplitParams(beforeQuery) else (beforeQuery, []);
    ParsedUrl(scheme, netloc, path, params, query, fragment)
  }

  /**
   * For a URL `scheme://doi.org/<d>` whose DOI part has no '?', '#' or ';',
   * the network location is exactly `doi.org` and the path is `/<d>`.
   */
  lemma DoiOrgParts(scheme: string, d: string)
    requires scheme == "http" || scheme == "https"
    requires '?' !in d && '#' !in d && ';' !in d
    ensures UrlParse(scheme + "://doi.org/" + d).netloc == "doi.org"
    ensures UrlParse(scheme + "://doi.org/" + d).path == "/" + d
  {
    var url := scheme + "://doi.org/" + d;
    assert url == scheme + ":" + ("//doi.org/" + d);
    SchemeOfDoiUrl(scheme, "//doi.org/" + d);
    NetlocOfDoiRest(d);
    PathWithoutDelimiters("/" + d);
  }

  /** A lower-case http(s) scheme before ':' is split off unchanged. */
  lemma SchemeOfDoiUrl(scheme: string, rest: string)
    requires scheme == "http" || scheme == "https"
    ensures SplitScheme(scheme + ":" + rest) == (scheme, rest)
  {
    var url := scheme + ":" + rest;
    var n := |scheme|;
    assert url[n] == ':';
    assert forall k :: 0 <= k < n ==> url[k] == scheme[k] && url[k] != ':';
    assert Find(url, ':') == n;
    assert url[..n] == scheme && url[n + 1..] == rest;
    assert Lower(scheme) == scheme;
  }

  lemma NetlocOfDoiRest(d: string)
    ensures SplitNetloc("//doi.org/" + d) == ("doi.org", "/" + d)
  {
    var rest := "//doi.org/" + d;
    assert StartsWith(rest, "//");
    var r := rest[2..];
    assert r == "doi.org/" + d;
    assert r[7] == '/';
    assert forall k :: 0 <= k < 7 ==> r[k] !in "/?#";
    NetlocEndAt(r, 7);
    assert r[..7] == "doi.org" && r[7..] == "/" + d;
  }

  /** A path with no '#', '?' or ';' is neither split nor stripped of parameters. */
  lemma PathWithoutDelimiters(p: string)
    requires '?' !in p && '#' !in p && ';' !in p
    ensures SplitOnce(p, '#') == (p, []) && SplitOnce(p, '?') == (p, [])
  {
  }

  lemma NetlocEndAt(s: string, d: nat)
    requires d < |s| && s[d] in "/?#"
    requires forall k :: 0 <= k < d ==> s[k] !in "/?#"
    ensures NetlocEnd(s) == d
  {
  }
}
