/** `urllib.parse.urlparse` and `urlunparse` as the downloader uses them: the path of the
    final URL (downloader_light_modified.py:270) and the resolved URL rebuilt without its
    parameters, query and fragment (downloader.py:192-195). The URL is cut into scheme,
    network location, path, query and fragment as in section 3 of RFC 3986, by the same
    character scans Python performs, and `;parameters` are then split off the path. The
    scheme lists and the `urlunsplit` rules are those of Python 3.12. */
module Urls {
  import opened PyStr

  datatype Parts = Parts(scheme: string, netloc: string, path: string, query: string, fragment: string)

  predicate IsAsciiAlpha(c: char) { 'a' <= c <= 'z' || 'A' <= c <= 'Z' }

  /** `urllib.parse.scheme_chars`. */
  predicate IsSchemeChar(c: char) { IsAsciiAlpha(c) || IsDigit(c) || c == '+' || c == '-' || c == '.' }

  predicate IsColon(c: char) { c == ':' }
  predicate IsHash(c: char) { c == '#' }
  predicate IsQuestion(c: char) { c == '?' }
  predicate IsNetlocEnd(c: char) { c == '/' || c == '?' || c == '#' }
  predicate IsQueryOrFragmentStart(c: char) { c == '?' || c == '#' }
  predicate IsSemicolon(c: char) { c == ';' }

  /** `urllib.parse.uses_netloc`. */
  const UsesNetloc: set<string> := {"", "ftp", "http", "gopher", "nntp", "telnet", "imap", "wais",
    "file", "mms", "https", "shttp", "snews", "prospero", "rtsp", "rtsps", "rtspu", "rsync", "svn",
    "svn+ssh", "sftp", "nfs", "git", "git+ssh", "ws", "wss", "itms-services"}

  predicate IsLowerScheme(s: string) {
    forall k :: 0 <= k < |s| ==> IsSchemeChar(s[k]) && !('A' <= s[k] <= 'Z')
  }

  /** The text before the first ':' is a scheme when it is non-empty, starts with a letter
      and holds only scheme characters. */
  predicate HasScheme(url: string) {
    var i := IndexWhere(url, Colon);
    0 < i < |url| && IsAsciiAlpha(url[0]) && forall k :: 0 <= k < i ==> IsSchemeChar(url[k])
  }

  function SplitScheme(url: string): (r: (string, string))
    ensures IsLowerScheme(r.0)
    ensures r.0 == [] ==> r.1 == url
  {
    if HasScheme(url) then
      var i := IndexWhere(url, Colon);
      var s := Lower(url[..i]);
      assert forall k :: 0 <= k < |s| ==> s[k] == LowerChar(url[k]);
      (s, url[i + 1..])
    else ("", url)
  }

  /** `_splitnetloc(url, 2)` when the rest starts with "//". */
  function SplitNetloc(rest: string): (r: (string, string))
    ensures forall k :: 0 <= k < |r.0| ==> !IsNetlocEnd(r.0[k])
    ensures r.1 == [] || IsNetlocEnd(r.1[0]) || r.1 == rest
  {
    if |rest| >= 2 && rest[0] == '/' && rest[1] == '/' then
      var k := 2 + IndexWhere(rest[2..], NetlocEnd);
      (rest[2..k], rest[k..])
    else ("", rest)
  }

  /** `urlsplit(url)` (without the removal of tab and newline characters and the checks on
      bracketed IPv6 hosts). */
  function UrlSplit(url: string): (r: Parts)
    ensures IsLowerScheme(r.scheme)
    ensures forall k :: 0 <= k < |r.netloc| ==> !IsNetlocEnd(r.netloc[k])
    ensures '?' !in r.path && '#' !in r.path && '#' !in r.query
  {
    var (scheme, rest) := SplitScheme(url);
    var (netloc, rest2) := SplitNetloc(rest);
    var h := IndexWhere(rest2, Hash);
    var beforeHash := rest2[..h];
    var q := IndexWhere(beforeHash, Question);
    Parts(scheme, netloc, beforeHash[..q],
          if q < |beforeHash| then beforeHash[q + 1..] else "",
          if h < |rest2| then rest2[h + 1..] else "")
  }

  /** `urllib.parse.uses_params`. */
  const UsesParams: set<string> := {"", "ftp", "hdl", "prospero", "http", "imap", "https", "shttp",
    "rtsp", "rtsps", "rtspu", "sip", "sips", "mms", "sftp", "tel"}

  /** `_splitparams(path)`: the parameters start at the first ';' after the last '/', or at
      the first ';' of a path without '/'. */
  function SplitParams(path: string): (r: (string, string))
    ensures |r.0| <= |path| && r.0 == path[..|r.0|]
    ensures ';' !in path[LastIndexWhere(path, Slash) + 1..] ==> r == (path, "")
  {
    var from := if LastIndexWhere(path, Slash) >= 0 then LastIndexWhere(path, Slash) else 0;
    var i := from + IndexWhere(path[from..], Semicolon);
    if i == |path| then (path, "") else (path[..i], path[i + 1..])
  }

  /** `urlparse(url)`: the parts of `urlsplit` with the parameters split off the path. */
  function UrlParse(url: string): (r: (Parts, string))
    ensures r.0.scheme == UrlSplit(url).scheme && r.0.netloc == UrlSplit(url).netloc
    ensures r.0.query == UrlSplit(url).query && r.0.fragment == UrlSplit(url).fragment
    ensures |r.0.path| <= |UrlSplit(url).path| && r.0.path == UrlSplit(url).path[..|r.0.path|]
  {
    var p := UrlSplit(url);
    if p.scheme in UsesParams && ';' in p.path then
      var (path, params) := SplitParams(p.path);
      (p.(path := path), params)
    else (p, "")
  }

  /** `urlparse(url)[2]`. */
  function UrlPath(url: string): string {
    UrlParse(url).0.path
  }

  /** `urlunsplit(parts)`: "//" and the network location go in front of a non-empty network
      location, of a path that starts with "//", and of an empty or '/'-rooted path under a
      scheme of `uses_netloc`. */
  function UrlUnsplit(p: Parts): string {
    var path := p.path;
    var withNetloc :=
      if p.netloc != "" then "//" + p.netloc + (if path != "" && path[0] != '/' then "/" + path else path)
      else if |path| >= 2 && path[..2] == "//" then "//" + path
      else if p.scheme != "" && p.scheme in UsesNetloc && (path == "" || path[0] == '/') then "//" + path
      else path;
    var withScheme := if p.scheme != "" then p.scheme + ":" + withNetloc else withNetloc;
    var withQuery := if p.query != "" then withScheme + "?" + p.query else withScheme;
    if p.fragment != "" then withQuery + "#" + p.fragment else withQuery
  }

  /** `urlunparse(urlparse(url)[:3] + ("", "", ""))`: the URL rebuilt from its scheme, network
      location and path alone; it holds no query and no fragment. */
  function DropQueryAndFragment(url: string): (r: string)
    ensures Clean(r)
  {
    var p := UrlParse(url).0;
    var kept := Parts(p.scheme, p.netloc, p.path, "", "");
    assert Clean(p.scheme) by {
      assert forall k :: 0 <= k < |p.scheme| ==> IsSchemeChar(p.scheme[k]);
    }
    assert Clean(p.netloc) by {
      assert forall k :: 0 <= k < |p.netloc| ==> !IsNetlocEnd(p.netloc[k]);
    }
    UnsplitClean(kept);
    UrlUnsplit(kept)
  }

  /** Holds neither a '?' nor a '#'. */
  predicate Clean(s: string) { '?' !in s && '#' !in s }

  lemma UnsplitClean(p: Parts)
    requires Clean(p.scheme) && Clean(p.netloc) && Clean(p.path) && p.query == "" && p.fragment == ""
    ensures Clean(UrlUnsplit(p))
  {
    var path := p.path;
    var slashed := if path != "" && path[0] != '/' then "/" + path else path;
    assert Clean(slashed);
    assert Clean("//" + p.netloc + slashed);
    assert Clean("//" + path);
    var withNetloc :=
      if p.netloc != "" then "//" + p.netloc + slashed
      else if |path| >= 2 && path[..2] == "//" then "//" + path
      else if p.scheme != "" && p.scheme in UsesNetloc && (path == "" || path[0] == '/') then "//" + path
      else path;
    assert Clean(withNetloc);
    assert Clean(p.scheme + ":" + withNetloc);
  }

  lemma LowerOfLower(s: string)
    requires forall k :: 0 <= k < |s| ==> !('A' <= s[k] <= 'Z')
    ensures Lower(s) == s
  {
  }

  /** An absolute URL `scheme://host/path` followed by a query or a fragment loses exactly
      that query or fragment. */
  lemma DropQueryOfAbsolute(scheme: string, host: string, path: string, tail: string)
    requires scheme != [] && IsAsciiAlpha(scheme[0]) && IsLowerScheme(scheme)
    requires host != [] && forall k :: 0 <= k < |host| ==> !IsNetlocEnd(host[k])
    requires path == [] || path[0] == '/'
    requires '?' !in path && '#' !in path && ';' !in path
    requires tail == [] || IsQueryOrFragmentStart(tail[0])
    ensures DropQueryAndFragment(scheme + "://" + host + path + tail) == scheme + "://" + host + path
  {
    var pt := path + tail;
    var after := "//" + host + pt;
    var u := scheme + ":" + after;
    assert scheme + "://" + host + path + tail == u;
    SchemeOfAbsolute(scheme, after);
    NetlocOfAbsolute(host, pt);
    PathBeforeQuery(path, tail);
    SplitPieces(u, scheme, after, host, pt);
    assert UrlParse(u).0 == UrlSplit(u);
    UnsplitAbsolute(scheme, host, path);
  }

  lemma SplitPieces(u: string, scheme: string, after: string, host: string, pt: string)
    requires SplitScheme(u) == (scheme, after) && SplitNetloc(after) == (host, pt)
    ensures var p := UrlSplit(u); var h := IndexWhere(pt, Hash);
            p.scheme == scheme && p.netloc == host && p.path == pt[..h][..IndexWhere(pt[..h], Question)]
  {
  }

  lemma UnsplitAbsolute(scheme: string, host: string, path: string)
    requires scheme != [] && host != [] && (path == [] || path[0] == '/')
    ensures UrlUnsplit(Parts(scheme, host, path, "", "")) == scheme + "://" + host + path
  {
  }

  lemma SchemeOfAbsolute(scheme: string, after: string)
    requires scheme != [] && IsAsciiAlpha(scheme[0]) && IsLowerScheme(scheme)
    ensures SplitScheme(scheme + ":" + after) == (scheme, after)
  {
    var u := scheme + ":" + after;
    assert u == scheme + (":" + after);
    assert forall k :: 0 <= k < |scheme| ==> !IsColon(scheme[k]);
    assert IndexWhere(":" + after, Colon) == 0 by {
      assert (":" + after)[0] == ':';
    }
    IndexWhereAppend(scheme, ":" + after, Colon);
    assert u[..|scheme|] == scheme;
    assert HasScheme(u);
    LowerOfLower(scheme);
    assert u[|scheme| + 1..] == after;
  }

  lemma NetlocOfAbsolute(host: string, pt: string)
    requires forall k :: 0 <= k < |host| ==> !IsNetlocEnd(host[k])
    requires pt == [] || IsNetlocEnd(pt[0])
    ensures SplitNetloc("//" + host + pt) == (host, pt)
  {
    var after := "//" + host + pt;
    assert after[2..] == host + pt;
    assert after[0] == '/' && after[1] == '/';
    IndexWhereAppend(host, pt, NetlocEnd);
    assert IndexWhere(pt, NetlocEnd) == 0;
    assert after[2 + |host|..] == pt;
    assert after[2..2 + |host|] == host;
  }

  lemma PathBeforeQuery(path: string, tail: string)
    requires '?' !in path && '#' !in path
    requires tail == [] || IsQueryOrFragmentStart(tail[0])
    ensures var pt := path + tail; var h := IndexWhere(pt, Hash);
            pt[..h][..IndexWhere(pt[..h], Question)] == path
  {
    var pt := path + tail;
    assert forall k :: 0 <= k < |path| ==> !IsHash(path[k]) && !IsQuestion(path[k]);
    IndexWhereAppend(path, tail, Hash);
    var h := IndexWhere(pt, Hash);
    var beforeHash := pt[..h];
    var rest := tail[..h - |path|];
    assert beforeHash == path + rest;
    IndexWhereAppend(path, rest, Question);
    assert rest == [] || rest[0] == '?';
    assert rest == [] || IndexWhere(rest, Question) == 0;
    assert beforeHash[..|path|] == path;
  }
}
