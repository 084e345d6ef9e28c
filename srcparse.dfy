/**
 * sws/src/parse.c, the latest draft's parsers: `http_realpath` built from
 * `my_realpath` and `conncat`, `sws_parse_method` (with POST, and
 * HTTP/1.0 as the only version), and `sws_parse_header`, whose text is
 * that of sws/parse.c.
 */
module SrcParse {

  import opened Wrappers
  import opened CStr
  import opened Defines
  import opened Messages
  import opened Paths
  import opened SrcUtils
  import Parse

  // -------------------------------------------------------------- http_realpath

  /**
   * `my_realpath` never consults the working directory for the absolute
   * paths `http_realpath` passes it; this stands in for it.
   */
  const UnusedCwd := "/"

  /** The user-name end of a "/~user" path: the first '/', ' ' or the end. */
  function UserEnd(path: string): (e: nat)
    requires |path| >= 2
    ensures 2 <= e <= |path|
  {
    SpanUntil(path, 2, {'/', ' '})
  }

  /** `my_realpath` of an absolute path, which always succeeds. */
  function Normalised(path: string): (r: string)
    requires path != [] && path[0] == '/'
    ensures Some(r) == MyRealpath(path, UnusedCwd)
  {
    AbsoluteResult(path, UnusedCwd);
    MyRealpath(path, UnusedCwd).value
  }

  /** What `my_realpath` makes of an absolute path is "/" or canonical, and no longer. */
  lemma NormalisedNormal(path: string)
    requires path != [] && path[0] == '/'
    ensures Normal(Normalised(path)) && |Normalised(path)| <= |path|
  {
    AbsoluteResult(path, UnusedCwd);
  }

  /** The home directory of the user a "/~user" path names. */
  function HomeBase(path: string): string
    requires |path| >= 2
  {
    "/home/" + path[2..UserEnd(path)] + "/sws"
  }

  /**
   * `http_realpath`: "/~user" alone maps to "/home/<user>/sws";
   * "/~user/rest" to that directory followed by `my_realpath` of "/rest";
   * any other path to `serve_dir` followed by `my_realpath` of the path,
   * less one trailing '/'.
   */
  function Realpath(path: string, serveDir: string): string
    requires path != [] && path[0] == '/'
  {
    if |path| >= 2 && path[1] == '~' then
      if UserEnd(path) == |path| || path[UserEnd(path)] == ' ' then HomeOnly(path)
      else HomeWithRest(path)
    else UnderServeDir(path, serveDir)
  }

  /** The three cases of `http_realpath`, each as the pieces it joins. */
  lemma RealpathCases(path: string, serveDir: string)
    requires path != [] && path[0] == '/'
    ensures |path| >= 2 && path[1] == '~' && (UserEnd(path) == |path| || path[UserEnd(path)] == ' ') ==>
              Realpath(path, serveDir) == HomeBase(path)
    ensures |path| >= 2 && path[1] == '~' && UserEnd(path) < |path| && path[UserEnd(path)] == '/' ==>
              Realpath(path, serveDir) == HomeBase(path) + Normalised(path[UserEnd(path)..])
    ensures !(|path| >= 2 && path[1] == '~') ==>
              Realpath(path, serveDir) == DropOneSlash(serveDir + Normalised(path))
  {
  }

  /** `conncat(newpath, 3, "/home/", 6, path + 2, username_len, "/sws", 4)`. */
  function HomeOnly(path: string): (r: string)
    requires |path| >= 2
    ensures r == HomeBase(path)
  {
    var user := (path[2..], UserEnd(path) - 2);
    assert Take(path[2..], UserEnd(path) - 2) == path[2..UserEnd(path)];
    JoinedPrefixes3(("/home/", 6), user, ("/sws", 4));
    JoinedPrefixes([("/home/", 6), user, ("/sws", 4)])
  }

  /** The same three pieces followed by `my_realpath` of the rest. */
  function HomeWithRest(path: string): (r: string)
    requires |path| >= 2 && UserEnd(path) < |path| && path[UserEnd(path)] == '/'
    ensures r == HomeBase(path) + Normalised(path[UserEnd(path)..])
  {
    var e := UserEnd(path);
    var user := (path[2..], e - 2);
    assert Take(path[2..], e - 2) == path[2..e];
    var tmp := Normalised(path[e..]);
    JoinedPrefixes4(("/home/", 6), user, ("/sws", 4), (tmp, |tmp|));
    JoinedPrefixes([("/home/", 6), user, ("/sws", 4), (tmp, |tmp|)])
  }

  /** `conncat(newpath, 2, serve_dir, strlen(serve_dir), tmp, strlen(tmp))`, less a trailing '/'. */
  function UnderServeDir(path: string, serveDir: string): (r: string)
    requires path != [] && path[0] == '/'
    ensures r == DropOneSlash(serveDir + Normalised(path))
  {
    var tmp := Normalised(path);
    JoinedPrefixes2((serveDir, |serveDir|), (tmp, |tmp|));
    DropOneSlash(JoinedPrefixes([(serveDir, |serveDir|), (tmp, |tmp|)]))
  }

  /** Two pairs of `conncat`, one after the other. */
  lemma JoinedPrefixes2(a: (string, int), b: (string, int))
    ensures JoinedPrefixes([a, b]) == Take(a.0, a.1) + Take(b.0, b.1)
  {
    assert [a][..0] == [];
    assert JoinedPrefixes([a]) == [] + Take(a.0, a.1);
    assert [a, b][..1] == [a];
  }

  /** Three pairs of `conncat`, one after the other. */
  lemma JoinedPrefixes3(a: (string, int), b: (string, int), c: (string, int))
    ensures JoinedPrefixes([a, b, c]) == Take(a.0, a.1) + Take(b.0, b.1) + Take(c.0, c.1)
  {
    assert [a, b, c][..2] == [a, b];
    JoinedPrefixes2(a, b);
  }

  /** Four pairs of `conncat`, one after the other. */
  lemma JoinedPrefixes4(a: (string, int), b: (string, int), c: (string, int), d: (string, int))
    ensures JoinedPrefixes([a, b, c, d]) == Take(a.0, a.1) + Take(b.0, b.1) + Take(c.0, c.1) + Take(d.0, d.1)
  {
    assert [a, b, c, d][..3] == [a, b, c];
    JoinedPrefixes3(a, b, c);
  }

  /** `newpath[strlen(newpath) - 1] = '\0'` when it ends in '/'. */
  function DropOneSlash(s: string): (r: string)
    ensures s != [] && s[|s| - 1] == '/' ==> r == s[..|s| - 1]
    ensures !(s != [] && s[|s| - 1] == '/') ==> r == s
  {
    if s != [] && s[|s| - 1] == '/' then s[..|s| - 1] else s
  }

  /**
   * ".." never leaves the directory a request is served from: any path
   * other than "/~user..." maps to `serve_dir` itself or to `serve_dir`
   * followed by a canonical path (no empty, "." or ".." component).
   */
  lemma ServeDirContained(path: string, serveDir: string)
    requires path != [] && path[0] == '/' && !(|path| >= 2 && path[1] == '~')
    ensures Realpath(path, serveDir) == serveDir ||
            (HasPrefix(Realpath(path, serveDir), serveDir) &&
             Canonical(Realpath(path, serveDir)[|serveDir|..]) &&
             Realpath(path, serveDir)[|serveDir|..] != [])
  {
    RealpathCases(path, serveDir);
    NormalisedNormal(path);
    JoinedContained(serveDir, Normalised(path));
  }

  /** `serve_dir` followed by "/" or by a canonical path, less a trailing '/', stays under `serve_dir`. */
  lemma JoinedContained(serveDir: string, tmp: string)
    requires Normal(tmp)
    ensures var r := DropOneSlash(serveDir + tmp);
            r == serveDir || (HasPrefix(r, serveDir) && Canonical(r[|serveDir|..]) && r[|serveDir|..] != [])
  {
    var r := DropOneSlash(serveDir + tmp);
    if tmp == "/" {
      assert (serveDir + tmp)[..|serveDir|] == serveDir;
    } else {
      CanonicalNoTrailingSlash(tmp);
      assert r == serveDir + tmp;
      assert r[..|serveDir|] == serveDir && r[|serveDir|..] == tmp;
    }
  }

  /**
   * A "/~user/rest" path maps to the user's directory followed by "/"
   * (for a rest that normalises to the root) or by a canonical path.
   */
  lemma HomeContained(path: string, serveDir: string)
    requires |path| >= 2 && path[0] == '/' && path[1] == '~'
    requires UserEnd(path) < |path| && path[UserEnd(path)] == '/'
    ensures HasPrefix(Realpath(path, serveDir), HomeBase(path))
    ensures Normal(Realpath(path, serveDir)[|HomeBase(path)|..])
  {
    var r := Realpath(path, serveDir);
    var tmp := Normalised(path[UserEnd(path)..]);
    RealpathCases(path, serveDir);
    NormalisedNormal(path[UserEnd(path)..]);
    assert r[..|HomeBase(path)|] == HomeBase(path) && r[|HomeBase(path)|..] == tmp;
  }

  // ------------------------------------------------------------ sws_parse_method

  /** The method token, which must be followed by a space: its code and the length skipped. */
  function MethodToken(buf: string): (r: Option<(int, nat)>)
    ensures r.Some? ==> r.value.1 <= |buf|
  {
    if HasPrefix(buf, "GET ") then Some((0, 3))
    else if HasPrefix(buf, "HEAD ") then Some((1, 4))
    else if HasPrefix(buf, "POST ") then Some((2, 4))
    else None
  }

  /** Each method is recognised exactly when its name and a space begin the line. */
  lemma MethodTokenCases(buf: string)
    ensures MethodToken(buf) == Some((0, 3)) <==> HasPrefix(buf, "GET ")
    ensures MethodToken(buf) == Some((1, 4)) <==> HasPrefix(buf, "HEAD ")
    ensures MethodToken(buf) == Some((2, 4)) <==> HasPrefix(buf, "POST ")
    ensures MethodToken(buf).None? <==> !HasPrefix(buf, "GET ") && !HasPrefix(buf, "HEAD ") && !HasPrefix(buf, "POST ")
  {
    assert HasPrefix(buf, "GET ") ==> buf[0] == "GET "[0];
    assert HasPrefix(buf, "HEAD ") ==> buf[0] == "HEAD "[0];
    assert HasPrefix(buf, "POST ") ==> buf[0] == "POST "[0];
  }

  /**
   * What `sws_parse_method` makes of a request line: "GET ", "HEAD " or
   * "POST ", the path (resolved at once under `serveDir`), then CR LF
   * after GET or "HTTP/1.0".
   */
  function RequestLine(buf: string, serveDir: string): (r: LineParse)
    ensures r.methodCode.None? <==> r.verdict == Reject(S501)
    ensures r.methodCode.Some? ==> 0 <= r.methodCode.value <= 2
    ensures r.methodCode.None? ==> r.path.None?
    ensures r.path.Some? <==> r.realpath.Some?
    ensures r.path.Some? ==> r.methodCode.Some? && |r.path.value| >= 1 && r.path.value[0] == '/' &&
                             r.realpath == Some(Realpath(r.path.value, serveDir))
    ensures r.path.Some? ==> ' ' !in r.path.value && '\r' !in r.path.value
    ensures r.verdict.Accept? ==> r.path.Some?
    ensures r.verdict == Accept(true) ==> r.methodCode == Some(0)
  {
    match MethodToken(buf)
    case None => LineParse(None, None, None, Reject(S501))
    case Some(t) => AfterMethod(buf, t.0, t.1, serveDir)
  }

  /** The rest of the request line once the method is recognised, with the path resolved at once. */
  function AfterMethod(buf: string, code: int, start: nat, serveDir: string): (r: LineParse)
    requires start <= |buf|
    ensures r.methodCode == Some(code)
    ensures r.path.Some? <==> r.realpath.Some?
    ensures r.path.Some? ==> |r.path.value| >= 1 && r.path.value[0] == '/' &&
                             r.realpath == Some(Realpath(r.path.value, serveDir))
    ensures r.path.Some? ==> ' ' !in r.path.value && '\r' !in r.path.value
    ensures r.verdict.Accept? ==> r.path.Some?
    ensures r.verdict == Accept(true) ==> code == 0
    ensures r.verdict.Reject? ==> r.verdict.status == S400
  {
    var l := AfterMethodSyntax(buf, code, start);
    if l.path.Some? then l.(realpath := Some(Realpath(l.path.value, serveDir))) else l
  }

  /** The path and the version after the method token, before the path is resolved. */
  function AfterMethodSyntax(buf: string, code: int, start: nat): (r: LineParse)
    requires start <= |buf|
    ensures r.methodCode == Some(code) && r.realpath.None?
    ensures r.path.Some? ==> |r.path.value| >= 1 && r.path.value[0] == '/'
    ensures r.path.Some? ==> ' ' !in r.path.value && '\r' !in r.path.value
    ensures r.verdict.Accept? ==> r.path.Some?
    ensures r.verdict == Accept(true) ==> code == 0
    ensures r.verdict.Reject? ==> r.verdict.status == S400
  {
    var j := SkipSpaces(buf, start);
    if j == |buf| || buf[j] != '/' then LineParse(Some(code), None, None, Reject(S400))
    else
      var e := SpanUntil(buf, j, PathStops);
      assert forall c :: c in buf[j..e] ==> c !in PathStops;
      LineParse(Some(code), Some(buf[j..e]), None, Version(buf[SkipSpaces(buf, e)..], code))
  }

  /** What follows the path: CR LF after GET, or "HTTP/1.0". */
  function Version(rest: string, code: int): Verdict {
    if HasPrefix(rest, CRLF) && code == 0 then Accept(true)
    else if HasPrefix(rest, "HTTP/1.0") then Accept(false)
    else Reject(S400)
  }

  function MethodName(code: int): string
    requires 0 <= code <= 2
  {
    if code == 0 then "GET" else if code == 1 then "HEAD" else "POST"
  }

  function VersionSuffix(simple: bool): string {
    if simple then CRLF else " HTTP/1.0" + CRLF
  }

  /** The request line a client sends. */
  function FormatRequestLine(code: int, path: string, simple: bool): string
    requires 0 <= code <= 2
  {
    MethodName(code) + (" " + path + VersionSuffix(simple))
  }

  /** A well-formed request line is parsed back into its method, path and kind, with the path resolved. */
  lemma RequestLineRoundTrip(code: int, path: string, simple: bool, serveDir: string)
    requires 0 <= code <= 2 && |path| >= 1 && path[0] == '/' && ' ' !in path && '\r' !in path
    requires simple ==> code == 0
    ensures RequestLine(FormatRequestLine(code, path, simple), serveDir) ==
            LineParse(Some(code), Some(path), Some(Realpath(path, serveDir)), Accept(simple))
  {
    var rest := " " + path + VersionSuffix(simple);
    var buf := MethodName(code) + rest;
    var r := AfterMethod(buf, code, |MethodName(code)|, serveDir);
    MethodTokenOf(code, rest, serveDir);
    FormattedRest(MethodName(code), code, path, simple);
    assert r == LineParse(Some(code), Some(path), Some(Realpath(path, serveDir)), Accept(simple));
  }

  /** After the method of a formatted request line come its path and its version. */
  lemma FormattedRest(m: string, code: int, path: string, simple: bool)
    requires |path| >= 1 && path[0] == '/' && ' ' !in path && '\r' !in path
    requires simple ==> code == 0
    ensures var r := AfterMethodSyntax(m + (" " + path + VersionSuffix(simple)), code, |m|);
            r.path == Some(path) && r.verdict == Accept(simple)
  {
    var tail := VersionSuffix(simple);
    var buf := m + (" " + path + tail);
    DropPrefix(m, " " + path + tail);
    SuffixStop(simple);
    PathOf(buf, |m|, path, tail);
    AfterMethodFromParts(buf, |m|, |m| + 1 + |path|, code, path, tail);
    VersionOf(code, simple);
  }

  /** Both version suffixes start with a character that ends the path. */
  lemma SuffixStop(simple: bool)
    ensures |VersionSuffix(simple)| >= 1 && VersionSuffix(simple)[0] in PathStops
  {
  }

  /** A method name followed by a space is recognised as that method. */
  lemma MethodTokenOf(code: int, rest: string, serveDir: string)
    requires 0 <= code <= 2 && |rest| >= 1 && rest[0] == ' '
    ensures MethodToken(MethodName(code) + rest) == Some((code, |MethodName(code)|))
    ensures RequestLine(MethodName(code) + rest, serveDir) == AfterMethod(MethodName(code) + rest, code, |MethodName(code)|, serveDir)
  {
    var buf := MethodName(code) + rest;
    var n := |MethodName(code)|;
    assert buf[..n + 1] == MethodName(code) + " ";
    assert buf[0] == MethodName(code)[0];
  }

  /** A space, a path and what ends it after the method: that path, and the verdict on what follows. */
  lemma AfterMethodFromParts(buf: string, n: nat, e: nat, code: int, path: string, tail: string)
    requires n + 1 < e <= |buf| && SkipSpaces(buf, n) == n + 1 && buf[n + 1] == '/'
    requires SpanUntil(buf, n + 1, PathStops) == e && buf[n + 1..e] == path && buf[e..] == tail
    ensures AfterMethodSyntax(buf, code, n).path == Some(path)
    ensures AfterMethodSyntax(buf, code, n).verdict == Version(tail[SkipSpaces(tail, 0)..], code)
  {
    SkipSpacesFrom(buf, e, tail);
  }

  /** The version suffix of a formatted request line is accepted, as a simple request after CR LF. */
  lemma VersionOf(code: int, simple: bool)
    requires simple ==> code == 0
    ensures Version(VersionSuffix(simple)[SkipSpaces(VersionSuffix(simple), 0)..], code) == Accept(simple)
  {
    var t := VersionSuffix(simple);
    if simple {
      assert SkipSpaces(t, 0) == 0;
      assert t[0..][..2] == CRLF;
    } else {
      VersionAfterSpace(t, "HTTP/1.0");
    }
  }

  /** An HTTP/1.1 request line, which the earlier draft accepts, is 400 here. */
  lemma Http11Rejected(code: int, path: string, serveDir: string)
    requires 0 <= code <= 2 && |path| >= 1 && path[0] == '/' && ' ' !in path && '\r' !in path
    ensures RequestLine(MethodName(code) + (" " + path + Http11Suffix), serveDir).verdict == Reject(S400)
  {
    MethodTokenOf(code, " " + path + Http11Suffix, serveDir);
    Http11Syntax(MethodName(code), code, path);
  }

  /** After the method of an HTTP/1.1 request line come its path and a 400. */
  lemma Http11Syntax(m: string, code: int, path: string)
    requires |path| >= 1 && path[0] == '/' && ' ' !in path && '\r' !in path
    ensures AfterMethodSyntax(m + (" " + path + Http11Suffix), code, |m|).verdict == Reject(S400)
  {
    var buf := m + (" " + path + Http11Suffix);
    DropPrefix(m, " " + path + Http11Suffix);
    PathOf(buf, |m|, path, Http11Suffix);
    AfterMethodFromParts(buf, |m|, |m| + 1 + |path|, code, path, Http11Suffix);
    Http11Version(code);
  }

  const Http11Suffix := " HTTP/1.1" + CRLF

  /** "HTTP/1.1" is neither CR LF nor "HTTP/1.0". */
  lemma Http11Version(code: int)
    ensures Version(Http11Suffix[SkipSpaces(Http11Suffix, 0)..], code) == Reject(S400)
  {
    VersionAfterSpace(Http11Suffix, "HTTP/1.1");
    assert Http11Suffix[1..][7] == '1';
  }

  /**
   * `sws_parse_method`: the method code, the path and its resolution, and
   * the request kind, each written as soon as the source writes it.
   */
  method ParseMethod(req: Request, buf: string, serveDir: string) returns (rc: int, status: Option<Status>)
    modifies req
    ensures var r := RequestLine(buf, serveDir);
            && req.methodCode == (if r.methodCode.Some? then r.methodCode.value else old(req.methodCode))
            && req.path == (if r.path.Some? then r.path else old(req.path))
            && req.realpath == (if r.realpath.Some? then r.realpath else old(req.realpath))
            && req.simple == (if r.verdict.Accept? then r.verdict.simple else old(req.simple))
            && (r.verdict.Accept? ==> rc == 0 && status == None)
            && (r.verdict.Reject? ==> rc == -1 && status == Some(r.verdict.status))
    ensures req.ifModSince == old(req.ifModSince) && req.dateFormat == old(req.dateFormat)
  {
    var i: nat;
    if HasPrefix(buf, "GET ") {
      i := 3;
      req.methodCode := 0;
    } else if HasPrefix(buf, "HEAD ") {
      i := 4;
      req.methodCode := 1;
    } else if HasPrefix(buf, "POST ") {
      i := 4;
      req.methodCode := 2;
    } else {
      return -1, Some(S501);
    }
    assert RequestLine(buf, serveDir) == AfterMethod(buf, req.methodCode, i, serveDir) by {
      MethodTokenCases(buf);
    }
    rc, status := ParseAfterMethod(req, buf, i, serveDir);
  }

  /** The part of `sws_parse_method` after the method token. */
  method ParseAfterMethod(req: Request, buf: string, i: nat, serveDir: string) returns (rc: int, status: Option<Status>)
    requires i <= |buf|
    modifies req
    ensures var r := AfterMethod(buf, old(req.methodCode), i, serveDir);
            && req.methodCode == old(req.methodCode)
            && req.path == (if r.path.Some? then r.path else old(req.path))
            && req.realpath == (if r.realpath.Some? then r.realpath else old(req.realpath))
            && req.simple == (if r.verdict.Accept? then r.verdict.simple else old(req.simple))
            && (r.verdict.Accept? ==> rc == 0 && status == None)
            && (r.verdict.Reject? ==> rc == -1 && status == Some(r.verdict.status))
    ensures req.ifModSince == old(req.ifModSince) && req.dateFormat == old(req.dateFormat)
  {
    var j := SkipSpacesLoop(buf, i);
    if j == |buf| || buf[j] != '/' {
      return -1, Some(S400);
    }
    var e := PathEndLoop(buf, j);
    assert forall c :: c in buf[j..e] ==> c !in PathStops;
    req.path := Some(buf[j..e]);
    req.realpath := Some(Realpath(buf[j..e], serveDir));
    var p := SkipSpacesLoop(buf, e);
    assert AfterMethod(buf, req.methodCode, i, serveDir).verdict == Version(buf[p..], req.methodCode);
    if HasPrefix(buf[p..], CRLF) && req.methodCode == 0 {
      req.simple := true;
    } else if HasPrefix(buf[p..], "HTTP/1.0") {
      req.simple := false;
    } else {
      return -1, Some(S400);
    }
    return 0, None;
  }

  // ------------------------------------------------------------ sws_parse_header

  /**
   * `sws_parse_header`, whose code is that of sws/parse.c.  It is modelled
   * by the corrected rule `Parse.Header`, which recognises only the full
   * name If-Modified-Since and stores the value without its line end; the
   * prefix test as written is shown by `ShortNameClearsAsWritten`.
   */
  method ParseHeader(req: Request, buf: string, accepts: (DateFormat, string) -> bool) returns (rc: int, status: Option<Status>)
    modifies req
    ensures match Parse.Header(buf, accepts)
            case HeaderRejected(st) => rc == -1 && status == Some(st) && req.ifModSince == old(req.ifModSince) && req.dateFormat == old(req.dateFormat)
            case HeaderIgnored => rc == 0 && status == None && req.ifModSince == old(req.ifModSince) && req.dateFormat == old(req.dateFormat)
            case IfModifiedSince(v, f) => rc == 0 && status == None && req.ifModSince == v && req.dateFormat == f
    ensures req.methodCode == old(req.methodCode) && req.simple == old(req.simple)
    ensures req.path == old(req.path) && req.realpath == old(req.realpath)
  {
    rc, status := Parse.ParseHeader(req, buf, accepts);
  }

  /**
   * As written, sws/src/parse.c keeps the prefix test of sws/parse.c, so a
   * header "if" is taken for If-Modified-Since.  No date format accepts
   * its value, so as written the line clears an If-Modified-Since that an
   * earlier line recorded.  The corrected rule ignores the line.
   */
  lemma ShortNameClearsAsWritten(accepts: (DateFormat, string) -> bool)
    requires forall f :: !accepts(f, "x\r\n")
    ensures Parse.HeaderAsWritten("if: x\r\n", accepts) == IfModifiedSince(None, None)
    ensures Parse.Header("if: x\r\n", accepts) == HeaderIgnored
  {
    Parse.ShortNameTakenAsWritten(accepts);
  }
}
