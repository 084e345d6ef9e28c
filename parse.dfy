/**
 * sws/parse.c, the second server draft's parsers: the segment-walking
 * path normaliser `http_realpath`, the request-line and header parsers,
 * and `strrchr_pos`.
 */
module Parse {

  import opened Wrappers
  import opened CStr
  import opened Defines
  import opened Messages
  import opened Paths

  // --------------------------------------------------------------- http_realpath

  /** The characters that end a user name after "/~". */
  const UserStops: set<char> := {'/', ' '}

  /** `strrchr(tmp, '/')` and cut there; nothing changes when `tmp` has no '/'. */
  function Truncate(tmp: string): (r: string)
    ensures |r| <= |tmp|
  {
    match Strrchr(tmp, '/')
    case None => tmp
    case Some(k) => tmp[..k]
  }

  /**
   * The normalising loop of `http_realpath` over the unread part `rest`
   * of the path, appending to or cutting back `tmp`: "//" loses a slash,
   * "/." is skipped, "/.." cuts `tmp` at its last '/', any other
   * component is copied with its leading '/', and a lone final '/' is
   * dropped.
   */
  function Walk(rest: string, tmp: string): string
    decreases |rest|
  {
    if |rest| <= 1 then tmp
    else if rest[0] == '/' && rest[1] == '/' then Walk(rest[1..], tmp)
    else if rest[0] == '/' && rest[1] == '.' && (|rest| == 2 || rest[2] == '/') then Walk(rest[2..], tmp)
    else if rest[0] == '/' && rest[1] == '.' && |rest| >= 3 && rest[2] == '.' && (|rest| == 3 || rest[3] == '/') then
      Walk(rest[3..], Truncate(tmp))
    else
      var e := SegmentEnd(rest);
      Walk(rest[e..], tmp + rest[..e])
  }

  /** The path is a home-directory path "/~user...". */
  predicate IsHomePath(path: string) {
    |path| >= 2 && path[1] == '~'
  }

  /** Where the user name of a home-directory path ends. */
  function UserEnd(path: string): (e: nat)
    requires IsHomePath(path)
    ensures 2 <= e <= |path|
  {
    SpanUntil(path, 2, UserStops)
  }

  /** The directory a request path is resolved under: `serveDir`, or "/home/<user>/sws". */
  function Base(path: string, serveDir: string): string {
    if IsHomePath(path) then "/home/" + path[2..UserEnd(path)] + "/sws" else serveDir
  }

  /** The part of the request path the loop normalises. */
  function Tail(path: string): string {
    if IsHomePath(path) then path[UserEnd(path)..] else path
  }

  /** What `http_realpath` returns: the base directory followed by the normalised tail. */
  function Resolve(path: string, serveDir: string): string {
    Base(path, serveDir) + Walk(Tail(path), [])
  }

  /**
   * The loop only ever produces canonical paths: starting from a
   * canonical `tmp` on a rest that begins with '/', every copied
   * component is valid and every cut keeps the path canonical.
   */
  lemma {:induction false} WalkCanonical(rest: string, tmp: string)
    requires rest == [] || rest[0] == '/'
    requires Canonical(tmp)
    ensures Canonical(Walk(rest, tmp))
    decreases |rest|
  {
    if |rest| <= 1 {
    } else if rest[0] == '/' && rest[1] == '/' {
      WalkCanonical(rest[1..], tmp);
    } else if rest[0] == '/' && rest[1] == '.' && (|rest| == 2 || rest[2] == '/') {
      WalkCanonical(rest[2..], tmp);
    } else if rest[0] == '/' && rest[1] == '.' && |rest| >= 3 && rest[2] == '.' && (|rest| == 3 || rest[3] == '/') {
      TruncateCanonical(tmp);
      WalkCanonical(rest[3..], Truncate(tmp));
    } else {
      var e := SegmentEnd(rest);
      ComponentValid(rest);
      CanonicalAppend(tmp, rest[1..e]);
      assert tmp + rest[..e] == tmp + "/" + rest[1..e];
      WalkCanonical(rest[e..], tmp + rest[..e]);
    }
  }

  /** Cutting a canonical path at its last '/' keeps it canonical. */
  lemma TruncateCanonical(tmp: string)
    requires Canonical(tmp)
    ensures Canonical(Truncate(tmp))
  {
    if tmp != [] {
      CanonicalTruncate(tmp);
    }
  }

  /** A component the loop copies is neither empty, ".", nor "..". */
  lemma ComponentValid(rest: string)
    requires |rest| >= 2 && rest[0] == '/' && rest[1] != '/'
    requires !(rest[1] == '.' && (|rest| == 2 || rest[2] == '/'))
    requires !(rest[1] == '.' && |rest| >= 3 && rest[2] == '.' && (|rest| == 3 || rest[3] == '/'))
    ensures ValidSegment(rest[1..SegmentEnd(rest)])
  {
    var e := SegmentEnd(rest);
    var seg := rest[1..e];
    assert seg[0] == rest[1];
  }

  /** The loop copies a canonical path unchanged. */
  lemma {:induction false} WalkCanonicalIdentity(c: string, acc: string)
    requires Canonical(c)
    ensures Walk(c, acc) == acc + c
    decreases |c|
  {
    if c != [] {
      var e := SegmentEnd(c);
      var seg := c[1..e];
      assert |c| >= 2 && c[1] == seg[0];
      assert seg[0] != '/';
      WalkCanonicalIdentity(c[e..], acc + c[..e]);
      assert acc + c[..e] + c[e..] == acc + c;
    }
  }

  /**
   * For a path as `sws_parse_method` extracts it (starting with '/', no
   * space), the result is the base directory followed by a canonical path:
   * no "." or ".." component, no empty component and no trailing '/'; so
   * ".." can only remove components copied from the request and never
   * climbs out of the base directory.
   */
  lemma ResolveContained(path: string, serveDir: string)
    requires |path| >= 1 && path[0] == '/' && ' ' !in path
    ensures HasPrefix(Resolve(path, serveDir), Base(path, serveDir))
    ensures Canonical(Resolve(path, serveDir)[|Base(path, serveDir)|..])
  {
    var t := Tail(path);
    if IsHomePath(path) {
      var e := UserEnd(path);
      if e < |path| {
        assert path[e] in UserStops;
        assert path[e] != ' ' by {
          assert path[e] in path;
        }
      }
    }
    WalkCanonical(t, []);
    var r := Resolve(path, serveDir);
    assert r[..|Base(path, serveDir)|] == Base(path, serveDir);
    assert r[|Base(path, serveDir)|..] == Walk(t, []);
  }

  /** Normalising an already normalised tail changes nothing. */
  lemma WalkIdempotent(rest: string)
    requires rest == [] || rest[0] == '/'
    ensures Walk(Walk(rest, []), []) == Walk(rest, [])
  {
    WalkCanonical(rest, []);
    WalkCanonicalIdentity(Walk(rest, []), []);
  }

  /** "/.." with nothing copied yet leaves the result unchanged. */
  lemma LeadingDotDotIsNoOp(rest: string)
    requires rest == [] || rest[0] == '/'
    ensures Walk("/.." + rest, []) == Walk(rest, [])
  {
    var r := "/.." + rest;
    assert r[3..] == rest;
    assert Strrchr([], '/') == None;
  }

  /**
   * `http_realpath`: the user name (for "/~user" paths), then the loop over
   * the rest of the path, then the base directory in front.
   */
  method HttpRealpath(path: string, serveDir: string) returns (r: string)
    ensures r == Resolve(path, serveDir)
  {
    var p: nat := 0;
    if |path| >= 2 && path[1] == '~' {
      p := UserNameEnd(path);
    }
    assert path[p..] == Tail(path);
    var tmp := "";
    while p < |path|
      invariant p <= |path|
      invariant Walk(path[p..], tmp) == Walk(Tail(path), [])
    {
      if |path| - p == 1 {
        break;
      }
      p, tmp := WalkStep(path, p, tmp);
    }
    if |path| >= 2 && path[1] == '~' {
      r := "/home/" + path[2..UserEnd(path)] + "/sws" + tmp;
    } else {
      r := serveDir + tmp;
    }
  }

  /** One turn of the loop of `http_realpath`: it consumes part of the path and leaves the outcome unchanged. */
  method WalkStep(path: string, p: nat, tmp: string) returns (p': nat, tmp': string)
    requires p + 1 < |path|
    ensures p < p' <= |path|
    ensures Walk(path[p'..], tmp') == Walk(path[p..], tmp)
  {
    ghost var rest := path[p..];
    if path[p] == '/' && path[p + 1] == '/' {
      assert rest[1..] == path[p + 1..];
      p', tmp' := p + 1, tmp;
    } else if path[p] == '/' && path[p + 1] == '.' && (p + 2 == |path| || path[p + 2] == '/') {
      assert rest[2..] == path[p + 2..];
      p', tmp' := p + 2, tmp;
    } else if path[p] == '/' && path[p + 1] == '.' && p + 2 < |path| && path[p + 2] == '.' && (p + 3 == |path| || path[p + 3] == '/') {
      assert rest[3..] == path[p + 3..];
      tmp' := TruncateAtSlash(tmp);
      p' := p + 3;
    } else {
      var e := ComponentEndAt(path, p);
      assert rest[..e - p] == path[p..e] && rest[e - p..] == path[e..];
      p', tmp' := e, tmp + path[p..e];
    }
  }

  /** The user-name loop of `http_realpath`. */
  method UserNameEnd(path: string) returns (e: nat)
    requires IsHomePath(path)
    ensures e == UserEnd(path)
  {
    e := 2;
    while e < |path| && path[e] != '/' && path[e] != ' '
      invariant 2 <= e <= |path|
      invariant SpanUntil(path, e, UserStops) == SpanUntil(path, 2, UserStops)
    {
      e := e + 1;
    }
  }

  /** The component-copying loop of `http_realpath`: where the component starting at `p` ends. */
  method ComponentEndAt(path: string, p: nat) returns (e: nat)
    requires p < |path|
    ensures p + 1 <= e <= |path| && e - p == SegmentEnd(path[p..])
  {
    ghost var rest := path[p..];
    e := p + 1;
    while e < |path| && path[e] != '/'
      invariant p + 1 <= e <= |path|
      invariant SpanUntil(rest, e - p, Slash) == SpanUntil(rest, 1, Slash)
    {
      e := e + 1;
    }
  }

  /** The ".." step of `http_realpath`: cut at the last '/', if any. */
  method TruncateAtSlash(tmp: string) returns (r: string)
    ensures r == Truncate(tmp)
  {
    r := tmp;
    var k := |tmp|;
    while k > 0 && tmp[k - 1] != '/'
      invariant 0 <= k <= |tmp| && '/' !in tmp[k..]
    {
      k := k - 1;
    }
    if k > 0 {
      r := tmp[..k - 1];
    }
  }

  // ----------------------------------------------------------- sws_parse_method

  /** The method token, which must be followed by a space: its code and the length skipped. */
  function MethodToken(buf: string): (r: Option<(int, nat)>)
    ensures r.Some? ==> r.value.1 <= |buf|
  {
    if HasPrefix(buf, "GET ") then Some((0, 3))
    else if HasPrefix(buf, "HEAD ") then Some((1, 4))
    else None
  }

  /** Each method is recognised exactly when its name and a space begin the line. */
  lemma MethodTokenCases(buf: string)
    ensures MethodToken(buf) == Some((0, 3)) <==> HasPrefix(buf, "GET ")
    ensures MethodToken(buf) == Some((1, 4)) <==> HasPrefix(buf, "HEAD ")
    ensures MethodToken(buf).None? <==> !HasPrefix(buf, "GET ") && !HasPrefix(buf, "HEAD ")
  {
    assert HasPrefix(buf, "GET ") ==> buf[0] == "GET "[0];
    assert HasPrefix(buf, "HEAD ") ==> buf[0] == "HEAD "[0];
  }

  /**
   * What `sws_parse_method` makes of a request line: "GET " or "HEAD ",
   * the path (resolved at once under `serveDir`), then CR LF after GET or
   * "HTTP/1.1".
   */
  function RequestLine(buf: string, serveDir: string): (r: LineParse)
    ensures r.methodCode.None? <==> r.verdict == Reject(S501)
    ensures r.methodCode.None? ==> r.path.None?
    ensures r.path.Some? <==> r.realpath.Some?
    ensures r.path.Some? ==> r.methodCode.Some? && r.realpath == Some(Resolve(r.path.value, serveDir))
    ensures r.path.Some? ==> |r.path.value| >= 1 && r.path.value[0] == '/' && ' ' !in r.path.value && '\r' !in r.path.value
    ensures r.verdict.Accept? ==> r.path.Some?
    ensures r.verdict == Accept(true) ==> r.methodCode == Some(0)
  {
    match MethodToken(buf)
    case None => LineParse(None, None, None, Reject(S501))
    case Some(t) => AfterMethod(buf, t.0, t.1, serveDir)
  }

  /** The rest of the request line once the method is recognised, with the path resolved at once. */
  function AfterMethod(buf: string, code: int, start: nat, serveDir: string): (r: LineParse)
    requires start <= |buf|
    ensures r.methodCode == Some(code)
    ensures r.path.Some? <==> r.realpath.Some?
    ensures r.path.Some? ==> r.realpath == Some(Resolve(r.path.value, serveDir))
    ensures r.path.Some? ==> |r.path.value| >= 1 && r.path.value[0] == '/' && ' ' !in r.path.value && '\r' !in r.path.value
    ensures r.verdict.Accept? ==> r.path.Some?
    ensures r.verdict == Accept(true) ==> code == 0
    ensures r.verdict.Reject? ==> r.verdict.status == S400
  {
    var l := AfterMethodSyntax(buf, code, start);
    if l.path.Some? then l.(realpath := Some(Resolve(l.path.value, serveDir))) else l
  }

  /** The path and the version after the method token, before the path is resolved. */
  function AfterMethodSyntax(buf: string, code: int, start: nat): (r: LineParse)
    requires start <= |buf|
    ensures r.methodCode == Some(code) && r.realpath.None?
    ensures r.path.Some? ==> |r.path.value| >= 1 && r.path.value[0] == '/' && ' ' !in r.path.value && '\r' !in r.path.value
    ensures r.verdict.Accept? ==> r.path.Some?
    ensures r.verdict == Accept(true) ==> code == 0
    ensures r.verdict.Reject? ==> r.verdict.status == S400
  {
    var j := SkipSpaces(buf, start);
    if j == |buf| || buf[j] != '/' then LineParse(Some(code), None, None, Reject(S400))
    else
      var e := SpanUntil(buf, j, PathStops);
      assert forall c :: c in buf[j..e] ==> c !in PathStops;
      LineParse(Some(code), Some(buf[j..e]), None, Version(buf[SkipSpaces(buf, e)..], code))
  }

  /** What follows the path: CR LF after GET, or "HTTP/1.1". */
  function Version(rest: string, code: int): Verdict {
    if HasPrefix(rest, CRLF) && code == 0 then Accept(true)
    else if HasPrefix(rest, "HTTP/1.1") then Accept(false)
    else Reject(S400)
  }

  function MethodName(code: int): string
    requires 0 <= code <= 1
  {
    if code == 0 then "GET" else "HEAD"
  }

  function VersionSuffix(simple: bool): string {
    if simple then CRLF else " HTTP/1.1" + CRLF
  }

  /** The request line a client sends. */
  function FormatRequestLine(code: int, path: string, simple: bool): string
    requires 0 <= code <= 1
  {
    MethodName(code) + (" " + path + VersionSuffix(simple))
  }

  /** A well-formed request line is parsed back into its method, path and kind, with the path resolved. */
  lemma RequestLineRoundTrip(code: int, path: string, simple: bool, serveDir: string)
    requires 0 <= code <= 1 && |path| >= 1 && path[0] == '/' && ' ' !in path && '\r' !in path
    requires simple ==> code == 0
    ensures RequestLine(FormatRequestLine(code, path, simple), serveDir) ==
            LineParse(Some(code), Some(path), Some(Resolve(path, serveDir)), Accept(simple))
  {
    var rest := " " + path + VersionSuffix(simple);
    var buf := MethodName(code) + rest;
    var r := AfterMethod(buf, code, |MethodName(code)|, serveDir);
    MethodTokenOf(code, rest, serveDir);
    FormattedRest(MethodName(code), code, path, simple);
    assert r == LineParse(Some(code), Some(path), Some(Resolve(path, serveDir)), Accept(simple));
  }

  /** After the method of a formatted request line come its path and its version. */
  lemma FormattedRest(m: string, code: int, path: string, simple: bool)
    requires |path| >= 1 && path[0] == '/' && ' ' !in path && '\r' !in path
    requires simple ==> code == 0
    ensures var r := AfterMethodSyntax(m + (" " + path + VersionSuffix(simple)), code, |m|);
            r.path == Some(path) && r.verdict == Accept(simple)
  {
    var tail := VersionSuffix(simple);
    var buf := m + (" " + path + tail);
    DropPrefix(m, " " + path + tail);
    assert |tail| >= 1 && tail[0] in PathStops;
    PathOf(buf, |m|, path, tail);
    AfterMethodFromParts(buf, |m|, |m| + 1 + |path|, code, path, tail);
    VersionOf(code, simple);
  }

  /** A method name followed by a space is recognised as that method. */
  lemma MethodTokenOf(code: int, rest: string, serveDir: string)
    requires 0 <= code <= 1 && |rest| >= 1 && rest[0] == ' '
    ensures MethodToken(MethodName(code) + rest) == Some((code, |MethodName(code)|))
    ensures RequestLine(MethodName(code) + rest, serveDir) == AfterMethod(MethodName(code) + rest, code, |MethodName(code)|, serveDir)
  {
    var buf := MethodName(code) + rest;
    var n := |MethodName(code)|;
    assert buf[..n + 1] == MethodName(code) + " ";
    assert buf[0] == MethodName(code)[0];
  }

  /** A space, a path and what ends it after the method: that path, and the verdict on what follows. */
  lemma AfterMethodFromParts(buf: string, n: nat, e: nat, code: int, path: string, tail: string)
    requires n + 1 < e <= |buf| && SkipSpaces(buf, n) == n + 1 && buf[n + 1] == '/'
    requires SpanUntil(buf, n + 1, PathStops) == e && buf[n + 1..e] == path && buf[e..] == tail
    ensures AfterMethodSyntax(buf, code, n).path == Some(path)
    ensures AfterMethodSyntax(buf, code, n).verdict == Version(tail[SkipSpaces(tail, 0)..], code)
  {
    SkipSpacesFrom(buf, e, tail);
  }

  /** The version suffix of a formatted request line is accepted, as a simple request after CR LF. */
  lemma VersionOf(code: int, simple: bool)
    requires simple ==> code == 0
    ensures Version(VersionSuffix(simple)[SkipSpaces(VersionSuffix(simple), 0)..], code) == Accept(simple)
  {
    var t := VersionSuffix(simple);
    if simple {
      assert SkipSpaces(t, 0) == 0;
      assert t[0..][..2] == CRLF;
    } else {
      VersionAfterSpace(t, "HTTP/1.1");
    }
  }

  /**
   * `sws_parse_method`: the method code, the path and its resolution, and
   * the request kind, each written as soon as the source writes it.
   */
  method ParseMethod(req: Request, buf: string, serveDir: string) returns (rc: int, status: Option<Status>)
    modifies req
    ensures var r := RequestLine(buf, serveDir);
            && req.methodCode == (if r.methodCode.Some? then r.methodCode.value else old(req.methodCode))
            && req.path == (if r.path.Some? then r.path else old(req.path))
            && req.realpath == (if r.realpath.Some? then r.realpath else old(req.realpath))
            && req.simple == (if r.verdict.Accept? then r.verdict.simple else old(req.simple))
            && (r.verdict.Accept? ==> rc == 0 && status == None)
            && (r.verdict.Reject? ==> rc == -1 && status == Some(r.verdict.status))
    ensures req.ifModSince == old(req.ifModSince) && req.dateFormat == old(req.dateFormat)
  {
    var i: nat;
    if HasPrefix(buf, "GET ") {
      i := 3;
      req.methodCode := 0;
    } else if HasPrefix(buf, "HEAD ") {
      i := 4;
      req.methodCode := 1;
    } else {
      return -1, Some(S501);
    }
    assert RequestLine(buf, serveDir) == AfterMethod(buf, req.methodCode, i, serveDir) by {
      MethodTokenCases(buf);
    }
    rc, status := ParseAfterMethod(req, buf, i, serveDir);
  }

  /** The part of `sws_parse_method` after the method token. */
  method ParseAfterMethod(req: Request, buf: string, i: nat, serveDir: string) returns (rc: int, status: Option<Status>)
    requires i <= |buf|
    modifies req
    ensures var r := AfterMethod(buf, old(req.methodCode), i, serveDir);
            && req.methodCode == old(req.methodCode)
            && req.path == (if r.path.Some? then r.path else old(req.path))
            && req.realpath == (if r.realpath.Some? then r.realpath else old(req.realpath))
            && req.simple == (if r.verdict.Accept? then r.verdict.simple else old(req.simple))
            && (r.verdict.Accept? ==> rc == 0 && status == None)
            && (r.verdict.Reject? ==> rc == -1 && status == Some(r.verdict.status))
    ensures req.ifModSince == old(req.ifModSince) && req.dateFormat == old(req.dateFormat)
  {
    var j := SkipSpacesLoop(buf, i);
    if j == |buf| || buf[j] != '/' {
      return -1, Some(S400);
    }
    var e := PathEndLoop(buf, j);
    req.path := Some(buf[j..e]);
    var resolved := HttpRealpath(buf[j..e], serveDir);
    req.realpath := Some(resolved);
    var p := SkipSpacesLoop(buf, e);
    assert AfterMethod(buf, req.methodCode, i, serveDir).verdict == Version(buf[p..], req.methodCode);
    if HasPrefix(buf[p..], CRLF) && req.methodCode == 0 {
      req.simple := true;
    } else if HasPrefix(buf[p..], "HTTP/1.1") {
      req.simple := false;
    } else {
      return -1, Some(S400);
    }
    return 0, None;
  }

  // ----------------------------------------------------------- sws_parse_header

  /** The field value: what follows ": " up to the line ending. */
  function LineValue(v: string): (r: string)
    ensures HasPrefix(v, r) && '\r' !in r && '\n' !in r
  {
    var e := SpanUntil(v, 0, {'\r', '\n'});
    assert forall c :: c in v[..e] ==> c !in {'\r', '\n'};
    v[..e]
  }

  /** The header test as written: `strncasecmp(buf, "If-Modified-Since", i)`, true for every prefix, in any case. */
  predicate NamesIfModifiedSinceAsWritten(name: string) {
    HasPrefixNoCase(IfModifiedSinceName, name)
  }

  /**
   * `sws_parse_header` as written: the name test accepts every prefix of
   * "If-Modified-Since" in any case, and the line-ending trim only moves a
   * local variable, so the stored value keeps its CR LF.
   */
  function HeaderAsWritten(buf: string, accepts: (DateFormat, string) -> bool): (r: HeaderParse)
    ensures r.HeaderRejected? <==> ':' !in buf
    ensures r.IfModifiedSince? <==> ':' in buf && NamesIfModifiedSinceAsWritten(buf[NameBounds(buf).0..NameBounds(buf).1])
    ensures r.IfModifiedSince? && r.value.Some? ==> r.value.value == AfterColon(buf, NameBounds(buf).1)
  {
    if ':' !in buf then HeaderRejected(S400)
    else
      var (j, c) := NameBounds(buf);
      if NamesIfModifiedSinceAsWritten(buf[j..c]) then DateHeader(AfterColon(buf, c), accepts)
      else HeaderIgnored
  }

  /** As written, an "if" header is taken for If-Modified-Since. */
  lemma ShortNameTakenAsWritten(accepts: (DateFormat, string) -> bool)
    ensures HeaderAsWritten("if: x\r\n", accepts).IfModifiedSince?
    ensures Header("if: x\r\n", accepts) == HeaderIgnored
  {
    var buf := "if: x\r\n";
    assert buf[2] == ':';
    SpanUntilAt(buf, 0, 2, {':'});
    assert NameBounds(buf) == (0, 2);
    assert buf[0..2] == "if";
    assert IfModifiedSinceName[..2] == "If";
  }

  lemma FullNameAsWritten()
    ensures NamesIfModifiedSinceAsWritten(IfModifiedSinceName)
  {
    assert IfModifiedSinceName[..|IfModifiedSinceName|] == IfModifiedSinceName;
  }

  lemma NamedIfModifiedSince(value: string)
    ensures ':' in FormatHeader(IfModifiedSinceName, value)
    ensures NameBounds(FormatHeader(IfModifiedSinceName, value)) == (0, |IfModifiedSinceName|)
    ensures FormatHeader(IfModifiedSinceName, value)[0..|IfModifiedSinceName|] == IfModifiedSinceName
    ensures AfterColon(FormatHeader(IfModifiedSinceName, value), |IfModifiedSinceName|) == value + CRLF
  {
    FormattedNameBounds(IfModifiedSinceName, value);
  }

  /** As written, an accepted If-Modified-Since value is stored with its CR LF, where the corrected parser stores the value alone. */
  lemma LineEndKeptAsWritten(value: string, accepts: (DateFormat, string) -> bool)
    requires '\r' !in value && '\n' !in value
    requires FirstDateFormat(value + CRLF, accepts).Some? && FirstDateFormat(value, accepts).Some?
    ensures HeaderAsWritten(FormatHeader(IfModifiedSinceName, value), accepts) == IfModifiedSince(Some(value + CRLF), FirstDateFormat(value + CRLF, accepts))
    ensures Header(FormatHeader(IfModifiedSinceName, value), accepts) == IfModifiedSince(Some(value), FirstDateFormat(value, accepts))
  {
    var buf := FormatHeader(IfModifiedSinceName, value);
    NamedIfModifiedSince(value);
    FullNameAsWritten();
    ValueUpToLineEnd(value);
  }

  /**
   * `sws_parse_header` with the name compared in full, ignoring case: a
   * line without ':' is 400; If-Modified-Since records its value when some
   * date format accepts it, and clears both fields otherwise; other
   * headers are ignored.
   */
  function Header(buf: string, accepts: (DateFormat, string) -> bool): (r: HeaderParse)
    ensures r.HeaderRejected? <==> ':' !in buf
    ensures r.HeaderRejected? ==> r.status == S400
    ensures r.IfModifiedSince? ==> (r.value.Some? <==> r.format.Some?)
    ensures r.IfModifiedSince? && r.value.Some? ==>
              r.format == FirstDateFormat(r.value.value, accepts) && '\r' !in r.value.value && '\n' !in r.value.value
  {
    if ':' !in buf then HeaderRejected(S400)
    else
      var (j, c) := NameBounds(buf);
      if EqualNoCase(buf[j..c], IfModifiedSinceName) then DateHeader(LineValue(AfterColon(buf, c)), accepts)
      else HeaderIgnored
  }

  /** An If-Modified-Since value: kept with the first date format that accepts it, or both fields cleared. */
  function DateHeader(v: string, accepts: (DateFormat, string) -> bool): (r: HeaderParse)
    ensures r.IfModifiedSince? && (r.value.Some? <==> r.format.Some?)
    ensures r.format == FirstDateFormat(v, accepts)
    ensures r.value.Some? ==> r.value.value == v
  {
    match FirstDateFormat(v, accepts)
    case None => IfModifiedSince(None, None)
    case Some(f) => IfModifiedSince(Some(v), Some(f))
  }

  /**
   * A header line is read back: If-Modified-Since (in any case) with a
   * date some format accepts is recorded, with one no format accepts
   * cleared, and any other header ignored.
   */
  lemma HeaderRoundTrip(name: string, value: string, accepts: (DateFormat, string) -> bool)
    requires ':' !in name && (name == [] || name[0] != ' ')
    requires '\r' !in value && '\n' !in value
    ensures Header(FormatHeader(name, value), accepts) ==
            if !EqualNoCase(name, IfModifiedSinceName) then HeaderIgnored
            else if FirstDateFormat(value, accepts).None? then IfModifiedSince(None, None)
            else IfModifiedSince(Some(value), FirstDateFormat(value, accepts))
  {
    FormattedNameBounds(name, value);
    var buf := FormatHeader(name, value);
    assert buf[0..|name|] == name;
    ValueUpToLineEnd(value);
  }

  lemma ValueUpToLineEnd(value: string)
    requires '\r' !in value && '\n' !in value
    ensures LineValue(value + CRLF) == value
  {
    var rest := value + CRLF;
    assert rest[|value|] == '\r';
    forall j | 0 <= j < |value|
      ensures rest[j] !in {'\r', '\n'}
    {
      assert rest[j] == value[j];
    }
    SpanUntilAt(rest, 0, |value|, {'\r', '\n'});
    assert rest[..|value|] == value;
  }

  /** `sws_parse_header` on `req`. */
  method ParseHeader(req: Request, buf: string, accepts: (DateFormat, string) -> bool) returns (rc: int, status: Option<Status>)
    modifies req
    ensures match Header(buf, accepts)
            case HeaderRejected(st) => rc == -1 && status == Some(st) && req.ifModSince == old(req.ifModSince) && req.dateFormat == old(req.dateFormat)
            case HeaderIgnored => rc == 0 && status == None && req.ifModSince == old(req.ifModSince) && req.dateFormat == old(req.dateFormat)
            case IfModifiedSince(v, f) => rc == 0 && status == None && req.ifModSince == v && req.dateFormat == f
    ensures req.methodCode == old(req.methodCode) && req.simple == old(req.simple)
    ensures req.path == old(req.path) && req.realpath == old(req.realpath)
  {
    if ':' !in buf {
      return -1, Some(S400);
    }
    var j, c := ScanName(buf);
    if EqualNoCase(buf[j..c], IfModifiedSinceName) {
      var v := LineEnd(AfterColon(buf, c));
      assert Header(buf, accepts) == DateHeader(v, accepts);
      SetIfModifiedSince(req, v, accepts);
    } else {
      assert Header(buf, accepts) == HeaderIgnored;
    }
    return 0, None;
  }

  /** The value scan of `sws_parse_header`: up to the first CR or LF. */
  method LineEnd(tmp: string) returns (v: string)
    ensures v == LineValue(tmp)
  {
    var k := 0;
    while k < |tmp| && tmp[k] != '\r' && tmp[k] != '\n'
      invariant k <= |tmp| && SpanUntil(tmp, k, {'\r', '\n'}) == SpanUntil(tmp, 0, {'\r', '\n'})
    {
      k := k + 1;
    }
    v := tmp[..k];
  }

  /** `sws_parse_header`, lines 165-180: keep the value if a date format accepts it, else clear both. */
  method SetIfModifiedSince(req: Request, v: string, accepts: (DateFormat, string) -> bool)
    modifies req
    ensures req.ifModSince == (if FirstDateFormat(v, accepts).Some? then Some(v) else None)
    ensures req.dateFormat == FirstDateFormat(v, accepts)
    ensures DateHeader(v, accepts) == IfModifiedSince(req.ifModSince, req.dateFormat)
    ensures req.methodCode == old(req.methodCode) && req.simple == old(req.simple)
    ensures req.path == old(req.path) && req.realpath == old(req.realpath)
  {
    req.ifModSince := Some(v);
    if accepts(Rfc1123, v) {
      req.dateFormat := Some(Rfc1123);
    } else if accepts(Rfc850, v) {
      req.dateFormat := Some(Rfc850);
    } else if accepts(Asctime, v) {
      req.dateFormat := Some(Asctime);
    } else {
      req.ifModSince := None;
      req.dateFormat := None;
    }
  }

  // ---------------------------------------------------------------- strrchr_pos

  /** The offset `strrchr` finds in the whole string, the terminator included. */
  function LastOffset(str: string, c: char): Option<nat> {
    if c == '\0' then Some(|str|) else Strrchr(str, c)
  }

  /**
   * `strrchr_pos`: the offset of the last `c` in the whole of `str`,
   * provided it is at most `len`; -1 otherwise.
   */
  method StrrchrPos(str: string, c: char, len: int) returns (r: int)
    requires '\0' !in str
    ensures r == match LastOffset(str, c) case None => -1 case Some(k) => if k <= len || k == 0 then k else -1
    ensures r >= 0 ==> (r <= len || r == 0) && r <= |str| && (r < |str| ==> str[r] == c && c !in str[r + 1..])
  {
    var last := LastOffset(str, c);
    if last.None? {
      return -1;
    }
    var n := 0;
    while n < len && n != last.value
      invariant 0 <= n <= last.value
      invariant n <= len || n == 0
    {
      n := n + 1;
    }
    if n != last.value {
      return -1;
    }
    return n;
  }
}
