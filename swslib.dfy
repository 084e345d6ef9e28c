/**
 * sws/swslib.c, the earliest server draft: its request-line and header
 * parsers, response header, and the option checks of its start-up that do
 * not touch the filesystem.  Its line reader, `sws_get_line`, is the same
 * loop as the later draft's and is `LineReader.ReadLine`.
 */
module SwsLib {

  import opened Wrappers
  import opened CStr
  import opened Defines
  import opened Messages

  // -------------------------------------------------------------------- sws_init

  /**
   * `sws_init`, lines 97-100: every trailing '/' is removed from the serve
   * directory.  The result is the longest prefix of `dir` that does not end
   * in '/'.
   */
  method StripTrailingSlashes(dir: string) returns (r: string)
    ensures HasPrefix(dir, r)
    ensures forall j :: |r| <= j < |dir| ==> dir[j] == '/'
    ensures r == [] || r[|r| - 1] != '/'
  {
    r := dir;
    while |r| > 0 && r[|r| - 1] == '/'
      invariant HasPrefix(dir, r)
      invariant forall j :: |r| <= j < |dir| ==> dir[j] == '/'
    {
      r := r[..|r| - 1];
    }
  }

  datatype PairingError = KeyWithoutSecureDir | SecureDirWithoutKey

  /** `sws_init`, lines 209-219: the key and the secure directory come together or not at all. */
  function CheckKeyPairing(key: Option<string>, secdir: Option<string>): (r: Option<PairingError>)
    ensures r.None? <==> (key.Some? <==> secdir.Some?)
    ensures r == Some(KeyWithoutSecureDir) <==> key.Some? && secdir.None?
  {
    if key.Some? && secdir.None? then Some(KeyWithoutSecureDir)
    else if key.None? && secdir.Some? then Some(SecureDirWithoutKey)
    else None
  }

  // ------------------------------------------------------------ sws_parse_method

  /** The method token: its code and its length.  Only the prefix is compared, no space is required. */
  function MethodToken(buf: string): (r: Option<(int, nat)>)
    ensures r.Some? ==> r.value.1 <= |buf|
  {
    if HasPrefix(buf, "GET") then Some((0, 3))
    else if HasPrefix(buf, "HEAD") then Some((1, 4))
    else if HasPrefix(buf, "POST") then Some((2, 4))
    else None
  }

  /** Each method is recognised exactly when its name begins the line, whatever follows it. */
  lemma MethodTokenCases(buf: string)
    ensures MethodToken(buf) == Some((0, 3)) <==> HasPrefix(buf, "GET")
    ensures MethodToken(buf) == Some((1, 4)) <==> HasPrefix(buf, "HEAD")
    ensures MethodToken(buf) == Some((2, 4)) <==> HasPrefix(buf, "POST")
    ensures MethodToken(buf).None? <==> !HasPrefix(buf, "GET") && !HasPrefix(buf, "HEAD") && !HasPrefix(buf, "POST")
  {
    assert HasPrefix(buf, "GET") ==> buf[0] == "GET"[0];
    assert HasPrefix(buf, "HEAD") ==> buf[0] == "HEAD"[0];
    assert HasPrefix(buf, "POST") ==> buf[0] == "POST"[0];
  }

  /**
   * What `sws_parse_method` makes of a request line: method code, path up
   * to the first space or CR, then CR LF (a simple request, GET only) or
   * "HTTP/1.1" (a full request).
   */
  function RequestLine(buf: string): (r: LineParse)
    ensures r.methodCode.None? <==> r.verdict == Reject(S501)
    ensures r.methodCode.None? ==> r.path.None?
    ensures r.path.Some? ==> r.methodCode.Some? && |r.path.value| >= 1 && r.path.value[0] == '/'
                             && ' ' !in r.path.value && '\r' !in r.path.value
    ensures r.verdict.Accept? ==> r.path.Some?
    ensures r.verdict == Accept(true) ==> r.methodCode == Some(0)
    ensures r.realpath.None?
  {
    match MethodToken(buf)
    case None => LineParse(None, None, None, Reject(S501))
    case Some(t) => AfterMethod(buf, t.0, t.1)
  }

  /** The rest of the request line once the method token (of length `start`) is recognised. */
  function AfterMethod(buf: string, code: int, start: nat): (r: LineParse)
    requires start <= |buf|
    ensures r.methodCode == Some(code) && r.realpath.None?
    ensures r.path.Some? ==> |r.path.value| >= 1 && r.path.value[0] == '/'
                             && ' ' !in r.path.value && '\r' !in r.path.value
    ensures r.verdict.Accept? ==> r.path.Some?
    ensures r.verdict == Accept(true) ==> code == 0
    ensures r.verdict.Reject? ==> r.verdict.status == S400
  {
    var j := SkipSpaces(buf, start);
    if j == |buf| || buf[j] != '/' then LineParse(Some(code), None, None, Reject(S400))
    else
      var e := SpanUntil(buf, j, PathStops);
      assert forall c :: c in buf[j..e] ==> c !in PathStops;
      LineParse(Some(code), Some(buf[j..e]), None, Version(buf[SkipSpaces(buf, e)..], code))
  }

  /** What follows the path: CR LF after GET, or "HTTP/1.1". */
  function Version(rest: string, code: int): Verdict {
    if HasPrefix(rest, CRLF) && code == 0 then Accept(true)
    else if HasPrefix(rest, "HTTP/1.1") then Accept(false)
    else Reject(S400)
  }

  /** The method token of a method code. */
  function MethodName(code: int): string
    requires 0 <= code <= 2
  {
    if code == 0 then "GET" else if code == 1 then "HEAD" else "POST"
  }

  /** The request line a client sends for `code` and `path`: simple (`GET path CRLF`) or full. */
  function FormatRequestLine(code: int, path: string, simple: bool): string
    requires 0 <= code <= 2
  {
    MethodName(code) + (" " + path + VersionSuffix(simple))
  }

  function VersionSuffix(simple: bool): string {
    if simple then CRLF else " HTTP/1.1" + CRLF
  }

  /** A well-formed request line is parsed back into its method, path and kind. */
  lemma RequestLineRoundTrip(code: int, path: string, simple: bool)
    requires 0 <= code <= 2 && |path| >= 1 && path[0] == '/' && ' ' !in path && '\r' !in path
    requires simple ==> code == 0
    ensures RequestLine(FormatRequestLine(code, path, simple)) == LineParse(Some(code), Some(path), None, Accept(simple))
  {
    var rest := " " + path + VersionSuffix(simple);
    var buf := MethodName(code) + rest;
    var r := AfterMethod(buf, code, |MethodName(code)|);
    MethodTokenOf(code, rest);
    FormattedRest(MethodName(code), code, path, simple);
    assert r == LineParse(Some(code), Some(path), None, Accept(simple));
  }

  /** After the method of a formatted request line come its path and its version. */
  lemma FormattedRest(m: string, code: int, path: string, simple: bool)
    requires |path| >= 1 && path[0] == '/' && ' ' !in path && '\r' !in path
    requires simple ==> code == 0
    ensures var r := AfterMethod(m + (" " + path + VersionSuffix(simple)), code, |m|);
            r.path == Some(path) && r.verdict == Accept(simple)
  {
    var tail := VersionSuffix(simple);
    var buf := m + (" " + path + tail);
    DropPrefix(m, " " + path + tail);
    assert |tail| >= 1 && tail[0] in PathStops;
    PathOf(buf, |m|, path, tail);
    AfterMethodFromParts(buf, |m|, |m| + 1 + |path|, code, path, tail);
    VersionOf(code, simple);
  }

  /** A method name followed by a space is recognised as that method. */
  lemma MethodTokenOf(code: int, rest: string)
    requires 0 <= code <= 2 && |rest| >= 1 && rest[0] == ' '
    ensures MethodToken(MethodName(code) + rest) == Some((code, |MethodName(code)|))
    ensures RequestLine(MethodName(code) + rest) == AfterMethod(MethodName(code) + rest, code, |MethodName(code)|)
  {
    var buf := MethodName(code) + rest;
    assert buf[..|MethodName(code)|] == MethodName(code);
    assert buf[0] == MethodName(code)[0];
  }

  /** A space, a path and what ends it after the method: that path, and the verdict on what follows. */
  lemma AfterMethodFromParts(buf: string, n: nat, e: nat, code: int, path: string, tail: string)
    requires n + 1 < e <= |buf| && SkipSpaces(buf, n) == n + 1 && buf[n + 1] == '/'
    requires SpanUntil(buf, n + 1, PathStops) == e && buf[n + 1..e] == path && buf[e..] == tail
    ensures AfterMethod(buf, code, n).path == Some(path)
    ensures AfterMethod(buf, code, n).verdict == Version(tail[SkipSpaces(tail, 0)..], code)
  {
    SkipSpacesFrom(buf, e, tail);
  }

  /** The version suffix of a formatted request line is accepted, as a simple request after CR LF. */
  lemma VersionOf(code: int, simple: bool)
    requires simple ==> code == 0
    ensures Version(VersionSuffix(simple)[SkipSpaces(VersionSuffix(simple), 0)..], code) == Accept(simple)
  {
    var t := VersionSuffix(simple);
    if simple {
      assert SkipSpaces(t, 0) == 0;
      assert t[0..][..2] == CRLF;
    } else {
      VersionAfterSpace(t, "HTTP/1.1");
    }
  }

  /**
   * `sws_parse_method`: writes the method code once it is recognised, the
   * path once it is extracted, and the request kind when the line is
   * accepted; returns -1 with the status otherwise.
   */
  method ParseMethod(req: Request, buf: string) returns (rc: int, status: Option<Status>)
    modifies req
    ensures var r := RequestLine(buf);
            && req.methodCode == (if r.methodCode.Some? then r.methodCode.value else old(req.methodCode))
            && req.path == (if r.path.Some? then r.path else old(req.path))
            && req.simple == (if r.verdict.Accept? then r.verdict.simple else old(req.simple))
            && (r.verdict.Accept? ==> rc == 0 && status == None)
            && (r.verdict.Reject? ==> rc == -1 && status == Some(r.verdict.status))
    ensures req.realpath == old(req.realpath) && req.ifModSince == old(req.ifModSince)
    ensures req.dateFormat == old(req.dateFormat)
  {
    var i: nat;
    if HasPrefix(buf, "GET") {
      i := 3;
      req.methodCode := 0;
    } else if HasPrefix(buf, "HEAD") {
      i := 4;
      req.methodCode := 1;
    } else if HasPrefix(buf, "POST") {
      i := 4;
      req.methodCode := 2;
    } else {
      return -1, Some(S501);
    }
    assert RequestLine(buf) == AfterMethod(buf, req.methodCode, i) by { MethodTokenCases(buf); }
    rc, status := ParseAfterMethod(req, buf, i);
  }

  /** The part of `sws_parse_method` after the method token: path and version. */
  method ParseAfterMethod(req: Request, buf: string, i: nat) returns (rc: int, status: Option<Status>)
    requires i <= |buf|
    modifies req
    ensures var r := AfterMethod(buf, old(req.methodCode), i);
            && req.methodCode == old(req.methodCode)
            && req.path == (if r.path.Some? then r.path else old(req.path))
            && req.simple == (if r.verdict.Accept? then r.verdict.simple else old(req.simple))
            && (r.verdict.Accept? ==> rc == 0 && status == None)
            && (r.verdict.Reject? ==> rc == -1 && status == Some(r.verdict.status))
    ensures req.realpath == old(req.realpath) && req.ifModSince == old(req.ifModSince)
    ensures req.dateFormat == old(req.dateFormat)
  {
    var j := SkipSpacesLoop(buf, i);
    if j == |buf| || buf[j] != '/' {
      return -1, Some(S400);
    }
    var e := PathEndLoop(buf, j);
    req.path := Some(buf[j..e]);
    var p := SkipSpacesLoop(buf, e);
    assert AfterMethod(buf, req.methodCode, i).verdict == Version(buf[p..], req.methodCode);
    if HasPrefix(buf[p..], CRLF) && req.methodCode == 0 {
      req.simple := true;
    } else if HasPrefix(buf[p..], "HTTP/1.1") {
      req.simple := false;
    } else {
      return -1, Some(S400);
    }
    return 0, None;
  }

  // ------------------------------------------------------------ sws_parse_header

  /** The longest prefix of `s` that does not end in a space. */
  function DropTrailingSpaces(s: string): (r: string)
    ensures HasPrefix(s, r) && (r == [] || r[|r| - 1] != ' ')
    ensures forall j :: |r| <= j < |s| ==> s[j] == ' '
  {
    if s == [] || s[|s| - 1] != ' ' then s else DropTrailingSpaces(s[..|s| - 1])
  }

  /** The field value with its line ending (two bytes) and then its trailing spaces removed. */
  function TrimValue(v: string): string {
    DropTrailingSpaces(if |v| >= 2 then v[..|v| - 2] else [])
  }

  /**
   * The header test as written: `strncmp(buf, "If-Modified-Since", i)`
   * with `i` the name's length, true for every prefix of the name.
   */
  predicate NamesIfModifiedSinceAsWritten(name: string) {
    HasPrefix(IfModifiedSinceName, name)
  }

  /** `sws_parse_header` as written. */
  function HeaderAsWritten(buf: string, accepts: (DateFormat, string) -> bool): HeaderParse {
    if ':' !in buf then HeaderRejected(S400)
    else
      var (j, c) := NameBounds(buf);
      if NamesIfModifiedSinceAsWritten(buf[j..c]) then
        var v := TrimValue(AfterColon(buf, c));
        IfModifiedSince(Some(v), FirstDateFormat(v, accepts))
      else HeaderIgnored
  }

  /** A header called "If" is taken for If-Modified-Since. */
  lemma ShortNameTakenAsWritten(accepts: (DateFormat, string) -> bool)
    ensures HeaderAsWritten("If: x\r\n", accepts).IfModifiedSince?
  {
    var buf := "If: x\r\n";
    assert buf[2] == ':';
    SpanUntilAt(buf, 0, 2, {':'});
    assert buf[0..2] == "If";
    assert IfModifiedSinceName[..2] == "If";
  }

  /**
   * `sws_parse_header` with the name compared in full: a line without ':'
   * is 400; If-Modified-Since records its trimmed value and the first date
   * format that accepts it (the value is kept even when none does); every
   * other header is ignored.
   */
  function Header(buf: string, accepts: (DateFormat, string) -> bool): (r: HeaderParse)
    ensures r.HeaderRejected? <==> ':' !in buf
    ensures r.HeaderRejected? ==> r.status == S400
    ensures r.IfModifiedSince? ==> r.value.Some? && r.format == FirstDateFormat(r.value.value, accepts)
    ensures r.IfModifiedSince? ==> r.value.value == [] || r.value.value[|r.value.value| - 1] != ' '
  {
    if ':' !in buf then HeaderRejected(S400)
    else
      var (j, c) := NameBounds(buf);
      if buf[j..c] == IfModifiedSinceName then
        var v := TrimValue(AfterColon(buf, c));
        IfModifiedSince(Some(v), FirstDateFormat(v, accepts))
      else HeaderIgnored
  }

  /**
   * An If-Modified-Since line is read back as its value, and any other
   * header line is ignored.
   */
  lemma HeaderRoundTrip(name: string, value: string, accepts: (DateFormat, string) -> bool)
    requires ':' !in name && (name == [] || name[0] != ' ')
    requires value == [] || value[|value| - 1] != ' '
    ensures Header(FormatHeader(name, value), accepts) ==
            if name == IfModifiedSinceName then IfModifiedSince(Some(value), FirstDateFormat(value, accepts))
            else HeaderIgnored
  {
    FormattedNameBounds(name, value);
    var buf := FormatHeader(name, value);
    assert buf[0..|name|] == name;
    assert (value + CRLF)[..|value|] == value;
  }

  /**
   * `sws_parse_header` on `req`: a rejected line sets the status; an
   * If-Modified-Since line sets the value and the date format.
   */
  method ParseHeader(req: Request, buf: string, accepts: (DateFormat, string) -> bool) returns (rc: int, status: Option<Status>)
    modifies req
    ensures match Header(buf, accepts)
            case HeaderRejected(st) => rc == -1 && status == Some(st) && req.ifModSince == old(req.ifModSince) && req.dateFormat == old(req.dateFormat)
            case HeaderIgnored => rc == 0 && status == None && req.ifModSince == old(req.ifModSince) && req.dateFormat == old(req.dateFormat)
            case IfModifiedSince(v, f) => rc == 0 && status == None && req.ifModSince == v && req.dateFormat == f
    ensures req.methodCode == old(req.methodCode) && req.simple == old(req.simple)
    ensures req.path == old(req.path) && req.realpath == old(req.realpath)
  {
    if ':' !in buf {
      return -1, Some(S400);
    }
    var j, c := ScanName(buf);
    if buf[j..c] == IfModifiedSinceName {
      var v := TrimLineEnd(AfterColon(buf, c));
      SetIfModifiedSince(req, v, accepts);
    }
    return 0, None;
  }

  /** `sws_parse_header`, lines 611-612: drop the line ending, then the trailing spaces. */
  method TrimLineEnd(tmp: string) returns (v: string)
    ensures v == TrimValue(tmp)
  {
    var k: nat := if |tmp| >= 2 then |tmp| - 2 else 0;
    while k > 0 && tmp[k - 1] == ' '
      invariant k <= |tmp| && DropTrailingSpaces(tmp[..k]) == TrimValue(tmp)
    {
      assert tmp[..k][..k - 1] == tmp[..k - 1];
      k := k - 1;
    }
    v := tmp[..k];
  }

  /** `sws_parse_header`, lines 613-623: record the value and the first date format that accepts it. */
  method SetIfModifiedSince(req: Request, v: string, accepts: (DateFormat, string) -> bool)
    modifies req
    ensures req.ifModSince == Some(v) && req.dateFormat == FirstDateFormat(v, accepts)
    ensures req.methodCode == old(req.methodCode) && req.simple == old(req.simple)
    ensures req.path == old(req.path) && req.realpath == old(req.realpath)
  {
    req.ifModSince := Some(v);
    if accepts(Rfc1123, v) {
      req.dateFormat := Some(Rfc1123);
    } else if accepts(Rfc850, v) {
      req.dateFormat := Some(Rfc850);
    } else if accepts(Asctime, v) {
      req.dateFormat := Some(Asctime);
    } else {
      req.dateFormat := None;
    }
  }

  // --------------------------------------------------------- sws_response_header

  /**
   * `sws_response_header`: always HTTP/1.0; a 200 carries Last-Modified, a
   * text/html Content-Type and the length, any other status only Date and
   * Server.
   */
  function ResponseHeader(status: Status, lastModified: string, length: nat, date: string): (h: Head)
    ensures h.version == "1.0" && h.status == status
  {
    var ok := status == S200;
    Head("1.0", status, [Field("Date", date)] + ([Field("Server", "SWS")]
      + (Maybe(ok, Field("Last-Modified", lastModified)) + (Maybe(ok, Field("Content-Type", "text/html"))
      + Maybe(ok, Field("Content-Length", NatToString(length)))))))
  }

  /** The values of any one name in the header, field by field. */
  lemma HeaderValues(status: Status, lastModified: string, length: nat, date: string, name: string)
    ensures var ok := status == S200;
            ValuesOf(ResponseHeader(status, lastModified, length, date).fields, name) ==
            Only("Date" == name, date) + (Only("Server" == name, "SWS") + (Only(ok && "Last-Modified" == name, lastModified)
            + (Only(ok && "Content-Type" == name, "text/html") + Only(ok && "Content-Length" == name, NatToString(length)))))
  {
    var ok := status == S200;
    var modified := Maybe(ok, Field("Last-Modified", lastModified));
    var mime := Maybe(ok, Field("Content-Type", "text/html"));
    var size := Maybe(ok, Field("Content-Length", NatToString(length)));
    var server := Field("Server", "SWS");
    ValuesOfMaybe(ok, Field("Content-Length", NatToString(length)), [], name);
    assert size + [] == size;
    ValuesOfMaybe(ok, Field("Content-Type", "text/html"), size, name);
    ValuesOfMaybe(ok, Field("Last-Modified", lastModified), mime + size, name);
    ValuesOfCons(server, modified + (mime + size), name);
    ValuesOfCons(Field("Date", date), [server] + (modified + (mime + size)), name);
  }

  /** Every header has one Date and one Server; only a 200 has the entity fields. */
  lemma ResponseHeaderFields(status: Status, lastModified: string, length: nat, date: string)
    ensures var h := ResponseHeader(status, lastModified, length, date);
            ValuesOf(h.fields, "Date") == [date] && ValuesOf(h.fields, "Server") == ["SWS"]
    ensures ValuesOf(ResponseHeader(status, lastModified, length, date).fields, "Last-Modified") ==
            (if status == S200 then [lastModified] else [])
    ensures ValuesOf(ResponseHeader(status, lastModified, length, date).fields, "Content-Type") ==
            (if status == S200 then ["text/html"] else [])
    ensures ValuesOf(ResponseHeader(status, lastModified, length, date).fields, "Content-Length") ==
            (if status == S200 then [NatToString(length)] else [])
  {
    HeaderValues(status, lastModified, length, date, "Date");
    HeaderValues(status, lastModified, length, date, "Server");
    HeaderValues(status, lastModified, length, date, "Last-Modified");
    HeaderValues(status, lastModified, length, date, "Content-Type");
    HeaderValues(status, lastModified, length, date, "Content-Length");
  }
}
