/**
 * The request and response records of sws/request.h and sws/response.h,
 * filled in field by field while a connection is handled, and the results
 * the request-line and header parsers of every draft report.
 */
module Messages {

  import opened Wrappers
  import opened Defines
  import opened CStr

  /** `struct request`: built up by the parsers, read by the body strategies. */
  class Request {
    var methodCode: int
    var simple: bool
    var path: Option<string>
    var realpath: Option<string>
    var ifModSince: Option<string>
    var dateFormat: Option<DateFormat>

    /** `create_request`: every field NULL. */
    constructor ()
      ensures path == None && realpath == None && ifModSince == None && dateFormat == None
      ensures methodCode == -1 && !simple
    {
      methodCode := -1;
      simple := false;
      path := None;
      realpath := None;
      ifModSince := None;
      dateFormat := None;
    }
  }

  /** `struct response`: what the response header will announce. */
  class Response {
    var length: int
    var lastModified: Option<string>
    var mimeType: Option<string>

    /** `create_response`: no Last-Modified and no MIME type yet. */
    constructor ()
      ensures lastModified == None && mimeType == None && length == -1
    {
      length := -1;
      lastModified := None;
      mimeType := None;
    }
  }

  /** How a request line ends up: accepted (simple or full request) or rejected with a status. */
  datatype Verdict = Accept(simple: bool) | Reject(status: Status)

  /**
   * What parsing one request line writes: the method code once the method
   * is recognised, the path once it has been extracted (and, in the drafts
   * that resolve it at once, the resolved path), and the verdict.
   */
  datatype LineParse = LineParse(methodCode: Option<int>, path: Option<string>, realpath: Option<string>, verdict: Verdict)

  /** What parsing one header line writes. */
  datatype HeaderParse =
    | HeaderRejected(status: Status)
    | HeaderIgnored
    | IfModifiedSince(value: Option<string>, format: Option<DateFormat>)

  /**
   * The date format recorded for an If-Modified-Since value: RFC 1123 is
   * tried first, then RFC 850, then asctime.  `accepts(f, v)` stands for
   * `strptime(v, f.Pattern(), &tm) != NULL`.
   */
  function FirstDateFormat(value: string, accepts: (DateFormat, string) -> bool): (r: Option<DateFormat>)
    ensures r == Some(Rfc1123) <==> accepts(Rfc1123, value)
    ensures r == Some(Rfc850) <==> !accepts(Rfc1123, value) && accepts(Rfc850, value)
    ensures r == Some(Asctime) <==> !accepts(Rfc1123, value) && !accepts(Rfc850, value) && accepts(Asctime, value)
    ensures r.Some? ==> accepts(r.value, value)
  {
    if accepts(Rfc1123, value) then Some(Rfc1123)
    else if accepts(Rfc850, value) then Some(Rfc850)
    else if accepts(Asctime, value) then Some(Asctime)
    else None
  }

  /** The characters that end the path. */
  const PathStops: set<char> := {' ', '\r'}

  /** After the method token, a single space and the path up to its terminator. */
  lemma PathOf(buf: string, n: nat, path: string, tail: string)
    requires n <= |buf| && buf[n..] == " " + path + tail
    requires |path| >= 1 && path[0] == '/' && ' ' !in path && '\r' !in path
    requires |tail| >= 1 && tail[0] in PathStops
    ensures SkipSpaces(buf, n) == n + 1 && buf[n + 1] == '/'
    ensures SpanUntil(buf, n + 1, PathStops) == n + 1 + |path|
    ensures buf[n + 1..n + 1 + |path|] == path && buf[n + 1 + |path|..] == tail
  {
    var e := n + 1 + |path|;
    assert buf[n] == buf[n..][0] == ' ';
    assert buf[n + 1] == buf[n..][1] == path[0];
    assert SkipSpaces(buf, n + 1) == n + 1;
    forall j | n + 1 <= j < e
      ensures buf[j] !in PathStops
    {
      assert buf[j] == buf[n..][j - n] == path[j - n - 1];
    }
    assert buf[n + 1..] == buf[n..][1..];
    assert buf[n + 1..][..|path|] == path;
    assert buf[e..] == buf[n + 1..][|path|..] == tail;
    assert buf[e] == tail[0];
    SpanUntilAt(buf, n + 1, e, PathStops);
  }

  /** A space, then eight characters starting with 'H', then CR LF: the version begins after the space, and is not CR LF. */
  lemma VersionAfterSpace(t: string, v: string)
    requires |v| == 8 && v[0] == 'H' && t == " " + v + CRLF
    ensures SkipSpaces(t, 0) == 1
    ensures t[1..][..8] == v
    ensures !HasPrefix(t[1..], CRLF)
  {
    assert SkipSpaces(t, 1) == 1;
    assert t[1..] == v + CRLF;
    assert (v + CRLF)[..8] == v;
  }

  /** The space-skipping loop every parser runs: `for (; *buf == ' '; buf++)`. */
  method SkipSpacesLoop(buf: string, i: nat) returns (j: nat)
    requires i <= |buf|
    ensures j == SkipSpaces(buf, i)
  {
    j := i;
    while j < |buf| && buf[j] == ' '
      invariant i <= j <= |buf| && SkipSpaces(buf, j) == SkipSpaces(buf, i)
    {
      j := j + 1;
    }
  }

  /** The path loop of the request-line parsers: up to the first space or CR. */
  method PathEndLoop(buf: string, j: nat) returns (e: nat)
    requires j <= |buf|
    ensures e == SpanUntil(buf, j, PathStops)
  {
    e := j;
    while e < |buf| && buf[e] != ' ' && buf[e] != '\r'
      invariant j <= e <= |buf| && SpanUntil(buf, e, PathStops) == SpanUntil(buf, j, PathStops)
    {
      e := e + 1;
    }
  }

  /** Where the header name starts and where its ':' is. */
  function NameBounds(buf: string): (r: (nat, nat))
    requires ':' in buf
    ensures r.0 <= r.1 < |buf| && buf[r.1] == ':' && ':' !in buf[r.0..r.1]
    ensures forall j :: 0 <= j < r.0 ==> buf[j] == ' '
  {
    var j := SkipSpaces(buf, 0);
    var c := SpanUntil(buf, j, {':'});
    assert c < |buf|;
    assert forall x :: x in buf[j..c] ==> x != ':';
    (j, c)
  }

  /** The characters after the colon and the space that follows it. */
  function AfterColon(buf: string, c: nat): string
    requires c < |buf|
  {
    if c + 2 <= |buf| then buf[c + 2..] else []
  }

  /** The name scan shared by every header parser: skip spaces, then walk to the ':'. */
  method ScanName(buf: string) returns (j: nat, c: nat)
    requires ':' in buf
    ensures (j, c) == NameBounds(buf)
  {
    j := 0;
    while j < |buf| && buf[j] == ' '
      invariant j <= |buf| && SkipSpaces(buf, j) == SkipSpaces(buf, 0)
    {
      j := j + 1;
    }
    c := j;
    while buf[c] != ':'
      invariant j <= c <= NameBounds(buf).1
      invariant SpanUntil(buf, c, {':'}) == NameBounds(buf).1
      decreases NameBounds(buf).1 - c
    {
      c := c + 1;
    }
  }

  const IfModifiedSinceName := "If-Modified-Since"

  /** `name: value CRLF` as a client sends it. */
  function FormatHeader(name: string, value: string): string {
    name + ": " + value + CRLF
  }

  /** Where a formatted header's name ends. */
  lemma FormattedNameBounds(name: string, value: string)
    requires ':' !in name && (name == [] || name[0] != ' ')
    ensures ':' in FormatHeader(name, value)
    ensures NameBounds(FormatHeader(name, value)) == (0, |name|)
    ensures AfterColon(FormatHeader(name, value), |name|) == value + CRLF
  {
    var buf := FormatHeader(name, value);
    assert buf[|name|] == ':';
    assert buf[..|name|] == name;
    assert SkipSpaces(buf, 0) == 0;
    forall j | 0 <= j < |name|
      ensures buf[j] !in {':'}
    {
      assert buf[j] == name[j];
    }
    SpanUntilAt(buf, 0, |name|, {':'});
    assert buf[|name| + 2..] == value + CRLF;
  }

  /** One header line `name: value`. */
  datatype Field = Field(name: string, value: string)

  /** A response header: status line and fields, in sending order. */
  datatype Head = Head(version: string, status: Status, fields: seq<Field>)

  /** The values of every field called `name`, in order. */
  function ValuesOf(fields: seq<Field>, name: string): (r: seq<string>)
    ensures |r| <= |fields|
  {
    if fields == [] then []
    else (if fields[0].name == name then [fields[0].value] else []) + ValuesOf(fields[1..], name)
  }

  /** The values a field at the front contributes, then those of the rest. */
  lemma ValuesOfCons(f: Field, rest: seq<Field>, name: string)
    ensures ValuesOf([f] + rest, name) == Only(f.name == name, f.value) + ValuesOf(rest, name)
  {
    assert ([f] + rest)[1..] == rest;
  }

  /** `[v]` when `b` holds, else nothing. */
  function Only(b: bool, v: string): seq<string> {
    if b then [v] else []
  }

  /** A field that is sent only when `b` holds. */
  function Maybe(b: bool, f: Field): seq<Field> {
    if b then [f] else []
  }

  /** A field sent only when `b` holds contributes its value only then. */
  lemma ValuesOfMaybe(b: bool, f: Field, rest: seq<Field>, name: string)
    ensures ValuesOf(Maybe(b, f) + rest, name) == Only(b && f.name == name, f.value) + ValuesOf(rest, name)
  {
    if b {
      ValuesOfCons(f, rest, name);
    } else {
      assert Maybe(b, f) + rest == rest;
    }
  }

  /** The bytes of the field lines. */
  function FieldLines(fields: seq<Field>): string
  {
    if fields == [] then [] else fields[0].name + ": " + fields[0].value + CRLF + FieldLines(fields[1..])
  }

  /** The bytes of a response header: status line, field lines, and the empty line that ends it. */
  function Wire(h: Head): (r: string)
    ensures |r| >= 5 && r[..5] == "HTTP/" && r[|r| - 2..] == CRLF
  {
    "HTTP/" + h.version + " " + h.status.Text() + CRLF + FieldLines(h.fields) + CRLF
  }
}
