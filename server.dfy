/**
 * sws/server.c: the response header, the stat-error and dispatch
 * decisions of request handling, and the option checks made at start-up.
 * Its line reader, `sws_recv_line`, is `LineReader.ReadLine`.
 *
 * The clock, `realpath`, `stat` and `opendir` are inputs.
 */
module Server {

  import opened Wrappers
  import opened CStr
  import opened Defines
  import opened Messages

  // ---------------------------------------------------------- sws_response_headers

  /** What `sws_response_headers` sends, and the length it records in `resp`. */
  datatype Reply = Reply(head: Head, body: string, length: nat)

  /** The statuses whose response carries the requested entity's headers. */
  predicate EntityStatus(st: Status) {
    st == S200 || st == S304
  }

  /** The HTML body of an error response. */
  function ErrorPage(st: Status): string {
    "<html><h1>" + st.Text() + "</h1></html>"
  }

  /**
   * `sws_response_headers`: the header for `status`, with `date` the
   * formatted current time.  For 200 and 304 the header describes the
   * entity; for any other status a small HTML page is the body.
   */
  function ResponseHeaders(status: Status, simple: bool, lastModified: Option<string>, mime: string, length: nat, date: string): (r: Reply)
    ensures r.head.version == (if simple then "0.9" else "1.0") && r.head.status == status
    ensures EntityStatus(status) ==> r.body == [] && r.length == length
    ensures !EntityStatus(status) ==> r.body == ErrorPage(status) && r.length == |r.body|
  {
    var version := if simple then "0.9" else "1.0";
    if EntityStatus(status) then
      Reply(Head(version, status, EntityFields(status == S200, lastModified, mime, length, date)), [], length)
    else
      var body := ErrorPage(status);
      Reply(Head(version, status, ErrorFields(|body|, date)), body, |body|)
  }

  /**
   * The fields of every response: one Date and one Server; Last-Modified
   * only for 200 and 304 with a modification time; the entity's type for
   * 200 and 304, text/html otherwise; the length except on a 304.
   */
  lemma ResponseHeaderFields(status: Status, simple: bool, lastModified: Option<string>, mime: string, length: nat, date: string)
    ensures var r := ResponseHeaders(status, simple, lastModified, mime, length, date);
            ValuesOf(r.head.fields, "Date") == [date] && ValuesOf(r.head.fields, "Server") == ["SWS"]
    ensures var r := ResponseHeaders(status, simple, lastModified, mime, length, date);
            ValuesOf(r.head.fields, "Last-Modified") == (if EntityStatus(status) && lastModified.Some? then [lastModified.value] else [])
    ensures var r := ResponseHeaders(status, simple, lastModified, mime, length, date);
            ValuesOf(r.head.fields, "Content-Type") == [if EntityStatus(status) then mime else "text/html"]
    ensures var r := ResponseHeaders(status, simple, lastModified, mime, length, date);
            ValuesOf(r.head.fields, "Content-Length") == (if status == S304 then [] else [NatToString(r.length)])
  {
    if EntityStatus(status) {
      EntityFieldValues(status == S200, lastModified, mime, length, date);
    } else {
      ErrorFieldValues(|ErrorPage(status)|, date);
    }
  }

  /** The fields describing the requested entity (200 and 304). */
  function EntityFields(withLength: bool, lastModified: Option<string>, mime: string, length: nat, date: string): seq<Field> {
    [Field("Date", date)] + ([Field("Server", "SWS")] + (Maybe(lastModified.Some?, Field("Last-Modified", lastModified.GetOr([])))
      + ([Field("Content-Type", mime)] + Maybe(withLength, Field("Content-Length", NatToString(length))))))
  }

  /** The values of any one name among the entity fields, field by field. */
  lemma EntityValues(withLength: bool, lastModified: Option<string>, mime: string, length: nat, date: string, name: string)
    ensures ValuesOf(EntityFields(withLength, lastModified, mime, length, date), name) ==
            Only("Date" == name, date) + (Only("Server" == name, "SWS")
            + (Only(lastModified.Some? && "Last-Modified" == name, lastModified.GetOr([]))
            + (Only("Content-Type" == name, mime) + Only(withLength && "Content-Length" == name, NatToString(length)))))
  {
    var modified := Maybe(lastModified.Some?, Field("Last-Modified", lastModified.GetOr([])));
    var size := Maybe(withLength, Field("Content-Length", NatToString(length)));
    var tail := [Field("Content-Type", mime)] + size;
    ValuesOfMaybe(withLength, Field("Content-Length", NatToString(length)), [], name);
    assert size + [] == size;
    ValuesOfCons(Field("Content-Type", mime), size, name);
    ValuesOfMaybe(lastModified.Some?, Field("Last-Modified", lastModified.GetOr([])), tail, name);
    ValuesOfCons(Field("Server", "SWS"), modified + tail, name);
    ValuesOfCons(Field("Date", date), [Field("Server", "SWS")] + (modified + tail), name);
  }

  /** Each entity field appears once, Last-Modified and Content-Length only when present. */
  lemma EntityFieldValues(withLength: bool, lastModified: Option<string>, mime: string, length: nat, date: string)
    ensures var fs := EntityFields(withLength, lastModified, mime, length, date);
            ValuesOf(fs, "Date") == [date] && ValuesOf(fs, "Server") == ["SWS"]
    ensures var fs := EntityFields(withLength, lastModified, mime, length, date);
            ValuesOf(fs, "Last-Modified") == (if lastModified.Some? then [lastModified.value] else [])
    ensures ValuesOf(EntityFields(withLength, lastModified, mime, length, date), "Content-Type") == [mime]
    ensures ValuesOf(EntityFields(withLength, lastModified, mime, length, date), "Content-Length") ==
            (if withLength then [NatToString(length)] else [])
  {
    EntityValues(withLength, lastModified, mime, length, date, "Date");
    EntityValues(withLength, lastModified, mime, length, date, "Server");
    EntityValues(withLength, lastModified, mime, length, date, "Last-Modified");
    EntityValues(withLength, lastModified, mime, length, date, "Content-Type");
    EntityValues(withLength, lastModified, mime, length, date, "Content-Length");
  }

  /** The fields of an error response, whose body is `bodyLength` bytes of HTML. */
  function ErrorFields(bodyLength: nat, date: string): seq<Field> {
    [Field("Date", date)] + ([Field("Server", "SWS")] + ([Field("Content-Type", "text/html")]
      + [Field("Content-Length", NatToString(bodyLength))]))
  }

  /** The values of any one name among the error fields, field by field. */
  lemma ErrorValues(bodyLength: nat, date: string, name: string)
    ensures ValuesOf(ErrorFields(bodyLength, date), name) ==
            Only("Date" == name, date) + (Only("Server" == name, "SWS")
            + (Only("Content-Type" == name, "text/html") + Only("Content-Length" == name, NatToString(bodyLength))))
  {
    var length := Field("Content-Length", NatToString(bodyLength));
    var mime := Field("Content-Type", "text/html");
    var server := Field("Server", "SWS");
    ValuesOfCons(length, [], name);
    ValuesOfCons(mime, [length], name);
    ValuesOfCons(server, [mime] + [length], name);
    ValuesOfCons(Field("Date", date), [server] + ([mime] + [length]), name);
  }

  /** An error response has one Date, Server, text/html Content-Type and Content-Length, and no Last-Modified. */
  lemma ErrorFieldValues(bodyLength: nat, date: string)
    ensures ValuesOf(ErrorFields(bodyLength, date), "Date") == [date]
    ensures ValuesOf(ErrorFields(bodyLength, date), "Server") == ["SWS"]
    ensures ValuesOf(ErrorFields(bodyLength, date), "Last-Modified") == []
    ensures ValuesOf(ErrorFields(bodyLength, date), "Content-Type") == ["text/html"]
    ensures ValuesOf(ErrorFields(bodyLength, date), "Content-Length") == [NatToString(bodyLength)]
  {
    ErrorValues(bodyLength, date, "Date");
    ErrorValues(bodyLength, date, "Server");
    ErrorValues(bodyLength, date, "Last-Modified");
    ErrorValues(bodyLength, date, "Content-Type");
    ErrorValues(bodyLength, date, "Content-Length");
  }

  // ----------------------------------------------------- sws_handle_request: decisions

  /** The `errno` values `stat` can leave that the handler tells apart. */
  datatype Errno = EACCES | ENOENT | ENOTDIR | OtherErrno

  /** The status sent when `stat` on the resolved path fails. */
  function StatFailureStatus(e: Errno): (r: Status)
    ensures r == S403 <==> e == EACCES
    ensures r == S404 <==> e == ENOENT || e == ENOTDIR
    ensures r == S500 <==> e == OtherErrno
  {
    match e
    case EACCES => S403
    case ENOENT => S404
    case ENOTDIR => S404
    case OtherErrno => S500
  }

  /** What `stat` on the resolved path gives. */
  datatype StatResult = StatOk(isDir: bool) | StatFailed(errno: Errno)

  /** Which body strategy handles the request. */
  datatype Action =
    | SendStatus(status: Status)     // only the response header for this status
    | Abandon(status: Status)        // status set, nothing sent
    | ServeFile(path: string)
    | CreateIndex
    | ExecuteCgi

  /**
   * The CGI test as written: the resolved path begins with the CGI
   * directory as a string, so a sibling such as `<cgidir>.html` passes.
   */
  predicate CgiSelectsAsWritten(realpath: string, cgidir: string) {
    HasPrefix(realpath, cgidir)
  }

  /** A file at `/srv/www/cgi.html` counts as inside the CGI directory `/srv/www/cgi`. */
  lemma CgiSiblingSelectedAsWritten()
    ensures CgiSelectsAsWritten("/srv/www/cgi.html", "/srv/www/cgi")
    ensures !Within("/srv/www/cgi.html", "/srv/www/cgi")
  {
    assert "/srv/www/cgi.html"[..|"/srv/www/cgi"|] == "/srv/www/cgi";
    assert "/srv/www/cgi.html"[12] != "/srv/www/cgi/"[12];
  }

  /** `path` is `dir` itself or lies below it. */
  predicate Within(path: string, dir: string) {
    path == dir || HasPrefix(path, dir + "/")
  }

  /**
   * A path is within `dir` exactly when it begins with `dir` and the
   * next character, if any, starts a new component.
   */
  lemma WithinIsComponentPrefix(path: string, dir: string)
    ensures Within(path, dir) <==> HasPrefix(path, dir) && (|path| == |dir| || path[|dir|] == '/')
  {
    if HasPrefix(path, dir) && |path| > |dir| && path[|dir|] == '/' {
      assert path[..|dir| + 1] == path[..|dir|] + [path[|dir|]];
    }
    if HasPrefix(path, dir + "/") {
      assert path[..|dir|] == (dir + "/")[..|dir|];
    }
  }

  /**
   * The dispatch of `sws_handle_request` once the headers are read.
   * `listing` is the directory's names in `readdir` order (None when
   * `opendir` fails).  The CGI test is the component-wise `Within`.
   */
  function Dispatch(realpath: string, st: StatResult, listing: Option<seq<string>>, cgidir: Option<string>): (a: Action)
    ensures st.StatFailed? <==> a.SendStatus?
    ensures st.StatFailed? ==> a.status == StatFailureStatus(st.errno)
    ensures a.ExecuteCgi? <==> st == StatOk(false) && cgidir.Some? && Within(realpath, cgidir.value)
    ensures a == ServeFile(realpath + "/index.html") <==>
            st == StatOk(true) && listing.Some? && "index.html" in listing.value
    ensures a == ServeFile(realpath) <==> st == StatOk(false) && !(cgidir.Some? && Within(realpath, cgidir.value))
    ensures a.CreateIndex? <==> st == StatOk(true) && listing.Some? && "index.html" !in listing.value
    ensures a.Abandon? <==> st == StatOk(true) && listing.None?
  {
    match st
    case StatFailed(e) => SendStatus(StatFailureStatus(e))
    case StatOk(isDir) =>
      if isDir then
        if listing.None? then Abandon(S500)
        else if "index.html" in listing.value then ServeFile(realpath + "/index.html")
        else CreateIndex
      else if cgidir.Some? && Within(realpath, cgidir.value) then ExecuteCgi
      else ServeFile(realpath)
  }

  // ------------------------------------------------------------------- sws_init

  datatype SwsOpts = SwsOpts(dir: string, cgidir: Option<string>, secdir: Option<string>,
                             key: Option<string>, logfile: Option<string>, debug: bool)

  /** The resolved directories the server runs with. */
  datatype Config = Config(dir: string, cgidir: Option<string>, secdir: Option<string>, logfile: Option<string>)

  datatype InitError =
    | RealpathFailed(arg: string)
    | NotADirectory(arg: string)
    | CgiOutsideRoot
    | LogfileUnusable
    | KeyWithoutSecureDir
    | SecureDirWithoutKey
    | SecureOutsideRoot
    | ContentTypesUnusable

  datatype InitResult = Started(config: Config) | Exit(error: InitError)

  /** `realpath` over every optional argument; the first failure wins. */
  function ResolveAll(o: SwsOpts, realpath: string -> Option<string>): Wrappers.Option<Config> {
    match realpath(o.dir)
    case None => None
    case Some(d) =>
      if o.cgidir.Some? && realpath(o.cgidir.value).None? then None
      else if o.secdir.Some? && realpath(o.secdir.value).None? then None
      else if o.logfile.Some? && realpath(o.logfile.value).None? then None
      else Some(Config(d,
                       if o.cgidir.Some? then realpath(o.cgidir.value) else None,
                       if o.secdir.Some? then realpath(o.secdir.value) else None,
                       if o.logfile.Some? then realpath(o.logfile.value) else None))
  }

  /** The first argument `realpath` rejects. */
  function FirstUnresolved(o: SwsOpts, realpath: string -> Option<string>): string {
    if realpath(o.dir).None? then o.dir
    else if o.cgidir.Some? && realpath(o.cgidir.value).None? then o.cgidir.value
    else if o.secdir.Some? && realpath(o.secdir.value).None? then o.secdir.value
    else if o.logfile.Some? then o.logfile.value
    else o.dir
  }

  /**
   * `sws_init`: resolves the directories and rejects inconsistent options.
   * `isDir(p)` stands for a successful `stat` of a directory, `logOpens`
   * for a successful `init_logfile` and `typesLoad` for a successful
   * `load_content_types`.
   */
  function Init(o: SwsOpts, realpath: string -> Option<string>, isDir: string -> bool,
                logOpens: bool, typesLoad: bool): (r: InitResult)
    ensures r.Started? ==> (o.key.Some? <==> o.secdir.Some?)
    ensures r.Started? ==> realpath(o.dir) == Some(r.config.dir) && isDir(r.config.dir)
    ensures r.Started? ==> (o.cgidir.Some? <==> r.config.cgidir.Some?)
    ensures r.Started? && r.config.cgidir.Some? ==>
              isDir(r.config.cgidir.value) && HasPrefix(r.config.cgidir.value, r.config.dir)
    ensures r.Started? && r.config.secdir.Some? ==>
              isDir(r.config.secdir.value) && HasPrefix(r.config.secdir.value, r.config.dir)
    ensures r == Exit(KeyWithoutSecureDir) ==> o.key.Some? && o.secdir.None?
    ensures r == Exit(SecureDirWithoutKey) ==> o.key.None? && o.secdir.Some?
    ensures realpath(o.dir).None? ==> r == Exit(RealpathFailed(o.dir))
  {
    match ResolveAll(o, realpath)
    case None => Exit(RealpathFailed(FirstUnresolved(o, realpath)))
    case Some(c) =>
      if !isDir(c.dir) then Exit(NotADirectory(c.dir))
      else if c.cgidir.Some? && !isDir(c.cgidir.value) then Exit(NotADirectory(c.cgidir.value))
      else if c.cgidir.Some? && !HasPrefix(c.cgidir.value, c.dir) then Exit(CgiOutsideRoot)
      else if c.logfile.Some? && !o.debug && !logOpens then Exit(LogfileUnusable)
      else if o.key.Some? && o.secdir.None? then Exit(KeyWithoutSecureDir)
      else if o.key.None? && o.secdir.Some? then Exit(SecureDirWithoutKey)
      else if c.secdir.Some? && !isDir(c.secdir.value) then Exit(NotADirectory(c.secdir.value))
      else if c.secdir.Some? && !HasPrefix(c.secdir.value, c.dir) then Exit(SecureOutsideRoot)
      else if !typesLoad then Exit(ContentTypesUnusable)
      else Started(c)
  }
}
