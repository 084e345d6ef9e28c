/**
 * sws/files.c: two of the three body strategies of the middle draft:
 * serving a file (with the conditional-GET test) and generating a
 * directory index.  Running a CGI program is module Cgi.
 *
 * The file system and the clock are inputs: a stat record and the
 * file's bytes, and a directory listing in `scandir` order.
 */
module Files {

  import opened Wrappers
  import opened CStr
  import opened Defines
  import opened Messages
  import opened Server
  import opened List
  import opened ContentType
  import opened Paths
  import Utils
  import Parse

  // ------------------------------------------------------------- sws_serve_file

  /** What `stat` reports about the file. */
  datatype FileStat = FileStat(mtime: int, size: nat)

  /**
   * The conditional-GET test as written: 304 only when the time the
   * client sent is strictly later than the file's modification time.
   */
  function ConditionalStatusAsWritten(status: Status, ifModSince: Option<string>, reqTime: int, mtime: int): Status {
    if ifModSince.Some? && reqTime > mtime then S304 else status
  }

  /**
   * The conditional-GET test: 304 when the file has not been modified
   * since the time the client sent, that is when its modification time
   * is not after it.
   */
  function ConditionalStatus(status: Status, ifModSince: Option<string>, reqTime: int, mtime: int): (r: Status)
    ensures r == S304 <==> (ifModSince.Some? && mtime <= reqTime) || status == S304
    ensures r != S304 ==> r == status
  {
    if ifModSince.Some? && mtime <= reqTime then S304 else status
  }

  /**
   * A client that sends back the Last-Modified time it was given is told
   * the file is unchanged, but the test as written answers 200 with the
   * whole file.
   */
  lemma EchoedDateAsWritten(mtime: int, value: string)
    ensures ConditionalStatusAsWritten(S200, Some(value), mtime, mtime) == S200
    ensures ConditionalStatus(S200, Some(value), mtime, mtime) == S304
  {
  }

  /** Once a time gives 304, every later time does too. */
  lemma NotModifiedIsMonotone(status: Status, value: string, t: int, t': int, mtime: int)
    requires t <= t'
    requires ConditionalStatus(status, Some(value), t, mtime) == S304
    ensures ConditionalStatus(status, Some(value), t', mtime) == S304
  {
  }

  /** The key the MIME lookup is given: the realpath from its last '.', dot included, or NULL. */
  function MimeKey(realpath: string): (r: Option<string>)
    ensures r.None? <==> '.' !in realpath
    ensures r.Some? ==> HasSuffix(realpath, r.value) && |r.value| >= 1 && r.value[0] == '.' && '.' !in r.value[1..]
  {
    match Strrchr(realpath, '.')
    case None => None
    case Some(k) => Some(realpath[k..])
  }

  /** `s` ends with `t`. */
  predicate HasSuffix(s: string, t: string) {
    |t| <= |s| && s[|s| - |t|..] == t
  }

  /** The file's bytes follow the header only for a GET answered with 200. */
  predicate BodySent(methodCode: int, status: Status) {
    methodCode == 0 && status == S200
  }

  /**
   * `sws_serve_file`.  `st` is what `stat` gives (None: it fails),
   * `opens` whether `fopen` succeeds, `reqTime` the time the request's
   * If-Modified-Since value denotes, `httpDate` the RFC 1123 formatting of
   * a time, `content` the file's bytes and `date` the current time as the
   * response header shows it.  Returns the result code, the status
   * afterwards, the response header sent and the body sent after it.
   */
  method ServeFile(req: Request, resp: Response, status: Status, st: Option<FileStat>, opens: bool,
                   reqTime: int, httpDate: int -> string, content: string,
                   ctypes: List<Entry>, date: string)
    returns (ret: int, newStatus: Status, reply: Option<Reply>, body: string)
    requires req.realpath.Some? && ctypes.Valid()
    modifies resp
    ensures st.None? ==> ret == -1 && newStatus == status && reply.None? && body == [] && unchanged(resp)
    ensures st.Some? && !opens ==> ret == -1 && newStatus == S500 && reply.None? && body == [] && unchanged(resp)
    ensures st.Some? && opens ==>
              ret == 0 &&
              newStatus == ConditionalStatus(status, req.ifModSince, reqTime, st.value.mtime) &&
              resp.lastModified == Some(httpDate(st.value.mtime)) &&
              resp.length == st.value.size &&
              resp.mimeType == Some(Lookup(old(ctypes.Contents()), MimeKey(req.realpath.value))) &&
              reply == Some(ResponseHeaders(newStatus, req.simple, resp.lastModified, resp.mimeType.value,
                                            st.value.size, date)) &&
              body == if BodySent(req.methodCode, newStatus) then content else []
  {
    reply := None;
    body := [];
    newStatus := status;
    if st.None? {
      return -1, newStatus, reply, body;
    }
    if !opens {
      return -1, S500, reply, body;
    }
    var fs := st.value;
    if req.ifModSince.Some? && fs.mtime <= reqTime {
      newStatus := S304;
    }
    var mime := GetContentType(ctypes, MimeKey(req.realpath.value));
    resp.lastModified := Some(httpDate(fs.mtime));
    resp.length := fs.size;
    resp.mimeType := Some(mime);
    reply := Some(ResponseHeaders(newStatus, req.simple, resp.lastModified, mime, fs.size, date));
    if req.methodCode == 0 && newStatus == S200 {
      body := content;
    }
    ret := 0;
  }

  /**
   * The copy loop as written: `fread(buf, B, 1, f)` succeeds only for a
   * whole buffer, every pass writes the whole buffer, and a final write
   * sends the whole buffer once more, its head holding the last partial
   * read and its tail what earlier reads left there.
   */
  method SendFileAsWritten(content: string, B: nat) returns (sent: string)
    requires B > 0
    ensures exists n: nat :: |sent| == n * B
    ensures |content| < |sent| <= |content| + B
    ensures sent[..|content|] == content
  {
    var buf := new char[B](_ => '\0');
    var p := 0;
    ghost var n := 0;
    sent := [];
    while |content| - p >= B
      invariant 0 <= p <= |content| && |sent| == p && p == n * B
      invariant sent == content[..p]
    {
      Fill(buf, content, p, B);
      sent := sent + buf[..];
      assert content[..p + B] == content[..p] + content[p..p + B];
      p := p + B;
      n := n + 1;
    }
    var m := |content| - p;
    Fill(buf, content, p, m);
    sent := sent + buf[..];
    assert |sent| == (n + 1) * B;
    assert sent[..|content|] == content[..p] + buf[..m];
  }

  /** One `fread`: the next `m` bytes of the file into the head of `buf`, the rest left as it was. */
  method Fill(buf: array<char>, content: string, p: nat, m: nat)
    requires m <= buf.Length && p + m <= |content|
    modifies buf
    ensures buf[..m] == content[p..p + m] && buf[m..] == old(buf[m..])
  {
    var k := 0;
    while k < m
      invariant k <= m
      invariant buf[..k] == content[p..p + k] && buf[m..] == old(buf[m..])
    {
      buf[k] := content[p + k];
      k := k + 1;
    }
  }

  // ------------------------------------------------------------ sws_create_index

  /** One name `scandir` returns, with whether `stat` on it succeeds and finds a directory. */
  datatype DirEntry = DirEntry(name: string, isDir: Option<bool>)

  /** What reading the directory gives. */
  datatype Listing = OpenFailed | ScanFailed | Listed(entries: seq<DirEntry>)

  /** The user of a "/~user" request path: up to the next '/' or the end. */
  function IndexUser(path: string): (r: Option<string>)
    ensures r.Some? ==> '/' !in r.value
  {
    if |path| >= 2 && path[1] == '~' then
      var e := SpanUntil(path, 2, Slash);
      assert forall c :: c in path[2..e] ==> c !in Slash;
      Some(path[2..e])
    else None
  }

  /** Where the part of the realpath shown in the index starts: after "/home/<user>/sws" or after the serve directory. */
  function RelOffset(path: string, serveDir: string): nat {
    match IndexUser(path)
    case Some(u) => |"/home/"| + |u| + |"/sws"|
    case None => |serveDir|
  }

  /** The prefix every link of the index starts with. */
  function LinkBase(user: Option<string>): string {
    match user
    case Some(u) => "/~" + u
    case None => ""
  }

  /** The '/' a directory's name is shown with. */
  function DirMark(isDir: Option<bool>): string {
    if isDir == Some(true) then "/" else ""
  }

  /** `rel` up to its last '/', or nothing when it has none. */
  function Parent(rel: string): (r: string)
    ensures '/' in rel ==> |r| < |rel| && HasPrefix(rel, r + "/")
    ensures '/' !in rel ==> r == []
  {
    match Strrchr(rel, '/')
    case None => []
    case Some(k) =>
      assert rel[..k + 1] == rel[..k] + "/";
      rel[..k]
  }

  function Heading(user: Option<string>, rel: string): string {
    "<html><body><h1>Index of " + (if user.Some? then "~" + user.value else "") +
    (if rel == [] then "/" else rel) + "</h1><br />"
  }

  /** Where the link of an entry points. */
  function EntryHref(user: Option<string>, rel: string, e: DirEntry): string {
    LinkBase(user) + rel + "/" + e.name + DirMark(e.isDir)
  }

  /** Where the "Parent Directory" link points. */
  function ParentHref(user: Option<string>, rel: string): string {
    LinkBase(user) + Parent(rel) + "/"
  }

  /** The markup one entry adds: nothing for ".", the parent link for "..", an anchor otherwise. */
  function EntryLink(user: Option<string>, rel: string, e: DirEntry): string {
    if e.name == "." then ""
    else if e.name == ".." then "<a href=\"" + ParentHref(user, rel) + "\">" + "Parent Directory/</a><br />"
    else "<a href=\"" + EntryHref(user, rel, e) + "\">" + e.name + DirMark(e.isDir) + "</a><br />"
  }

  /** The markup of the entries, in listing order. */
  function Links(user: Option<string>, rel: string, es: seq<DirEntry>): string {
    if es == [] then "" else Links(user, rel, es[..|es| - 1]) + EntryLink(user, rel, es[|es| - 1])
  }

  const Footer := "<p style=\"font-style:italic\">SWS 1.0</p>" + "</body></html>"

  /** The page `sws_create_index` builds. */
  function IndexHtml(user: Option<string>, rel: string, es: seq<DirEntry>): string {
    Heading(user, rel) + Links(user, rel, es) + Footer
  }

  /** The markup of two listings one after the other is the markup of each, in order. */
  lemma {:induction false} LinksConcat(user: Option<string>, rel: string, a: seq<DirEntry>, b: seq<DirEntry>)
    ensures Links(user, rel, a + b) == Links(user, rel, a) + Links(user, rel, b)
    decreases |b|
  {
    if b != [] {
      var b' := b[..|b| - 1];
      assert (a + b)[..|a + b| - 1] == a + b';
      LinksConcat(user, rel, a, b');
    } else {
      assert a + b == a;
    }
  }

  /** The markup of the first `n` entries, counted as the loop counts them. */
  function LinksUpTo(user: Option<string>, rel: string, es: seq<DirEntry>, n: nat): string
    requires n <= |es|
  {
    if n == 0 then "" else LinksUpTo(user, rel, es, n - 1) + EntryLink(user, rel, es[n - 1])
  }

  /** Counting the entries one by one gives the markup of the whole listing. */
  lemma {:induction false} LinksUpToPrefix(user: Option<string>, rel: string, es: seq<DirEntry>, n: nat)
    requires n <= |es|
    ensures LinksUpTo(user, rel, es, n) == Links(user, rel, es[..n])
  {
    if n > 0 {
      LinksUpToPrefix(user, rel, es, n - 1);
      assert es[..n][..n - 1] == es[..n - 1];
    }
  }

  lemma LinksUpToAll(user: Option<string>, rel: string, es: seq<DirEntry>)
    ensures LinksUpTo(user, rel, es, |es|) == Links(user, rel, es)
  {
    LinksUpToPrefix(user, rel, es, |es|);
    assert es[..|es|] == es;
  }

  /** Each entry's markup sits between that of the entries before and after it. */
  lemma LinksInOrder(user: Option<string>, rel: string, es: seq<DirEntry>, i: nat)
    requires i < |es|
    ensures Links(user, rel, es) ==
            Links(user, rel, es[..i]) + EntryLink(user, rel, es[i]) + Links(user, rel, es[i + 1..])
  {
    assert es == es[..i] + ([es[i]] + es[i + 1..]);
    LinksConcat(user, rel, es[..i], [es[i]] + es[i + 1..]);
    LinksConcat(user, rel, [es[i]], es[i + 1..]);
    assert Links(user, rel, [es[i]]) == EntryLink(user, rel, es[i]) by {
      assert [es[i]][..0] == [];
    }
  }

  /**
   * Every entry link points inside the listed directory, and the parent
   * link at a prefix of it; below the top, the parent link is strictly
   * shorter.
   */
  lemma LinksStayInTree(user: Option<string>, rel: string, e: DirEntry)
    requires rel == [] || rel[0] == '/'
    ensures HasPrefix(EntryHref(user, rel, e), LinkBase(user) + rel + "/")
    ensures HasPrefix(LinkBase(user) + rel + "/", ParentHref(user, rel))
    ensures '/' in rel ==> |ParentHref(user, rel)| < |LinkBase(user) + rel + "/"|
  {
    var base := LinkBase(user);
    var dir := base + rel + "/";
    assert EntryHref(user, rel, e)[..|dir|] == dir;
    var p := Parent(rel);
    if '/' in rel {
      PrefixLeft(base, rel, p + "/");
      assert base + (p + "/") == base + p + "/";
      PrefixRight(base + rel, base + p + "/", "/");
    } else {
      assert rel == [];
    }
  }

  lemma PrefixLeft(a: string, y: string, x: string)
    requires HasPrefix(y, x)
    ensures HasPrefix(a + y, a + x)
  {
    assert (a + y)[..|a + x|] == a + y[..|x|];
  }

  lemma PrefixRight(y: string, x: string, t: string)
    requires HasPrefix(y, x)
    ensures HasPrefix(y + t, x)
  {
    assert (y + t)[..|x|] == y[..|x|];
  }

  /**
   * With the realpath `http_realpath` (sws/parse.c) produced, the part
   * the index shows is the normalised request path: a canonical path, so
   * no link contains "//", "/./" or "/../".
   */
  lemma IndexRelIsResolved(path: string, serveDir: string)
    requires |path| >= 1 && path[0] == '/' && ' ' !in path
    ensures RelOffset(path, serveDir) == |Parse.Base(path, serveDir)|
    ensures RelOffset(path, serveDir) <= |Parse.Resolve(path, serveDir)|
    ensures Parse.Resolve(path, serveDir)[RelOffset(path, serveDir)..] == Parse.Walk(Parse.Tail(path), [])
    ensures Canonical(Parse.Resolve(path, serveDir)[RelOffset(path, serveDir)..])
  {
    if Parse.IsHomePath(path) {
      var e := Parse.UserEnd(path);
      SpanUntilAt(path, 2, e, Slash);
      assert IndexUser(path) == Some(path[2..e]);
    }
    Parse.ResolveContained(path, serveDir);
  }

  /** The part of the realpath the index shows. */
  function Rel(path: string, realpath: string, serveDir: string): string
    requires RelOffset(path, serveDir) <= |realpath|
  {
    realpath[RelOffset(path, serveDir)..]
  }

  /** Every entry could be stat'ed. */
  predicate AllStatted(es: seq<DirEntry>) {
    forall i :: 0 <= i < |es| ==> es[i].isDir.Some?
  }

  lemma StattedSnoc(es: seq<DirEntry>, i: nat)
    requires i < |es| && AllStatted(es[..i]) && es[i].isDir.Some?
    ensures AllStatted(es[..i + 1])
  {
    assert forall k :: 0 <= k < i ==> es[..i + 1][k] == es[..i][k];
  }

  lemma NotAllStatted(es: seq<DirEntry>, i: nat)
    requires i < |es| && es[i].isDir.None?
    ensures !AllStatted(es)
  {
  }

  /**
   * `sws_create_index`: the page for the directory `req.realpath`, whose
   * listing is `listing`.  The realpath holds no NUL and fits the
   * 1024-byte buffer `strrchr_pos` copies it to.
   */
  method CreateIndex(req: Request, resp: Response, serveDir: string, listing: Listing, status: Status, date: string)
    returns (ret: int, newStatus: Status, reply: Option<Reply>, body: string)
    requires req.path.Some? && req.realpath.Some?
    requires RelOffset(req.path.value, serveDir) <= |req.realpath.value| < 1024
    requires '\0' !in req.realpath.value
    modifies resp
    ensures listing.OpenFailed? ==> ret == -1 && newStatus == S500 && reply.None? && unchanged(resp)
    ensures listing.ScanFailed? ==> ret == -1 && newStatus == status && reply.None? && unchanged(resp)
    ensures listing.Listed? && !AllStatted(listing.entries) ==>
              ret == -1 && newStatus == S500 && reply.None? && unchanged(resp)
    ensures listing.Listed? && AllStatted(listing.entries) ==>
              var html := IndexHtml(IndexUser(req.path.value), Rel(req.path.value, req.realpath.value, serveDir),
                                    listing.entries);
              ret == 0 && newStatus == status &&
              resp.length == |html| && resp.mimeType == Some("text/html") && resp.lastModified == None &&
              reply == Some(ResponseHeaders(status, req.simple, None, "text/html", |html|, date)) &&
              body == if req.methodCode == 0 then html else []
  {
    reply := None;
    body := [];
    newStatus := status;
    if listing.OpenFailed? {
      return -1, S500, reply, body;
    }
    var user := IndexUser(req.path.value);
    var tmp := Rel(req.path.value, req.realpath.value, serveDir);
    var index := Heading(user, tmp);
    if listing.ScanFailed? {
      return -1, newStatus, reply, body;
    }
    var ok, links := BuildLinks(user, tmp, listing.entries);
    if !ok {
      return -1, S500, reply, body;
    }
    index := index + links;
    index := index + Footer;
    resp.length := |index|;
    resp.mimeType := Some("text/html");
    resp.lastModified := None;
    reply := Some(ResponseHeaders(status, req.simple, None, "text/html", |index|, date));
    if req.methodCode == 0 {
      body := index;
    }
    ret := 0;
  }

  /**
   * The loop over the listing: stops at the first entry `stat` fails on,
   * otherwise gives the markup of all entries.
   */
  method BuildLinks(user: Option<string>, tmp: string, es: seq<DirEntry>) returns (ok: bool, links: string)
    requires '\0' !in tmp && |tmp| < 1024
    ensures ok <==> AllStatted(es)
    ensures ok ==> links == Links(user, tmp, es)
  {
    links := [];
    var i := 0;
    while i < |es|
      invariant 0 <= i <= |es| && AllStatted(es[..i])
      invariant links == LinksUpTo(user, tmp, es, i)
    {
      var e := es[i];
      if e.isDir.None? {
        NotAllStatted(es, i);
        return false, links;
      }
      var link := IndexEntry(user, tmp, e);
      links := links + link;
      StattedSnoc(es, i);
      i := i + 1;
    }
    assert es[..i] == es;
    LinksUpToAll(user, tmp, es);
    return true, links;
  }

  /** The appends of the loop body for one entry of the listing. */
  method IndexEntry(user: Option<string>, tmp: string, e: DirEntry) returns (link: string)
    requires '\0' !in tmp && |tmp| < 1024
    ensures link == EntryLink(user, tmp, e)
  {
    link := [];
    if e.name != "." && e.name != ".." {
      link := "<a href=\"" + EntryHref(user, tmp, e) + "\">" + e.name + DirMark(e.isDir) + "</a><br />";
    }
    if e.name == ".." {
      var pos := Utils.StrrchrPos(tmp, '/', |tmp|);
      var up := CopyPrefix(tmp, pos);
      assert up == Parent(tmp) by {
        assert tmp[..|tmp|] == tmp;
        if pos != -1 {
          StrrchrUnique(tmp, pos, '/');
        }
      }
      assert ParentHref(user, tmp) == LinkBase(user) + up + "/";
      link := "<a href=\"" + ParentHref(user, tmp) + "\">" + "Parent Directory/</a><br />";
    }
  }

  /** `for (j = 0; j < pos; j++) strncat(index, &tmp[j], 1)`. */
  method CopyPrefix(tmp: string, pos: int) returns (r: string)
    requires pos <= |tmp|
    ensures r == if pos <= 0 then [] else tmp[..pos]
  {
    r := [];
    var j := 0;
    while j < pos
      invariant 0 <= j && (j == 0 || j <= pos)
      invariant r == tmp[..j]
    {
      r := r + [tmp[j]];
      j := j + 1;
    }
  }
}
