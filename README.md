# sws and ls helpers, modelled in Dafny

This project models the request-handling core of `sws`, a small HTTP/1.0
and 0.9 static-file server written in C. It also models the helper
functions of the course utility `ls`.

The server exists in three successive drafts, and each draft is modelled
on its own, module by module:
- `sws/swslib.c` is the earliest draft (module `SwsLib`).
- The middle draft is `sws/server.c` (`Server`), `sws/parse.c` (`Parse`),
  `sws/files.c` (`Files`, `Cgi`) and `sws/utils.c` (`Utils`).
- The latest draft is `sws/src/parse.c` (`SrcParse`), `sws/src/utils.c`
  (`SrcUtils`), `sws/src/content_type.c` (`ContentType`) and
  `sws/src/list.c` (`List`).

The line reader is the same loop in the first two drafts, so it is one
module (`LineReader`). The `ls` helpers are `LsCmp` (ls/cmp.c), `LsUtil`
(ls/util.c), `LsPrint` (ls/print.c) and `LsMain` (ls/ls.c, with
`LsOptions` for ls/ls.h).

The socket, the file system and the C library become inputs:
- `recv` is a byte sequence that ends quietly or in an error (`Stream`).
- `stat` is a record, or a function from path to result.
- A directory listing is a sequence of names, each with whether `stat`
  found a directory.
- `strptime` is a predicate `accepts(format, value)`, and times are
  integers.
- `realpath(3)`, `init_logfile`, `getpwuid`/`getgrgid` and
  `humanize_number` are parameters giving their answers.

What the C code updates in place is modelled in place:
- `struct request` and `struct response` are classes (`Messages.Request`,
  `Messages.Response`) that the parsers and body strategies write.
- The content-type list is a linked `List.List` of `List.Node`s.
- `struct max_widths` is a class (`LsUtil.MaxWidths`).
- `print_the_unprintable` and `cmp_lower_case` rewrite `array<char>`
  buffers.
- Each loop of the source is a method with invariants. It is proved
  against a function, and the properties are proved about that function.

Shared pieces:
- `CStr` holds the C string idioms (`strncmp` prefixes, `strchr`,
  `strrchr`, `tolower`, `strcmp`, `%lu`).
- `Paths` holds the notion of a canonical path.
- `Messages` holds the request and response records and header fields.
- `Defines` holds the status and date-format constants of sws/defines.h.

## Model

| member | source | states |
|---|---|---|
| LineReader.Scan | sws/server.c:366-399 | The reading loop fails only with 400 (a bad CR) or 500 (a failing `recv`). |
| LineReader.ScanLine | sws/server.c:372-395 | A line read is the stored prefix followed exactly by the bytes consumed. It stores at most one byte beyond the bound: the LF after a CR. |
| LineReader.ScanEnd | sws/server.c:396-398 | End of input ends the line with what was stored (0 bytes if nothing was read). A failing `recv` gives 500. |
| LineReader.ScanBadCR | sws/server.c:373-390 | A CR followed by anything but LF, or by end of input, is 400. It is 500 when the peek itself fails. |
| LineReader.ScanCRLF | sws/server.c:373-395 | CR LF ends the line, and both bytes are stored. |
| LineReader.ScanLF | sws/server.c:392-395 | An LF without a CR is stored and ends the line. |
| LineReader.ScanOther | sws/server.c:392-393 | Any other byte is stored and reading goes on. |
| LineReader.ReadStop | sws/server.c:366-399 | Where a read stops, decided by the first CR or LF and by the buffer bound. |
| LineReader.ScanCases | sws/server.c:366-399 | The byte-at-a-time loop has exactly the outcome that the first CR or LF and the bound decide. |
| LineReader.OutcomeStep | sws/server.c:392-393 | Storing a byte that ends nothing does not change the outcome of the read. |
| LineReader.ReadLine | sws/server.c:360-403 | `sws_recv_line` fills the buffer with the line the reading loop accepts, NUL-terminated and inside the buffer, and returns its length. Otherwise it returns -1 with 400 or 500. `sws_get_line` (sws/swslib.c:444-492) is the same loop. |
| LineReader.ReadLineOverflowAsWritten | sws/server.c:366-400 | With the guard `i < len - 1`, a line of `len - 2` bytes and CR LF is accepted whole, so its NUL lands at `buf[len]`. |
| LineReader.LineFits | sws/server.c:366-400 | With the corrected bound, every accepted line leaves room for its NUL. |
| Messages.Request.constructor | sws/src/request.c:7-22 | A new request has every field NULL. |
| Messages.Response.constructor | sws/src/response.c:7-20 | A new response has no Last-Modified, no MIME type and length -1. |
| Messages.FirstDateFormat | sws/parse.c:171-180 | RFC 1123 is tried first, then RFC 850, then asctime. The first format that accepts the value is recorded, or none. |
| Messages.SkipSpacesLoop | sws/parse.c:97 | The space-skipping loop stops at the first character that is not a space. |
| Messages.PathEndLoop | sws/parse.c:104-106 | The path runs up to the first space or CR, or the end. |
| Messages.NameBounds | sws/parse.c:148-149 | The header name starts after the leading spaces and ends at the first ':'. |
| Messages.ScanName | sws/parse.c:148-149 | The two name loops find exactly those bounds. |
| Messages.FormattedNameBounds | sws/parse.c:148-157 | In `name: value CRLF`, the name is read back whole and the value follows ": ". |
| Messages.PathOf | sws/parse.c:96-106 | After the method token, a space, a path and a terminator: the path is read back exactly. |
| Messages.VersionAfterSpace | sws/parse.c:120-125 | An eight-character version after one space is where the version test looks, and it is not CR LF. |
| Messages.ValuesOfCons | sws/server.c:420-433 | The values a field list gives for a name are those of its first field, then those of the rest. |
| Messages.ValuesOfMaybe | sws/server.c:430-432 | A field sent only under a condition contributes its value only then. |
| Messages.Wire | sws/server.c:420-452 | The bytes of a response header start with "HTTP/" and end with the CR LF of the empty line. |
| Server.ResponseHeaders | sws/server.c:406-454 | The status line says 0.9 for a simple request and 1.0 otherwise. 200 and 304 describe the entity and have no body. Any other status has the HTML error page as body, and the recorded length is that page's length. |
| Server.ResponseHeaderFields | sws/server.c:418-454 | Every response has one Date and one Server. Last-Modified appears only for 200 and 304 with a modification time. Content-Type is the entity's type for 200 and 304, and text/html otherwise. Content-Length appears except on a 304. |
| Server.EntityFieldValues | sws/server.c:418-442 | Each entity field appears once. Last-Modified and Content-Length appear only when present. |
| Server.ErrorFieldValues | sws/server.c:443-454 | An error response has one Date, Server, text/html Content-Type and Content-Length (the page's length), and no Last-Modified. |
| Server.EntityValues | sws/server.c:418-442 | For any name, the entity fields give Date, Server, Last-Modified (when known), Content-Type and Content-Length (when sent), in that order, and nothing else. |
| Server.ErrorValues | sws/server.c:443-454 | For any name, the error fields give Date, Server, text/html and the page's length, and nothing else. |
| Server.StatFailureStatus | sws/server.c:293-303 | A failed `stat` gives 403 for EACCES, 404 for ENOENT or ENOTDIR, and 500 for anything else. |
| Server.CgiSiblingSelectedAsWritten | sws/server.c:346-347 | The string-prefix CGI test selects `/srv/www/cgi.html` for the CGI directory `/srv/www/cgi`, which is not inside it. |
| Server.WithinIsComponentPrefix | sws/server.c:346-347 | A path is within a directory exactly when it starts with the directory and the next character, if any, is '/'. |
| Server.Dispatch | sws/server.c:293-351 | A failed `stat` sends its status. A directory with `index.html` is served as realpath + "/index.html". A directory without one gets an index. A directory that cannot be opened is abandoned. A file inside the CGI directory is executed, and any other file is served. Each case holds exactly when its condition does. |
| Server.Init | sws/server.c:80-176 | A started server has a serve directory resolved by `realpath` and a directory. Its CGI and secure directories, when given, are directories whose paths start with it. A key and a secure directory come together. A directory `realpath` cannot resolve, and a key or secure directory given alone, each stop it with their own error. |
| SwsLib.StripTrailingSlashes | sws/swslib.c:97-100 | Every trailing '/' of the serve directory is removed, and nothing else. |
| SwsLib.CheckKeyPairing | sws/swslib.c:209-219 | A key and a secure directory must come together. Each of the two mistakes has its own error. |
| SwsLib.MethodToken | sws/swslib.c:501-513 | The recognised method token never runs past the line. |
| SwsLib.MethodTokenCases | sws/swslib.c:501-513 | "GET", "HEAD" and "POST" give 0, 1 and 2 whatever follows them. Anything else is not a method. |
| SwsLib.RequestLine | sws/swslib.c:495-566 | An unknown method is exactly the 501 case. An accepted line has a path starting with '/' and holding no space or CR. A simple request is a GET. |
| SwsLib.AfterMethod | sws/swslib.c:515-563 | After the method, any rejection is 400. An accepted line has its path, and a simple request needs code 0. |
| SwsLib.RequestLineRoundTrip | sws/swslib.c:495-566 | A request line formatted from a method, a path and a kind is parsed back into exactly those. |
| SwsLib.FormattedRest | sws/swslib.c:515-563 | After the method of a formatted line come its path and an accepting verdict. |
| SwsLib.MethodTokenOf | sws/swslib.c:501-513 | A method name followed by a space is recognised as that method. |
| SwsLib.AfterMethodFromParts | sws/swslib.c:515-563 | A space, a path and what ends it: that path, then the version verdict on what follows. |
| SwsLib.VersionOf | sws/swslib.c:553-563 | CR LF after GET is a simple request and "HTTP/1.1" is a full one. |
| SwsLib.ParseMethod | sws/swslib.c:495-566 | `sws_parse_method` writes the method code, the path and the kind that `RequestLine` gives. It returns -1 with that status otherwise and touches no other field. |
| SwsLib.ParseAfterMethod | sws/swslib.c:515-566 | The part after the method token writes the path and kind that `AfterMethod` gives. |
| SwsLib.DropTrailingSpaces | sws/swslib.c:610-612 | The value loses its trailing spaces and nothing else. |
| SwsLib.ShortNameTakenAsWritten | sws/swslib.c:587 | As written, a header called "If" is taken for If-Modified-Since, which the full-name test ignores. |
| SwsLib.Header | sws/swslib.c:569-627 | A line without ':' is 400. If-Modified-Since records its trimmed value and the first date format that accepts it. Any other header is ignored. |
| SwsLib.HeaderRoundTrip | sws/swslib.c:569-627 | A formatted If-Modified-Since line is read back as its value. Any other header line is ignored. |
| SwsLib.ParseHeader | sws/swslib.c:569-627 | `sws_parse_header`, with the corrected full-name test, writes what `Header` gives into the request, and nothing else. A line without ':' is 400. |
| SwsLib.TrimLineEnd | sws/swslib.c:610-612 | The trim loops compute the trimmed value. |
| SwsLib.SetIfModifiedSince | sws/swslib.c:613-623 | The value is kept with the first date format that accepts it. |
| SwsLib.ResponseHeader | sws/swslib.c:714-738 | The status line is always HTTP/1.0 with the given status. |
| SwsLib.ResponseHeaderFields | sws/swslib.c:725-737 | Every header has one Date and one Server. Only a 200 has Last-Modified, a text/html Content-Type and Content-Length. |
| Parse.Truncate | sws/parse.c:47-48 | Cutting at the last '/' never lengthens the path. |
| Parse.UserEnd | sws/parse.c:18-25 | The user name runs from after "/~" to the first '/', ' ' or the end. |
| Parse.UserNameEnd | sws/parse.c:21-24 | The user-name loop finds that end. |
| Parse.WalkCanonical | sws/parse.c:37-55 | The normalising loop turns a canonical prefix and a rest starting with '/' into a canonical path: no empty, "." or ".." component, and no trailing '/'. |
| Parse.TruncateCanonical | sws/parse.c:45-49 | "/.." on a canonical path leaves it canonical. |
| Parse.ComponentValid | sws/parse.c:50-53 | A component the loop copies is neither empty, "." nor "..". |
| Parse.WalkCanonicalIdentity | sws/parse.c:37-55 | A canonical path is copied unchanged. |
| Parse.ResolveContained | sws/parse.c:13-76 | `http_realpath` returns the serve directory (or "/home/<user>/sws") followed by a canonical path. So ".." only removes components copied from the request and never climbs above the base. |
| Parse.WalkIdempotent | sws/parse.c:37-55 | Normalising a normalised path changes nothing. |
| Parse.LeadingDotDotIsNoOp | sws/parse.c:45-49 | "/.." with nothing copied yet changes nothing. |
| Parse.HttpRealpath | sws/parse.c:13-76 | `http_realpath` returns the base directory followed by the normalised tail (`Resolve`). |
| Parse.WalkStep | sws/parse.c:37-55 | Each turn of the loop consumes input and keeps the final result unchanged. |
| Parse.ComponentEndAt | sws/parse.c:51 | The component loop stops at the next '/' or the end. |
| Parse.TruncateAtSlash | sws/parse.c:47-48 | The ".." step cuts at the last '/', if there is one. |
| Parse.MethodToken | sws/parse.c:84-94 | The recognised method token never runs past the line. |
| Parse.MethodTokenCases | sws/parse.c:84-94 | "GET " and "HEAD ", space included, give 0 and 1. Anything else is not a method. |
| Parse.RequestLine | sws/parse.c:79-133 | An unknown method is exactly the 501 case. A path is extracted exactly when it is resolved, and it resolves to `Resolve(path)`. An accepted line has a path starting with '/' and holding no space or CR. A simple request is a GET. |
| Parse.AfterMethod | sws/parse.c:96-130 | After the method, any rejection is 400. The path is resolved at once. |
| Parse.AfterMethodSyntax | sws/parse.c:96-130 | The path and version checks before resolution. Any rejection is 400. |
| Parse.RequestLineRoundTrip | sws/parse.c:79-133 | A formatted request line is parsed back into its method, path and kind, with the path resolved. |
| Parse.FormattedRest | sws/parse.c:96-130 | After the method of a formatted line come its path and an accepting verdict. |
| Parse.MethodTokenOf | sws/parse.c:84-94 | A method name followed by a space is recognised as that method. |
| Parse.AfterMethodFromParts | sws/parse.c:96-130 | A space, a path and what ends it: that path, then the version verdict. |
| Parse.VersionOf | sws/parse.c:123-130 | CR LF after GET is simple and "HTTP/1.1" is full. |
| Parse.ParseMethod | sws/parse.c:79-133 | `sws_parse_method` writes the method code, the path, its resolution and the kind that `RequestLine` gives. It returns -1 with the status otherwise. |
| Parse.ParseAfterMethod | sws/parse.c:96-133 | The part after the method token writes what `AfterMethod` gives. |
| Parse.LineValue | sws/parse.c:167-169 | The value is the prefix up to the first CR or LF. |
| Parse.HeaderAsWritten | sws/parse.c:136-185 | As written: the name test takes every prefix of "If-Modified-Since" in any case, and the stored value keeps everything after ": ". |
| Parse.ShortNameTakenAsWritten | sws/parse.c:151 | As written, a header "if" is taken for If-Modified-Since, where the full-name test ignores it. |
| Parse.FullNameAsWritten | sws/parse.c:151 | The full name passes the test as written. |
| Parse.NamedIfModifiedSince | sws/parse.c:143-157 | In a formatted If-Modified-Since line, the name is found whole and what follows ": " is the value with its CR LF. |
| Parse.LineEndKeptAsWritten | sws/parse.c:159-169 | As written, an accepted value is stored with its CR LF. The corrected parser stores the value alone. |
| Parse.Header | sws/parse.c:136-185 | A line without ':' is 400. If-Modified-Since, in any case, keeps its value exactly when some date format accepts it, and clears both fields otherwise. Other headers are ignored. |
| Parse.DateHeader | sws/parse.c:171-180 | A value is kept with the first date format that accepts it, or both fields are cleared. |
| Parse.HeaderRoundTrip | sws/parse.c:136-185 | A formatted header line is read back: If-Modified-Since with its value and date format, any other header ignored. |
| Parse.ValueUpToLineEnd | sws/parse.c:167-169 | A value followed by CR LF is read back without it. |
| Parse.ParseHeader | sws/parse.c:136-185 | `sws_parse_header`, with the corrected name test and trim, writes what `Header` gives into the request, and nothing else. |
| Parse.LineEnd | sws/parse.c:168 | The trim loop finds the first CR or LF. |
| Parse.SetIfModifiedSince | sws/parse.c:165-180 | The value is kept if a date format accepts it. Otherwise both fields are cleared. |
| Parse.StrrchrPos | sws/parse.c:191-206 | The offset of the last `c`, provided it is at most `len`, and -1 otherwise. |
| SrcParse.UserEnd | sws/src/parse.c:19-25 | The user name runs to the first '/', ' ' or the end. |
| SrcParse.Normalised | sws/src/parse.c:46 | `my_realpath` of an absolute path never fails. |
| SrcParse.NormalisedNormal | sws/src/parse.c:46 | That result is "/" or canonical, and no longer than the input. |
| SrcParse.RealpathCases | sws/src/parse.c:14-56 | The three cases of `http_realpath`, each as the pieces it joins. |
| SrcParse.HomeOnly | sws/src/parse.c:26-33 | "/~user" alone maps to exactly "/home/<user>/sws". |
| SrcParse.HomeWithRest | sws/src/parse.c:35-44 | "/~user/rest" maps to "/home/<user>/sws" followed by `my_realpath` of "/rest". |
| SrcParse.UnderServeDir | sws/src/parse.c:46-53 | Any other path maps to `serve_dir` + `my_realpath(path)`, with one trailing '/' removed. |
| SrcParse.DropOneSlash | sws/src/parse.c:50-51 | One trailing '/' is removed, if there is one. |
| SrcParse.JoinedPrefixes3 | sws/src/parse.c:29-31 | Three `conncat` pairs are their prefixes in order. |
| SrcParse.ServeDirContained | sws/src/parse.c:46-53 | A path that is not "/~user..." maps to `serve_dir` itself, or to `serve_dir` followed by a canonical path. |
| SrcParse.JoinedContained | sws/src/parse.c:48-51 | `serve_dir` joined with a normal path and trimmed stays under `serve_dir`. |
| SrcParse.HomeContained | sws/src/parse.c:35-44 | "/~user/rest" maps under the user's directory, followed by a normal path. |
| SrcParse.MethodToken | sws/src/parse.c:64-76 | The recognised method token never runs past the line. |
| SrcParse.MethodTokenCases | sws/src/parse.c:64-76 | "GET ", "HEAD " and "POST " give 0, 1 and 2. Anything else is not a method. |
| SrcParse.RequestLine | sws/src/parse.c:59-117 | An unknown method is exactly the 501 case. An accepted line has a resolved path starting with '/' and holding no space or CR. A simple request is a GET. |
| SrcParse.AfterMethod | sws/src/parse.c:78-114 | After the method, any rejection is 400. The path is resolved at once. |
| SrcParse.AfterMethodSyntax | sws/src/parse.c:78-114 | The path and version checks before resolution. |
| SrcParse.RequestLineRoundTrip | sws/src/parse.c:59-117 | A formatted request line with "HTTP/1.0", or a simple GET, is parsed back into its parts. |
| SrcParse.FormattedRest | sws/src/parse.c:78-114 | After the method of a formatted line come its path and an accepting verdict. |
| SrcParse.SuffixStop | sws/src/parse.c:86-87 | Both version suffixes start with a character that ends the path. |
| SrcParse.MethodTokenOf | sws/src/parse.c:64-76 | A method name followed by a space is recognised as that method. |
| SrcParse.AfterMethodFromParts | sws/src/parse.c:78-114 | A space, a path and what ends it: that path, then the version verdict. |
| SrcParse.VersionOf | sws/src/parse.c:105-114 | CR LF after GET is simple and "HTTP/1.0" is full. |
| SrcParse.Http11Rejected | sws/src/parse.c:105-114 | Only "HTTP/1.0" is accepted: an HTTP/1.1 request line, which the middle draft accepts, is 400 here. |
| SrcParse.Http11Syntax | sws/src/parse.c:105-114 | A well-formed path followed by " HTTP/1.1" CR LF is rejected with 400, whatever the method. |
| SrcParse.Http11Version | sws/src/parse.c:105-114 | The version test rejects "HTTP/1.1" with 400. |
| SrcParse.ParseMethod | sws/src/parse.c:59-117 | `sws_parse_method` writes what `RequestLine` gives, or returns -1 with the status. |
| SrcParse.ParseAfterMethod | sws/src/parse.c:78-117 | The part after the method token writes what `AfterMethod` gives. |
| SrcParse.ParseHeader | sws/src/parse.c:119-168 | The corrected header rule of the middle draft, `Parse.Header`: no ':' is 400, and an If-Modified-Since value that no date format accepts clears both fields. It writes nothing else. |
| SrcParse.ShortNameClearsAsWritten | sws/src/parse.c:134-163 | As written, a header "if" whose value no date format accepts clears the recorded If-Modified-Since. The corrected rule ignores the line. |
| Utils.Start | sws/utils.c:77-86 | For "/~user/..." counting starts at a '/' past the user name's first character, and not one that follows another '/'. Any start lies within the path. |
| Utils.Step | sws/utils.c:93-107 | Each turn of the loop consumes at least one character and moves the depth counter by at most one level. |
| Utils.CountFrom | sws/utils.c:88-114 | The rest of the loop gives only 0 or 1. |
| Utils.FileInRootAsWritten | sws/utils.c:72-115 | `file_in_root` gives only 0 or 1. |
| Utils.FileInRoot | sws/utils.c:72-115 | The loop with its depth counter computes `FileInRootAsWritten`, 0 or 1. |
| Utils.EscapeIsFinal | sws/utils.c:109-111 | Once the counter drops below one the answer is 0, whatever follows. |
| Utils.BareHomeInside | sws/utils.c:80-83 | A bare "/~user" is inside. |
| Utils.DepthWalkIsStackWalk | sws/utils.c:88-114 | The intended depth counter agrees with the stack of entered directories. |
| Utils.InRoot | sws/utils.c:67-115 | The corrected check: a path is inside exactly when walking its components never pops an empty stack of entered directories. |
| Utils.DotHidesDotDotAsWritten | sws/utils.c:93-103 | As written, "/./../etc" is accepted, though it climbs above the root. |
| Utils.TrailingDotDotAsWritten | sws/utils.c:101-103 | As written, a final ".." is not counted: "/.." is accepted. |
| Utils.DotDotOnlyRest | sws/utils.c:88-114 | "/./../etc" does climb above the root, so the corrected check rejects it. |
| Utils.BareHomeCount | sws/utils.c:80-114 | With no further '/', counting from a bare "/~user" ends at depth 1, inside. |
| Utils.MappedPathParts | sws/utils.c:135-156 | "/~user/rest" maps to "/home/user/sws/rest" and a bare "/~user" to "/home/user/sws/". Any other path maps to `root` followed by the request path. |
| Utils.DirPath | sws/utils.c:163-165 | A directory's path ends in '/', with one added when it had none. |
| Utils.PlainPath | sws/utils.c:166-168 | Any other path loses one trailing '/'. |
| Utils.MapPath | sws/utils.c:135-156 | The path-building code computes `MappedPath`. |
| Utils.FilePath | sws/utils.c:123-172 | `sws_file_path` fails exactly when `stat` fails. A directory's path gets its trailing '/', and any other path loses one. |
| Utils.StrrchrPos | sws/utils.c:178-199 | Only the first `len` characters count. The result r is -1 exactly when `c` is not among them, and otherwise r < len, str[r] == c, and no later `c` comes before `len`. |
| SrcUtils.StrchrPos | sws/src/utils.c:8-16 | The offset of the first `c`, or -1 exactly when there is none. |
| SrcUtils.StrrchrPos | sws/src/utils.c:18-26 | The offset of the last `c`, or -1 exactly when there is none. |
| SrcUtils.StrchrStrrchrAgree | sws/src/utils.c:8-26 | A character that occurs once has the same first and last offset. |
| SrcUtils.JoinedAppend | sws/src/utils.c:28-42 | Joining splits over a concatenation of argument lists. |
| SrcUtils.Concat | sws/src/utils.c:28-42 | `concat` appends the strings in argument order. |
| SrcUtils.Take | sws/src/utils.c:56 | `strncat` appends at most `len` characters, a prefix of the string. |
| SrcUtils.JoinedPrefixesLength | sws/src/utils.c:44-59 | `conncat` never appends more than the strings' total length. |
| SrcUtils.JoinedPrefixesWhole | sws/src/utils.c:44-59 | With every length at least the string's own, `conncat` is `concat`. |
| SrcUtils.Conncat | sws/src/utils.c:44-59 | `conncat` appends at most `len` characters of each pair, in order. |
| SrcUtils.RpWalk | sws/src/utils.c:98-124 | The loop never empties the path it builds. |
| SrcUtils.DropTrailingSlash | sws/src/utils.c:129-130 | A trailing '/' goes unless it is the whole path. |
| SrcUtils.RpWalkNormal | sws/src/utils.c:98-124 | Walked from "/" or a canonical path, the loop never takes its error return and ends on "/" or a canonical path. |
| SrcUtils.RpWalkBudget | sws/src/utils.c:82-124 | What the loop builds is no longer than its start plus the unread input. |
| SrcUtils.AbsoluteResult | sws/src/utils.c:62-139 | For an absolute path, `my_realpath` succeeds. Its result starts with '/', is "/" or canonical (repeated '/', "." and ".." gone, no trailing '/'), and is no longer than the input. |
| SrcUtils.Defined | sws/src/utils.c:68-69 | `my_realpath` returns NULL exactly for the empty path. |
| SrcUtils.DotDotAtRoot | sws/src/utils.c:104-117 | ".." at the root stays at the root. |
| SrcUtils.RpWalkDefined | sws/src/utils.c:98-124 | Starting from an absolute path, the walk never takes its error return. |
| SrcUtils.RpWalkCanonical | sws/src/utils.c:98-124 | A canonical path is grafted on unchanged. |
| SrcUtils.Idempotent | sws/src/utils.c:62-139 | A path `my_realpath` returns is returned unchanged when normalised again. |
| SrcUtils.MyRealpathLoop | sws/src/utils.c:62-139 | The loop computes `MyRealpath`. |
| SrcUtils.RealpathStep | sws/src/utils.c:98-124 | Each turn consumes input and keeps the outcome. The error return is taken only when the walk fails. |
| SrcUtils.CopyComponent | sws/src/utils.c:118-123 | A component is copied after a '/' if one is needed, up to the next '/'. |
| Files.ConditionalStatus | sws/files.c:48-74 | 304 exactly when If-Modified-Since is present and the file is not newer than the time sent, or when the status already was 304. Otherwise the status is unchanged. |
| Files.EchoedDateAsWritten | sws/files.c:72-73 | As written, a client that echoes the file's Last-Modified time gets 200. The corrected test gives 304. |
| Files.NotModifiedIsMonotone | sws/files.c:72-73 | Once a time gives 304, every later time does too. |
| Files.MimeKey | sws/files.c:88-89 | The lookup key is the realpath from its last '.', dot included, or NULL when there is no '.'. |
| Files.ServeFile | sws/files.c:25-114 | A failed `stat` returns -1, and a failed `fopen` returns -1 with 500. Otherwise the status is the corrected conditional-GET decision `ConditionalStatus`, and Last-Modified, length and MIME type come from the file. The body is exactly the file's bytes, and only for a GET answered 200. |
| Files.SendFileAsWritten | sws/files.c:100-109 | As written, whole buffers are sent: the content, then what the buffer still held, a multiple of the buffer size. |
| Files.Fill | sws/files.c:101 | One `fread` puts the next bytes in the head of the buffer. |
| Files.IndexUser | sws/files.c:317-327 | The user of a "/~user" path holds no '/'. |
| Files.Parent | sws/files.c:380-393 | The parent link is the relative path cut at its last '/'. |
| Files.LinksConcat | sws/files.c:347-395 | The markup of two listings one after the other is each one's markup, in order. |
| Files.LinksUpToPrefix | sws/files.c:347-395 | Counting entries one by one gives the markup of the listing so far. |
| Files.LinksInOrder | sws/files.c:347-395 | Each entry's markup sits between that of the entries before and after it, in `scandir` order. |
| Files.LinksUpToAll | sws/files.c:347-395 | Counting every entry gives the markup of the whole listing. |
| Files.LinksStayInTree | sws/files.c:359-393 | Every entry link points inside the listed directory. The parent link points at a prefix of it, strictly shorter below the top. |
| Files.IndexRelIsResolved | sws/files.c:317-340 | With the realpath that `http_realpath` produced, the part the index shows is the normalised request path. So it is canonical. |
| Files.StattedSnoc | sws/files.c:347-357 | A listing whose entries were all stat'ed stays so when an entry that was stat'ed is added. |
| Files.NotAllStatted | sws/files.c:353-357 | One entry that fails `stat` makes the listing fail. |
| Files.CreateIndex | sws/files.c:294-415 | `opendir` failing gives -1 with 500, and `scandir` failing gives -1 with the status unchanged. An entry failing `stat` gives -1 with 500. Otherwise the page is heading, links in order and footer, the length is its size and the type is text/html. The body is sent only for GET. |
| Files.BuildLinks | sws/files.c:347-395 | The loop stops at the first entry `stat` fails on. Otherwise it gives the markup of all entries. |
| Files.IndexEntry | sws/files.c:359-393 | "." adds nothing and ".." the parent link. Any other entry adds an anchor to rel + "/" + name, with a '/' for a directory. |
| Files.CopyPrefix | sws/files.c:385-386 | The copy loop copies the first `pos` characters. |
| Cgi.ScanAsWritten | sws/files.c:217-251 | The scan as written never moves backwards. |
| Cgi.ConsumeHeadersAsWritten | sws/files.c:217-251 | The header loop with `buf` and `flag` computes the scan as written. |
| Cgi.ApplyLine | sws/files.c:228-244 | The per-line code as written computes `ApplyAsWritten`: the type from offset 14, and the length without its last character. |
| Cgi.ScanLineAsWritten | sws/files.c:221-247 | A line ended by '\n' is applied, then the next line is read. |
| Cgi.ScanEndAsWritten | sws/files.c:217-251 | As written, with no further '\n' the scan consumes the rest of the output and sets nothing more. |
| Cgi.AfterLineAsWritten | sws/files.c:245-247 | After a line, the as-written scan stays within the output. |
| Cgi.HeaderLines | sws/files.c:217-251 | The lines of the header block, up to the first empty line, each ended by LF or CR LF. |
| Cgi.BlockStep | sws/files.c:217-251 | An empty line ends the block, and a header line is applied. |
| Cgi.ConsumeHeaders | sws/files.c:217-251 | The corrected header loop computes `Block`: lines end in LF or CR LF, and an empty line ends the loop. |
| Cgi.EndLine | sws/files.c:221-247 | A completed line either ends the block or is applied. |
| Cgi.ApplyHeader | sws/files.c:228-244 | The Content-Type and Content-Length tests applied to one line. |
| Cgi.AtoiOfNat | sws/files.c:242 | `atoi` of a decimal numeral is its value. |
| Cgi.AtoiNumeral | sws/files.c:242 | `atoi` of a string of decimal digits is the number they spell. |
| Cgi.DigitsOfNat | sws/files.c:242 | Reading back the `%lu` numeral of n gives n. |
| Cgi.ApplyType | sws/files.c:228-239 | A Content-Type line sets the type and nothing else. |
| Cgi.ApplyLength | sws/files.c:240-244 | A Content-Length line sets the length and nothing else. |
| Cgi.CgiBlockRoundTrip | sws/files.c:217-269 | A block written with LF or CR LF line ends reads back as its Content-Type and Content-Length. The scan stops right after the empty line, where the body starts. |
| Cgi.LfLength | sws/files.c:240-244 | A Content-Length line with LF line ends gives that length. |
| Cgi.CrlfHeadersAsWritten | sws/files.c:217-251 | As written, with CR LF line ends the CR stays in the type, and "\r" does not end the loop, so no body is relayed. |
| Cgi.LfLengthAsWritten | sws/files.c:240-244 | As written, the length loses its last digit: "42" gives 4. |
| Cgi.LengthLineAsWritten | sws/files.c:240-244 | As written, one Content-Length line sets the value without its last digit. |
| Cgi.CrlfTypeAsWritten | sws/files.c:228-239 | As written, a Content-Type line ended by CR LF stores the type with its CR. |
| Cgi.CrlfFirstLine | sws/files.c:217-247 | As written, a CR LF first line is applied with its CR, and the scan goes on after the LF. |
| Cgi.CrLineThenEnd | sws/files.c:245-251 | As written, the blank line CR LF followed by a body without '\n' does not end the loop, and the whole body is consumed. |
| Cgi.CgiMime | sws/files.c:263-266 | The type announced is the program's, else the one already set, else text/html. |
| Cgi.CgiLength | sws/files.c:267-269 | The length announced is the program's, else the one already set, both as an `unsigned long` when non-zero. It is zero only when the program produced nothing. |
| Cgi.ExecuteCgi | sws/files.c:117-291 | The relay as intended, given the program's output: a failed `stat` gives 500. Otherwise the header block is consumed by the corrected scan, the response header is built from what it set, and the rest of the output is the body. |
| Cgi.Announce | sws/files.c:263-270 | The type and length are stored in the response. |
| Cgi.CgiReplyDescribesOutput | sws/files.c:217-279 | A program writing Content-Type and a Content-Length between 1 and 2^31 - 1 is announced with exactly those, and its body is relayed unchanged. |
| Cgi.HeaderReadBlocksAsWritten | sws/files.c:189-221 | As written, the content pipe receives nothing and its write end stays open, so the first read of the header loop waits for ever. |
| Cgi.SizeLoopNeverEndsAsWritten | sws/files.c:255-256 | As written, once a read of the size pipe has returned bytes, the sum `n` stays positive after every later read, so the loop never ends. |
| ContentType.Lookup | sws/src/content_type.c:99-122 | A NULL extension gives "text/plain". |
| ContentType.LookupFirst | sws/src/content_type.c:107-121 | The lookup gives the type of the first entry, in list order, listing an equal extension. With no such entry it gives "text/plain". |
| ContentType.LookupFromTable | sws/src/content_type.c:99-122 | Every answer is the default or the type of an entry. |
| ContentType.LookupHit | sws/src/content_type.c:111-117 | If the first entry lists the extension, its type is the answer. |
| ContentType.LookupMiss | sws/src/content_type.c:107-121 | If the first entry does not list it, the walk goes on to the next entry. |
| ContentType.GetContentType | sws/src/content_type.c:99-122 | The nested walk computes `Lookup` over the list's contents and only reads the table. |
| ContentType.Lists | sws/src/content_type.c:111-117 | The inner walk finds the extension exactly when the entry lists it. |
| ContentType.DropNewline | sws/src/content_type.c:82-83 | An extension token loses one trailing '\n'. |
| ContentType.ExtsOf | sws/src/content_type.c:71-87 | Each extension is its token with one trailing '\n' removed. |
| ContentType.TokensCons | sws/src/content_type.c:63-73 | `strtok_r` on " " gives the token, then the tokens after the space. |
| ContentType.LineRoundTrip | sws/src/content_type.c:63-87 | A line written as a type and its extensions reads back as exactly those. |
| ContentType.BareTypeKeepsNewline | sws/src/content_type.c:63-68 | A line with no extension keeps its '\n' in the type. |
| ContentType.ParseAll | sws/src/content_type.c:57-88 | One entry per line, in line order. |
| ContentType.ParseAllSnoc | sws/src/content_type.c:57-88 | Reading one more line appends exactly that line's entry. |
| ContentType.LineEntry | sws/src/content_type.c:63-87 | The token loop gives the line's entry. |
| ContentType.AppendLine | sws/src/content_type.c:58-87 | One turn of the line loop appends the line's entry to the list. |
| ContentType.LoadContentTypes | sws/src/content_type.c:35-96 | A file that cannot be opened gives -1 and no change. Otherwise the entries of the lines are appended in line order. |
| List.Node.constructor | sws/src/list.c:21-33 | A node stores `data` and has no successor. |
| List.List.constructor | sws/src/list.c:7-18 | A new list is empty, head NULL. |
| List.List.Append | sws/src/list.c:36-48 | The node is linked after the last node, or made the head of an empty list. The earlier nodes keep their order and data. |
| List.Clear | sws/src/list.c:51-65 | A NULL list releases nothing. Otherwise every node is released in link order and then the header. |
| LsCmp.StrCmpAntisymmetric | ls/cmp.c:162 | `strcmp` is antisymmetric. |
| LsCmp.StrCmpTransitive | ls/cmp.c:162 | `strcmp` is transitive. |
| LsCmp.CmpLowerCase | ls/cmp.c:153-163 | Both buffers are lower-cased in place, and the result is `strcmp` of the lower-cased strings. |
| LsCmp.LowerInPlace | ls/cmp.c:157-160 | Each loop lower-cases its buffer. |
| LsCmp.NameCmp | ls/cmp.c:94-127 | The result is zero exactly when the names differ only in case. |
| LsCmp.NameCmpCopies | ls/cmp.c:94-127 | `name_cmp` compares copies and leaves the entries' names unchanged. |
| LsCmp.ByValueCmp | ls/cmp.c:30-44 | The larger value comes first, negated under `-r`. A tie is ascending name order, with or without `-r`. |
| LsCmp.CompareByKey | ls/cmp.c:30-146 | Every comparator compares by its key, then by name ignoring case. |
| LsCmp.ReverseOrder | ls/cmp.c:5-9 | `-r` reverses entries whose keys differ, and all entries when sorting by name. Ties on a time or size keep ascending name order. |
| LsCmp.CompareZero | ls/cmp.c:68-70 | Two entries compare equal exactly when their keys agree and their names differ only in case. |
| LsCmp.NameCmpTransitive | ls/cmp.c:94-127 | The name order, ignoring case, is transitive, with or without `-r`. |
| LsCmp.CompareAntisymmetric | ls/cmp.c:68-70 | Swapping the entries negates every comparator. |
| LsCmp.CompareTransitive | ls/cmp.c:68-70 | Every comparator is transitive, so `fts_open` sorts by a consistent order. |
| LsUtil.NumDigits | ls/util.c:162-166 | `num_digits` is at least 1. |
| LsUtil.NumDigitsBounds | ls/util.c:162-166 | `num_digits(n)` is the number of decimal digits of n. |
| LsUtil.NumDigitsIsLength | ls/util.c:162-166 | It is the length of the `%lu` numeral. |
| LsUtil.NumDigitsMonotone | ls/util.c:162-166 | A larger number never has fewer digits. |
| LsUtil.CeilDiv | ls/print.c:108-111 | The rounded-up quotient covers x with less than one unit to spare. |
| LsUtil.CeilDivSubadditive | ls/print.c:108-111 | Rounding up a sum never exceeds the sum of the rounded-up parts. |
| LsUtil.CeilDivLeast | ls/print.c:108-111 | Rounding up gives the least k units that cover x. |
| LsUtil.BlocksShown | ls/print.c:145-149 | The blocks shown are `blocks*512 / block_size` rounded up. |
| LsUtil.SizeShown | ls/util.c:115-120 | With `-k` the size is rounded up to whole 1024-byte units, and otherwise it is the byte size. |
| LsUtil.EstimateOffByOne | ls/util.c:44-48 | As written, the estimate is one more than the count shown whenever the bytes fill whole blocks. |
| LsUtil.EstimateNeverNarrower | ls/util.c:44-48 | As written, the estimate never needs fewer digits than the count shown. |
| LsUtil.EstimateTooWide | ls/util.c:44-48 | Nine 512-byte blocks show as 9, but the estimate reserves two columns. |
| LsUtil.BlocksWidth | ls/util.c:50-69 | The blocks width is `humanize_number`'s length under `-h`. Otherwise it is the digit count of the corrected count shown, `BlocksShown`. |
| LsUtil.OwnerWidth | ls/util.c:72-106 | The owner width is the name's length, or with `-n` the id's digit count. |
| LsUtil.SizeWidth | ls/util.c:115-154 | A device's width is its minor number's. Otherwise it is `humanize_number`'s length or the digits of the size shown. |
| LsUtil.MaxWidths.constructor | ls/print.c:75-77 | Every width starts at 0. |
| LsUtil.MaxWidths.CheckMaxWidths | ls/util.c:27-157 | Each column is raised to the entry's width and never lowered, with the corrected blocks width. A missing user or group name fails with "UID Error" or "GID Error". On success every column fits the entry. |
| LsPrint.FSymbol | ls/print.c:30-51 | '/' for a directory, '*' for an executable regular file, '@' for a link, '=' for a socket and '\|' for a FIFO, each exactly in its case. Anything else has no symbol. |
| LsPrint.Masked | ls/print.c:526-536 | Masking keeps the length. |
| LsPrint.MaskedChars | ls/print.c:530-533 | Printable characters are kept and the others become '?', so only printable ones remain. |
| LsPrint.MaskedIdempotent | ls/print.c:530-533 | Masking twice is masking once. |
| LsPrint.MaskedPrintable | ls/print.c:530-533 | A printable name is unchanged. |
| LsPrint.PrintTheUnprintable | ls/print.c:526-536 | The buffer is masked in place. |
| LsPrint.Total | ls/print.c:108-111 | The "total" counts the entries' bytes in units of the block size, rounded up. |
| LsPrint.TotalAtMostSumShown | ls/print.c:101-111 | The total never exceeds the sum of the blocks columns. |
| LsPrint.MeasureColumns | ls/print.c:101-106 | The measuring loop succeeds exactly when no name is missing. Then the total is the sum of the blocks and every column fits every entry, with the corrected blocks width. |
| LsPrint.LongEntryBlocks | ls/print.c:300-334 | Under `-k`, the entry uses 1024 and the block size is restored afterwards. |
| LsPrint.LongTotalExceedsEntriesAsWritten | ls/print.c:247-265 | Under `-k` the total is still in BLOCKSIZE units: one 1024-byte entry shows 1 block, but the total says 2. |
| LsPrint.LongTotal | ls/print.c:247-265 | The corrected total is in the unit of the blocks columns and never exceeds their sum. |
| LsOptions.Errors.constructor | ls/ls.c:27 | The global `error_buff` starts empty, and `errno` starts at 0. |
| LsMain.Initial | ls/ls.c:40-54 | Before the loop: name sort and one entry per line. `-q` is on for a terminal and `-w` otherwise, and `-A` is on for root. |
| LsMain.ParseOptions | ls/ls.c:57-147 | The option loop computes `Parse`. An unknown option stops it. |
| LsMain.FlagConsistent | ls/ls.c:58-146 | Each option keeps the state consistent. One-per-line and long format are exclusive, and so are `-q`/`-w`, `-h`/`-k` and `-c`/`-u`. A time comparator appears only after `-t`. |
| LsMain.ParseConsistent | ls/ls.c:57-147 | The loop ends in a consistent state. |
| LsMain.OptionsConsistent | ls/ls.c:40-147 | Whatever the options, `main` calls `list` with a consistent state. |
| LsMain.ParseAppend | ls/ls.c:57-147 | Reading a + b is reading a, then b. |
| LsMain.ParseKeepsSizeUnit | ls/ls.c:83-93 | Options other than `-h` and `-k` leave those flags alone. |
| LsMain.LastSizeUnitWins | ls/ls.c:83-93 | Of `-h` and `-k`, the one given last wins. |
| LsMain.FlagKeepsNoTimeSort | ls/ls.c:66-73 | No option other than `-t` selects a time comparator. |
| LsMain.NoTimeSortWithoutT | ls/ls.c:66-73 | Without `-t`, `-c` and `-u` have no effect. |
| LsMain.FirstT | ls/ls.c:119-124 | The first `-t` selects the modification-time comparator. |
| LsMain.RepeatedT | ls/ls.c:119-124 | A later `-t` changes nothing. |
| LsMain.FtsArguments | ls/ls.c:179-206 | The paths default to ".". COMFOLLOW is set exactly when none of `-F`, `-d` and `-l` is given, and SEEDOT exactly for `-a`. PHYSICAL and NOCHDIR are always set. No comparator is given under `-f`. |
| LsMain.CheckFileErrors | ls/ls.c:234-249 | An unreadable directory or an error gives -1, storing `fts_errno` and the name as `strncpy` copies it. Anything else gives 0 and changes nothing. |
| CStr.LowerStr | ls/cmp.c:157-160 | Each character is passed through `tolower`. |
| CStr.EqualNoCaseLower | sws/parse.c:151 | Equal ignoring case is equal once lower-cased. |
| CStr.Strchr | sws/parse.c:143 | `strchr` gives the first offset of the character, or NULL exactly when it is absent. |
| CStr.Strrchr | sws/parse.c:47 | `strrchr` gives the last offset of the character, or NULL exactly when it is absent. |
| CStr.SkipSpaces | sws/parse.c:97 | Skipping spaces stops at the first character that is not a space, or the end. |
| CStr.SpanUntil | sws/parse.c:104-106 | A span stops at the first stop character, or the end. |
| CStr.NatToString | sws/server.c:438 | `%lu` prints at least one decimal digit. |
| CStr.StrCmp | ls/cmp.c:162 | The sign of `strcmp`: zero exactly for equal strings. |
| Paths.CanonicalTruncate | sws/parse.c:45-49 | Cutting a non-empty canonical path at its last '/' leaves a canonical path. |
| Paths.CanonicalAppend | sws/parse.c:50-53 | Appending a valid component keeps a path canonical. |

## Left out

- sws/main.c (the accept loop, `fork`, `reap`, the connection counter) is not part of this model. It is sockets, processes and signals.
- Real I/O is not modelled. The model has no `recv`, `send`, `fopen`, `fread`, `fwrite`, `opendir`, `scandir`, `stat`, `pipe`, `fork`, `execl`, `waitpid` or `getpeername`. Their results are inputs: a byte stream, stat records, a listing, and the CGI program's output with its byte count.
- Date handling (`strptime`, `strftime`, `mktime`, the TZ variable) is a predicate over formats and integer times. The formatted current date and Last-Modified text are inputs.
- `file_in_dir` (sws/utils.c:16-65) is not part of this model. It is a recursive inode search over the real file system.
- sws/src/log.c, the log writes in sws/server.c, and tcp/tcp.c and tcp/tcpm.c are not part of this model. They are I/O only.
- The `printf` layout of ls/print.c is not modelled. `getpwuid`, `getgrgid`, `humanize_number`, `strmode`, `isatty` and `getenv` are answers given as inputs. The fts traversal (`check_argument_files`, `check_physical_files`) is not modelled.
- The remaining functions of sws/swslib.c are not part of this model: `sws_request`, `sws_serve_file`, `sws_execute_cgi` and `sws_create_index`. They are the earliest draft of what the middle draft's modules model.
- The memory errors are not modelled; the model keeps the intended string meaning. Among them:
  - the under-sized copy at sws/parse.c:59;
  - the read before the buffer at sws/utils.c:93, taken as "no '/'";
  - the uninitialised `n` at sws/files.c:219, and the uninitialised `buf` (sws/files.c:125) that sws/files.c:248 appends to;
  - `calloc(1, strlen(buf))` followed by a copy with no room for the NUL (sws/parse.c:159-164, sws/src/parse.c:142-147);
  - `strncpy` copies left unterminated (sws/src/content_type.c:68 and 81, sws/utils.c:147);
  - the path buffer one byte short in `my_realpath` (sws/src/utils.c:75).
  The no-op trim at sws/parse.c:169 is modelled as a finding.
- Allocation failures (`malloc`, `calloc` and `realloc` returning NULL, with their 500 paths) are not modelled. Allocation always succeeds.
- Buffer sizes are not modelled, except where the source's bound matters: the line reader's `len`, and the 1024-byte buffer of `strrchr_pos` in sws/utils.c. Fixed-size response buffers (`BUFF_SIZE`, `index[]`) are unbounded strings.
- CStr.StrCmp: only the sign of `strcmp` is modelled, not its magnitude. The comparators use only the sign.
- Files.ServeFile: `reqTime` is the time the If-Modified-Since value denotes, given as an input. How `strptime` and `mktime` produce it is not modelled.
- Files.ServeFile: the status uses the corrected test `ConditionalStatus` (304 when the file is not newer than the time sent). As written, sws/files.c:72 answers 304 only when the time sent is strictly later, so an echoed Last-Modified gets 200 and the body (`Files.EchoedDateAsWritten`).
- Files.ServeFile: the body is exactly the file's bytes. As written, sws/files.c:100-109 sends whole `BUFF_SIZE` buffers and one extra buffer at the end (`Files.SendFileAsWritten`). So the bytes sent always exceed the Content-Length `st_size`.
- Files.MimeKey: whether the extension table lists extensions with or without the dot depends on the table file, which is not part of this model.
- Server.Init: the CGI and secure directories are checked with the string-prefix test as written, not component-wise.
- Server.Dispatch: the CGI test uses the component-wise `Within`. The string-prefix test as written is `Server.CgiSelectsAsWritten`, with the finding below.
- Messages.Response.constructor: sws/response.c leaves `length` unset; the model follows sws/src/response.c, which sets it to -1.
- LineReader.ReadLine: the corrected bound stops one byte earlier than the source's guard `i < len - 1`, so that CR LF and the NUL always fit. The source's behaviour is `LineReader.ReadLineOverflowAsWritten`.
- Cgi.ExecuteCgi: the model describes the relay the parent evidently intends: the program's output `out` and the byte count `produced` are inputs, and the header block is consumed by the corrected `ConsumeHeaders`. The source never performs this relay.
  - The first `execl` (sws/files.c:189) replaces the child, so the second `dup2`/`execl` onto the content pipe is never reached, and the content pipe gets nothing (`Cgi.ChildAsWritten`).
  - The parent never closes the write ends of its pipes, so its first `read` of the content pipe (sws/files.c:221) waits for ever (`Cgi.HeaderReadBlocksAsWritten`).
  - The size loop at sws/files.c:256 cannot end once it has read bytes (`Cgi.SizeLoopNeverEndsAsWritten`).
  - The header scan as written is `Cgi.ConsumeHeadersAsWritten`, with the findings below.
  - The child's environment setup (`putenv`, `gethostname`) is not modelled.
- Cgi.CgiReplyDescribesOutput: only lengths below 2^31 are claimed. `Cgi.Atoi` is unbounded, while C's `atoi` yields an `int` and is undefined beyond it.
- SwsLib.ParseHeader: applies the corrected full-name test of `SwsLib.Header`. As written, sws/swslib.c:587 also records the value of any header whose name is a prefix of If-Modified-Since, such as "If" (`SwsLib.ShortNameTakenAsWritten`).
- Parse.ParseHeader: applies the corrected `Parse.Header`: the full name in any case, and the value without its line end. As written, sws/parse.c:151 takes any prefix of the name, such as "if", and sws/parse.c:167-169 keeps the CR LF in the stored value (`Parse.HeaderAsWritten`).
- SrcParse.ParseHeader: the same corrected rule, `Parse.Header`. As written, sws/src/parse.c:134 keeps the prefix test, so a line "if: x" clears an If-Modified-Since recorded earlier (`SrcParse.ShortNameClearsAsWritten`).
- LsUtil.BlocksWidth: the width is that of the blocks count `print` shows (`BlocksShown`, rounded up). As written, ls/util.c:44-48 adds one to any positive quotient, and ls/util.c:57-67 takes the digits of that estimate (`LsUtil.EstimateTooWide`).
- LsUtil.MaxWidths.CheckMaxWidths: the blocks column uses the corrected `BlocksWidth` above. It requires a positive block size. A BLOCKSIZE that `atoi` reads as 0 or less makes ls/util.c:45 divide by zero or by a negative `int`, which is not modelled. `st_blocks*512` is unbounded here, where ls/util.c:44 stores it in an `int` that truncates past 2^31 - 1.
- LsPrint.MeasureColumns: it inherits the corrected blocks width and the positive block size of `CheckMaxWidths`. The sum of `st_blocks` is unbounded.
- LsPrint.Total: requires a positive block size. A BLOCKSIZE read as 0 or less makes ls/print.c:108 and 262 divide by zero or by the value converted to `unsigned long`, which is not modelled.
- LsPrint.LongTotal: requires a positive block size, as `LsPrint.Total` does.
- LsPrint.LongEntryBlocks: requires a positive block size, as `LsPrint.Total` does.

## Findings

| source | as written | input that shows it | evidently intended | confidence | as-written member | corrected member |
|---|---|---|---|---|---|---|
| sws/server.c:366-400 | The loop guard `i < len - 1` lets a CR read at `i == len - 2` store CR and LF. The NUL then goes to `buf[len]`. | `len - 2` bytes of 'a' followed by CR LF | The line and its NUL always fit the buffer. | not executed | LineReader.ReadLineOverflowAsWritten | LineReader.LineFits |
| sws/utils.c:93-103 | A "." component counts as one level down. | "/./../etc" | A path climbing above the root is rejected. | not executed | Utils.DotHidesDotDotAsWritten | Utils.InRoot |
| sws/utils.c:101-103 | Only "../" is counted, so a final ".." is never seen. | "/.." | A path climbing above the root is rejected. | not executed | Utils.TrailingDotDotAsWritten | Utils.InRoot |
| sws/files.c:72-73 | 304 only when the requested time is strictly later than the file's mtime. | If-Modified-Since equal to the file's Last-Modified | 304 when the file was not modified since that time (section 10.9 of RFC 1945). | not executed | Files.EchoedDateAsWritten | Files.ConditionalStatus |
| sws/server.c:346-347 | The CGI test is a string prefix of the realpath. | realpath "/srv/www/cgi.html", CGI directory "/srv/www/cgi" | Only files inside the CGI directory are executed. | not executed | Server.CgiSiblingSelectedAsWritten | Server.Dispatch |
| sws/swslib.c:587 | `strncmp(buf, "If-Modified-Since", i)` with `i` the name's length accepts every prefix of the name. | "If: x" CR LF | Only the header If-Modified-Since is recorded. | not executed | SwsLib.ShortNameTakenAsWritten | SwsLib.Header |
| sws/parse.c:151 | `strncasecmp(buf, "If-Modified-Since", i)` accepts every prefix of the name, in any case. | "if: x" CR LF | Only the header If-Modified-Since is recorded. | not executed | Parse.ShortNameTakenAsWritten | Parse.Header |
| sws/parse.c:167-169 | The trim sets a local variable to NULL, so the stored value keeps its CR LF. | "If-Modified-Since: <date>" CR LF | The value is stored without its line end. | not executed | Parse.LineEndKeptAsWritten | Parse.Header |
| sws/files.c:217-251 | A line ends only at '\n' and two '\n' in a row end the block, so with CR LF the blank line "\r" does not end it. The CR also stays in the type. | "Content-Type: text/plain" CR LF CR LF, then a body without '\n' | The block ends at the first empty line, with LF or CR LF line ends (section 6.3 of RFC 3875). | not executed | Cgi.CrlfHeadersAsWritten | Cgi.ConsumeHeaders |
| sws/files.c:240-244 | The last character of the Content-Length line is always dropped, meant for the CR. | "Content-Length: 42" LF LF | The length is 42. | not executed | Cgi.LfLengthAsWritten | Cgi.LfLength |
| ls/util.c:44-48 | The blocks estimate adds one whenever the quotient is positive, instead of rounding up. | 9 blocks of 512 bytes with BLOCKSIZE 512 | The column is as wide as the count `print` shows. | not executed | LsUtil.EstimateTooWide | LsUtil.MaxWidths.CheckMaxWidths |
| ls/print.c:247-265 | Under `-k`, the "total" of `print_long` is counted in BLOCKSIZE units while each entry is shown in 1024-byte units. | one regular file of 2 blocks (1024 bytes) with `-lsk` | The total is in the unit of the entries it sums, as `print` does. | not executed | LsPrint.LongTotalExceedsEntriesAsWritten | LsPrint.LongTotal |
| sws/src/parse.c:134 | The prefix test of sws/parse.c:151 is kept: `strncasecmp(buf, "If-Modified-Since", i)` accepts every prefix of the name. | "if: x" CR LF after a valid If-Modified-Since line | Only the header If-Modified-Since is recorded. | not executed | SrcParse.ShortNameClearsAsWritten | SrcParse.ParseHeader |
| sws/files.c:100-109 | `fread(buf, sizeof(buf), 1, file)` succeeds only for whole buffers, every pass writes the whole buffer, and a final `fwrite` sends the buffer once more. | an empty file: `BUFF_SIZE` zero bytes follow "Content-Length: 0" | The body is exactly the file's `st_size` bytes. | not executed | Files.SendFileAsWritten | Files.ServeFile |
| sws/files.c:189-256 | The first `execl` replaces the child, so nothing reaches the content pipe. The parent keeps both write ends open, so its first header `read` waits for ever. The size loop `n += read(...)` cannot end once it has read bytes. | any CGI program that writes output | The program's header block is read and its body relayed (section 6 of RFC 3875). | not executed | Cgi.HeaderReadBlocksAsWritten | Cgi.CgiReplyDescribesOutput |
