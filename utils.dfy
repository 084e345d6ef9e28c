/**
 * sws/utils.c, the middle draft's path helpers: the depth counter
 * `file_in_root`, the path mapping `sws_file_path`, and the buffered
 * `strrchr_pos`.
 */
module Utils {

  import opened Wrappers
  import opened CStr
  import opened Paths

  // --------------------------------------------------------------- file_in_root

  /** A "/~user" request path. */
  predicate IsHomePath(path: string) {
    |path| >= 2 && path[1] == '~'
  }

  /**
   * Where counting starts, and the counter's first value: after the user
   * name of a "/~user/..." path, and at depth 1 on the user name itself
   * when it is followed by no '/'.
   */
  function Start(path: string): (r: (nat, int))
    ensures r.0 <= |path|
    ensures IsHomePath(path) && '/' in path[1..] ==> r.0 >= 2 && r.0 < |path| && path[r.0] == '/' && path[r.0 - 1] != '/'
  {
    if IsHomePath(path) then
      match Strchr(path[1..], '/')
      case None => (1, 1)
      case Some(k) =>
        assert path[1..][k - 1] == path[k];
        (1 + k, 0)
    else (0, 0)
  }

  /**
   * One turn of the counting loop at offset `t`: a '/' not preceded by
   * '/' adds one (the character before the start counts as no '/'), a
   * "../" takes one away and is skipped whole, and anything else is
   * passed over.
   */
  function Step(path: string, t: nat, i: int): (r: (nat, int))
    requires t < |path|
    ensures t < r.0 <= |path| && i - 1 <= r.1 <= i + 1
  {
    if path[t] == '/' && (t == 0 || path[t - 1] != '/') then (t + 1, i + 1)
    else if HasPrefix(path[t..], "../") then (t + 3, i - 1)
    else (t + 1, i)
  }

  /** The rest of the loop from offset `t` with the counter at `i`: 0 as soon as the counter drops below one. */
  function CountFrom(path: string, t: nat, i: int): (r: int)
    requires t <= |path|
    ensures r == 0 || r == 1
    decreases |path| - t
  {
    if t == |path| then 1
    else
      var (t', i') := Step(path, t, i);
      if i' < 1 then 0 else CountFrom(path, t', i')
  }

  /** `file_in_root` as written: 1 when the path is taken to stay inside the root, 0 otherwise. */
  function FileInRootAsWritten(path: string): (r: int)
    ensures r == 0 || r == 1
  {
    var (t, i) := Start(path);
    CountFrom(path, t, i)
  }

  /** `file_in_root`, the loop over `path` with its depth counter. */
  method FileInRoot(path: string) returns (r: int)
    ensures r == FileInRootAsWritten(path)
    ensures r == 0 || r == 1
  {
    var t: nat := 0;
    var i := 0;
    if |path| >= 2 && path[1] == '~' {
      t := 1;
      if Strchr(path[1..], '/').None? {
        i := i + 1;
      } else {
        while path[t] != '/'
          invariant 1 <= t <= 1 + Strchr(path[1..], '/').value
          invariant '/' !in path[1..t]
          decreases |path| - t
        {
          assert path[1..t + 1] == path[1..t] + [path[t]];
          t := t + 1;
        }
        assert Strchr(path[1..], '/') == Some(t - 1) by {
          assert path[1..][t - 1] == '/';
          assert path[1..][..t - 1] == path[1..t];
        }
      }
    }
    assert (t, i) == Start(path);
    while t < |path|
      invariant t <= |path| && i >= 0
      invariant CountFrom(path, t, i) == FileInRootAsWritten(path)
      decreases |path| - t
    {
      if t + 3 <= |path| {
        assert path[t..][..3] == path[t..t + 3];
      }
      if path[t] == '/' && (t == 0 || path[t - 1] != '/') {
        i := i + 1;
        t := t + 1;
      } else if t + 3 <= |path| && path[t..t + 3] == "../" {
        i := i - 1;
        t := t + 3;
      } else {
        t := t + 1;
      }
      if i < 1 {
        return 0;
      }
    }
    return 1;
  }

  /** Once the counter drops below one the answer is 0, whatever follows. */
  lemma EscapeIsFinal(s: string)
    ensures FileInRootAsWritten("/../" + s) == 0
  {
    var path := "/../" + s;
    assert !IsHomePath(path);
    assert Step(path, 0, 0) == (1, 1);
    assert path[1..][..3] == "../";
    assert Step(path, 1, 1) == (4, 0);
    assert CountFrom(path, 1, 1) == 0;
  }

  /** A bare "/~user" is inside the user's directory. */
  lemma BareHomeInside(user: string)
    requires '/' !in user
    ensures FileInRootAsWritten("/~" + user) == 1
  {
    var path := "/~" + user;
    assert path[1..] == "~" + user;
    assert '/' !in path[1..];
    BareHomeCount(path, 1);
  }

  lemma {:induction false} BareHomeCount(path: string, t: nat)
    requires 1 <= t <= |path| && '/' !in path[1..]
    ensures CountFrom(path, t, 1) == 1
    decreases |path| - t
  {
    if t < |path| {
      assert path[t] == path[1..][t - 1];
      BareHomeCount(path, t + 1);
    }
  }

  /**
   * The intended check, on whole components: walking from the top, "."
   * and empty components stay, ".." goes up one level and fails at the
   * top, and any other component goes down one level.
   */
  function DepthWalk(rest: string, depth: nat): bool
    decreases |rest|
  {
    if rest == [] then true
    else if rest[0] == '/' then DepthWalk(rest[1..], depth)
    else
      var e := SpanUntil(rest, 0, Slash);
      if rest[..e] == "." then DepthWalk(rest[e..], depth)
      else if rest[..e] == ".." then depth > 0 && DepthWalk(rest[e..], depth - 1)
      else DepthWalk(rest[e..], depth + 1)
  }

  /**
   * The reference: the directory names the path enters, as a stack; a
   * ".." at the top leaves the root (`None`).
   */
  function StackWalk(rest: string, stack: seq<string>): Option<seq<string>>
    decreases |rest|
  {
    if rest == [] then Some(stack)
    else if rest[0] == '/' then StackWalk(rest[1..], stack)
    else
      var e := SpanUntil(rest, 0, Slash);
      if rest[..e] == "." then StackWalk(rest[e..], stack)
      else if rest[..e] == ".." then
        if stack == [] then None else StackWalk(rest[e..], stack[..|stack| - 1])
      else StackWalk(rest[e..], stack + [rest[..e]])
  }

  /** The depth counter agrees with the stack of entered directories. */
  lemma {:induction false} DepthWalkIsStackWalk(rest: string, stack: seq<string>)
    ensures DepthWalk(rest, |stack|) <==> StackWalk(rest, stack).Some?
    decreases |rest|
  {
    if rest == [] {
    } else if rest[0] == '/' {
      DepthWalkIsStackWalk(rest[1..], stack);
    } else {
      var e := SpanUntil(rest, 0, Slash);
      if rest[..e] == "." {
        DepthWalkIsStackWalk(rest[e..], stack);
      } else if rest[..e] == ".." {
        if stack != [] {
          DepthWalkIsStackWalk(rest[e..], stack[..|stack| - 1]);
        }
      } else {
        DepthWalkIsStackWalk(rest[e..], stack + [rest[..e]]);
      }
    }
  }

  /** The part of the path checked against the root: after the user name for "/~user" paths. */
  function Checked(path: string): string {
    if IsHomePath(path) then path[SpanUntil(path, 1, Slash)..] else path
  }

  /** `file_in_root` as intended: the path never climbs above the directory it is resolved in. */
  function InRoot(path: string): (r: bool)
    ensures r <==> StackWalk(Checked(path), []).Some?
  {
    DepthWalkIsStackWalk(Checked(path), []);
    DepthWalk(Checked(path), 0)
  }

  /** As written, a "." component before ".." hides the ".." from the counter. */
  lemma DotHidesDotDotAsWritten()
    ensures FileInRootAsWritten("/./../etc") == 1
    ensures !InRoot("/./../etc")
  {
    var path := "/./../etc";
    assert !IsHomePath(path);
    assert Step(path, 0, 0) == (1, 1);
    assert path[1..][..3] == "./.";
    assert Step(path, 1, 1) == (2, 1);
    assert Step(path, 2, 1) == (3, 2);
    assert path[3..][..3] == "../";
    assert Step(path, 3, 2) == (6, 1);
    assert path[6..] == "etc";
    assert CountFrom(path, 6, 1) == 1 by {
      assert !HasPrefix(path[6..], "../") && !HasPrefix(path[7..], "../") && !HasPrefix(path[8..], "../");
    }
    DotDotOnlyRest(path);
  }

  lemma DotDotOnlyRest(path: string)
    requires path == "/./../etc"
    ensures !DepthWalk(path, 0)
  {
    assert path[1..] == "./../etc";
    var r1 := path[1..];
    SpanUntilAt(r1, 0, 1, Slash);
    assert r1[..1] == ".";
    assert r1[1..] == "/../etc";
    var r2 := r1[1..][1..];
    assert r2 == "../etc";
    SpanUntilAt(r2, 0, 2, Slash);
    assert r2[..2] == "..";
    assert DepthWalk(path, 0) == DepthWalk(r1, 0);
    assert DepthWalk(r1, 0) == DepthWalk(r1[1..], 0);
    assert DepthWalk(r1[1..], 0) == DepthWalk(r2, 0);
  }

  /** As written, a final ".." is not counted at all. */
  lemma TrailingDotDotAsWritten()
    ensures FileInRootAsWritten("/..") == 1
    ensures !InRoot("/..")
  {
    var path := "/..";
    assert !IsHomePath(path);
    assert Step(path, 0, 0) == (1, 1);
    assert !HasPrefix(path[1..], "../") && !HasPrefix(path[2..], "../");
    assert path[1..] == "..";
    SpanUntilAt("..", 0, 2, Slash);
    assert ".."[..2] == "..";
  }

  // -------------------------------------------------------------- sws_file_path

  /**
   * The path `sws_file_path` builds before the `stat`: "/~user/rest" to
   * "/home/user/sws/rest", a bare "/~user" to "/home/user/sws/", and any
   * other path to `root` followed by the request path.
   */
  function MappedPath(root: string, reqPath: string): string {
    if IsHomePath(reqPath) then
      var tail := reqPath[2..];
      match Strchr(tail, '/')
      case None => "/home/" + tail + "/sws/"
      case Some(k) => "/home/" + tail[..k] + "/sws/" + tail[k + 1..]
    else root + reqPath
  }

  /** The user name is what lies between "/~" and the next '/', and the rest follows "/sws/". */
  lemma MappedPathParts(root: string, reqPath: string)
    ensures IsHomePath(reqPath) && '/' in reqPath[2..] ==>
              var k := Strchr(reqPath[2..], '/').value;
              MappedPath(root, reqPath) == "/home/" + reqPath[2..2 + k] + "/sws/" + reqPath[3 + k..] &&
              '/' !in reqPath[2..2 + k]
    ensures IsHomePath(reqPath) && '/' !in reqPath[2..] ==> MappedPath(root, reqPath) == "/home/" + reqPath[2..] + "/sws/"
    ensures !IsHomePath(reqPath) ==> MappedPath(root, reqPath) == root + reqPath
  {
    if IsHomePath(reqPath) && '/' in reqPath[2..] {
      var tail := reqPath[2..];
      var k := Strchr(tail, '/').value;
      assert tail[..k] == reqPath[2..2 + k] && tail[k + 1..] == reqPath[3 + k..];
    }
  }

  /** A directory's path: one trailing '/' added when it has none. */
  function DirPath(p: string): (r: string)
    ensures r != [] && r[|r| - 1] == '/'
    ensures r == p || r == p + "/"
  {
    if p != [] && p[|p| - 1] == '/' then p else p + "/"
  }

  /** Any other file's path: one trailing '/' dropped. */
  function PlainPath(p: string): (r: string)
    ensures p == r || p == r + "/"
  {
    if p != [] && p[|p| - 1] == '/' then p[..|p| - 1] else p
  }

  /** The path building of `sws_file_path`, proved against `MappedPath`. */
  method MapPath(root: string, reqPath: string) returns (tmpPath: string)
    ensures tmpPath == MappedPath(root, reqPath)
  {
    if |reqPath| >= 2 && reqPath[1] == '~' {
      var tail := reqPath[2..];
      var i := 0;
      if '/' in tail {
        while tail[i] != '/'
          invariant i <= Strchr(tail, '/').value
          decreases |tail| - i
        {
          i := i + 1;
        }
        tmpPath := "/home/" + tail[..i] + "/sws/" + tail[i + 1..];
      } else {
        i := |tail|;
        tmpPath := "/home/" + tail[..i] + "/sws/";
        assert tail[..i] == tail;
      }
    } else {
      tmpPath := root + reqPath;
    }
  }

  /**
   * `sws_file_path`, with `stat` a parameter (None when it fails, else
   * whether the path is a directory): a directory path ends in '/', a
   * path to anything else loses one trailing '/'.
   */
  method FilePath(root: string, reqPath: string, stat: string -> Option<bool>) returns (r: Option<string>)
    ensures stat(MappedPath(root, reqPath)).None? <==> r.None?
    ensures stat(MappedPath(root, reqPath)) == Some(true) ==> r == Some(DirPath(MappedPath(root, reqPath)))
    ensures stat(MappedPath(root, reqPath)) == Some(false) ==> r == Some(PlainPath(MappedPath(root, reqPath)))
  {
    var tmpPath := MapPath(root, reqPath);
    match stat(tmpPath) {
      case None => return None;
      case Some(isDir) =>
        if isDir {
          if !(tmpPath != [] && tmpPath[|tmpPath| - 1] == '/') {
            tmpPath := tmpPath + "/";
          }
        } else if tmpPath != [] && tmpPath[|tmpPath| - 1] == '/' {
          tmpPath := tmpPath[..|tmpPath| - 1];
        }
        return Some(tmpPath);
    }
  }

  // ---------------------------------------------------------------- strrchr_pos

  /**
   * `strrchr_pos`: the first `len` characters are copied into a zeroed
   * 1024-byte buffer, and the offset of the last `c` among them is
   * returned, or -1.  (For `c` the NUL character, the terminator after
   * the copy is found.)
   */
  method StrrchrPos(str: string, c: char, len: int) returns (r: int)
    requires '\0' !in str && len <= |str| && len < 1024
    ensures c != '\0' ==> (r == -1 <==> len <= 0 || c !in str[..len])
    ensures c != '\0' && r != -1 ==> 0 <= r < len && str[r] == c && c !in str[r + 1..len]
    ensures c == '\0' ==> r == if len < 0 then 0 else len
  {
    var buf := new char[1024](_ => '\0');
    var i := 0;
    while i < len
      invariant 0 <= i && (i == 0 || i <= len)
      invariant buf[..i] == str[..i]
      invariant forall j :: i <= j < 1024 ==> buf[j] == '\0'
    {
      buf[i] := str[i];
      i := i + 1;
    }
    var copied := buf[..i];
    assert copied == str[..i];
    assert i == if len < 0 then 0 else len;
    var last: nat;
    if c == '\0' {
      last := i;
    } else {
      match Strrchr(copied, c) {
        case None => return -1;
        case Some(k) => last := k;
      }
    }
    var n := 0;
    while n < len && n != last
      invariant 0 <= n <= last
    {
      n := n + 1;
    }
    if n != last {
      return -1;
    }
    return n;
  }
}
