/**
 * sws/src/utils.c, the string helpers of the latest server draft:
 * `strchr_pos`, `strrchr_pos`, the appending helpers `concat` and
 * `conncat`, and the path normaliser `my_realpath`.
 */
module SrcUtils {

  import opened Wrappers
  import opened CStr
  import opened Paths

  // ------------------------------------------------------ strchr_pos, strrchr_pos

  /** `strchr_pos`: the offset of the first `c`, or -1 when `str` has none. */
  function StrchrPos(str: string, c: char): (r: int)
    requires '\0' !in str
    ensures r == -1 <==> c != '\0' && c !in str
    ensures 0 <= r < |str| ==> str[r] == c && c !in str[..r]
    ensures r == |str| <==> c == '\0'
    ensures -1 <= r <= |str|
  {
    if c == '\0' then |str|
    else match Strchr(str, c)
      case None => -1
      case Some(k) => k
  }

  /** `strrchr_pos`: the offset of the last `c`, or -1 when `str` has none. */
  function StrrchrPos(str: string, c: char): (r: int)
    requires '\0' !in str
    ensures r == -1 <==> c != '\0' && c !in str
    ensures 0 <= r < |str| ==> str[r] == c && c !in str[r + 1..]
    ensures r == |str| <==> c == '\0'
    ensures -1 <= r <= |str|
  {
    if c == '\0' then |str|
    else match Strrchr(str, c)
      case None => -1
      case Some(k) => k
  }

  /** A character that occurs once has the same first and last offset. */
  lemma StrchrStrrchrAgree(str: string, c: char, k: nat)
    requires '\0' !in str && k < |str| && str[k] == c
    requires c !in str[..k] && c !in str[k + 1..]
    ensures StrchrPos(str, c) == k && StrrchrPos(str, c) == k
  {
    assert str[k] in str;
  }

  // ------------------------------------------------------------- concat, conncat

  /** The strings of `parts` one after the other. */
  function Joined(parts: seq<string>): string {
    if parts == [] then [] else Joined(parts[..|parts| - 1]) + parts[|parts| - 1]
  }

  lemma {:induction false} JoinedLength(parts: seq<string>)
    ensures |Joined(parts)| == SumLengths(parts)
  {
    if parts != [] {
      JoinedLength(parts[..|parts| - 1]);
    }
  }

  function SumLengths(parts: seq<string>): nat {
    if parts == [] then 0 else SumLengths(parts[..|parts| - 1]) + |parts[|parts| - 1]|
  }

  /** Joining splits over a concatenation of argument lists. */
  lemma {:induction false} JoinedAppend(a: seq<string>, b: seq<string>)
    ensures Joined(a + b) == Joined(a) + Joined(b)
    decreases |b|
  {
    if b == [] {
      assert a + b == a;
    } else {
      var b' := b[..|b| - 1];
      assert (a + b)[..|a + b| - 1] == a + b';
      JoinedAppend(a, b');
    }
  }

  /** `concat`: the `n` strings appended to `str` in argument order. */
  method Concat(str: string, parts: seq<string>) returns (r: string)
    ensures r == str + Joined(parts)
  {
    r := str;
    var i := 0;
    while i < |parts|
      invariant i <= |parts|
      invariant r == str + Joined(parts[..i])
    {
      assert parts[..i + 1][..i] == parts[..i];
      r := r + parts[i];
      i := i + 1;
    }
    assert parts[..i] == parts;
  }

  /**
   * What `strncat(str, s, len)` appends: at most `len` characters of `s`;
   * a negative `len`, converted to `size_t`, bounds nothing.
   */
  function Take(s: string, len: int): (r: string)
    ensures HasPrefix(s, r)
    ensures 0 <= len ==> |r| == if len < |s| then len else |s|
    ensures len < 0 ==> r == s
  {
    if 0 <= len < |s| then s[..len] else s
  }

  /** The (string, length) pairs of `conncat`, each cut to its length, one after the other. */
  function JoinedPrefixes(pairs: seq<(string, int)>): string {
    if pairs == [] then []
    else
      var last := pairs[|pairs| - 1];
      JoinedPrefixes(pairs[..|pairs| - 1]) + Take(last.0, last.1)
  }

  /** `conncat` never appends more than the strings' total length. */
  lemma {:induction false} JoinedPrefixesLength(pairs: seq<(string, int)>)
    ensures |JoinedPrefixes(pairs)| <= SumLengths(Firsts(pairs))
  {
    if pairs != [] {
      JoinedPrefixesLength(pairs[..|pairs| - 1]);
      assert Firsts(pairs)[..|pairs| - 1] == Firsts(pairs[..|pairs| - 1]);
    }
  }

  function Firsts(pairs: seq<(string, int)>): (r: seq<string>)
    ensures |r| == |pairs| && forall i :: 0 <= i < |pairs| ==> r[i] == pairs[i].0
  {
    if pairs == [] then [] else Firsts(pairs[..|pairs| - 1]) + [pairs[|pairs| - 1].0]
  }

  /** With every length at least the string's own, `conncat` is `concat`. */
  lemma {:induction false} JoinedPrefixesWhole(pairs: seq<(string, int)>)
    requires forall i :: 0 <= i < |pairs| ==> pairs[i].1 >= |pairs[i].0|
    ensures JoinedPrefixes(pairs) == Joined(Firsts(pairs))
  {
    if pairs != [] {
      var init := pairs[..|pairs| - 1];
      JoinedPrefixesWhole(init);
      assert Firsts(pairs)[..|pairs| - 1] == Firsts(init);
    }
  }

  /** The first pair's prefix comes first. */
  lemma {:induction false} JoinedPrefixesCons(first: (string, int), rest: seq<(string, int)>)
    ensures JoinedPrefixes([first] + rest) == Take(first.0, first.1) + JoinedPrefixes(rest)
    decreases |rest|
  {
    if rest == [] {
      assert [first] + rest == [first];
      assert [first][..0] == [];
      assert JoinedPrefixes([first]) == JoinedPrefixes([]) + Take(first.0, first.1);
    } else {
      var init, last := rest[..|rest| - 1], rest[|rest| - 1];
      var all := [first] + rest;
      assert all[..|all| - 1] == [first] + init && all[|all| - 1] == last;
      JoinedPrefixesCons(first, init);
      assert JoinedPrefixes(all) == JoinedPrefixes([first] + init) + Take(last.0, last.1);
      assert JoinedPrefixes(rest) == JoinedPrefixes(init) + Take(last.0, last.1);
      assert (Take(first.0, first.1) + JoinedPrefixes(init)) + Take(last.0, last.1)
          == Take(first.0, first.1) + (JoinedPrefixes(init) + Take(last.0, last.1));
    }
  }

  /** `conncat`: at most `len` characters of each (string, len) pair, appended in order. */
  method Conncat(str: string, pairs: seq<(string, int)>) returns (r: string)
    ensures r == str + JoinedPrefixes(pairs)
  {
    r := str;
    var i := 0;
    while i < |pairs|
      invariant i <= |pairs|
      invariant r == str + JoinedPrefixes(pairs[..i])
    {
      assert pairs[..i + 1][..i] == pairs[..i];
      r := r + Take(pairs[i].0, pairs[i].1);
      i := i + 1;
    }
    assert pairs[..i] == pairs;
  }

  // ---------------------------------------------------------------- my_realpath

  /**
   * The loop of `my_realpath` over the unread part `rest`, building `ret`:
   * a '/' is skipped, a "." component is skipped, a ".." component cuts
   * `ret` at its last '/' (keeping that '/' when it is also the first),
   * and any other component is copied after a '/' unless `ret` already
   * ends in one.  A ".." on a `ret` without '/' is the error return.
   */
  function RpWalk(rest: string, ret: string): (r: Option<string>)
    requires ret != []
    ensures r.Some? ==> r.value != []
    decreases |rest|
  {
    if rest == [] then Some(ret)
    else if rest[0] == '/' then RpWalk(rest[1..], ret)
    else if rest[0] == '.' && (|rest| == 1 || rest[1] == '/') then RpWalk(rest[1..], ret)
    else if rest[0] == '.' && |rest| >= 2 && rest[1] == '.' && (|rest| == 2 || rest[2] == '/') then
      match Strrchr(ret, '/')
      case None => None
      case Some(k) => RpWalk(rest[2..], if Some(k) == Strchr(ret, '/') then ret[..k + 1] else ret[..k])
    else
      var e := SpanUntil(rest, 0, Slash);
      RpWalk(rest[e..], (if ret[|ret| - 1] != '/' then ret + "/" else ret) + rest[..e])
  }

  /** The final step of `my_realpath`: a trailing '/' goes, unless it is the whole path. */
  function DropTrailingSlash(t: string): (r: string)
    ensures |r| <= |t| && HasPrefix(t, r)
    ensures t != [] ==> r != []
  {
    if |t| > 1 && t[|t| - 1] == '/' then t[..|t| - 1] else t
  }

  /**
   * `my_realpath`: NULL for the empty path; a relative path is walked
   * from the working directory `cwd`, an absolute one from "/".
   */
  function MyRealpath(path: string, cwd: string): (r: Option<string>)
    requires |cwd| >= 1 && cwd[0] == '/'
  {
    if path == [] then None
    else
      var start := if path[0] != '/' then cwd else "/";
      var rest := if path[0] != '/' then path else path[1..];
      match RpWalk(rest, start)
      case None => None
      case Some(t) => Some(DropTrailingSlash(t))
  }

  /** The paths `my_realpath` keeps in `ret` for an absolute input: the root, or a canonical path. */
  predicate Normal(ret: string) {
    ret == "/" || (ret != [] && Canonical(ret))
  }

  /** Where the component at the front of `rest` ends. */
  function ComponentLen(rest: string): (e: nat)
    ensures e <= |rest| && (e < |rest| ==> rest[e] == '/') && '/' !in rest[..e]
  {
    var e := SpanUntil(rest, 0, Slash);
    assert forall c :: c in rest[..e] ==> c !in Slash;
    e
  }

  /** `ret` with a component added, the way `my_realpath` adds it. */
  function AddComponent(ret: string, seg: string): string
    requires ret != []
  {
    (if ret[|ret| - 1] != '/' then ret + "/" else ret) + seg
  }

  /** Adding a valid component to a normal path gives a canonical path. */
  lemma AddComponentNormal(ret: string, seg: string)
    requires Normal(ret) && ValidSegment(seg)
    ensures AddComponent(ret, seg) != [] && Canonical(AddComponent(ret, seg))
  {
    if ret == "/" {
      assert AddComponent(ret, seg) == [] + "/" + seg;
      CanonicalAppend([], seg);
    } else {
      CanonicalNoTrailingSlash(ret);
      CanonicalAppend(ret, seg);
    }
  }

  /** ".." keeps `ret` normal: the root stays the root. */
  lemma DotDotNormal(ret: string)
    requires Normal(ret)
    ensures Strrchr(ret, '/').Some?
    ensures var k := Strrchr(ret, '/').value;
            Normal(if Some(k) == Strchr(ret, '/') then ret[..k + 1] else ret[..k])
  {
    if ret == "/" {
      assert ret[0] == '/';
    } else {
      CanonicalTruncate(ret);
      CanonicalFirstSlash(ret);
      var k := Strrchr(ret, '/').value;
      if k == 0 {
        assert ret[..1] == "/";
      } else {
        assert ret[..k][0] == '/';
      }
    }
  }

  /** A component that is not "." or ".." (and cannot be empty) is valid. */
  lemma ComponentValid(rest: string)
    requires rest != [] && rest[0] != '/'
    requires !(rest[0] == '.' && (|rest| == 1 || rest[1] == '/'))
    requires !(rest[0] == '.' && |rest| >= 2 && rest[1] == '.' && (|rest| == 2 || rest[2] == '/'))
    ensures ValidSegment(rest[..ComponentLen(rest)])
    ensures ComponentLen(rest) == SpanUntil(rest, 0, Slash)
  {
    var e := ComponentLen(rest);
    assert e >= 1;
    assert rest[..e][0] == rest[0];
  }

  /**
   * Walked from a normal `ret`, the loop never takes its error return and
   * ends on a normal path.
   */
  lemma {:induction false} RpWalkNormal(rest: string, ret: string)
    requires Normal(ret)
    ensures RpWalk(rest, ret).Some? && Normal(RpWalk(rest, ret).value)
    decreases |rest|
  {
    if rest == [] {
    } else if rest[0] == '/' {
      RpWalkNormal(rest[1..], ret);
    } else if rest[0] == '.' && (|rest| == 1 || rest[1] == '/') {
      RpWalkNormal(rest[1..], ret);
    } else if rest[0] == '.' && |rest| >= 2 && rest[1] == '.' && (|rest| == 2 || rest[2] == '/') {
      DotDotNormal(ret);
      var k := Strrchr(ret, '/').value;
      RpWalkNormal(rest[2..], if Some(k) == Strchr(ret, '/') then ret[..k + 1] else ret[..k]);
    } else {
      ComponentValid(rest);
      var e := ComponentLen(rest);
      AddComponentNormal(ret, rest[..e]);
      RpWalkNormal(rest[e..], AddComponent(ret, rest[..e]));
    }
  }

  /**
   * The length bound: what the loop returns is no longer than `ret` plus
   * the unread input, plus one when the character read last was a '/'
   * that a following component still needs.
   */
  lemma {:induction false} RpWalkBudget(rest: string, ret: string, credit: nat)
    requires Normal(ret) && credit <= 1
    requires rest != [] && rest[0] != '/' && ret != "/" ==> credit == 1
    ensures RpWalk(rest, ret).Some? && |RpWalk(rest, ret).value| <= |ret| + |rest| + credit
    decreases |rest|
  {
    RpWalkNormal(rest, ret);
    if rest == [] {
    } else if rest[0] == '/' {
      RpWalkBudget(rest[1..], ret, 1);
    } else if rest[0] == '.' && (|rest| == 1 || rest[1] == '/') {
      RpWalkBudget(rest[1..], ret, 0);
    } else if rest[0] == '.' && |rest| >= 2 && rest[1] == '.' && (|rest| == 2 || rest[2] == '/') {
      DotDotNormal(ret);
      var k := Strrchr(ret, '/').value;
      RpWalkBudget(rest[2..], if Some(k) == Strchr(ret, '/') then ret[..k + 1] else ret[..k], 0);
    } else {
      ComponentValid(rest);
      var e := ComponentLen(rest);
      AddComponentNormal(ret, rest[..e]);
      if ret != "/" {
        CanonicalNoTrailingSlash(ret);
      }
      RpWalkBudget(rest[e..], AddComponent(ret, rest[..e]), 0);
    }
  }

  /**
   * For an absolute path, `my_realpath` returns a path that starts with
   * '/', is the root or canonical (no empty, "." or ".." component, no
   * trailing '/'), and is no longer than its input.
   */
  lemma AbsoluteResult(path: string, cwd: string)
    requires |cwd| >= 1 && cwd[0] == '/'
    requires path != [] && path[0] == '/'
    ensures MyRealpath(path, cwd).Some?
    ensures Normal(MyRealpath(path, cwd).value)
    ensures MyRealpath(path, cwd).value[0] == '/'
    ensures |MyRealpath(path, cwd).value| <= |path|
  {
    RpWalkBudget(path[1..], "/", 0);
    RpWalkNormal(path[1..], "/");
    var t := RpWalk(path[1..], "/").value;
    if t != "/" {
      CanonicalNoTrailingSlash(t);
    }
  }

  /** `my_realpath` is defined exactly on the non-empty paths. */
  lemma Defined(path: string, cwd: string)
    requires |cwd| >= 1 && cwd[0] == '/'
    ensures MyRealpath(path, cwd).None? <==> path == []
  {
    if path != [] {
      RpWalkDefined(if path[0] != '/' then path else path[1..], if path[0] != '/' then cwd else "/");
    }
  }

  /** From a `ret` that holds a '/' the error return is never taken. */
  lemma {:induction false} RpWalkDefined(rest: string, ret: string)
    requires ret != [] && ret[0] == '/'
    ensures RpWalk(rest, ret).Some?
    decreases |rest|
  {
    if rest == [] {
    } else if rest[0] == '/' {
      RpWalkDefined(rest[1..], ret);
    } else if rest[0] == '.' && (|rest| == 1 || rest[1] == '/') {
      RpWalkDefined(rest[1..], ret);
    } else if rest[0] == '.' && |rest| >= 2 && rest[1] == '.' && (|rest| == 2 || rest[2] == '/') {
      assert ret[0] in ret;
      var k := Strrchr(ret, '/').value;
      if Some(k) != Strchr(ret, '/') {
        assert Strchr(ret, '/') == Some(0);
      }
      RpWalkDefined(rest[2..], if Some(k) == Strchr(ret, '/') then ret[..k + 1] else ret[..k]);
    } else {
      var e := SpanUntil(rest, 0, Slash);
      RpWalkDefined(rest[e..], (if ret[|ret| - 1] != '/' then ret + "/" else ret) + rest[..e]);
    }
  }

  /** ".." at the root stays at the root. */
  lemma DotDotAtRoot(rest: string)
    requires rest == [] || rest[0] == '/'
    ensures RpWalk(".." + rest, "/") == RpWalk(rest, "/")
  {
    var s := ".." + rest;
    assert s[2..] == rest;
    assert Strrchr("/", '/') == Some(0) && Strchr("/", '/') == Some(0);
    assert "/"[..1] == "/";
  }

  /** `ret` followed by a canonical path, joined with exactly one '/' between. */
  function Graft(ret: string, t: string): string {
    if ret == "/" && t != [] then t else ret + t
  }

  /** Walking a canonical path from a normal `ret` grafts it on unchanged. */
  lemma {:induction false} RpWalkCanonical(t: string, ret: string)
    requires Canonical(t) && Normal(ret)
    ensures RpWalk(t, ret) == Some(Graft(ret, t))
    decreases |t|
  {
    if t == [] {
      assert ret + t == ret;
    } else {
      var e := SegmentEnd(t);
      var seg := t[1..e];
      CanonicalStep(t, ret);
      AddComponentNormal(ret, seg);
      RpWalkCanonical(t[e..], AddComponent(ret, seg));
      if ret != "/" {
        CanonicalNoTrailingSlash(ret);
      }
      GraftStep(t, ret, e);
    }
  }

  /** The loop reads the leading '/' and first component of a canonical path in one go. */
  lemma CanonicalStep(t: string, ret: string)
    requires Canonical(t) && t != [] && ret != []
    ensures RpWalk(t, ret) == RpWalk(t[SegmentEnd(t)..], AddComponent(ret, t[1..SegmentEnd(t)]))
  {
    var e := SegmentEnd(t);
    CanonicalHead(t);
    assert RpWalk(t, ret) == RpWalk(t[1..], ret);
    assert t[1..][e - 1..] == t[e..];
  }

  lemma GraftStep(t: string, ret: string, e: nat)
    requires 2 <= e <= |t| && t[0] == '/'
    requires ret != [] && (ret == "/" || ret[|ret| - 1] != '/')
    ensures Graft(AddComponent(ret, t[1..e]), t[e..]) == Graft(ret, t)
  {
    var seg := t[1..e];
    assert t[..e] + t[e..] == t;
    if ret == "/" {
      assert AddComponent(ret, seg) == t[..e];
    } else {
      assert AddComponent(ret, seg) == ret + t[..e];
      assert (ret + t[..e]) + t[e..] == ret + t;
    }
  }

  /** After its leading '/', a canonical path starts with a component the loop copies. */
  lemma CanonicalHead(t: string)
    requires Canonical(t) && t != []
    ensures var rest := t[1..]; var e := SegmentEnd(t);
            && rest != [] && rest[0] != '/'
            && !(rest[0] == '.' && (|rest| == 1 || rest[1] == '/'))
            && !(rest[0] == '.' && |rest| >= 2 && rest[1] == '.' && (|rest| == 2 || rest[2] == '/'))
            && SpanUntil(rest, 0, Slash) == e - 1
            && rest[..e - 1] == t[1..e] && rest[e - 1..] == t[e..]
            && ValidSegment(t[1..e])
  {
    var e := SegmentEnd(t);
    var seg := t[1..e];
    var rest := t[1..];
    assert rest[0] == seg[0];
    assert rest[..e - 1] == seg;
    if e < |t| {
      assert rest[e - 1] == t[e];
    }
    forall j | 0 <= j < e - 1
      ensures rest[j] !in Slash
    {
      assert rest[j] == seg[j];
    }
    SpanUntilAt(rest, 0, e - 1, Slash);
    if |seg| >= 2 {
      assert rest[1] == seg[1];
    }
    if |seg| >= 3 {
      assert rest[2] == seg[2];
    }
  }

  /** A path `my_realpath` returns is returned unchanged when normalised again. */
  lemma Idempotent(path: string, cwd: string)
    requires |cwd| >= 1 && cwd[0] == '/'
    requires path != [] && path[0] == '/'
    ensures MyRealpath(path, cwd).Some? && MyRealpath(MyRealpath(path, cwd).value, cwd) == MyRealpath(path, cwd)
  {
    AbsoluteResult(path, cwd);
    var r := MyRealpath(path, cwd).value;
    if r == "/" {
      assert r[1..] == [];
    } else {
      RpWalkCanonical(r, "/");
      assert RpWalk(r, "/") == RpWalk(r[1..], "/");
      CanonicalNoTrailingSlash(r);
    }
  }

  /** `my_realpath` on strings. */
  method MyRealpathLoop(path: string, cwd: string) returns (r: Option<string>)
    requires |cwd| >= 1 && cwd[0] == '/'
    ensures r == MyRealpath(path, cwd)
  {
    if |path| == 0 {
      return None;
    }
    var ret: string;
    var p: nat;
    if path[0] != '/' {
      ret, p := cwd, 0;
    } else {
      ret, p := "/", 1;
    }
    ghost var goal := RpWalk(path[p..], ret);
    while p < |path|
      invariant p <= |path| && ret != []
      invariant RpWalk(path[p..], ret) == goal
    {
      var next, failed;
      p, next, failed := RealpathStep(path, p, ret);
      if failed {
        return None;
      }
      ret := next;
    }
    assert path[p..] == [];
    if ret[|ret| - 1] == '/' && |ret| > 1 {
      ret := ret[..|ret| - 1];
    }
    return Some(ret);
  }

  /** One turn of the loop of `my_realpath`. */
  method RealpathStep(path: string, p: nat, ret: string) returns (p': nat, ret': string, failed: bool)
    requires p < |path| && ret != []
    ensures failed ==> RpWalk(path[p..], ret).None?
    ensures !failed ==> p < p' <= |path| && ret' != [] && RpWalk(path[p'..], ret') == RpWalk(path[p..], ret)
  {
    ghost var rest := path[p..];
    failed := false;
    ret' := ret;
    if path[p] == '/' {
      assert rest[1..] == path[p + 1..];
      p' := p + 1;
    } else if path[p] == '.' && (p + 1 == |path| || path[p + 1] == '/') {
      assert rest[1..] == path[p + 1..];
      p' := p + 1;
    } else if path[p] == '.' && p + 1 < |path| && path[p + 1] == '.' && (p + 2 == |path| || path[p + 2] == '/') {
      assert rest[2..] == path[p + 2..];
      var last := Strrchr(ret, '/');
      if last.None? {
        return p, ret, true;
      }
      if last == Strchr(ret, '/') {
        ret' := ret[..last.value + 1];
      } else {
        ret' := ret[..last.value];
        assert last.value > 0;
      }
      p' := p + 2;
    } else {
      p', ret' := CopyComponent(path, p, ret);
      assert rest[p' - p..] == path[p'..];
    }
  }

  /** The component-copying branch of `my_realpath`: a '/' if needed, then the characters up to the next '/'. */
  method CopyComponent(path: string, p: nat, ret: string) returns (p': nat, ret': string)
    requires p < |path| && ret != []
    ensures p < p' <= |path| || path[p] == '/'
    ensures p <= p' <= |path|
    ensures var rest := path[p..]; var e := SpanUntil(rest, 0, Slash);
            p' == p + e && ret' == AddComponent(ret, rest[..e])
  {
    ghost var rest := path[p..];
    ret' := ret;
    if ret[|ret| - 1] != '/' {
      ret' := ret' + "/";
    }
    p' := p;
    while p' < |path| && path[p'] != '/'
      invariant p <= p' <= |path|
      invariant SpanUntil(rest, p' - p, Slash) == SpanUntil(rest, 0, Slash)
      invariant ret' == (if ret[|ret| - 1] != '/' then ret + "/" else ret) + path[p..p']
    {
      ret' := ret' + [path[p']];
      p' := p' + 1;
    }
    assert rest[..p' - p] == path[p..p'];
  }

}
