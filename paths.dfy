/**
 * Normalised absolute paths, the shape both path normalisers of the server
 * produce: a sequence of `/segment` groups, each segment non-empty, free
 * of '/', and neither "." nor "..".  The empty path is the normalised
 * form of the root.
 */
module Paths {

  import opened Wrappers
  import opened CStr

  const Slash: set<char> := {'/'}

  /** A path component that survives normalisation. */
  predicate ValidSegment(seg: string) {
    |seg| > 0 && '/' !in seg && seg != "." && seg != ".."
  }

  /** Where the first component of `t` (which starts with '/') ends. */
  function SegmentEnd(t: string): (e: nat)
    requires |t| >= 1
    ensures 1 <= e <= |t| && (e < |t| ==> t[e] == '/') && '/' !in t[1..e]
  {
    var e := SpanUntil(t, 1, Slash);
    assert forall c :: c in t[1..e] ==> c !in Slash;
    e
  }

  /** `t` is a (possibly empty) sequence of `/segment` groups. */
  predicate Canonical(t: string)
    decreases |t|
  {
    t == [] || (t[0] == '/' && ValidSegment(t[1..SegmentEnd(t)]) && Canonical(t[SegmentEnd(t)..]))
  }

  /** A canonical path does not end in '/'. */
  lemma {:induction false} CanonicalNoTrailingSlash(t: string)
    requires Canonical(t) && t != []
    ensures t[|t| - 1] != '/'
    decreases |t|
  {
    var e := SegmentEnd(t);
    if e < |t| {
      CanonicalNoTrailingSlash(t[e..]);
    } else {
      assert t[|t| - 1] == t[1..e][|t| - 2];
    }
  }

  /** The first component of `"/" + seg + rest` is `seg` when `rest` is empty or starts a component. */
  lemma SegmentEndOf(seg: string, rest: string)
    requires '/' !in seg && (rest == [] || rest[0] == '/')
    ensures SegmentEnd("/" + seg + rest) == |seg| + 1
    ensures ("/" + seg + rest)[1..|seg| + 1] == seg && ("/" + seg + rest)[|seg| + 1..] == rest
  {
    var t := "/" + seg + rest;
    forall j | 1 <= j < |seg| + 1
      ensures t[j] !in Slash
    {
      assert t[j] == seg[j - 1];
    }
    SpanUntilAt(t, 1, |seg| + 1, Slash);
    assert t[1..|seg| + 1] == seg;
    assert t[|seg| + 1..] == rest;
  }

  /** Appending a valid component keeps a path canonical. */
  lemma {:induction false} CanonicalAppend(t: string, seg: string)
    requires Canonical(t) && ValidSegment(seg)
    ensures Canonical(t + "/" + seg)
    decreases |t|
  {
    if t == [] {
      assert t + "/" + seg == "/" + seg + [];
      SegmentEndOf(seg, []);
    } else {
      var e := SegmentEnd(t);
      var first := t[1..e];
      var rest := t[e..];
      assert t == "/" + first + rest;
      CanonicalAppend(rest, seg);
      assert t + "/" + seg == "/" + first + (rest + "/" + seg);
      SegmentEndOf(first, rest + "/" + seg);
    }
  }

  /**
   * Cutting a non-empty canonical path at its last '/' removes its last
   * component and leaves a canonical path.
   */
  lemma {:induction false} CanonicalTruncate(t: string)
    requires Canonical(t) && t != []
    ensures Strrchr(t, '/').Some?
    ensures Canonical(t[..Strrchr(t, '/').value])
    decreases |t|
  {
    var e := SegmentEnd(t);
    var first := t[1..e];
    var rest := t[e..];
    assert t == "/" + first + rest;
    if rest == [] {
      assert Strrchr(t, '/') == Some(0) by {
        assert '/' !in t[1..];
      }
      assert t[..0] == [];
    } else {
      CanonicalTruncate(rest);
      var k := Strrchr(rest, '/').value;
      StrrchrAppend("/" + first, rest, '/');
      PrefixAcross("/" + first, rest, k);
      CanonicalCons(first, rest[..k]);
      assert t[..Strrchr(t, '/').value] == "/" + first + rest[..k];
    }
  }

  /** A valid component in front of a canonical path gives a canonical path. */
  lemma CanonicalCons(seg: string, rest: string)
    requires ValidSegment(seg) && Canonical(rest)
    ensures Canonical("/" + seg + rest)
  {
    if rest != [] {
      assert rest[0] == '/';
    }
    SegmentEndOf(seg, rest);
  }

  /** A prefix of a concatenation reaching past its left part. */
  lemma PrefixAcross(a: string, b: string, k: nat)
    requires k <= |b|
    ensures (a + b)[..|a| + k] == a + b[..k]
  {
  }

  /** `strrchr` of a concatenation whose right part holds the character. */
  lemma {:induction false} StrrchrAppend(a: string, b: string, c: char)
    requires c in b
    ensures Strrchr(a + b, c) == Some(|a| + Strrchr(b, c).value)
  {
    var k := Strrchr(b, c).value;
    var s := a + b;
    assert s[|a| + k] == b[k];
    assert s[|a| + k + 1..] == b[k + 1..];
    assert c !in s[|a| + k + 1..];
    StrrchrUnique(s, |a| + k, c);
  }

  /** The last occurrence is the one with nothing after it. */
  lemma StrrchrUnique(s: string, k: nat, c: char)
    requires k < |s| && s[k] == c && c !in s[k + 1..]
    ensures Strrchr(s, c) == Some(k)
  {
  }

  /** A non-empty canonical path starts with its first '/'. */
  lemma CanonicalFirstSlash(t: string)
    requires Canonical(t) && t != []
    ensures Strchr(t, '/') == Some(0)
  {
  }
}
