/**
 * The C library string idioms the server and `ls` sources are built from,
 * on Dafny strings.  A C string is a `string` holding no NUL character;
 * the terminating NUL is not represented.
 */
module CStr {

  import opened Wrappers

  /** `strncmp(s, p, strlen(p)) == 0`: `s` begins with `p`. */
  predicate HasPrefix(s: string, p: string) {
    |p| <= |s| && s[..|p|] == p
  }

  /** `tolower` in the C locale. */
  function Lower(c: char): char {
    if 'A' <= c <= 'Z' then (c as int + 32) as char else c
  }

  /** Every character passed through `tolower`. */
  function LowerStr(s: string): (r: string)
    ensures |r| == |s|
    ensures forall i :: 0 <= i < |s| ==> r[i] == Lower(s[i])
  {
    if s == [] then [] else [Lower(s[0])] + LowerStr(s[1..])
  }

  /** `strncasecmp(s, p, strlen(p)) == 0`: `s` begins with `p`, ignoring case. */
  predicate HasPrefixNoCase(s: string, p: string) {
    |p| <= |s| && EqualNoCase(s[..|p|], p)
  }

  /** `strcasecmp(a, b) == 0`: the strings agree character by character through `tolower`. */
  predicate EqualNoCase(a: string, b: string) {
    |a| == |b| && forall i :: 0 <= i < |a| ==> Lower(a[i]) == Lower(b[i])
  }

  /** Equal ignoring case is equal once lower-cased. */
  lemma EqualNoCaseLower(a: string, b: string)
    ensures EqualNoCase(a, b) <==> LowerStr(a) == LowerStr(b)
  {
    if LowerStr(a) == LowerStr(b) {
      forall i | 0 <= i < |a|
        ensures Lower(a[i]) == Lower(b[i])
      {
        assert LowerStr(a)[i] == LowerStr(b)[i];
      }
    }
  }

  /** `strchr(s, c)`: the offset of the first `c`, or None (NULL). */
  function Strchr(s: string, c: char): (r: Option<nat>)
    ensures r.None? <==> c !in s
    ensures r.Some? ==> r.value < |s| && s[r.value] == c && c !in s[..r.value]
  {
    if s == [] then None
    else if s[0] == c then Some(0)
    else match Strchr(s[1..], c)
      case None => None
      case Some(k) => assert s[1..][..k] == s[1..k + 1]; Some(k + 1)
  }

  /** `strrchr(s, c)`: the offset of the last `c`, or None (NULL). */
  function Strrchr(s: string, c: char): (r: Option<nat>)
    ensures r.None? <==> c !in s
    ensures r.Some? ==> r.value < |s| && s[r.value] == c && c !in s[r.value + 1..]
  {
    if s == [] then None
    else if s[|s| - 1] == c then Some(|s| - 1)
    else
      assert s == s[..|s| - 1] + [s[|s| - 1]];
      Strrchr(s[..|s| - 1], c)
  }

  /** The first offset at or after `i` whose character is in `stops`, or `|s|`. */
  function SpanUntil(s: string, i: nat, stops: set<char>): (r: nat)
    requires i <= |s|
    ensures i <= r <= |s|
    ensures forall j :: i <= j < r ==> s[j] !in stops
    ensures r < |s| ==> s[r] in stops
    decreases |s| - i
  {
    if i == |s| || s[i] in stops then i else SpanUntil(s, i + 1, stops)
  }

  /** `SpanUntil` stops at the first stop character, or at the end. */
  lemma {:induction false} SpanUntilAt(s: string, i: nat, k: nat, stops: set<char>)
    requires i <= k <= |s| && (k < |s| ==> s[k] in stops)
    requires forall j :: i <= j < k ==> s[j] !in stops
    ensures SpanUntil(s, i, stops) == k
    decreases k - i
  {
    if i < k {
      SpanUntilAt(s, i + 1, k, stops);
    }
  }

  /** `for (; *p == ' '; p++)`: the first offset at or after `i` that is not a space. */
  function SkipSpaces(s: string, i: nat): (r: nat)
    requires i <= |s|
    ensures i <= r <= |s|
    ensures forall j :: i <= j < r ==> s[j] == ' '
    ensures r < |s| ==> s[r] != ' '
    decreases |s| - i
  {
    if i < |s| && s[i] == ' ' then SkipSpaces(s, i + 1) else i
  }

  /** What follows the spaces at the start of a suffix. */
  lemma SkipSpacesFrom(s: string, e: nat, t: string)
    requires e <= |s| && s[e..] == t
    ensures s[SkipSpaces(s, e)..] == t[SkipSpaces(t, 0)..]
  {
    SkipSpacesShift(s, e, t, 0);
  }

  /** Dropping a prefix leaves the rest. */
  lemma DropPrefix(p: string, rest: string)
    ensures (p + rest)[|p|..] == rest
  {
  }

  /** Skipping spaces in a suffix of a string is skipping them in the string from where the suffix starts. */
  lemma {:induction false} SkipSpacesShift(s: string, e: nat, t: string, k: nat)
    requires e <= |s| && s[e..] == t && k <= |t|
    ensures SkipSpaces(s, e + k) == e + SkipSpaces(t, k)
    ensures s[SkipSpaces(s, e + k)..] == t[SkipSpaces(t, k)..]
    decreases |t| - k
  {
    if k < |t| {
      assert s[e + k] == t[k];
      if t[k] == ' ' {
        SkipSpacesShift(s, e, t, k + 1);
      }
    } else {
      assert e + k == |s|;
    }
    assert s[e + SkipSpaces(t, k)..] == s[e..][SkipSpaces(t, k)..];
  }

  /** The decimal digit of a value below ten. */
  function Digit(d: nat): char
    requires d < 10
  {
    ('0' as int + d) as char
  }

  /** `printf("%lu", n)` for the value `n`. */
  function NatToString(n: nat): (r: string)
    ensures |r| >= 1
    ensures forall i :: 0 <= i < |r| ==> '0' <= r[i] <= '9'
  {
    if n < 10 then [Digit(n)] else NatToString(n / 10) + [Digit(n % 10)]
  }

  /** The sign of `strcmp(a, b)`: byte-wise order, a proper prefix first. */
  function StrCmp(a: string, b: string): (r: int)
    ensures -1 <= r <= 1
    ensures r == 0 <==> a == b
  {
    if a == [] && b == [] then 0
    else if a == [] then -1
    else if b == [] then 1
    else if a[0] < b[0] then -1
    else if a[0] > b[0] then 1
    else
      assert a == [a[0]] + a[1..] && b == [b[0]] + b[1..];
      StrCmp(a[1..], b[1..])
  }

  /** `isprint` in the C locale. */
  predicate IsPrint(c: char) {
    ' ' <= c <= '~'
  }
}
