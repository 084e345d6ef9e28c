/**
 * ls/cmp.c: the comparators `fts_open` sorts with.  The time and size
 * comparators put larger values first and break ties by name; the name
 * comparator orders names ignoring case.  The `-r` flag negates every
 * comparator's result, so under `-r` a tie broken by name is negated
 * twice and stays in ascending name order.
 *
 * An `FTSENT` is reduced to the fields the comparators read; `-r` (the
 * global `opts.sort_reverse`) is a parameter, and the global `cmpfunc` is
 * a `SortKey`.  `strcmp` is modelled by its sign.
 */
module LsCmp {

  import opened CStr

  /** What the comparators read from an `FTSENT` and its `stat`. */
  datatype Entry = Entry(name: string, atime: int, ctime: int, mtime: int, size: int)

  /** The comparator `cmpfunc` points at. */
  datatype SortKey = ByName | ByAccess | ByChanged | ByModified | BySize

  /** The `stat` field a key sorts by; names only for `ByName`. */
  function KeyOf(k: SortKey, e: Entry): int {
    match k
    case ByName => 0
    case ByAccess => e.atime
    case ByChanged => e.ctime
    case ByModified => e.mtime
    case BySize => e.size
  }

  // ------------------------------------------------------------ strcmp's order

  /** `strcmp` is antisymmetric. */
  lemma {:induction false} StrCmpAntisymmetric(a: string, b: string)
    ensures StrCmp(a, b) == -StrCmp(b, a)
    decreases |a|
  {
    if a != [] && b != [] && a[0] == b[0] {
      StrCmpAntisymmetric(a[1..], b[1..]);
    }
  }

  /** `strcmp` is transitive. */
  lemma {:induction false} StrCmpTransitive(a: string, b: string, c: string)
    requires StrCmp(a, b) <= 0 && StrCmp(b, c) <= 0
    ensures StrCmp(a, c) <= 0
    decreases |a|
  {
    if a != [] && b != [] && c != [] && a[0] == b[0] && b[0] == c[0] {
      StrCmpTransitive(a[1..], b[1..], c[1..]);
    }
  }

  // ----------------------------------------------------------- cmp_lower_case

  /**
   * `cmp_lower_case`: both buffers are lower-cased in place, then
   * compared with `strcmp`.
   */
  method CmpLowerCase(str1: array<char>, str2: array<char>) returns (r: int)
    requires str1 != str2
    modifies str1, str2
    ensures str1[..] == LowerStr(old(str1[..])) && str2[..] == LowerStr(old(str2[..]))
    ensures r == StrCmp(str1[..], str2[..])
  {
    LowerInPlace(str1);
    LowerInPlace(str2);
    r := StrCmp(str1[..], str2[..]);
  }

  /** `for (i = 0; i < strlen(s); i++) s[i] = tolower(s[i]);` */
  method LowerInPlace(s: array<char>)
    modifies s
    ensures s[..] == LowerStr(old(s[..]))
  {
    var i := 0;
    while i < s.Length
      invariant 0 <= i <= s.Length
      invariant forall j :: 0 <= j < i ==> s[j] == Lower(old(s[j]))
      invariant forall j :: i <= j < s.Length ==> s[j] == old(s[j])
    {
      s[i] := Lower(s[i]);
      i := i + 1;
    }
  }

  // ----------------------------------------------------------------- name_cmp

  /**
   * `name_cmp`: the names compared ignoring case, negated under `-r`.
   * The result is zero exactly when the names differ only in case.
   */
  function NameCmp(a: Entry, b: Entry, reverse: bool): (r: int)
    ensures -1 <= r <= 1
    ensures r == 0 <==> LowerStr(a.name) == LowerStr(b.name)
  {
    var ret := StrCmp(LowerStr(a.name), LowerStr(b.name));
    if reverse then -ret else ret
  }

  /**
   * `name_cmp` as written: the names are copied into fresh buffers, which
   * `cmp_lower_case` lower-cases; the entries are not written to.
   */
  method NameCmpCopies(a: Entry, b: Entry, reverse: bool) returns (r: int)
    ensures r == NameCmp(a, b, reverse)
  {
    var buf1 := new char[|a.name|](i requires 0 <= i < |a.name| => a.name[i]);
    var buf2 := new char[|b.name|](i requires 0 <= i < |b.name| => b.name[i]);
    assert buf1[..] == a.name && buf2[..] == b.name;
    r := CmpLowerCase(buf1, buf2);
    if reverse {
      r := -r;
    }
  }

  // ------------------------------------------------- the time and size comparators

  /**
   * `access_cmp`, `changed_cmp`, `modified_cmp` and `size_cmp`: the larger
   * value first, a tie broken by `name_cmp`, the result negated under
   * `-r`.  So a tie is in ascending name order whether or not `-r` is given.
   */
  function ByValueCmp(av: int, bv: int, a: Entry, b: Entry, reverse: bool): (r: int)
    ensures av > bv ==> r == (if reverse then 1 else -1)
    ensures av < bv ==> r == (if reverse then -1 else 1)
    ensures av == bv ==> r == NameCmp(a, b, false)
  {
    var ret := if av > bv then -1 else if av < bv then 1 else NameCmp(a, b, reverse);
    if reverse then -ret else ret
  }

  /** `compare`: the comparator `cmpfunc` selects. */
  function Compare(k: SortKey, a: Entry, b: Entry, reverse: bool): int {
    match k
    case ByName => NameCmp(a, b, reverse)
    case ByAccess => ByValueCmp(a.atime, b.atime, a, b, reverse)
    case ByChanged => ByValueCmp(a.ctime, b.ctime, a, b, reverse)
    case ByModified => ByValueCmp(a.mtime, b.mtime, a, b, reverse)
    case BySize => ByValueCmp(a.size, b.size, a, b, reverse)
  }

  /** Every comparator compares by its key value, then by name ignoring case. */
  lemma CompareByKey(k: SortKey, a: Entry, b: Entry, reverse: bool)
    ensures k == ByName ==> Compare(k, a, b, reverse) == NameCmp(a, b, reverse)
    ensures k != ByName && KeyOf(k, a) > KeyOf(k, b) ==> Compare(k, a, b, reverse) == (if reverse then 1 else -1)
    ensures k != ByName && KeyOf(k, a) < KeyOf(k, b) ==> Compare(k, a, b, reverse) == (if reverse then -1 else 1)
    ensures k != ByName && KeyOf(k, a) == KeyOf(k, b) ==> Compare(k, a, b, reverse) == NameCmp(a, b, false)
  {
  }

  /**
   * `-r` reverses the order of entries whose key values differ, and of
   * all entries when sorting by name, but keeps ties on a time or a size
   * in ascending name order.
   */
  lemma ReverseOrder(k: SortKey, a: Entry, b: Entry)
    ensures k == ByName || KeyOf(k, a) != KeyOf(k, b) ==> Compare(k, a, b, true) == -Compare(k, a, b, false)
    ensures k != ByName && KeyOf(k, a) == KeyOf(k, b) ==> Compare(k, a, b, true) == Compare(k, a, b, false)
  {
    CompareByKey(k, a, b, true);
    CompareByKey(k, a, b, false);
  }

  /** Two entries compare equal exactly when their keys agree and their names differ only in case. */
  lemma CompareZero(k: SortKey, a: Entry, b: Entry, reverse: bool)
    ensures Compare(k, a, b, reverse) == 0 <==> KeyOf(k, a) == KeyOf(k, b) && LowerStr(a.name) == LowerStr(b.name)
  {
    CompareByKey(k, a, b, reverse);
  }

  /** Swapping the entries negates every comparator. */
  lemma CompareAntisymmetric(k: SortKey, a: Entry, b: Entry, reverse: bool)
    ensures Compare(k, a, b, reverse) == -Compare(k, b, a, reverse)
  {
    StrCmpAntisymmetric(LowerStr(a.name), LowerStr(b.name));
    CompareByKey(k, a, b, reverse);
    CompareByKey(k, b, a, reverse);
  }

  /** Names ignoring case, in ascending or, under `-r`, descending order, are a total preorder. */
  lemma NameCmpTransitive(a: Entry, b: Entry, c: Entry, reverse: bool)
    requires NameCmp(a, b, reverse) <= 0 && NameCmp(b, c, reverse) <= 0
    ensures NameCmp(a, c, reverse) <= 0
  {
    var x, y, z := LowerStr(a.name), LowerStr(b.name), LowerStr(c.name);
    if reverse {
      StrCmpAntisymmetric(x, y);
      StrCmpAntisymmetric(y, z);
      StrCmpAntisymmetric(x, z);
      StrCmpTransitive(z, y, x);
    } else {
      StrCmpTransitive(x, y, z);
    }
  }

  /** Every comparator is transitive, so `fts_open` sorts by a consistent order. */
  lemma CompareTransitive(k: SortKey, a: Entry, b: Entry, c: Entry, reverse: bool)
    requires Compare(k, a, b, reverse) <= 0 && Compare(k, b, c, reverse) <= 0
    ensures Compare(k, a, c, reverse) <= 0
  {
    CompareByKey(k, a, b, reverse);
    CompareByKey(k, b, c, reverse);
    CompareByKey(k, a, c, reverse);
    if k == ByName {
      NameCmpTransitive(a, b, c, reverse);
    } else if KeyOf(k, a) == KeyOf(k, b) && KeyOf(k, b) == KeyOf(k, c) {
      NameCmpTransitive(a, b, c, false);
    }
  }
}
