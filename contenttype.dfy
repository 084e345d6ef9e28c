/**
 * sws/src/content_type.c: the table of MIME types, loaded from a file
 * whose lines read `type ext ext ...`, and the lookup of a file
 * extension in it.
 *
 * The table is the linked list of sws/src/list.c holding one entry per
 * line; each entry's extensions are a sequence.  The file is given as its
 * lines, each with its line end as `getline` returns it.
 */
module ContentType {

  import opened Wrappers
  import opened CStr
  import opened List

  /** `struct content_type`: a MIME type and its extensions, in file order. */
  datatype Entry = Entry(ctype: string, exts: seq<string>)

  /** The type of anything the table does not name. */
  const DefaultType := "text/plain"

  // ------------------------------------------------------------ get_content_type

  /**
   * The lookup: the type of the first entry, in table order, listing an
   * extension exactly equal to `file`; `text/plain` for a NULL extension
   * or when no entry lists it.
   */
  function Lookup(table: seq<Entry>, file: Option<string>): (r: string)
    ensures file.None? ==> r == DefaultType
  {
    if file.None? || table == [] then DefaultType
    else if file.value in table[0].exts then table[0].ctype
    else Lookup(table[1..], file)
  }

  /**
   * The lookup answers with the first entry listing the extension, and
   * with the default when no entry lists it.
   */
  lemma {:induction false} LookupFirst(table: seq<Entry>, x: string)
    ensures (forall i :: 0 <= i < |table| ==> x !in table[i].exts) ==> Lookup(table, Some(x)) == DefaultType
    ensures forall i :: 0 <= i < |table| && FirstListing(table, x, i) ==> Lookup(table, Some(x)) == table[i].ctype
    decreases |table|
  {
    if table != [] && x !in table[0].exts {
      LookupFirst(table[1..], x);
      assert forall i :: 1 <= i < |table| ==> table[i] == table[1..][i - 1];
      forall i | 1 <= i < |table| && FirstListing(table, x, i)
        ensures FirstListing(table[1..], x, i - 1)
      {
      }
    }
  }

  /** Entry `i` is the first entry listing extension `x`. */
  predicate FirstListing(table: seq<Entry>, x: string, i: nat)
    requires i < |table|
  {
    x in table[i].exts && forall j :: 0 <= j < i ==> x !in table[j].exts
  }

  /** Every result is the default or the type of some entry. */
  lemma {:induction false} LookupFromTable(table: seq<Entry>, file: Option<string>)
    ensures Lookup(table, file) == DefaultType ||
            exists i :: 0 <= i < |table| && Lookup(table, file) == table[i].ctype
  {
    if file.Some? && table != [] && file.value !in table[0].exts {
      LookupFromTable(table[1..], file);
      if Lookup(table[1..], file) != DefaultType {
        var i :| 0 <= i < |table[1..]| && Lookup(table[1..], file) == table[1..][i].ctype;
        assert table[i + 1] == table[1..][i];
      }
    }
  }

  /**
   * `get_content_type`: walks the entries in list order and, in each, its
   * extensions in order, comparing with `strcmp`.  Only reads the table.
   */
  method GetContentType(ctypes: List<Entry>, file: Option<string>) returns (r: string)
    requires ctypes.Valid()
    ensures r == Lookup(ctypes.Contents(), file)
  {
    if file.None? {
      return DefaultType;
    }
    ghost var table := ctypes.Contents();
    var node := ctypes.head;
    ghost var k := 0;
    while node != null
      invariant 0 <= k <= |ctypes.nodes|
      invariant node == if k < |ctypes.nodes| then ctypes.nodes[k] else null
      invariant Lookup(table[k..], file) == Lookup(table, file)
      decreases |ctypes.nodes| - k
    {
      var ctmp := node.data;
      assert ctmp == table[k];
      var found := Lists(ctmp.exts, file.value);
      if found {
        LookupHit(table[k..], file.value);
        return ctmp.ctype;
      }
      LookupMiss(table[k..], file.value);
      assert table[k..][1..] == table[k + 1..];
      node := node.next;
      k := k + 1;
    }
    return DefaultType;
  }

  /** An entry listing the extension answers the lookup. */
  lemma LookupHit(t: seq<Entry>, x: string)
    requires t != [] && x in t[0].exts
    ensures Lookup(t, Some(x)) == t[0].ctype
  {
  }

  /** An entry not listing the extension passes the lookup to the next. */
  lemma LookupMiss(t: seq<Entry>, x: string)
    requires t != [] && x !in t[0].exts
    ensures Lookup(t, Some(x)) == Lookup(t[1..], Some(x))
  {
  }

  /** The inner walk of `get_content_type`: does `exts` hold `x`? */
  method Lists(exts: seq<string>, x: string) returns (found: bool)
    ensures found <==> x in exts
  {
    var j := 0;
    while j < |exts|
      invariant 0 <= j <= |exts|
      invariant x !in exts[..j]
    {
      if StrCmp(exts[j], x) == 0 {
        return true;
      }
      assert exts[..j + 1] == exts[..j] + [exts[j]];
      j := j + 1;
    }
    assert exts[..j] == exts;
    return false;
  }

  // ---------------------------------------------------------- load_content_types

  /**
   * What successive `strtok_r(…, " ", …)` calls return: the maximal runs
   * of characters other than ' ', in order.
   */
  function Tokens(s: string): (ts: seq<string>)
    decreases |s|
  {
    if s == [] then []
    else if s[0] == ' ' then Tokens(s[1..])
    else
      var e := SpanUntil(s, 0, {' '});
      [s[..e]] + Tokens(s[e..])
  }

  /** A token followed by a space: the token, then the tokens after the space. */
  lemma TokensCons(t: string, rest: string)
    requires t != [] && ' ' !in t
    ensures Tokens(t + (" " + rest)) == [t] + Tokens(rest)
  {
    var s := t + (" " + rest);
    SpanUntilAt(s, 0, |t|, {' '});
    assert s[..|t|] == t;
    assert s[|t|..] == " " + rest;
    TokensSpace(rest);
  }

  /** A string without spaces is a single token. */
  lemma TokensSingle(t: string)
    requires t != [] && ' ' !in t
    ensures Tokens(t) == [t]
  {
    SpanUntilAt(t, 0, |t|, {' '});
    assert t[..|t|] == t;
  }

  /** An extension token loses one trailing '\n'. */
  function DropNewline(t: string): (r: string)
    ensures t != [] && t[|t| - 1] == '\n' ==> t == r + "\n"
    ensures (t == [] || t[|t| - 1] != '\n') ==> r == t
  {
    if t != [] && t[|t| - 1] == '\n' then t[..|t| - 1] else t
  }

  /** The extensions a line's tokens after the first give. */
  function ExtsOf(ts: seq<string>): (r: seq<string>)
    ensures |r| == |ts|
    ensures forall k :: 0 <= k < |ts| ==> r[k] == DropNewline(ts[k])
  {
    seq(|ts|, k requires 0 <= k < |ts| => DropNewline(ts[k]))
  }

  /** The entry a line of the file gives: its first token is the type, the others its extensions. */
  function ParseLine(line: string): Entry
    requires Tokens(line) != []
  {
    var ts := Tokens(line);
    Entry(ts[0], ExtsOf(ts[1..]))
  }

  /** A line as the table file writes it: the type, then each extension after a space, then '\n'. */
  function FormatLine(ctype: string, exts: seq<string>): string {
    ctype + ExtsText(exts)
  }

  function ExtsText(exts: seq<string>): string {
    if exts == [] then "\n" else " " + exts[0] + ExtsText(exts[1..])
  }

  /** A word a table line may hold: non-empty, with no space and no line end. */
  predicate Word(w: string) {
    w != [] && ' ' !in w && '\n' !in w
  }

  /** Leading spaces produce no token. */
  lemma TokensSpace(rest: string)
    ensures Tokens(" " + rest) == Tokens(rest)
  {
    assert (" " + rest)[1..] == rest;
  }

  /** The extension part opens with a space before the first extension. */
  lemma ExtsTextCons(exts: seq<string>)
    requires exts != []
    ensures ExtsText(exts) == " " + (exts[0] + ExtsText(exts[1..]))
  {
  }

  /** The tokens of the extension part: the extensions, the last carrying the '\n'. */
  lemma {:induction false} ExtsTextTokens(exts: seq<string>)
    requires exts != [] && forall k :: 0 <= k < |exts| ==> Word(exts[k])
    ensures Tokens(ExtsText(exts)) == exts[..|exts| - 1] + [exts[|exts| - 1] + "\n"]
    decreases |exts|
  {
    var e0 := exts[0];
    var rest := exts[1..];
    ExtsTextCons(exts);
    TokensSpace(e0 + ExtsText(rest));
    if rest == [] {
      TokensSingle(e0 + "\n");
    } else {
      TokensCons(e0, rest[0] + ExtsText(rest[1..]));
      ExtsTextCons(rest);
      TokensSpace(rest[0] + ExtsText(rest[1..]));
      ExtsTextTokens(rest);
      assert exts[..|exts| - 1] == [e0] + rest[..|rest| - 1];
    }
  }

  /** The tokens of a formatted line: the type, then the extensions, the last carrying the '\n'. */
  lemma LineTokens(ctype: string, exts: seq<string>)
    requires Word(ctype) && exts != [] && forall k :: 0 <= k < |exts| ==> Word(exts[k])
    ensures Tokens(FormatLine(ctype, exts)) == [ctype] + (exts[..|exts| - 1] + [exts[|exts| - 1] + "\n"])
  {
    var rest := exts[0] + ExtsText(exts[1..]);
    ExtsTextCons(exts);
    TokensCons(ctype, rest);
    TokensSpace(rest);
    ExtsTextTokens(exts);
  }

  /** Dropping the '\n' of the last extension token gives back the extensions. */
  lemma ExtsOfTokens(exts: seq<string>)
    requires exts != [] && forall k :: 0 <= k < |exts| ==> Word(exts[k])
    ensures ExtsOf(exts[..|exts| - 1] + [exts[|exts| - 1] + "\n"]) == exts
  {
    var ts := exts[..|exts| - 1] + [exts[|exts| - 1] + "\n"];
    forall k | 0 <= k < |exts|
      ensures ExtsOf(ts)[k] == exts[k]
    {
      if k < |exts| - 1 {
        assert ts[k] == exts[k];
      } else {
        assert ts[k] == exts[k] + "\n";
        assert (exts[k] + "\n")[..|exts[k]|] == exts[k];
      }
    }
  }

  /**
   * Reading back a formatted line gives the type and the extensions it was
   * written from, provided the line names at least one extension.
   */
  lemma LineRoundTrip(ctype: string, exts: seq<string>)
    requires Word(ctype) && exts != [] && forall k :: 0 <= k < |exts| ==> Word(exts[k])
    ensures Tokens(FormatLine(ctype, exts)) != []
    ensures ParseLine(FormatLine(ctype, exts)) == Entry(ctype, exts)
  {
    var ts := [ctype] + (exts[..|exts| - 1] + [exts[|exts| - 1] + "\n"]);
    LineTokens(ctype, exts);
    assert ts[1..] == exts[..|exts| - 1] + [exts[|exts| - 1] + "\n"];
    ExtsOfTokens(exts);
  }

  /**
   * A line naming a type and no extension keeps its '\n' in the type,
   * because only extension tokens lose their line end.
   */
  lemma BareTypeKeepsNewline(ctype: string)
    requires Word(ctype)
    ensures Tokens(FormatLine(ctype, [])) != []
    ensures ParseLine(FormatLine(ctype, [])) == Entry(ctype + "\n", [])
  {
    assert FormatLine(ctype, []) == ctype + "\n";
    TokensSingle(ctype + "\n");
  }

  /** The entries of the lines `lines`, in line order. */
  function ParseAll(lines: seq<string>): (r: seq<Entry>)
    requires forall i :: 0 <= i < |lines| ==> Tokens(lines[i]) != []
    ensures |r| == |lines|
    ensures forall i :: 0 <= i < |lines| ==> r[i] == ParseLine(lines[i])
  {
    if lines == [] then [] else ParseAll(lines[..|lines| - 1]) + [ParseLine(lines[|lines| - 1])]
  }

  /** Parsing one more line appends its entry. */
  lemma ParseAllSnoc(lines: seq<string>, i: nat)
    requires i < |lines| && forall k :: 0 <= k < |lines| ==> Tokens(lines[k]) != []
    ensures ParseAll(lines[..i + 1]) == ParseAll(lines[..i]) + [ParseLine(lines[i])]
  {
    assert lines[..i + 1][..i] == lines[..i];
  }

  /** The token loop of `load_content_types` for one line. */
  method LineEntry(line: string) returns (e: Entry)
    requires Tokens(line) != []
    ensures e == ParseLine(line)
  {
    var ts := Tokens(line);
    var exts: seq<string> := [];
    var i := 1;
    while i < |ts|
      invariant 1 <= i <= |ts|
      invariant exts == ExtsOf(ts[1..i])
    {
      exts := exts + [DropNewline(ts[i])];
      i := i + 1;
    }
    assert ts[1..i] == ts[1..];
    e := Entry(ts[0], exts);
  }

  /** One turn of the line loop of `load_content_types`: the line's entry, in a new node at the tail. */
  method AppendLine(ctypes: List<Entry>, line: string)
    requires ctypes.Valid() && Tokens(line) != []
    modifies ctypes, ctypes.Repr
    ensures ctypes.Valid() && fresh(ctypes.Repr - old(ctypes.Repr))
    ensures ctypes.Contents() == old(ctypes.Contents()) + [ParseLine(line)]
  {
    var e := LineEntry(line);
    var node := new Node(e);
    ctypes.Append(node);
  }

  /**
   * `load_content_types`: `file` is the table file's lines, or None when
   * it cannot be opened.  One entry per line is appended to `ctypes`, in
   * line order.  A line must hold at least one token.
   */
  method LoadContentTypes(ctypes: List<Entry>, file: Option<seq<string>>) returns (r: int)
    requires ctypes.Valid()
    requires file.Some? ==> forall i :: 0 <= i < |file.value| ==> Tokens(file.value[i]) != []
    modifies ctypes, ctypes.Repr
    ensures ctypes.Valid() && fresh(ctypes.Repr - old(ctypes.Repr))
    ensures file.None? ==> r == -1 && ctypes.Contents() == old(ctypes.Contents())
    ensures file.Some? ==> r == 0 && ctypes.Contents() == old(ctypes.Contents()) + ParseAll(file.value)
  {
    if file.None? {
      return -1;
    }
    var lines := file.value;
    var i := 0;
    while i < |lines|
      invariant 0 <= i <= |lines|
      invariant ctypes.Valid() && fresh(ctypes.Repr - old(ctypes.Repr))
      invariant ctypes.Contents() == old(ctypes.Contents()) + ParseAll(lines[..i])
    {
      AppendLine(ctypes, lines[i]);
      ParseAllSnoc(lines, i);
      i := i + 1;
    }
    assert lines[..i] == lines;
    return 0;
  }
}
