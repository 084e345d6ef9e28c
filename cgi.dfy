/**
 * sws/files.c, `sws_execute_cgi`: the parent's side of running a CGI
 * program.  It reads the program's output a byte at a time until the end
 * of the header block, picking out Content-Type and Content-Length, then
 * sends the response header and relays the rest of the output.
 *
 * The pipes, the child process and its environment are not modelled: the
 * program's output is the byte sequence `out`, and `produced` the count
 * the size pipe yields.
 */
module Cgi {

  import opened Wrappers
  import opened CStr
  import opened Defines
  import opened Messages
  import opened Server

  /** The header values the program's output sets (None: not given). */
  datatype CgiHeaders = CgiHeaders(mime: Option<string>, length: Option<int>)

  const NoHeaders := CgiHeaders(None, None)

  /** The offset of the first '\n' at or after `i`, or the end of the output. */
  function NextNewline(out: string, i: nat): (k: nat)
    requires i <= |out|
    ensures i <= k <= |out|
    decreases |out| - i
  {
    if i == |out| || out[i] == '\n' then i else NextNewline(out, i + 1)
  }

  /** The first '\n' from `i` is at `k` (or there is none and `k` is the end). */
  lemma {:induction false} NextNewlineAt(out: string, i: nat, k: nat)
    requires i <= k <= |out| && (k < |out| ==> out[k] == '\n')
    requires forall j :: i <= j < k ==> out[j] != '\n'
    ensures NextNewline(out, i) == k
    decreases k - i
  {
    if i < k {
      NextNewlineAt(out, i + 1, k);
    }
  }

  /** `strncasecmp(line, "Content-Type:", 13) == 0`. */
  predicate IsTypeLine(line: string) {
    |line| >= 13 && forall i :: 0 <= i < 13 ==> Lower(line[i]) == "content-type:"[i]
  }

  /** `strncasecmp(line, "Content-Length:", 15) == 0`. */
  predicate IsLengthLine(line: string) {
    |line| >= 15 && forall i :: 0 <= i < 15 ==> Lower(line[i]) == "content-length:"[i]
  }

  // ---------------------------------------------------------------------- atoi

  /** `isspace` in the C locale. */
  predicate IsSpace(c: char) {
    c == ' ' || '\t' <= c <= '\r'
  }

  predicate IsDigit(c: char) {
    '0' <= c <= '9'
  }

  /** The first offset at or after `i` holding no white space. */
  function SkipWhite(s: string, i: nat): (r: nat)
    requires i <= |s|
    ensures i <= r <= |s| && (r < |s| ==> !IsSpace(s[r]))
    decreases |s| - i
  {
    if i < |s| && IsSpace(s[i]) then SkipWhite(s, i + 1) else i
  }

  /** The first offset at or after `i` holding no digit. */
  function DigitsEnd(s: string, i: nat): (r: nat)
    requires i <= |s|
    ensures i <= r <= |s| && (r < |s| ==> !IsDigit(s[r]))
    decreases |s| - i
  {
    if i < |s| && IsDigit(s[i]) then DigitsEnd(s, i + 1) else i
  }

  /** The value of a run of decimal digits. */
  function DigitsValue(d: string): nat
    decreases |d|
  {
    if d == [] then 0
    else
      var c := d[|d| - 1];
      10 * DigitsValue(d[..|d| - 1]) + (if IsDigit(c) then c as int - '0' as int else 0)
  }

  /**
   * `atoi`: white space, an optional sign, then as many digits as
   * follow; 0 when there are none.
   */
  function Atoi(s: string): int {
    var i := SkipWhite(s, 0);
    var neg := i < |s| && s[i] == '-';
    var j := if i < |s| && (s[i] == '-' || s[i] == '+') then i + 1 else i;
    var v: int := DigitsValue(s[j..DigitsEnd(s, j)]);
    if neg then -v else v
  }

  /** Reading back a decimal numeral gives the number. */
  lemma {:induction false} DigitsOfNat(n: nat)
    ensures DigitsValue(NatToString(n)) == n
    decreases n
  {
    if n >= 10 {
      var s := NatToString(n);
      assert s[..|s| - 1] == NatToString(n / 10);
      DigitsOfNat(n / 10);
    }
  }

  /** A decimal numeral. */
  predicate Numeral(d: string) {
    d != [] && forall j :: 0 <= j < |d| ==> IsDigit(d[j])
  }

  /** `atoi` of a numeral is its value. */
  lemma AtoiNumeral(d: string)
    requires Numeral(d)
    ensures Atoi(d) == DigitsValue(d)
  {
    assert SkipWhite(d, 0) == 0;
    DigitsEndAll(d, 0);
    assert d[0..|d|] == d;
  }

  /** `atoi` of a decimal numeral is its value. */
  lemma AtoiOfNat(n: nat)
    ensures Atoi(NatToString(n)) == n
  {
    AtoiNumeral(NatToString(n));
    DigitsOfNat(n);
  }

  /** Dropping the last digit of a numeral divides its value by ten. */
  lemma DropLastDigit(d: string)
    requires Numeral(d)
    ensures DigitsValue(d[..|d| - 1]) == DigitsValue(d) / 10
  {
    var c := d[|d| - 1];
    assert 0 <= c as int - '0' as int < 10;
  }

  lemma {:induction false} DigitsEndAll(s: string, i: nat)
    requires i <= |s| && forall j :: i <= j < |s| ==> IsDigit(s[j])
    ensures DigitsEnd(s, i) == |s|
    decreases |s| - i
  {
    if i < |s| {
      DigitsEndAll(s, i + 1);
    }
  }

  /** `unsigned long`, the type of `resp->length`: values wrap modulo 2^64. */
  function ULong(x: int): nat {
    x % 0x1_0000_0000_0000_0000
  }

  // --------------------------------------------------------- the scan as written

  /**
   * The Content-Type value as written: from offset 14, two past the
   * colon of "Content-Type:", after spaces, to the end of the line.
   */
  function TypeValueAsWritten(line: string): string {
    if |line| < 14 then [] else line[SkipSpaces(line, 14)..]
  }

  /**
   * The Content-Length value as written: spaces are skipped from offset
   * 15, then the line's last character is dropped before `atoi`.
   */
  function LengthValueAsWritten(line: string): int
    requires |line| >= 15
  {
    var i := SkipSpaces(line, 15);
    var v := line[..|line| - 1];
    if i < |v| then Atoi(v[i..]) else 0
  }

  /** What one line of the header block sets, as written. */
  function ApplyAsWritten(h: CgiHeaders, line: string): CgiHeaders {
    var h1 := if IsTypeLine(line) then h.(mime := Some(TypeValueAsWritten(line))) else h;
    if IsLengthLine(line) then h1.(length := Some(LengthValueAsWritten(line))) else h1
  }

  /**
   * The scan as written, from offset `i` at the start of a line: a line
   * ends at '\n' and is then applied; output ending inside a line ends
   * the scan.  Returns the headers and the offset where reading stopped.
   */
  function ScanAsWritten(out: string, i: nat, h: CgiHeaders): (r: (CgiHeaders, nat))
    requires i <= |out|
    ensures i <= r.1 <= |out|
    decreases |out| - i, 0
  {
    var k := NextNewline(out, i);
    if k == |out| then (h, |out|)
    else AfterLineAsWritten(out, k + 1, ApplyAsWritten(h, out[i..k]))
  }

  /** Right after a '\n': a second '\n' ends the header loop. */
  function AfterLineAsWritten(out: string, i: nat, h: CgiHeaders): (r: (CgiHeaders, nat))
    requires i <= |out|
    ensures i <= r.1 <= |out|
    decreases |out| - i, 1
  {
    if i < |out| && out[i] == '\n' then (h, i + 1) else ScanAsWritten(out, i, h)
  }

  /** A line from `i` ending in '\n' at offset `k`. */
  lemma ScanLineAsWritten(out: string, i: nat, h: CgiHeaders, k: nat)
    requires i <= k < |out| && out[k] == '\n'
    requires forall j :: i <= j < k ==> out[j] != '\n'
    ensures ScanAsWritten(out, i, h) == AfterLineAsWritten(out, k + 1, ApplyAsWritten(h, out[i..k]))
  {
    NextNewlineAt(out, i, k);
  }

  /** Output ending inside a line. */
  lemma ScanEndAsWritten(out: string, i: nat, h: CgiHeaders)
    requires i <= |out|
    requires forall j :: i <= j < |out| ==> out[j] != '\n'
    ensures ScanAsWritten(out, i, h) == (h, |out|)
  {
    NextNewlineAt(out, i, |out|);
  }

  /**
   * The header loop as written: `buf` collects a line, `flag` records
   * that the previous byte was a line end, and a second '\n' in a row
   * ends the loop.
   */
  method ConsumeHeadersAsWritten(out: string) returns (h: CgiHeaders, consumed: nat)
    ensures (h, consumed) == ScanAsWritten(out, 0, NoHeaders)
  {
    ghost var goal := ScanAsWritten(out, 0, NoHeaders);
    var buf: string := [];
    var flag := false;
    var p := 0;
    ghost var s := 0;
    h := NoHeaders;
    while p < |out|
      invariant s <= p <= |out| && buf == out[s..p]
      invariant forall j :: s <= j < p ==> out[j] != '\n'
      invariant !flag ==> ScanAsWritten(out, s, h) == goal
      invariant flag ==> s == p && AfterLineAsWritten(out, p, h) == goal
    {
      var c := out[p];
      p := p + 1;
      if c == '\n' {
        if flag {
          return h, p;
        }
        ScanLineAsWritten(out, s, h, p - 1);
        flag := true;
        h := ApplyLine(h, buf);
        buf := [];
        s := p;
      } else {
        buf := buf + [c];
        flag := false;
      }
    }
    if !flag {
      ScanEndAsWritten(out, s, h);
    }
    consumed := p;
  }

  /** The two header tests applied to a completed line. */
  method ApplyLine(h: CgiHeaders, buf: string) returns (r: CgiHeaders)
    ensures r == ApplyAsWritten(h, buf)
  {
    r := h;
    if IsTypeLine(buf) {
      var i := |buf|;
      if |buf| >= 14 {
        i := SkipSpacesLoop(buf, 14);
      }
      assert buf[i..] == TypeValueAsWritten(buf);
      r := r.(mime := Some(buf[i..]));
    }
    assert r == (if IsTypeLine(buf) then h.(mime := Some(TypeValueAsWritten(buf))) else h);
    if IsLengthLine(buf) {
      var i := SkipSpacesLoop(buf, 15);
      var v := buf[..|buf| - 1];
      r := r.(length := Some(if i < |v| then Atoi(v[i..]) else 0));
    }
  }

  // ----------------------------------------------------------- the header block

  /** Where the line from `i` to the '\n' at `k` ends once the CR of a CR LF is dropped. */
  function LineEnd(out: string, i: nat, k: nat): (e: nat)
    requires i <= k <= |out|
    ensures i <= e <= k && (e == k || (e == k - 1 && out[e] == '\r'))
  {
    if i < k && out[k - 1] == '\r' then k - 1 else k
  }

  /** The Content-Type value: after the colon and any spaces, to the end of the line. */
  function TypeValue(line: string): string
    requires |line| >= 13
  {
    line[SkipSpaces(line, 13)..]
  }

  /** The Content-Length value: `atoi` of what follows the colon. */
  function LengthValue(line: string): int
    requires |line| >= 15
  {
    Atoi(line[15..])
  }

  /** What one header line sets. */
  function Apply(h: CgiHeaders, line: string): CgiHeaders {
    var h1 := if IsTypeLine(line) then h.(mime := Some(TypeValue(line))) else h;
    if IsLengthLine(line) then h1.(length := Some(LengthValue(line))) else h1
  }

  /** One header line applied: the Content-Type and Content-Length tests. */
  method ApplyHeader(h: CgiHeaders, line: string) returns (r: CgiHeaders)
    ensures r == Apply(h, line)
  {
    r := h;
    if IsTypeLine(line) {
      var i := SkipSpacesLoop(line, 13);
      r := r.(mime := Some(line[i..]));
    }
    if IsLengthLine(line) {
      r := r.(length := Some(Atoi(line[15..])));
    }
  }

  /**
   * The lines of the header block of section 6.3 of RFC 3875, from
   * offset `i`: lines ending in LF or CR LF (the CR dropped), up to the
   * first empty line.  Also returns the offset just past the empty line,
   * or the end of the output; a last line without '\n' is not a header.
   */
  function HeaderLines(out: string, i: nat): (r: (seq<string>, nat))
    requires i <= |out|
    ensures i <= r.1 <= |out|
    decreases |out| - i
  {
    var k := NextNewline(out, i);
    if k == |out| then ([], |out|)
    else
      var e := LineEnd(out, i, k);
      if e == i then ([], k + 1)
      else
        var r := HeaderLines(out, k + 1);
        ([out[i..e]] + r.0, r.1)
  }

  /** The header lines applied in order. */
  function ApplyAll(h: CgiHeaders, lines: seq<string>): CgiHeaders
    decreases |lines|
  {
    if lines == [] then h else ApplyAll(Apply(h, lines[0]), lines[1..])
  }

  /** The headers the block sets, and the offset where the body starts. */
  function Block(out: string, i: nat, h: CgiHeaders): (r: (CgiHeaders, nat))
    requires i <= |out|
  {
    var (lines, end) := HeaderLines(out, i);
    (ApplyAll(h, lines), end)
  }

  /** An empty line from `i`, ended by the '\n' at `k`, closes the block. */
  lemma BlankLine(out: string, i: nat, k: nat)
    requires i <= k < |out| && out[k] == '\n' && LineEnd(out, i, k) == i
    requires forall j :: i <= j < k ==> out[j] != '\n'
    ensures HeaderLines(out, i) == ([], k + 1)
  {
    NextNewlineAt(out, i, k);
  }

  /** A header line from `i`, ended by the '\n' at `k`, comes first. */
  lemma HeaderLine(out: string, i: nat, k: nat)
    requires i <= k < |out| && out[k] == '\n' && LineEnd(out, i, k) != i
    requires forall j :: i <= j < k ==> out[j] != '\n'
    ensures HeaderLines(out, i) ==
            ([out[i..LineEnd(out, i, k)]] + HeaderLines(out, k + 1).0, HeaderLines(out, k + 1).1)
  {
    NextNewlineAt(out, i, k);
  }

  /** So the block from `i` is the block after that line, with the line applied. */
  lemma BlockHeaderLine(out: string, i: nat, h: CgiHeaders, k: nat)
    requires i <= k < |out| && out[k] == '\n' && LineEnd(out, i, k) != i
    requires forall j :: i <= j < k ==> out[j] != '\n'
    ensures Block(out, i, h) == Block(out, k + 1, Apply(h, out[i..LineEnd(out, i, k)]))
  {
    HeaderLine(out, i, k);
    var line := out[i..LineEnd(out, i, k)];
    var rest := HeaderLines(out, k + 1).0;
    assert ([line] + rest)[1..] == rest;
  }

  /** One step of the block: an empty line ends it, a header line is applied. */
  lemma BlockStep(out: string, i: nat, h: CgiHeaders, k: nat)
    requires i <= k < |out| && out[k] == '\n'
    requires forall j :: i <= j < k ==> out[j] != '\n'
    ensures LineEnd(out, i, k) == i ==> Block(out, i, h) == (h, k + 1)
    ensures LineEnd(out, i, k) != i ==> Block(out, i, h) == Block(out, k + 1, Apply(h, out[i..LineEnd(out, i, k)]))
  {
    if LineEnd(out, i, k) == i {
      BlankLine(out, i, k);
    } else {
      BlockHeaderLine(out, i, h, k);
    }
  }

  /** Output ending inside a line. */
  lemma LinesEnd(out: string, i: nat)
    requires i <= |out|
    requires forall j :: i <= j < |out| ==> out[j] != '\n'
    ensures HeaderLines(out, i) == ([], |out|)
  {
    NextNewlineAt(out, i, |out|);
  }

  /**
   * The header loop: a line is collected up to '\n', the CR of a CR LF
   * is dropped, and an empty line ends the loop.
   */
  method ConsumeHeaders(out: string) returns (h: CgiHeaders, consumed: nat)
    ensures (h, consumed) == Block(out, 0, NoHeaders)
  {
    ghost var goal := Block(out, 0, NoHeaders);
    var buf: string := [];
    var p := 0;
    ghost var s := 0;
    h := NoHeaders;
    while p < |out|
      invariant s <= p <= |out| && buf == out[s..p]
      invariant forall j :: s <= j < p ==> out[j] != '\n'
      invariant Block(out, s, h) == goal
    {
      var c := out[p];
      p := p + 1;
      if c == '\n' {
        var blank;
        blank, h := EndLine(out, s, p - 1, buf, h);
        if blank {
          return h, p;
        }
        buf := [];
        s := p;
      } else {
        buf := buf + [c];
      }
    }
    LinesEnd(out, s);
    consumed := p;
  }

  /**
   * The '\n' at `k` ends the line `buf` collected from `s`: without its
   * CR, an empty line ends the block, and any other line is applied.
   */
  method EndLine(ghost out: string, ghost s: nat, ghost k: nat, buf: string, h: CgiHeaders)
    returns (blank: bool, r: CgiHeaders)
    requires s <= k < |out| && out[k] == '\n' && buf == out[s..k]
    requires forall j :: s <= j < k ==> out[j] != '\n'
    ensures blank ==> Block(out, s, h) == (h, k + 1) && r == h
    ensures !blank ==> Block(out, s, h) == Block(out, k + 1, r)
  {
    var e := |buf|;
    if e > 0 && buf[e - 1] == '\r' {
      e := e - 1;
    }
    assert s + e == LineEnd(out, s, k);
    BlockStep(out, s, h, k);
    if e == 0 {
      return true, h;
    }
    assert buf[..e] == out[s..s + e];
    r := ApplyHeader(h, buf[..e]);
    blank := false;
  }


  // ---------------------------------------------------------------- round trip

  /** The Content-Type line a CGI program writes. */
  function TypeLine(mime: string): string {
    "Content-Type: " + mime
  }

  /** The Content-Length line a CGI program writes, with the numeral `digits`. */
  function LengthLine(digits: string): string {
    "Content-Length: " + digits
  }

  /** A value a header line can carry: no line end, no leading space, no trailing CR. */
  predicate HeaderText(v: string) {
    '\n' !in v && (v == [] || (v[0] != ' ' && v[|v| - 1] != '\r'))
  }

  /** `piece` occurs in `out` at offset `i`. */
  predicate At(out: string, i: nat, piece: string) {
    i + |piece| <= |out| && forall j :: 0 <= j < |piece| ==> out[i + j] == piece[j]
  }

  /** The slice of `out` where `piece` occurs is `piece`. */
  lemma AtSlice(out: string, i: nat, piece: string)
    requires At(out, i, piece)
    ensures out[i..i + |piece|] == piece
  {
    assert forall j :: 0 <= j < |piece| ==> out[i..i + |piece|][j] == piece[j];
  }

  /**
   * `out` starts with the header lines `first` and `second`, each ended
   * by `eol`, and then an empty line ended by `eol`.
   */
  predicate TwoLineBlockAt(out: string, first: string, second: string, eol: string) {
    var b := |first| + |eol|;
    At(out, 0, first) && At(out, |first|, eol) &&
    At(out, b, second) && At(out, b + |second|, eol) && At(out, b + |second| + |eol|, eol)
  }

  /**
   * `out` starts with the header block a CGI program writes with line end
   * `eol`: the Content-Type line, the Content-Length line, an empty line.
   */
  predicate StartsWithBlock(out: string, mime: string, digits: string, eol: string) {
    TwoLineBlockAt(out, TypeLine(mime), LengthLine(digits), eol)
  }

  /** The size of that block. */
  function BlockSize(mime: string, digits: string, eol: string): nat {
    |TypeLine(mime)| + |LengthLine(digits)| + 3 * |eol|
  }

  /** The Content-Type line sets the type and nothing else. */
  lemma ApplyType(h: CgiHeaders, mime: string)
    requires HeaderText(mime)
    ensures Apply(h, TypeLine(mime)) == h.(mime := Some(mime))
  {
    var line := TypeLine(mime);
    TypeLineKind(mime);
    assert SkipSpaces(line, 13) == 14;
    assert line[14..] == mime;
  }

  /** A line starting "Content-Type: " passes the type test and fails the length test. */
  lemma TypeLineKind(rest: string)
    ensures IsTypeLine(TypeLine(rest)) && !IsLengthLine(TypeLine(rest))
    ensures TypeLine(rest)[13] == ' '
  {
    var line := TypeLine(rest);
    assert line[..13] == "Content-Type:";
    if |line| >= 15 {
      assert Lower(line[8]) == 't';
    }
  }

  /** `atoi` skips the space before a numeral and reads all of it. */
  lemma AtoiSpaceNumeral(d: string)
    requires Numeral(d)
    ensures Atoi(" " + d) == DigitsValue(d)
  {
    var s := " " + d;
    assert s[1] == d[0];
    assert SkipWhite(s, 1) == 1;
    DigitsEndAll(s, 1);
    assert s[1..|s|] == d;
  }

  /** A Content-Length line passes the length test and fails the type test. */
  lemma LengthLineKind(d: string)
    requires Numeral(d)
    ensures IsLengthLine(LengthLine(d)) && !IsTypeLine(LengthLine(d))
    ensures LengthLine(d)[15..] == " " + d
  {
    var line := LengthLine(d);
    assert line[..15] == "Content-Length:";
    assert Lower(line[8]) == 'l';
  }

  /** The Content-Length line sets the length and nothing else. */
  lemma ApplyLength(h: CgiHeaders, d: string)
    requires Numeral(d)
    ensures Apply(h, LengthLine(d)) == h.(length := Some(DigitsValue(d)))
  {
    LengthLineKind(d);
    AtoiSpaceNumeral(d);
  }

  /** A line that is a header: not empty, no line end in it, no CR at its end. */
  predicate HeaderLineText(line: string) {
    line != [] && '\n' !in line && line[|line| - 1] != '\r'
  }

  lemma TypeLineText(mime: string)
    requires HeaderText(mime)
    ensures HeaderLineText(TypeLine(mime))
  {
    var line := TypeLine(mime);
    if mime == [] {
      assert line[|line| - 1] == ' ';
    } else {
      assert line[|line| - 1] == mime[|mime| - 1];
    }
  }

  lemma LengthLineText(d: string)
    requires Numeral(d)
    ensures HeaderLineText(LengthLine(d))
  {
    var line := LengthLine(d);
    assert line[|line| - 1] == d[|d| - 1];
    assert forall j :: 0 <= j < |line| ==> line[j] != '\n' by {
      assert forall j :: 16 <= j < |line| ==> line[j] == d[j - 16];
    }
  }

  /** A header line at `i`, followed by the line end `eol`. */
  lemma LineAt(out: string, i: nat, line: string, eol: string)
    requires eol == "\n" || eol == "\r\n"
    requires HeaderLineText(line)
    requires At(out, i, line) && At(out, i + |line|, eol)
    ensures HeaderLines(out, i) ==
            ([line] + HeaderLines(out, i + |line| + |eol|).0, HeaderLines(out, i + |line| + |eol|).1)
  {
    var k := i + |line| + |eol| - 1;
    assert forall j :: i <= j < i + |line| ==> out[j] == line[j - i];
    assert out[k] == eol[|eol| - 1] == '\n';
    assert out[i + |line|] == eol[0];
    assert out[i + |line| - 1] == line[|line| - 1];
    assert LineEnd(out, i, k) == i + |line|;
    HeaderLine(out, i, k);
    AtSlice(out, i, line);
  }

  /** The empty line that closes the block. */
  lemma BlankAt(out: string, i: nat, eol: string)
    requires eol == "\n" || eol == "\r\n"
    requires At(out, i, eol)
    ensures HeaderLines(out, i) == ([], i + |eol|)
  {
    var k := i + |eol| - 1;
    assert out[k] == eol[|eol| - 1];
    assert out[i] == eol[0];
    BlankLine(out, i, k);
  }

  /** A last header line at `i` and the empty line after it. */
  lemma LastLineAt(out: string, i: nat, line: string, eol: string)
    requires eol == "\n" || eol == "\r\n"
    requires HeaderLineText(line)
    requires At(out, i, line) && At(out, i + |line|, eol) && At(out, i + |line| + |eol|, eol)
    ensures HeaderLines(out, i) == ([line], i + |line| + 2 * |eol|)
  {
    BlankAt(out, i + |line| + |eol|, eol);
    LineAt(out, i, line, eol);
    assert [line] + [] == [line];
  }

  /** Two header lines and the empty line: the two lines, read up to past the empty line. */
  lemma TwoLineBlock(out: string, first: string, second: string, eol: string)
    requires eol == "\n" || eol == "\r\n"
    requires HeaderLineText(first) && HeaderLineText(second)
    requires TwoLineBlockAt(out, first, second, eol)
    ensures HeaderLines(out, 0) == ([first, second], |first| + |second| + 3 * |eol|)
  {
    var b := |first| + |eol|;
    LastLineAt(out, b, second, eol);
    var rest := HeaderLines(out, b);
    assert rest == ([second], b + |second| + 2 * |eol|);
    LineAt(out, 0, first, eol);
    assert HeaderLines(out, 0) == ([first] + rest.0, rest.1);
    assert [first] + [second] == [first, second];
  }

  /** The lines of output starting with such a block: its two header lines. */
  lemma CgiBlockLines(mime: string, digits: string, eol: string, out: string)
    requires eol == "\n" || eol == "\r\n"
    requires HeaderText(mime) && Numeral(digits) && StartsWithBlock(out, mime, digits, eol)
    ensures HeaderLines(out, 0) == ([TypeLine(mime), LengthLine(digits)], BlockSize(mime, digits, eol))
  {
    TypeLineText(mime);
    LengthLineText(digits);
    TwoLineBlock(out, TypeLine(mime), LengthLine(digits), eol);
  }

  /** Applying a Content-Type line and then a Content-Length line. */
  lemma ApplyTypeThenLength(mime: string, digits: string)
    requires HeaderText(mime) && Numeral(digits)
    ensures ApplyAll(NoHeaders, [TypeLine(mime), LengthLine(digits)]) ==
            CgiHeaders(Some(mime), Some(DigitsValue(digits)))
  {
    var tl := TypeLine(mime);
    var ll := LengthLine(digits);
    var h1 := CgiHeaders(Some(mime), None);
    ApplyType(NoHeaders, mime);
    ApplyLength(h1, digits);
    assert [tl, ll][1..] == [ll];
    assert [ll][1..] == [];
    assert ApplyAll(Apply(h1, ll), []) == Apply(h1, ll);
    assert ApplyAll(h1, [ll]) == ApplyAll(Apply(h1, ll), []);
    assert ApplyAll(NoHeaders, [tl, ll]) == ApplyAll(h1, [ll]);
  }

  /**
   * Output that starts with a block written with LF or with CR LF line
   * ends, whose Content-Length is the numeral of `length`, reads back as
   * that block's Content-Type and Content-Length, and the scan stops right
   * after the empty line, where the body starts.
   */
  lemma CgiBlockRoundTrip(mime: string, length: nat, eol: string, out: string)
    requires eol == "\n" || eol == "\r\n"
    requires HeaderText(mime) && StartsWithBlock(out, mime, NatToString(length), eol)
    ensures Block(out, 0, NoHeaders) ==
            (CgiHeaders(Some(mime), Some(length)), BlockSize(mime, NatToString(length), eol))
  {
    var d := NatToString(length);
    assert Numeral(d);
    CgiBlockLines(mime, d, eol, out);
    ApplyTypeThenLength(mime, d);
    DigitsOfNat(length);
  }

  /** A block holding only a Content-Length line, with LF line ends, gives that length. */
  lemma LfLength(d: string, out: string)
    requires Numeral(d)
    requires At(out, 0, LengthLine(d)) && At(out, |LengthLine(d)|, "\n") && At(out, |LengthLine(d)| + 1, "\n")
    ensures Block(out, 0, NoHeaders) == (CgiHeaders(None, Some(DigitsValue(d))), |LengthLine(d)| + 2)
  {
    var ll := LengthLine(d);
    LengthLineText(d);
    BlankAt(out, |ll| + 1, "\n");
    LineAt(out, 0, ll, "\n");
    assert [ll] + [] == [ll];
    ApplyLength(NoHeaders, d);
    assert [ll][1..] == [];
    assert ApplyAll(NoHeaders, [ll]) == ApplyAll(Apply(NoHeaders, ll), []);
  }

  // ------------------------------------------------------- the scan's findings

  /**
   * As written, with CR LF line ends the CR stays in the Content-Type
   * value, and the blank line "\r" does not end the loop: everything up
   * to the end of the output is consumed as headers and no body is relayed.
   */
  lemma CrlfHeadersAsWritten(mime: string, out: string)
    requires HeaderText(mime)
    requires At(out, 0, TypeLine(mime)) && At(out, |TypeLine(mime)|, "\r\n") && At(out, |TypeLine(mime)| + 2, "\r\n")
    requires forall j :: |TypeLine(mime)| + 4 <= j < |out| ==> out[j] != '\n'
    ensures ScanAsWritten(out, 0, NoHeaders) == (CgiHeaders(Some(mime + "\r"), None), |out|)
  {
    var n := |TypeLine(mime)|;
    TypeLineText(mime);
    CrlfFirstLine(mime, out);
    CrlfTypeAsWritten(mime);
    CrLineThenEnd(out, n + 2, CgiHeaders(Some(mime + "\r"), None));
  }

  /** As written, a line holding only CR, then output without a '\n', sets nothing and ends the loop. */
  lemma CrLineThenEnd(out: string, i: nat, h: CgiHeaders)
    requires At(out, i, "\r\n")
    requires forall j :: i + 2 <= j < |out| ==> out[j] != '\n'
    ensures AfterLineAsWritten(out, i, h) == (h, |out|)
  {
    assert out[i] == "\r\n"[0] && out[i + 1] == "\r\n"[1];
    ScanLineAsWritten(out, i, h, i + 1);
    assert out[i..i + 1] == "\r";
    assert ApplyAsWritten(h, "\r") == h;
    ScanEndAsWritten(out, i + 2, h);
  }

  /** The first step of that scan: the Content-Type line with its CR. */
  lemma CrlfFirstLine(mime: string, out: string)
    requires HeaderLineText(TypeLine(mime))
    requires At(out, 0, TypeLine(mime)) && At(out, |TypeLine(mime)|, "\r\n")
    ensures ScanAsWritten(out, 0, NoHeaders) ==
            AfterLineAsWritten(out, |TypeLine(mime)| + 2, ApplyAsWritten(NoHeaders, TypeLine(mime) + "\r"))
  {
    var tl := TypeLine(mime);
    var n := |tl|;
    assert forall j :: 0 <= j < n ==> out[j] == tl[j];
    assert out[n] == "\r\n"[0] && out[n + 1] == "\r\n"[1];
    assert out[0..n + 1] == tl + "\r";
    ScanLineAsWritten(out, 0, NoHeaders, n + 1);
  }

  /** As written, a Content-Type line ending in CR keeps the CR in the value. */
  lemma CrlfTypeAsWritten(mime: string)
    requires HeaderText(mime)
    ensures ApplyAsWritten(NoHeaders, TypeLine(mime) + "\r") == CgiHeaders(Some(mime + "\r"), None)
  {
    var line := TypeLine(mime) + "\r";
    assert line == TypeLine(mime + "\r");
    TypeLineKind(mime + "\r");
    assert SkipSpaces(line, 14) == 14;
    assert line[14..] == mime + "\r";
  }

  /**
   * As written, the last character of a Content-Length line is dropped
   * even when no CR precedes the '\n', so the length loses its last
   * digit: "Content-Length: 42" followed by an empty line gives 4.
   */
  lemma LfLengthAsWritten(d: string, out: string)
    requires Numeral(d)
    requires At(out, 0, LengthLine(d)) && At(out, |LengthLine(d)|, "\n\n")
    ensures ScanAsWritten(out, 0, NoHeaders) == (CgiHeaders(None, Some(DigitsValue(d) / 10)), |LengthLine(d)| + 2)
  {
    var ll := LengthLine(d);
    var k := |ll|;
    assert forall j :: 0 <= j < k ==> out[j] == ll[j];
    LengthLineText(d);
    assert out[k] == "\n\n"[0] && out[k + 1] == "\n\n"[1];
    ScanLineAsWritten(out, 0, NoHeaders, k);
    AtSlice(out, 0, ll);
    LengthLineAsWritten(d);
  }

  /** As written, a Content-Length line sets the length without its last digit. */
  lemma LengthLineAsWritten(d: string)
    requires Numeral(d)
    ensures ApplyAsWritten(NoHeaders, LengthLine(d)) == CgiHeaders(None, Some(DigitsValue(d) / 10))
  {
    var line := LengthLine(d);
    LengthLineKind(d);
    assert line[15] == ' ' && line[16] == d[0];
    assert SkipSpaces(line, 15) == 16;
    var v := line[..|line| - 1];
    DropLastDigit(d);
    if |d| > 1 {
      assert v[16..] == d[..|d| - 1];
      AtoiNumeral(d[..|d| - 1]);
    }
  }

  // ------------------------------------------------------------ sws_execute_cgi

  /** The MIME type announced: the program's, else the one already set, else text/html. */
  function CgiMime(h: CgiHeaders, before: Option<string>): (r: string)
    ensures h.mime.Some? ==> r == h.mime.value
    ensures h.mime.None? && before.Some? ==> r == before.value
    ensures h.mime.None? && before.None? ==> r == "text/html"
  {
    if h.mime.Some? then h.mime.value else if before.Some? then before.value else "text/html"
  }

  /**
   * The length announced: the program's Content-Length (as an `unsigned
   * long`), else the one already set; a zero length is replaced by the
   * byte count from the size pipe.
   */
  function CgiLength(h: CgiHeaders, before: int, produced: nat): (r: nat)
    ensures h.length.Some? && ULong(h.length.value) != 0 ==> r == ULong(h.length.value)
    ensures h.length.None? && ULong(before) != 0 ==> r == ULong(before)
    ensures r == 0 ==> produced == 0
  {
    var l := if h.length.Some? then ULong(h.length.value) else ULong(before);
    if l == 0 then produced else l
  }

  /**
   * `sws_execute_cgi`, parent side: a failed `stat` answers 500; otherwise
   * the header block is consumed, the response header is formed from what
   * it set, and the rest of the output is the body whatever the method.
   */
  method ExecuteCgi(req: Request, resp: Response, statOk: bool, out: string, produced: nat, status: Status, date: string)
    returns (ret: int, newStatus: Status, reply: Option<Reply>, body: string)
    modifies resp
    ensures !statOk ==> ret == -1 && newStatus == S500 && reply.None? && body == [] && unchanged(resp)
    ensures statOk ==>
              var h := Block(out, 0, NoHeaders).0;
              ret == 0 && newStatus == status &&
              resp.length == CgiLength(h, old(resp.length), produced) &&
              reply == Some(ResponseHeaders(status, req.simple, old(resp.lastModified),
                                            CgiMime(h, old(resp.mimeType)), resp.length, date)) &&
              body == out[Block(out, 0, NoHeaders).1..] &&
              resp.mimeType == (if h.mime.None? && old(resp.mimeType).None? then Some("text/html") else None) &&
              resp.lastModified == old(resp.lastModified)
  {
    if !statOk {
      return -1, S500, None, [];
    }
    var h, n := ConsumeHeaders(out);
    var mime := Announce(resp, h, produced);
    reply := Some(ResponseHeaders(status, req.simple, resp.lastModified, mime, resp.length, date));
    body := out[n..];
    ret := 0;
    newStatus := status;
  }

  /**
   * The type and length announced for a CGI program: what its block set,
   * falling back on what the response held, "text/html" and the produced
   * byte count.  The length is stored in the response.  Afterwards the
   * response keeps "text/html" only when it was the default; a type the
   * block or an earlier step set is released.
   */
  method Announce(resp: Response, h: CgiHeaders, produced: nat) returns (mime: string)
    modifies resp
    ensures mime == CgiMime(h, old(resp.mimeType))
    ensures resp.length == CgiLength(h, old(resp.length), produced)
    ensures resp.mimeType == (if h.mime.None? && old(resp.mimeType).None? then Some("text/html") else None)
    ensures resp.lastModified == old(resp.lastModified)
  {
    var defaulted := false;
    if h.mime.Some? {
      mime := h.mime.value;
    } else if resp.mimeType.Some? {
      mime := resp.mimeType.value;
    } else {
      mime := "text/html";
      defaulted := true;
    }
    var length := if h.length.Some? then ULong(h.length.value) else ULong(resp.length);
    if length == 0 {
      length := produced;
    }
    resp.length := length;
    resp.mimeType := if defaulted then Some(mime) else None;
  }

  /**
   * A program that writes a Content-Type and a non-zero Content-Length
   * with LF or CR LF line ends is announced with exactly those, and its
   * body is relayed unchanged.  The length stays below 2^31, since `atoi`
   * yields an `int`.
   */
  lemma CgiReplyDescribesOutput(mime: string, length: nat, eol: string, out: string,
                                before: Option<string>, beforeLength: int, produced: nat)
    requires eol == "\n" || eol == "\r\n"
    requires HeaderText(mime) && StartsWithBlock(out, mime, NatToString(length), eol)
    requires 0 < length < 0x8000_0000
    ensures var (h, n) := Block(out, 0, NoHeaders);
            CgiMime(h, before) == mime && CgiLength(h, beforeLength, produced) == length &&
            n == BlockSize(mime, NatToString(length), eol)
  {
    CgiBlockRoundTrip(mime, length, eol, out);
    assert ULong(length) == length;
  }

  // ----------------------------------------------------- the pipes as written

  /** What one `read` on a pipe does. */
  datatype PipeRead = Data(bytes: string) | EndOfFile | Blocks

  /**
   * `read` on a pipe holding `held`: the held bytes if there are any;
   * otherwise the caller waits while a write end is still open, and gets
   * end of file once none is.
   */
  function ReadPipe(held: string, writersOpen: bool): PipeRead {
    if held != [] then Data(held) else if writersOpen then Blocks else EndOfFile
  }

  /** The bytes the child sends down each pipe. */
  datatype Pipes = Pipes(size: string, content: string)

  /**
   * The child as written: a successful `execl` does not return, so the
   * program runs once with its output on the size pipe, and the second
   * `dup2` and `execl`, onto the content pipe, are never reached.
   */
  function ChildAsWritten(out: string): Pipes {
    Pipes(out, [])
  }

  /**
   * As written, the first `read` of the header loop waits for ever: the
   * content pipe receives nothing, and the parent never closes its write
   * end.
   */
  lemma HeaderReadBlocksAsWritten(out: string)
    ensures ReadPipe(ChildAsWritten(out).content, true) == Blocks
  {
  }

  /** The size loop's `n` after the first `k` reads, each adding what `read` returned. */
  function SizeSum(got: seq<int>, k: nat): int
    requires k <= |got|
  {
    if k == 0 then 0 else SizeSum(got, k - 1) + got[k - 1]
  }

  /**
   * As written, `while ((n += read(...)) > 0);` cannot end once a read has
   * returned bytes: every later read returns 0 at end of file, or more, so
   * the sum stays positive after each of them.
   */
  lemma {:induction false} SizeLoopNeverEndsAsWritten(got: seq<int>, k: nat)
    requires 1 <= k <= |got| && got[0] > 0
    requires forall j :: 0 <= j < |got| ==> got[j] >= 0
    ensures SizeSum(got, k) > 0
    decreases k
  {
    if k > 1 {
      SizeLoopNeverEndsAsWritten(got, k - 1);
    }
  }
}
