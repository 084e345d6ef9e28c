/**
 * The CR/LF line discipline of section 4.1 of RFC 1945 as both server
 * drafts read it, one byte at a time, from a socket.
 *
 * The socket is a `Stream`: the bytes the peer sends, and whether the
 * connection then fails (`recv` returns -1) or is closed (`recv` returns
 * 0).  `Scan` is the byte-level state machine of the reading loop, with
 * `cap` the bound of the loop guard on the number of stored bytes.
 */
module LineReader {

  import opened CStr
  import opened Wrappers
  import opened Defines

  datatype Stream = Stream(bytes: seq<char>, endsInError: bool)

  /** The outcome of reading one line: the stored bytes and where reading stopped, or an error status. */
  datatype LineRead = Line(data: string, next: nat) | Failed(status: Status)

  /**
   * One reading loop starting at offset `p` with `acc` already stored.
   * A CR must be followed by LF (both are stored), an LF alone also ends
   * the line, end of input ends it quietly, and a failing `recv` gives 500.
   */
  function Scan(s: Stream, p: nat, acc: string, cap: nat): (r: LineRead)
    requires p <= |s.bytes|
    ensures r.Failed? ==> r.status == S400 || r.status == S500
    decreases |s.bytes| - p
  {
    if |acc| >= cap then Line(acc, p)
    else if p == |s.bytes| then (if s.endsInError then Failed(S500) else Line(acc, p))
    else if s.bytes[p] == '\r' then
      if p + 1 < |s.bytes| && s.bytes[p + 1] == '\n' then Line(acc + "\r\n", p + 2)
      else if p + 1 == |s.bytes| && s.endsInError then Failed(S500)
      else Failed(S400)
    else if s.bytes[p] == '\n' then Line(acc + ['\n'], p + 1)
    else Scan(s, p + 1, acc + [s.bytes[p]], cap)
  }

  /**
   * A line read is the stored prefix followed by the bytes consumed, and
   * stores at most one byte beyond the bound (the LF after a CR).
   */
  lemma {:induction false} ScanLine(s: Stream, p: nat, acc: string, cap: nat)
    requires p <= |s.bytes|
    ensures var r := Scan(s, p, acc, cap);
            r.Line? ==> p <= r.next <= |s.bytes| && r.data == acc + s.bytes[p..r.next]
    ensures var r := Scan(s, p, acc, cap);
            r.Line? && |acc| <= cap ==> |r.data| <= cap + 1
    decreases |s.bytes| - p
  {
    if |acc| >= cap {
      assert s.bytes[p..p] == [];
    } else if p == |s.bytes| {
      assert s.bytes[p..p] == [];
    } else if s.bytes[p] == '\r' {
      if p + 1 < |s.bytes| && s.bytes[p + 1] == '\n' {
        assert s.bytes[p..p + 2] == "\r\n";
      }
    } else if s.bytes[p] == '\n' {
      assert s.bytes[p..p + 1] == "\n";
    } else {
      ScanLine(s, p + 1, acc + [s.bytes[p]], cap);
      var r := Scan(s, p + 1, acc + [s.bytes[p]], cap);
      if r.Line? {
        ShiftOne(s.bytes, p, acc, r.next);
      }
    }
  }

  /** The stop characters of a line. */
  const Terminators: set<char> := {'\r', '\n'}

  /** Where a read stops: the offset after the last byte it stores, or an error status. */
  datatype Stop = EndAt(end: nat) | Error(status: Status)

  /**
   * Where a read stops, decided by the first CR or LF (at offset `k`) and
   * by `limit`, the offset at which the buffer is full: a full buffer
   * stops at `limit`; end of input stops there (or is 500 after a failing
   * `recv`); LF is stored and ends the line; CR LF are both stored and end
   * it; CR followed by anything else or by the end of input is 400 (500
   * when the peek itself fails).
   */
  function ReadStop(s: Stream, k: nat, limit: nat): (r: Stop)
    requires k <= |s.bytes|
    ensures r.EndAt? ==> r.end <= |s.bytes| && (if limit <= k then r.end == limit else k < r.end || k == |s.bytes| == r.end)
  {
    if k >= limit then EndAt(limit)
    else if k == |s.bytes| then (if s.endsInError then Error(S500) else EndAt(k))
    else if s.bytes[k] == '\n' then EndAt(k + 1)
    else if k + 1 < |s.bytes| && s.bytes[k + 1] == '\n' then EndAt(k + 2)
    else if k + 1 == |s.bytes| && s.endsInError then Error(S500)
    else Error(S400)
  }

  /** The whole behaviour of one read that starts at `p` with `acc` stored. */
  function ReadOutcome(s: Stream, p: nat, acc: string, cap: nat): LineRead
    requires p <= |s.bytes| && |acc| <= cap
  {
    match ReadStop(s, SpanUntil(s.bytes, p, Terminators), p + (cap - |acc|))
    case EndAt(e) => Line(acc + s.bytes[p..e], e)
    case Error(st) => Failed(st)
  }

  /** The byte-level loop has exactly the behaviour `ReadOutcome` describes. */
  lemma {:induction false} ScanCases(s: Stream, p: nat, acc: string, cap: nat)
    requires p <= |s.bytes| && |acc| <= cap
    ensures Scan(s, p, acc, cap) == ReadOutcome(s, p, acc, cap)
    decreases |s.bytes| - p
  {
    if |acc| >= cap {
      assert s.bytes[p..p] == [];
    } else if p == |s.bytes| {
      assert s.bytes[p..] == [];
    } else if s.bytes[p] == '\r' {
      if p + 1 < |s.bytes| && s.bytes[p + 1] == '\n' {
        assert s.bytes[p..p + 2] == "\r\n";
      }
    } else if s.bytes[p] == '\n' {
      assert s.bytes[p..p + 1] == "\n";
    } else {
      ScanCases(s, p + 1, acc + [s.bytes[p]], cap);
      OutcomeStep(s, p, acc, cap);
    }
  }

  /** Storing a byte that ends nothing leaves the outcome of the read unchanged. */
  lemma OutcomeStep(s: Stream, p: nat, acc: string, cap: nat)
    requires p < |s.bytes| && |acc| < cap && s.bytes[p] != '\r' && s.bytes[p] != '\n'
    ensures ReadOutcome(s, p, acc, cap) == ReadOutcome(s, p + 1, acc + [s.bytes[p]], cap)
  {
    var b := s.bytes;
    assert b[p] !in Terminators;
    var k := SpanUntil(b, p + 1, Terminators);
    assert SpanUntil(b, p, Terminators) == k;
    var limit := p + (cap - |acc|);
    assert (p + 1) + (cap - |acc + [b[p]]|) == limit;
    var r := ReadStop(s, k, limit);
    if r.EndAt? {
      ShiftOne(b, p, acc, r.end);
    }
  }

  /** Moving one byte from the input into the stored prefix. */
  lemma ShiftOne(b: seq<char>, p: nat, acc: string, j: nat)
    requires p < j <= |b|
    ensures (acc + [b[p]]) + b[p + 1..j] == acc + b[p..j]
  {
    assert b[p..j] == [b[p]] + b[p + 1..j];
  }

  /**
   * The number of bytes the reading loop may store before it stops.  The
   * loop guard of the source is `i < len - 1`, which lets a CR read at
   * `i == len - 2` store CR and LF and put the NUL at `buf[len]`; the model
   * stops one byte earlier so that CR LF and the NUL always fit.
   */
  function LineCap(len: nat): nat {
    if len >= 2 then len - 2 else 0
  }

  /** The end of input ends the line quietly, unless `recv` failed. */
  lemma ScanEnd(s: Stream, p: nat, acc: string, cap: nat)
    requires p == |s.bytes| && |acc| < cap
    ensures Scan(s, p, acc, cap) == if s.endsInError then Failed(S500) else Line(acc, p)
  {
  }

  /** A CR not followed by LF is a bad request, or 500 when the peek itself fails. */
  lemma ScanBadCR(s: Stream, p: nat, acc: string, cap: nat)
    requires p < |s.bytes| && |acc| < cap && s.bytes[p] == '\r'
    requires p + 1 == |s.bytes| || s.bytes[p + 1] != '\n'
    ensures Scan(s, p, acc, cap) == if p + 1 == |s.bytes| && s.endsInError then Failed(S500) else Failed(S400)
  {
  }

  /** CR LF ends the line with both stored. */
  lemma ScanCRLF(s: Stream, p: nat, acc: string, cap: nat)
    requires p + 1 < |s.bytes| && |acc| < cap && s.bytes[p] == '\r' && s.bytes[p + 1] == '\n'
    ensures Scan(s, p, acc, cap) == Line(acc + "\r\n", p + 2)
  {
  }

  /** An LF alone ends the line, stored. */
  lemma ScanLF(s: Stream, p: nat, acc: string, cap: nat)
    requires p < |s.bytes| && |acc| < cap && s.bytes[p] == '\n'
    ensures Scan(s, p, acc, cap) == Line(acc + "\n", p + 1)
  {
  }

  /** Any other byte is stored and reading goes on. */
  lemma ScanOther(s: Stream, p: nat, acc: string, cap: nat)
    requires p < |s.bytes| && |acc| < cap && s.bytes[p] != '\r' && s.bytes[p] != '\n'
    ensures Scan(s, p, acc, cap) == Scan(s, p + 1, acc + [s.bytes[p]], cap)
  {
  }

  /**
   * `sws_recv_line` (sws/server.c) and `sws_get_line` (sws/swslib.c), the
   * same loop in both drafts: reads one line from `s` starting at offset
   * `pos` into `buf`, NUL-terminated, and returns the number of bytes
   * stored (0 at end of input), or -1 with the status to send.
   */
  method ReadLine(s: Stream, pos: nat, buf: array<char>) returns (n: int, status: Option<Status>, next: nat)
    requires pos <= |s.bytes| && buf.Length >= 1
    modifies buf
    ensures match Scan(s, pos, [], LineCap(buf.Length))
            case Line(d, q) => 0 <= n < buf.Length && buf[..n] == d && buf[n] == '\0' && status == None && next == q
            case Failed(st) => n == -1 && status == Some(st)
  {
    ghost var cap := LineCap(buf.Length);
    var i := 0;
    var p := pos;
    while i < buf.Length - 2
      invariant 0 <= i <= cap && pos <= p <= |s.bytes|
      invariant Scan(s, p, buf[..i], cap) == Scan(s, pos, [], cap)
    {
      ghost var acc := buf[..i];
      ghost var p0 := p;
      ghost var stored: string;
      if p == |s.bytes| {
        ScanEnd(s, p, acc, cap);
        if s.endsInError {
          return -1, Some(S500), p;
        }
        break;
      }
      var c := s.bytes[p];
      p := p + 1;
      if c == '\r' {
        buf[i] := c;
        i := i + 1;
          if p == |s.bytes| || s.bytes[p] != '\n' {
          ScanBadCR(s, p0, acc, cap);
        }
        if p == |s.bytes| {
          if s.endsInError {
            return -1, Some(S500), p;
          }
          return -1, Some(S400), p;
        }
        if s.bytes[p] != '\n' {
          return -1, Some(S400), p;
        }
        ScanCRLF(s, p0, acc, cap);
        stored := "\r\n";
        c := s.bytes[p];
        p := p + 1;
      } else if c == '\n' {
        ScanLF(s, p0, acc, cap);
        stored := "\n";
      } else {
        ScanOther(s, p0, acc, cap);
        stored := [c];
      }
      buf[i] := c;
      i := i + 1;
      assert buf[..i] == acc + stored;
      if c == '\n' {
        break;
      }
    }
    buf[i] := '\0';
    return i, None, p;
  }

  /**
   * With the guard as written (`cap == len - 1`), a line of `len - 2`
   * ordinary bytes followed by CR LF is accepted whole, so its NUL goes to
   * offset `len`, one past the end of a `len`-byte buffer.
   */
  lemma {:induction false} ReadLineOverflowAsWritten(len: nat)
    requires len >= 2
    ensures var s := Stream(seq(len - 2, _ => 'a') + CRLF, false);
            Scan(s, 0, [], len - 1) == Line(s.bytes, len)
  {
    var s := Stream(seq(len - 2, _ => 'a') + CRLF, false);
    assert SpanUntil(s.bytes, 0, Terminators) == len - 2 by {
      SpanUntilAt(s.bytes, 0, len - 2, Terminators);
    }
    ScanCases(s, 0, [], len - 1);
    assert s.bytes[0..len] == s.bytes;
  }

  /** With the model's bound every accepted line leaves room for its NUL. */
  lemma LineFits(s: Stream, pos: nat, len: nat)
    requires pos <= |s.bytes| && len >= 1
    ensures Scan(s, pos, [], LineCap(len)).Line? ==> |Scan(s, pos, [], LineCap(len)).data| < len
  {
    ScanLine(s, pos, [], LineCap(len));
  }
}
