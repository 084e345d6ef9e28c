/**
 * ls/print.c: the `-F` symbol, the `-q` masking of names, and the block
 * counts `print` and `print_long` show: the column widths measured over
 * the entries, the "total" line, and each entry's blocks column.
 *
 * The list of `print_info` nodes is a sequence of entries, each with the
 * answers the system gives for it (`humanize_number`'s lengths, the names
 * `getpwuid` and `getgrgid` find); `printf` output is not modelled.
 */
module LsPrint {

  import opened Wrappers
  import opened CStr
  import opened LsOptions
  import opened LsUtil

  // ------------------------------------------------------------ get_F_symbol

  /** Any of the execute bits 0111. */
  predicate Executable(mode: bv32) { mode & 0x49 != 0 }

  /**
   * `get_F_symbol`: '/' for a directory, '*' for an executable regular
   * file, '@' for a symbolic link, '=' for a socket, '|' for a FIFO, and
   * no symbol (the -1) for anything else.
   */
  function FSymbol(mode: bv32): (r: Option<char>)
    ensures r == Some('/') <==> IsDir(mode)
    ensures r == Some('*') <==> IsReg(mode) && Executable(mode)
    ensures r == Some('@') <==> IsLnk(mode)
    ensures r == Some('=') <==> IsSock(mode)
    ensures r == Some('|') <==> IsFifo(mode)
    ensures r == None <==> !IsDir(mode) && !(IsReg(mode) && Executable(mode)) && !IsLnk(mode) && !IsSock(mode) && !IsFifo(mode)
  {
    if IsDir(mode) then Some('/')
    else if IsReg(mode) && Executable(mode) then Some('*')
    else if IsLnk(mode) then Some('@')
    else if IsSock(mode) then Some('=')
    else if IsFifo(mode) then Some('|')
    else None
  }

  // --------------------------------------------------- print_the_unprintable

  /** A character `isprint` rejects becomes '?'. */
  function MaskChar(c: char): char {
    if IsPrint(c) then c else '?'
  }

  /** A name with every non-printable character replaced by '?'. */
  function Masked(s: string): (r: string)
    ensures |r| == |s|
  {
    if s == [] then [] else [MaskChar(s[0])] + Masked(s[1..])
  }

  /** Each character of the masked name is the masked character. */
  lemma {:induction false} MaskedAt(s: string, i: nat)
    requires i < |s|
    ensures Masked(s)[i] == MaskChar(s[i])
  {
    if i > 0 {
      MaskedAt(s[1..], i - 1);
    }
  }

  /** Masking keeps printable characters, replaces the others by '?', and leaves only printable ones. */
  lemma MaskedChars(s: string)
    ensures forall i :: 0 <= i < |s| && IsPrint(s[i]) ==> Masked(s)[i] == s[i]
    ensures forall i :: 0 <= i < |s| && !IsPrint(s[i]) ==> Masked(s)[i] == '?'
    ensures forall i :: 0 <= i < |s| ==> IsPrint(Masked(s)[i])
  {
    forall i | 0 <= i < |s| {
      MaskedAt(s, i);
    }
  }

  /** Masking a masked name changes nothing. */
  lemma MaskedIdempotent(s: string)
    ensures Masked(Masked(s)) == Masked(s)
  {
    MaskedChars(s);
    MaskedChars(Masked(s));
  }

  /** A name of printable characters is shown as it is. */
  lemma MaskedPrintable(s: string)
    requires forall i :: 0 <= i < |s| ==> IsPrint(s[i])
    ensures Masked(s) == s
  {
    MaskedChars(s);
  }

  /**
   * `print_the_unprintable`: the buffer holds a copy of the name, and each
   * character `isprint` rejects is overwritten with '?' in place.
   */
  method PrintTheUnprintable(str: array<char>)
    requires forall i :: 0 <= i < str.Length ==> str[i] != '\0'
    modifies str
    ensures str[..] == Masked(old(str[..]))
  {
    var i := 0;
    while i < str.Length
      invariant 0 <= i <= str.Length
      invariant forall j :: 0 <= j < i ==> str[j] == MaskChar(old(str[j]))
      invariant forall j :: i <= j < str.Length ==> str[j] == old(str[j])
    {
      if !IsPrint(str[i]) {
        str[i] := '?';
      }
      i := i + 1;
    }
    forall j | 0 <= j < str.Length
      ensures str[..][j] == Masked(old(str[..]))[j]
    {
      MaskedAt(old(str[..]), j);
    }
  }

  // ------------------------------------------------------------ block counts

  /** The block size of a blocks column: 1024 under `-k`, else the given one. */
  function KiloOr(o: Options, blockSize: int): int {
    if o.sizeKilobytes then 1024 else blockSize
  }

  /** `print`'s block size: 1024 under `-k`, else `BLOCKSIZE` or 512. */
  function ShortBlockSize(o: Options, env: Option<int>): int {
    KiloOr(o, BlockSizeEnv(env))
  }

  /** A `print_info` node with what the system answers about it. */
  datatype Info = Info(name: string, st: Stat, user: Option<string>, group: Option<string>,
                       humanBlocks: int, humanSize: int)

  /** The `st_blocks` of the entries added up, as the measuring loop does. */
  function SumBlocks(es: seq<Info>): nat {
    if es == [] then 0 else SumBlocks(es[..|es| - 1]) + es[|es| - 1].st.blocks
  }

  /** The entries' blocks columns added up. */
  function SumShown(es: seq<Info>, blockSize: nat): nat
    requires blockSize > 0
  {
    if es == [] then 0 else SumShown(es[..|es| - 1], blockSize) + BlocksShown(es[|es| - 1].st.blocks, blockSize)
  }

  /** The "total" line counts the entries' bytes in the block size of their blocks columns. */
  function Total(es: seq<Info>, blockSize: nat): (r: nat)
    requires blockSize > 0
    ensures SumBlocks(es) * 512 <= r * blockSize < SumBlocks(es) * 512 + blockSize
  {
    BlocksShown(SumBlocks(es), blockSize)
  }

  /** The total never exceeds the sum of the blocks columns it sums up. */
  lemma {:induction false} TotalAtMostSumShown(es: seq<Info>, blockSize: nat)
    requires blockSize > 0
    ensures Total(es, blockSize) <= SumShown(es, blockSize)
    decreases |es|
  {
    if es != [] {
      var init, last := es[..|es| - 1], es[|es| - 1];
      TotalAtMostSumShown(init, blockSize);
      assert SumBlocks(es) * 512 == SumBlocks(init) * 512 + last.st.blocks * 512;
      CeilDivSubadditive(SumBlocks(init) * 512, last.st.blocks * 512, blockSize);
    }
  }

  /**
   * The measuring loop of `print` and `print_long`: `check_max_widths` for
   * each entry in turn, adding up the blocks, until an entry fails.  On
   * success every column fits every entry.
   */
  method MeasureColumns(es: seq<Info>, o: Options, env: Option<int>, g: Errors)
    returns (m: MaxWidths, total: nat, ok: bool)
    requires BlockSizeEnv(env) > 0
    modifies g
    ensures fresh(m)
    ensures ok <==> forall i :: 0 <= i < |es| ==> !NamesMissing(o, es[i].user, es[i].group)
    ensures ok ==> total == SumBlocks(es)
    ensures ok ==> forall i :: 0 <= i < |es| ==>
                    m.Fits(o, es[i].st, BlockSizeEnv(env), es[i].humanBlocks, es[i].humanSize, es[i].user, es[i].group)
  {
    m := new MaxWidths();
    total := 0;
    var i := 0;
    while i < |es|
      invariant 0 <= i <= |es|
      invariant total == SumBlocks(es[..i])
      invariant forall j :: 0 <= j < i ==> !NamesMissing(o, es[j].user, es[j].group)
      invariant forall j :: 0 <= j < i ==>
                  m.Fits(o, es[j].st, BlockSizeEnv(env), es[j].humanBlocks, es[j].humanSize, es[j].user, es[j].group)
    {
      var e := es[i];
      var r := m.CheckMaxWidths(o, e.st, env, e.humanBlocks, e.humanSize, e.user, e.group, g);
      if r < 0 {
        return m, total, false;
      }
      assert es[..i + 1][..i] == es[..i];
      total := total + e.st.blocks;
      i := i + 1;
    }
    assert es[..i] == es;
    ok := true;
  }

  // ------------------------------------------------------ the "total" lines

  /**
   * One `print_long` entry's blocks column: under `-k` the block size is
   * saved, set to 1024 for the entry, and restored afterwards.
   */
  method LongEntryBlocks(o: Options, blocks: nat, blockSize: int) returns (shown: nat, restored: int)
    requires blockSize > 0
    ensures blocks * 512 <= shown * KiloOr(o, blockSize) < blocks * 512 + KiloOr(o, blockSize)
    ensures shown == BlocksShown(blocks, KiloOr(o, blockSize))
    ensures restored == blockSize
  {
    var bs := blockSize;
    var saved := 0;
    if o.sizeKilobytes {
      saved := bs;
      bs := 1024;
    }
    var tmp := blocks * 512;
    if tmp % bs > 0 {
      shown := tmp / bs + 1;
    } else {
      shown := tmp / bs;
    }
    if o.sizeKilobytes {
      bs := saved;
    }
    restored := bs;
  }

  /** `print_long`'s "total" line as written: in `BLOCKSIZE` units even under `-k`. */
  function LongTotalAsWritten(es: seq<Info>, env: Option<int>): nat
    requires BlockSizeEnv(env) > 0
  {
    Total(es, BlockSizeEnv(env))
  }

  /** Under `-k`, one 1024-byte entry is shown as 1 block, but the total as written says 2. */
  lemma LongTotalExceedsEntriesAsWritten()
    ensures var es := [Info("f", Stat(0x81A4, 1024, 2, 0, 0, 1, 0, 0), Some("root"), Some("root"), -1, -1)];
            var o := NoOptions.(sizeKilobytes := true, longFormat := true);
            LongTotalAsWritten(es, None) == 2 && SumShown(es, KiloOr(o, 512)) == 1
  {
    var es := [Info("f", Stat(0x81A4, 1024, 2, 0, 0, 1, 0, 0), Some("root"), Some("root"), -1, -1)];
    assert es[..0] == [];
  }

  /** `print_long`'s "total" line counted in the unit of its blocks columns, as `print` counts it. */
  function LongTotal(es: seq<Info>, o: Options, env: Option<int>): (r: nat)
    requires BlockSizeEnv(env) > 0
    ensures r <= SumShown(es, KiloOr(o, BlockSizeEnv(env)))
  {
    TotalAtMostSumShown(es, KiloOr(o, BlockSizeEnv(env)));
    Total(es, KiloOr(o, BlockSizeEnv(env)))
  }
}
