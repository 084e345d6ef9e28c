/**
 * ls/ls.c: the option loop of `main`, the `fts_open` arguments `list`
 * computes, and `check_file_errors`.
 *
 * `getopt` is replaced by the sequence of option characters it returns;
 * whether standard output is a terminal and whether the user is root are
 * parameters.  `usage` ends the program, so an unknown option ends the
 * loop without a result.
 */
module LsMain {

  import opened Wrappers
  import opened LsOptions
  import opened LsCmp

  /** The state the option loop updates: the global `opts` and `cmpfunc`. */
  datatype Parsed = Parsed(opts: Options, cmp: SortKey)

  /** The state before the loop: one entry per line, `-q` on a terminal and `-w` elsewhere, `-A` for root. */
  function Initial(tty: bool, root: bool): (r: Parsed)
    ensures r.cmp == ByName && r.opts.separateLines && !r.opts.longFormat
    ensures r.opts.printNonprintable == tty && r.opts.printRaw == !tty && r.opts.showHidden == root
    ensures !r.opts.sortModified && !r.opts.sortChanged && !r.opts.sortAccess
    ensures !r.opts.humanReadable && !r.opts.sizeKilobytes
  {
    Parsed(NoOptions.(separateLines := true, printNonprintable := tty, printRaw := !tty, showHidden := root), ByName)
  }

  /** The letters `getopt` is given: "AacdFfhiklnqRrSstuw1". */
  predicate Known(c: char) {
    c == 'A' || c == 'a' || c == 'c' || c == 'd' || c == 'F' || c == 'f' || c == 'h' ||
    c == 'i' || c == 'k' || c == 'l' || c == 'n' || c == 'q' || c == 'R' || c == 'r' ||
    c == 'S' || c == 's' || c == 't' || c == 'u' || c == 'w' || c == '1'
  }

  /** One pass of the option loop: what option `c` does to the state. */
  function Flag(s: Parsed, c: char): Parsed
    requires Known(c)
  {
    var o := s.opts;
    match c
    case 'A' => s.(opts := o.(showHidden := true))
    case 'a' => s.(opts := o.(showAll := true, showHidden := false))
    case 'c' => if o.sortModified then Parsed(o.(sortChanged := true, sortAccess := false), ByChanged) else s
    case 'd' => s.(opts := o.(dirNoContents := true))
    case 'F' => s.(opts := o.(showFileSymbol := true))
    case 'f' => s.(opts := o.(sortNone := true))
    case 'h' => s.(opts := o.(humanReadable := true, sizeKilobytes := false))
    case 'i' => s.(opts := o.(showInode := true))
    case 'k' => s.(opts := o.(sizeKilobytes := true, humanReadable := false))
    case 'l' => s.(opts := o.(separateLines := false, longFormat := true))
    case 'n' => s.(opts := o.(longNumids := true))
    case 'q' => s.(opts := o.(printNonprintable := true, printRaw := false))
    case 'R' => s.(opts := o.(dirRecurse := true, printHeaders := true))
    case 'r' => s.(opts := o.(sortReverse := true))
    case 'S' => Parsed(o.(sortSize := true), BySize)
    case 's' => s.(opts := o.(showBlocks := true))
    case 't' => if !o.sortModified then Parsed(o.(sortModified := true), ByModified) else s
    case 'u' => if o.sortModified then Parsed(o.(sortAccess := true, sortChanged := false), ByAccess) else s
    case 'w' => s.(opts := o.(printRaw := true, printNonprintable := false))
    case '1' => s.(opts := o.(separateLines := true, longNumids := false, longFormat := false))
  }

  /** The whole loop: the options in order, or None when one is unknown. */
  function Parse(s: Parsed, flags: seq<char>): Option<Parsed>
    decreases |flags|
  {
    if flags == [] then Some(s)
    else if !Known(flags[0]) then None
    else Parse(Flag(s, flags[0]), flags[1..])
  }

  /**
   * The option loop of `main`: each option sets and clears its fields
   * of `opts` and may select a comparator; an unknown option calls
   * `usage`, which exits.
   */
  method ParseOptions(flags: seq<char>, tty: bool, root: bool) returns (r: Option<Parsed>)
    ensures r == Parse(Initial(tty, root), flags)
  {
    var opts := NoOptions;
    var cmp := ByName;
    opts := opts.(separateLines := true);
    if tty {
      opts := opts.(printNonprintable := true);
    } else {
      opts := opts.(printRaw := true);
    }
    if root {
      opts := opts.(showHidden := true);
    }
    var i := 0;
    while i < |flags|
      invariant 0 <= i <= |flags|
      invariant Parse(Parsed(opts, cmp), flags[i..]) == Parse(Initial(tty, root), flags)
    {
      var c := flags[i];
      assert flags[i..][1..] == flags[i + 1..];
      match c {
        case 'A' => opts := opts.(showHidden := true);
        case 'a' => opts := opts.(showAll := true, showHidden := false);
        case 'c' =>
          if opts.sortModified {
            opts := opts.(sortChanged := true, sortAccess := false);
            cmp := ByChanged;
          }
        case 'd' => opts := opts.(dirNoContents := true);
        case 'F' => opts := opts.(showFileSymbol := true);
        case 'f' => opts := opts.(sortNone := true);
        case 'h' => opts := opts.(humanReadable := true, sizeKilobytes := false);
        case 'i' => opts := opts.(showInode := true);
        case 'k' => opts := opts.(sizeKilobytes := true, humanReadable := false);
        case 'l' => opts := opts.(separateLines := false, longFormat := true);
        case 'n' => opts := opts.(longNumids := true);
        case 'q' => opts := opts.(printNonprintable := true, printRaw := false);
        case 'R' => opts := opts.(dirRecurse := true, printHeaders := true);
        case 'r' => opts := opts.(sortReverse := true);
        case 'S' =>
          opts := opts.(sortSize := true);
          cmp := BySize;
        case 's' => opts := opts.(showBlocks := true);
        case 't' =>
          if !opts.sortModified {
            opts := opts.(sortModified := true);
            cmp := ByModified;
          }
        case 'u' =>
          if opts.sortModified {
            opts := opts.(sortAccess := true, sortChanged := false);
            cmp := ByAccess;
          }
        case 'w' => opts := opts.(printRaw := true, printNonprintable := false);
        case '1' => opts := opts.(separateLines := true, longNumids := false, longFormat := false);
        case _ => return None;
      }
      i := i + 1;
    }
    return Some(Parsed(opts, cmp));
  }

  // ------------------------------------------------------------ what the loop keeps

  /**
   * What every state the loop reaches satisfies: exactly one of one entry
   * per line and long format; exactly one of `-q` and `-w`; never both
   * `-h` and `-k`; `-c` and `-u` never both, and only after `-t`; a time
   * comparator only after `-t`.
   */
  predicate Consistent(s: Parsed) {
    var o := s.opts;
    o.separateLines == !o.longFormat &&
    o.printNonprintable == !o.printRaw &&
    !(o.humanReadable && o.sizeKilobytes) &&
    !(o.sortChanged && o.sortAccess) &&
    ((o.sortChanged || o.sortAccess) ==> o.sortModified) &&
    ((s.cmp.ByModified? || s.cmp.ByChanged? || s.cmp.ByAccess?) ==> o.sortModified)
  }

  /** Each option keeps the state consistent. */
  lemma FlagConsistent(s: Parsed, c: char)
    requires Known(c) && Consistent(s)
    ensures Consistent(Flag(s, c))
  {
  }

  /** The option loop ends in a consistent state. */
  lemma {:induction false} ParseConsistent(s: Parsed, flags: seq<char>)
    requires Consistent(s)
    ensures Parse(s, flags).Some? ==> Consistent(Parse(s, flags).value)
    decreases |flags|
  {
    if flags != [] && Known(flags[0]) {
      FlagConsistent(s, flags[0]);
      ParseConsistent(Flag(s, flags[0]), flags[1..]);
    }
  }

  /** Whatever the options, `main` starts `list` from a consistent state. */
  lemma OptionsConsistent(flags: seq<char>, tty: bool, root: bool)
    ensures Parse(Initial(tty, root), flags).Some? ==> Consistent(Parse(Initial(tty, root), flags).value)
  {
    ParseConsistent(Initial(tty, root), flags);
  }

  /** Reading `a + b` is reading `a`, then `b`. */
  lemma {:induction false} ParseAppend(s: Parsed, a: seq<char>, b: seq<char>)
    ensures Parse(s, a + b) == if Parse(s, a).None? then None else Parse(Parse(s, a).value, b)
    decreases |a|
  {
    if a != [] {
      assert (a + b)[0] == a[0] && (a + b)[1..] == a[1..] + b;
      if Known(a[0]) {
        ParseAppend(Flag(s, a[0]), a[1..], b);
      }
    } else {
      assert a + b == b;
    }
  }

  /** Options other than `-h` and `-k` leave those two flags alone. */
  lemma {:induction false} ParseKeepsSizeUnit(s: Parsed, flags: seq<char>)
    requires 'h' !in flags && 'k' !in flags
    ensures Parse(s, flags).Some? ==>
              Parse(s, flags).value.opts.humanReadable == s.opts.humanReadable &&
              Parse(s, flags).value.opts.sizeKilobytes == s.opts.sizeKilobytes
    decreases |flags|
  {
    if flags != [] && Known(flags[0]) {
      ParseKeepsSizeUnit(Flag(s, flags[0]), flags[1..]);
    }
  }

  /** Of `-h` and `-k`, the one given last wins. */
  lemma LastSizeUnitWins(s: Parsed, flags: seq<char>, i: nat)
    requires i < |flags| && (flags[i] == 'h' || flags[i] == 'k')
    requires 'h' !in flags[i + 1..] && 'k' !in flags[i + 1..]
    ensures Parse(s, flags).Some? ==>
              Parse(s, flags).value.opts.humanReadable == (flags[i] == 'h') &&
              Parse(s, flags).value.opts.sizeKilobytes == (flags[i] == 'k')
  {
    assert flags == flags[..i] + ([flags[i]] + flags[i + 1..]);
    ParseAppend(s, flags[..i], [flags[i]] + flags[i + 1..]);
    if Parse(s, flags[..i]).Some? {
      var t := Parse(s, flags[..i]).value;
      assert Parse(t, [flags[i]] + flags[i + 1..]) == Parse(Flag(t, flags[i]), flags[i + 1..]);
      ParseKeepsSizeUnit(Flag(t, flags[i]), flags[i + 1..]);
    }
  }

  /** No time sort: neither `-t`, `-c` nor `-u` in effect, and sorting by name or size. */
  predicate NoTimeSort(s: Parsed) {
    !s.opts.sortModified && !s.opts.sortChanged && !s.opts.sortAccess && (s.cmp.ByName? || s.cmp.BySize?)
  }

  /** An option other than `-t` keeps a state without time sort so. */
  lemma FlagKeepsNoTimeSort(s: Parsed, c: char)
    requires Known(c) && c != 't' && NoTimeSort(s)
    ensures NoTimeSort(Flag(s, c))
  {
  }

  /** Without `-t`, `-c` and `-u` have no effect and no time comparator is selected. */
  lemma {:induction false} NoTimeSortWithoutT(s: Parsed, flags: seq<char>)
    requires 't' !in flags && NoTimeSort(s)
    ensures Parse(s, flags).Some? ==> NoTimeSort(Parse(s, flags).value)
    decreases |flags|
  {
    if flags != [] && Known(flags[0]) {
      FlagKeepsNoTimeSort(s, flags[0]);
      NoTimeSortWithoutT(Flag(s, flags[0]), flags[1..]);
    }
  }

  /** The first `-t` selects the modification-time comparator. */
  lemma FirstT(s: Parsed)
    requires !s.opts.sortModified
    ensures Flag(s, 't').cmp == ByModified && Flag(s, 't').opts.sortModified
  {
  }

  /** A later `-t` changes nothing. */
  lemma RepeatedT(s: Parsed)
    requires s.opts.sortModified
    ensures Flag(s, 't') == s
  {
  }

  // ---------------------------------------------------------------------- list

  const FTS_COMFOLLOW: bv32 := 0x001
  const FTS_NOCHDIR: bv32 := 0x004
  const FTS_PHYSICAL: bv32 := 0x010
  const FTS_SEEDOT: bv32 := 0x020

  /**
   * `list`: the paths (the current directory when none is given), the
   * options for `fts_open` accumulated with `|=`, and the comparator,
   * none under `-f`.
   */
  method FtsArguments(args: seq<string>, o: Options, cmp: SortKey)
    returns (paths: seq<string>, options: bv32, sorter: Option<SortKey>)
    ensures paths == if args == [] then ["."] else args
    ensures (options & FTS_COMFOLLOW != 0) <==> !o.showFileSymbol && !o.dirNoContents && !o.longFormat
    ensures (options & FTS_SEEDOT != 0) <==> o.showAll
    ensures options & FTS_PHYSICAL != 0 && options & FTS_NOCHDIR != 0
    ensures options & !(FTS_COMFOLLOW | FTS_NOCHDIR | FTS_PHYSICAL | FTS_SEEDOT) == 0
    ensures sorter == if o.sortNone then None else Some(cmp)
  {
    paths := if args == [] then ["."] else args;
    options := 0;
    if !o.showFileSymbol && !o.dirNoContents && !o.longFormat {
      options := options | FTS_COMFOLLOW;
    }
    if o.showAll {
      options := options | FTS_SEEDOT;
    }
    options := options | FTS_PHYSICAL;
    options := options | FTS_NOCHDIR;
    sorter := if o.sortNone then None else Some(cmp);
  }

  // --------------------------------------------------------- check_file_errors

  /** `fts_info` of an `FTSENT`. */
  datatype FtsInfo = FTS_D | FTS_DC | FTS_DEFAULT | FTS_DNR | FTS_DOT | FTS_DP | FTS_ERR
                   | FTS_F | FTS_INIT | FTS_NS | FTS_NSOK | FTS_SL | FTS_SLNONE | FTS_W

  /**
   * `check_file_errors`: a directory cycle is only warned about; an
   * unreadable directory or an error stores the entry's `fts_errno` in
   * `errno` and its name, as `strncpy` copies it, in `error_buff`, and
   * fails; anything else passes.
   */
  method CheckFileErrors(info: FtsInfo, name: string, ftsErrno: int, g: Errors) returns (r: int)
    modifies g
    ensures r == (if info == FTS_DNR || info == FTS_ERR then -1 else 0)
    ensures r == -1 ==> g.errno == ftsErrno && g.errorBuff == name[..if |name| < ErrorBuffSize then |name| else ErrorBuffSize]
    ensures r == 0 ==> g.errno == old(g.errno) && g.errorBuff == old(g.errorBuff)
  {
    match info {
      case FTS_DC =>
        return 0;
      case FTS_DNR =>
        g.errno := ftsErrno;
        g.errorBuff := name[..if |name| < ErrorBuffSize then |name| else ErrorBuffSize];
        return -1;
      case FTS_ERR =>
        g.errno := ftsErrno;
        g.errorBuff := name[..if |name| < ErrorBuffSize then |name| else ErrorBuffSize];
        return -1;
      case _ =>
    }
    return 0;
  }
}
