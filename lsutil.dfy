/**
 * ls/util.c: `num_digits`, and `check_max_widths`, which widens the
 * columns of a listing so that one more entry fits.
 *
 * The `stat` record is an input.  What `check_max_widths` asks the system
 * for is a parameter: the value of the `BLOCKSIZE` environment variable
 * as `atoi` reads it, the lengths `humanize_number` reports (negative on
 * failure), and the user and group names `getpwuid` and `getgrgid` find
 * (`None` for a NULL result).
 */
module LsUtil {

  import opened Wrappers
  import opened CStr
  import opened LsOptions

  // ----------------------------------------------------------------- stat

  /** The file-type bits of `st_mode` and the types `S_ISDIR` and the like test for. */
  const S_IFMT: bv32 := 0xF000
  const S_IFIFO: bv32 := 0x1000
  const S_IFCHR: bv32 := 0x2000
  const S_IFDIR: bv32 := 0x4000
  const S_IFBLK: bv32 := 0x6000
  const S_IFREG: bv32 := 0x8000
  const S_IFLNK: bv32 := 0xA000
  const S_IFSOCK: bv32 := 0xC000

  predicate IsDir(mode: bv32) { mode & S_IFMT == S_IFDIR }
  predicate IsReg(mode: bv32) { mode & S_IFMT == S_IFREG }
  predicate IsLnk(mode: bv32) { mode & S_IFMT == S_IFLNK }
  predicate IsSock(mode: bv32) { mode & S_IFMT == S_IFSOCK }
  predicate IsFifo(mode: bv32) { mode & S_IFMT == S_IFIFO }
  predicate IsChr(mode: bv32) { mode & S_IFMT == S_IFCHR }
  predicate IsBlk(mode: bv32) { mode & S_IFMT == S_IFBLK }

  /** A character or block device, whose size column shows `rdev`. */
  predicate IsDevice(mode: bv32) { IsChr(mode) || IsBlk(mode) }

  /** What the listing reads from a `stat` record; `major(st_rdev)` and `minor(st_rdev)` are taken as given. */
  datatype Stat = Stat(mode: bv32, size: nat, blocks: nat, uid: nat, gid: nat, ino: nat,
                       rdevMajor: nat, rdevMinor: nat)

  /** The block size `BLOCKSIZE` names, or 512 when it is not set. */
  function BlockSizeEnv(env: Option<int>): int {
    match env
    case Some(n) => n
    case None => 512
  }

  // ----------------------------------------------------------- num_digits

  /** `num_digits`. */
  function NumDigits(num: nat): (r: nat)
    ensures r >= 1
  {
    if num < 10 then 1 else 1 + NumDigits(num / 10)
  }

  function Pow10(k: nat): (r: nat)
    ensures r >= 1
  {
    if k == 0 then 1 else 10 * Pow10(k - 1)
  }

  /** `num_digits(n)` is the number of decimal digits of `n`. */
  lemma {:induction false} NumDigitsBounds(n: nat)
    ensures n < Pow10(NumDigits(n))
    ensures n >= 1 ==> Pow10(NumDigits(n) - 1) <= n
  {
    if n >= 10 {
      NumDigitsBounds(n / 10);
      assert n == 10 * (n / 10) + n % 10;
    }
  }

  /** The width `num_digits` reserves is the length `printf("%lu")` prints. */
  lemma {:induction false} NumDigitsIsLength(n: nat)
    ensures NumDigits(n) == |NatToString(n)|
  {
    if n >= 10 {
      NumDigitsIsLength(n / 10);
    }
  }

  /** A larger number never has fewer digits. */
  lemma {:induction false} NumDigitsMonotone(a: nat, b: nat)
    requires a <= b
    ensures NumDigits(a) <= NumDigits(b)
    decreases b
  {
    if a >= 10 {
      NumDigitsMonotone(a / 10, b / 10);
    }
  }

  // ------------------------------------------------------------- rounding

  /** `if (n > m) m = n;`: the larger of the two. */
  function Max(a: nat, b: nat): (r: nat)
    ensures r >= a && r >= b && (r == a || r == b)
  {
    if b > a then b else a
  }

  /** `x / d` rounded up, as `if (x % d > 0) x / d + 1; else x / d;` computes it. */
  function CeilDiv(x: nat, d: nat): (r: nat)
    requires d > 0
    ensures x <= r * d < x + d
  {
    var q := x / d;
    assert x == q * d + x % d;
    if x % d > 0 then q + 1 else q
  }

  /** The rounded-up quotient is the least multiple count that covers `x`. */
  lemma CeilDivLeast(x: nat, d: nat, k: nat)
    requires d > 0 && x <= k * d
    ensures CeilDiv(x, d) <= k
  {
    var r := CeilDiv(x, d);
    if r > k {
      MulMonotone(k + 1, r, d);
      assert false;
    }
  }

  lemma MulMonotone(a: nat, b: nat, d: nat)
    requires a <= b
    ensures a * d <= b * d
  {
    assert b * d == a * d + (b - a) * d;
  }

  /** Rounding up a sum never exceeds the sum of the rounded-up parts. */
  lemma CeilDivSubadditive(x: nat, y: nat, d: nat)
    requires d > 0
    ensures CeilDiv(x + y, d) <= CeilDiv(x, d) + CeilDiv(y, d)
  {
    var a, b := CeilDiv(x, d), CeilDiv(y, d);
    assert (a + b) * d == a * d + b * d;
    CeilDivLeast(x + y, d, a + b);
  }

  /** The blocks of an entry, counted in units of `blockSize` bytes and rounded up. */
  function BlocksShown(blocks: nat, blockSize: nat): (r: nat)
    requires blockSize > 0
    ensures blocks * 512 <= r * blockSize < blocks * 512 + blockSize
  {
    CeilDiv(blocks * 512, blockSize)
  }

  /** The size column's number: bytes, or with `-k` kilobytes rounded up. */
  function SizeShown(o: Options, size: nat): (r: nat)
    ensures o.sizeKilobytes ==> size <= r * 1024 < size + 1024
    ensures !o.sizeKilobytes ==> r == size
  {
    if o.sizeKilobytes then CeilDiv(size, 1024) else size
  }

  // ---------------------------------------------- the blocks estimate as written

  /** The blocks estimate of `check_max_widths` as written: one is added whenever the quotient is positive. */
  function BlocksEstimateAsWritten(blocks: nat, blockSize: nat): nat
    requires blockSize > 0
  {
    var tmp := blocks * 512;
    if tmp / blockSize > 0 then tmp / blockSize + 1 else tmp / blockSize
  }

  /** As written, the estimate is one more than the shown count whenever the bytes fill whole blocks. */
  lemma EstimateOffByOne(blocks: nat, blockSize: nat)
    requires blockSize > 0 && blocks * 512 >= blockSize && blocks * 512 % blockSize == 0
    ensures BlocksEstimateAsWritten(blocks, blockSize) == BlocksShown(blocks, blockSize) + 1
  {
    var x := blocks * 512;
    assert x / blockSize > 0 by {
      assert x == (x / blockSize) * blockSize;
    }
  }

  /** As written, the estimate never needs fewer digits than the count the listing shows. */
  lemma EstimateNeverNarrower(blocks: nat, blockSize: nat)
    requires blockSize > 0
    ensures NumDigits(BlocksShown(blocks, blockSize)) <= NumDigits(BlocksEstimateAsWritten(blocks, blockSize))
  {
    var x := blocks * 512;
    var q := x / blockSize;
    if q > 0 || x % blockSize == 0 {
      NumDigitsMonotone(BlocksShown(blocks, blockSize), BlocksEstimateAsWritten(blocks, blockSize));
    }
  }

  /** Nine 512-byte blocks are shown as 9, but the estimate as written reserves two columns. */
  lemma EstimateTooWide()
    ensures BlocksShown(9, 512) == 9 && BlocksEstimateAsWritten(9, 512) == 10
    ensures NumDigits(9) == 1 && NumDigits(10) == 2
  {
  }

  // ------------------------------------------------------- the column widths

  /**
   * The blocks column's width for an entry: the length `humanize_number`
   * reported under `-h`, and otherwise that of the rounded-up count.
   */
  function BlocksWidth(o: Options, st: Stat, blockSize: nat, humanBlocks: int): (r: nat)
    requires blockSize > 0
    ensures !o.humanReadable || humanBlocks < 0 ==> r == |NatToString(BlocksShown(st.blocks, blockSize))|
    ensures o.humanReadable && humanBlocks >= 0 ==> r == humanBlocks
  {
    NumDigitsIsLength(BlocksShown(st.blocks, blockSize));
    if o.humanReadable && humanBlocks >= 0 then humanBlocks else NumDigits(BlocksShown(st.blocks, blockSize))
  }

  /** The owner column's width: the name's length, or with `-n` that of the numeric id. */
  function OwnerWidth(o: Options, id: nat, owner: Option<string>): (r: nat)
    ensures o.longNumids ==> r == |NatToString(id)|
    ensures !o.longNumids && owner.Some? ==> r == |owner.value|
  {
    NumDigitsIsLength(id);
    if o.longNumids then NumDigits(id)
    else match owner
      case Some(n) => |n|
      case None => 0
  }

  /**
   * The size column's width: a device's minor number, the length
   * `humanize_number` reported under `-h`, or that of the size shown.
   */
  function SizeWidth(o: Options, st: Stat, humanSize: int): (r: nat)
    ensures IsDevice(st.mode) ==> r == |NatToString(st.rdevMinor)|
    ensures !IsDevice(st.mode) && o.humanReadable && humanSize >= 0 ==> r == humanSize
    ensures !IsDevice(st.mode) && (!o.humanReadable || humanSize < 0) ==> r == |NatToString(SizeShown(o, st.size))|
  {
    NumDigitsIsLength(st.rdevMinor);
    NumDigitsIsLength(SizeShown(o, st.size));
    if IsDevice(st.mode) then NumDigits(st.rdevMinor)
    else if o.humanReadable && humanSize >= 0 then humanSize
    else NumDigits(SizeShown(o, st.size))
  }

  /** Without `-n` a missing user or group name is an error. */
  predicate NamesMissing(o: Options, user: Option<string>, group: Option<string>) {
    !o.longNumids && (user.None? || group.None?)
  }

  /** `struct max_widths`: the width of each column of a listing. */
  class MaxWidths {
    var blksize: nat
    var gid: nat
    var inode: nat
    var major: nat
    var minor: nat
    var name: nat
    var size: nat
    var uid: nat

    /** The widths as `print` and `print_long` initialise them. */
    constructor ()
      ensures blksize == 0 && gid == 0 && inode == 0 && major == 0
      ensures minor == 0 && name == 0 && size == 0 && uid == 0
    {
      blksize, gid, inode, major := 0, 0, 0, 0;
      minor, name, size, uid := 0, 0, 0, 0;
    }

    /** Every column is at least as wide as the entry needs. */
    predicate Fits(o: Options, st: Stat, blockSize: nat, humanBlocks: int, humanSize: int,
                   user: Option<string>, group: Option<string>)
      requires blockSize > 0
      reads this
    {
      (o.showBlocks ==> BlocksWidth(o, st, blockSize, humanBlocks) <= blksize)
      && OwnerWidth(o, st.uid, user) <= uid && OwnerWidth(o, st.gid, group) <= gid
      && (o.showInode ==> NumDigits(st.ino) <= inode)
      && (IsDevice(st.mode) ==> NumDigits(st.rdevMajor) <= major)
      && SizeWidth(o, st, humanSize) <= size
    }

    /**
     * `check_max_widths`, with the blocks column measured by the count the
     * listing shows: each column is widened to the entry's width and never
     * narrowed.  A missing user or group name fails with "UID Error" or
     * "GID Error" in `error_buff`, after the blocks column was widened and
     * before any other.
     */
    method CheckMaxWidths(o: Options, st: Stat, env: Option<int>, humanBlocks: int, humanSize: int,
                          user: Option<string>, group: Option<string>, g: Errors) returns (r: int)
      requires BlockSizeEnv(env) > 0
      modifies this, g
      ensures r == (if NamesMissing(o, user, group) then -1 else 0)
      ensures blksize == (if o.showBlocks then Max(old(blksize), BlocksWidth(o, st, BlockSizeEnv(env), humanBlocks)) else old(blksize))
      ensures minor == old(minor) && name == old(name)
      ensures r == -1 ==> uid == old(uid) && gid == old(gid) && inode == old(inode)
                          && major == old(major) && size == old(size)
      ensures r == -1 ==> g.errorBuff == (if user.None? then "UID Error" else "GID Error") && g.errno == old(g.errno)
      ensures r == 0 ==> g.errorBuff == old(g.errorBuff) && g.errno == old(g.errno)
      ensures r == 0 ==> uid == Max(old(uid), OwnerWidth(o, st.uid, user)) && gid == Max(old(gid), OwnerWidth(o, st.gid, group))
      ensures r == 0 ==> inode == (if o.showInode then Max(old(inode), NumDigits(st.ino)) else old(inode))
      ensures r == 0 ==> major == (if IsDevice(st.mode) then Max(old(major), NumDigits(st.rdevMajor)) else old(major))
      ensures r == 0 ==> size == Max(old(size), SizeWidth(o, st, humanSize))
      ensures r == 0 ==> Fits(o, st, BlockSizeEnv(env), humanBlocks, humanSize, user, group)
    {
      var blockSize := BlockSizeEnv(env);
      if o.showBlocks {
        blksize := Max(blksize, BlocksWidth(o, st, blockSize, humanBlocks));
      }
      if !o.longNumids {
        if user.None? {
          g.errorBuff := "UID Error";
          return -1;
        }
        if group.None? {
          g.errorBuff := "GID Error";
          return -1;
        }
      }
      uid := Max(uid, OwnerWidth(o, st.uid, user));
      gid := Max(gid, OwnerWidth(o, st.gid, group));
      if o.showInode {
        inode := Max(inode, NumDigits(st.ino));
      }
      var device := IsDevice(st.mode);
      if device {
        major := Max(major, NumDigits(st.rdevMajor));
      }
      size := Max(size, SizeWidth(o, st, humanSize));
      return 0;
    }
  }
}
