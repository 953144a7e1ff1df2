/** The free list of the memory allocator as a sequence of blocks, and what
    getmem, getstk and freemem do to it. Addresses and sizes are in bytes. */
module HeapSpec {
  import opened Ints

  datatype Block = Block(addr: UInt32, len: UInt32)

  datatype Grant = NoRoom | Granted(addr: int)

  /** Round up as the macros do: in a 32-bit register. */
  function RoundMb(n: UInt32): UInt32 { WrapU32(n + 7) / 8 * 8 }

  function RoundEw(n: UInt32): UInt32 { WrapU32(n + 3) / 4 * 4 }

  function End(b: Block): int { b.addr + b.len }

  /** In address order, with a gap between any two blocks, none empty. */
  ghost predicate Canon(f: seq<Block>) {
    && (forall i :: 0 <= i < |f| ==> f[i].len > 0 && f[i].addr > 0 && End(f[i]) < TWO32)
    && (forall i, j :: 0 <= i < j < |f| ==> End(f[i]) < f[j].addr)
  }

  /** Byte a is in some block of f. */
  ghost predicate Covers(f: seq<Block>, a: int) {
    f != [] && (f[0].addr <= a < End(f[0]) || Covers(f[1..], a))
  }

  ghost predicate In(b: Block, a: int) { b.addr <= a < End(b) }

  // ---- getmem ----------------------------------------------------------

  /** First fit, taken from the bottom of the block. */
  function TakeFirst(f: seq<Block>, n: UInt32): (Grant, seq<Block>) {
    if f == [] then (NoRoom, f)
    else if f[0].len == n then (Granted(f[0].addr), f[1..])
    else if f[0].len > n then
      (Granted(f[0].addr), [Block(WrapU32(f[0].addr + n), f[0].len - n)] + f[1..])
    else
      var (g, rest) := TakeFirst(f[1..], n);
      (g, [f[0]] + rest)
  }

  function GetMem(f: seq<Block>, nbytes: UInt32): (Grant, seq<Block>) {
    if nbytes == 0 then (NoRoom, f) else TakeFirst(f, RoundMb(nbytes))
  }

  // ---- getstk ----------------------------------------------------------

  /** The last block with room for n, or -1. */
  function LastFit(f: seq<Block>, n: UInt32): (i: int)
    ensures -1 <= i < |f|
    ensures i >= 0 ==> f[i].len >= n
    ensures forall j :: i < j < |f| ==> f[j].len < n
  {
    if f == [] then -1
    else if f[|f| - 1].len >= n then |f| - 1
    else LastFit(f[..|f| - 1], n)
  }

  /** n bytes off the top of block i. */
  function CutTop(f: seq<Block>, i: nat, n: UInt32): seq<Block>
    requires i < |f| && n <= f[i].len
  {
    if n == f[i].len then f[..i] + f[i + 1..] else f[i := f[i].(len := f[i].len - n)]
  }

  /** The address returned is that of the topmost word. */
  function GetStk(f: seq<Block>, nbytes: UInt32): (Grant, seq<Block>) {
    var n := RoundEw(nbytes);
    var i := LastFit(f, n);
    if nbytes == 0 || i < 0 then (NoRoom, f)
    else (Granted(End(f[i]) - 4), CutTop(f, i, n))
  }

  // ---- freemem ---------------------------------------------------------

  /** Blocks below address a. */
  function Below(f: seq<Block>, a: int): (i: nat)
    ensures i <= |f|
    ensures forall j :: 0 <= j < i ==> f[j].addr < a
    ensures i < |f| ==> f[i].addr >= a
  {
    if f == [] || f[0].addr >= a then 0 else 1 + Below(f[1..], a)
  }

  /** The check against the two neighbours, in 32-bit arithmetic. */
  predicate Accepts(f: seq<Block>, addr: UInt32, size: UInt32) {
    var i := Below(f, addr);
    && (i > 0 ==> WrapU32(End(f[i - 1])) <= addr)
    && (i < |f| ==> WrapU32(addr + size) <= f[i].addr)
  }

  /** Insert b in order, merging it with either neighbour it touches. */
  function Release(f: seq<Block>, b: Block): seq<Block>
    requires forall i :: 0 <= i < |f| ==> End(f[i]) < TWO32
    requires End(b) < TWO32
  {
    if f == [] then [b]
    else if f[0].addr < b.addr && End(f[0]) == b.addr then
      var b1 := Block(f[0].addr, f[0].len + b.len);
      if |f| > 1 && End(b1) == f[1].addr
      then [Block(b1.addr, End(f[1]) - b1.addr)] + f[2..]
      else [b1] + f[1..]
    else if f[0].addr < b.addr then [f[0]] + Release(f[1..], b)
    else if End(b) == f[0].addr then [Block(b.addr, End(f[0]) - b.addr)] + f[1..]
    else [b] + f
  }

  /** Within the heap's range: addresses from `low` (&end) to `high` (maxaddr). */
  predicate InRange(low: UInt32, high: UInt32, addr: UInt32, size: UInt32) {
    size != 0 && low <= addr <= high
  }

  predicate Frees(f: seq<Block>, low: UInt32, high: UInt32, addr: UInt32, size: UInt32) {
    InRange(low, high, addr, size) && Accepts(f, addr, RoundMb(size))
  }

  /** The size can be rounded up and the block ends below the top of the
      address space. */
  predicate Plain(addr: UInt32, size: UInt32) { size <= TWO32 - 8 && addr + RoundMb(size) < TWO32 }

  function FreeMem(f: seq<Block>, low: UInt32, high: UInt32, addr: UInt32, size: UInt32): (seq<Block>, bool)
    requires forall i :: 0 <= i < |f| ==> End(f[i]) < TWO32
    requires Plain(addr, size)
  {
    if Frees(f, low, high, addr, size) then (Release(f, Block(addr, RoundMb(size))), true) else (f, false)
  }

  /** A list as its links spell it. Looped: the last block is linked to itself.
      Astray: the last block's link, and part of its length, came from the words
      at address 0. */
  datatype Chain = Proper(blocks: seq<Block>) | Looped(blocks: seq<Block>) | Astray(blocks: seq<Block>)

  function Added(f: seq<Block>, i: nat, b: Block): seq<Block>
    requires i <= |f|
  {
    f[..i] + [b] + f[i..]
  }

  /** Block i with n more bytes, its length in 32 bits. */
  function Grown(f: seq<Block>, i: nat, n: UInt32): seq<Block>
    requires i < |f|
  {
    f[i := f[i].(len := WrapU32(f[i].len + n))]
  }

  /** What freemem leaves behind when the block it accepts is not Plain; n is
      the size once rounded. */
  function PutOver(f: seq<Block>, addr: UInt32, n: UInt32): Chain {
    var i := Below(f, addr);
    var top := addr + n == TWO32 && i == |f|;
    if i > 0 && End(f[i - 1]) == addr then
      if top then Astray(Grown(f, i - 1, n)) else Proper(Grown(f, i - 1, n))
    else if i < |f| && f[i].addr == addr then Looped(f[..i] + [Block(addr, n)])
    else if top then Astray(Added(f, i, Block(addr, n))) else Proper(Added(f, i, Block(addr, n)))
  }

  /** The macro freestk: the block below and including the word at p. */
  function StkBlock(p: int, len: UInt32): int { p - RoundMb(len) + 4 }

  // ---- boot ------------------------------------------------------------

  const HOLESTART: int := 640 * 1024
  const HOLEEND: int := (1024 + 600) * 1024
  const NULLSTK: int := 4096

  function TruncEw(n: UInt32): UInt32 { n / 4 * 4 }

  /** A machine whose memory reaches past the hole, with kernel end `end` and
      last address `maxaddr`. */
  predicate Bootable(end: UInt32, maxaddr: UInt32) {
    8 <= end <= HOLESTART - 16 && HOLEEND + NULLSTK + 8 <= maxaddr < TWO32 - 8
  }

  /** The two blocks sysinit starts with. */
  function BootList(end: UInt32, maxaddr: UInt32): seq<Block>
    requires Bootable(end, maxaddr)
  {
    [Block(RoundMb(end), TruncEw(HOLESTART - end) - 4), Block(HOLEEND, TruncEw(maxaddr - HOLEEND - NULLSTK))]
  }
}
