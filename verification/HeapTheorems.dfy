/** What the allocator promises its callers. */
module HeapTheorems {
  import opened Ints
  import opened HeapSpec
  import opened HeapLaws

  // ---- freemem's check -------------------------------------------------

  /** Below the top of the address space, looking at the two neighbours is as
      good as looking at every free block. */
  lemma AcceptsExact(f: seq<Block>, addr: UInt32, size: UInt32)
    requires Canon(f) && size > 0 && addr + size < TWO32
    ensures Accepts(f, addr, size) <==> Clear(f, Block(addr, size))
  {
    var b := Block(addr, size);
    var i := Below(f, addr);
    if Accepts(f, addr, size) {
      forall j | 0 <= j < |f| ensures End(f[j]) <= addr || f[j].addr >= addr + size {
        assert j < i - 1 ==> End(f[j]) < f[i - 1].addr;
        assert i < j ==> End(f[i]) < f[j].addr;
      }
      forall a | In(b, a) ensures !Covers(f, a) {
        if Covers(f, a) {
          var j := CoveredBy(f, a);
        }
      }
    }
    if Clear(f, b) {
      if i > 0 && End(f[i - 1]) > addr {
        CoversAt(f, i - 1, addr);
        assert In(b, addr);
      }
      if i < |f| && addr + size > f[i].addr {
        CoversAt(f, i, f[i].addr);
        assert In(b, f[i].addr);
      }
    }
  }

  /** The check is right for this address and size, whatever is free. */
  ghost predicate ChecksRight(addr: UInt32, size: UInt32) {
    forall f :: Canon(f) ==> (Accepts(f, addr, size) <==> Clear(f, Block(addr, size)))
  }

  /** Exactly when their sum stays below the top is the check right. */
  lemma ChecksRightExactly(addr: UInt32, size: UInt32)
    requires 0 < addr < TWO32 - 1 && size > 0
    ensures ChecksRight(addr, size) <==> addr + size < TWO32
  {
    if addr + size < TWO32 {
      forall f | Canon(f) ensures Accepts(f, addr, size) <==> Clear(f, Block(addr, size)) {
        AcceptsExact(f, addr, size);
      }
    } else {
      var f := [Block(addr, 1)];
      assert Canon(f);
      assert WrapU32(addr + size) == addr + size - TWO32;
      assert Accepts(f, addr, size);
      assert Covers(f, addr) && In(Block(addr, size), addr);
    }
  }

  /** freemem frees exactly the rounded block when it is in range and clear of
      every free block, and otherwise changes nothing. */
  lemma FreeMemExact(f: seq<Block>, low: UInt32, high: UInt32, addr: UInt32, size: UInt32)
    requires Canon(f) && 0 < low && Plain(addr, size)
    ensures var (f', ok) := FreeMem(f, low, high, addr, size);
      && (ok <==> InRange(low, high, addr, size) && Clear(f, Block(addr, RoundMb(size))))
      && (ok ==> Canon(f') && Splits(f', f, Block(addr, RoundMb(size))))
      && (!ok ==> f' == f)
  {
    hide Accepts;
    if size > 0 {
      RoundMbUp(size);
      AcceptsExact(f, addr, RoundMb(size));
      if Clear(f, Block(addr, RoundMb(size))) && addr > 0 {
        ReleaseSplits(f, Block(addr, RoundMb(size)));
      }
    }
  }

  lemma RoundMbUp(n: UInt32)
    requires n <= TWO32 - 8
    ensures n <= RoundMb(n) < n + 8 && RoundMb(n) % 8 == 0
  {
  }

  lemma RoundMbOver(n: UInt32)
    requires n > TWO32 - 8
    ensures RoundMb(n) == 0
  {
  }

  /** addr is strictly inside a free block. */
  ghost predicate Inside(f: seq<Block>, addr: int) {
    exists i :: 0 <= i < |f| && f[i].addr < addr < End(f[i])
  }

  ghost predicate StartsAt(f: seq<Block>, addr: int) {
    exists i :: 0 <= i < |f| && f[i].addr == addr
  }

  /** Free block i ends at addr. */
  ghost predicate EndsAt(f: seq<Block>, addr: int, i: nat) {
    i < |f| && End(f[i]) == addr
  }

  /** It does, and n more bytes make its 32-bit length no longer than it was. */
  ghost predicate EndsShort(f: seq<Block>, addr: int, n: UInt32, i: nat) {
    EndsAt(f, addr, i) && (n == 0 || f[i].len + n > TWO32)
  }

  lemma NotPlain(addr: UInt32, size: UInt32)
    requires size > 0 && !Plain(addr, size)
    ensures RoundMb(size) == 0 || addr + RoundMb(size) >= TWO32
  {
    if size > TWO32 - 8 {
      RoundMbOver(size);
    }
  }

  /** The block behind is out of reach of the check. */
  lemma AcceptsOver(f: seq<Block>, addr: UInt32, n: UInt32)
    requires Canon(f) && (n == 0 || addr + n >= TWO32)
    ensures Accepts(f, addr, n) <==> !Inside(f, addr)
  {
    var i := Below(f, addr);
    if i > 0 {
      assert forall j :: 0 <= j < i - 1 ==> End(f[j]) < f[i - 1].addr < addr;
      assert forall j :: i <= j < |f| ==> f[j].addr >= addr;
    }
    assert WrapU32(addr + n) <= addr;
  }

  lemma EndsBelow(f: seq<Block>, addr: UInt32, j: nat)
    requires Canon(f) && EndsAt(f, addr, j)
    ensures j == Below(f, addr) - 1
  {
    var i := Below(f, addr);
    assert f[j].addr < addr;
    assert j < i;
    assert f[i - 1].addr < addr;
  }

  /** Where the address is, seen from the blocks below it. */
  lemma Placement(f: seq<Block>, addr: UInt32)
    requires Canon(f)
    ensures var i := Below(f, addr);
      && (forall j: nat :: EndsAt(f, addr, j) ==> j == i - 1)
      && (StartsAt(f, addr) <==> i < |f| && f[i].addr == addr)
      && (StartsAt(f, addr) ==> forall j: nat :: !EndsAt(f, addr, j))
  {
    var i := Below(f, addr);
    forall j: nat | EndsAt(f, addr, j) ensures j == i - 1 {
      EndsBelow(f, addr, j);
    }
    forall j | 0 <= j < |f| && f[j].addr == addr ensures j == i {
    }
  }

  /** A block that is empty or passes 2^32 spoils the list, unless it shortens or
      keeps the one it is added to. */
  lemma PutOverCanon(f: seq<Block>, addr: UInt32, n: UInt32)
    requires Canon(f) && addr > 0 && (n == 0 || addr + n >= TWO32)
    ensures var c := PutOver(f, addr, n);
      c.Proper? && Canon(c.blocks) <==> exists i: nat :: EndsShort(f, addr, n, i)
  {
    Placement(f, addr);
    var i := Below(f, addr);
    if i > 0 && End(f[i - 1]) == addr {
      assert EndsAt(f, addr, i - 1);
      assert (exists j: nat :: EndsShort(f, addr, n, j)) <==> EndsShort(f, addr, n, i - 1);
      GrownCanon(f, addr, n);
    } else {
      assert forall j: nat :: !EndsAt(f, addr, j);
      BlockNotCanon(f, addr, n);
    }
  }

  lemma GrownCanon(f: seq<Block>, addr: UInt32, n: UInt32)
    requires Canon(f) && addr > 0 && (n == 0 || addr + n >= TWO32)
    requires Below(f, addr) > 0 && EndsAt(f, addr, Below(f, addr) - 1)
    ensures var c := PutOver(f, addr, n);
      c.Proper? && Canon(c.blocks) <==> EndsShort(f, addr, n, Below(f, addr) - 1)
  {
    var i := Below(f, addr) - 1;
    var g := PutOver(f, addr, n).blocks;
    assert g == f[i := f[i].(len := WrapU32(f[i].len + n))];
    if EndsShort(f, addr, n, i) {
      ShorterCanon(f, i, n);
    } else {
      GrownBad(f[i], n);
      assert g[i].len == 0 || End(g[i]) >= TWO32;
    }
  }

  lemma GrownBad(b: Block, n: UInt32)
    requires End(b) + n >= TWO32 && b.len + n <= TWO32
    ensures var len := WrapU32(b.len + n); len == 0 || b.addr + len >= TWO32
  {
  }

  lemma BlockNotCanon(f: seq<Block>, addr: UInt32, n: UInt32)
    requires addr > 0 && (n == 0 || addr + n >= TWO32)
    requires var i := Below(f, addr); i == 0 || End(f[i - 1]) != addr
    ensures var c := PutOver(f, addr, n); c.Proper? ==> !Canon(c.blocks)
  {
    var i := Below(f, addr);
    var c := PutOver(f, addr, n);
    if c.Proper? {
      assert c.blocks[i] == Block(addr, n);
    }
  }

  lemma ShorterCanon(f: seq<Block>, i: nat, n: UInt32)
    requires Canon(f) && i < |f| && (n == 0 || f[i].len + n > TWO32)
    ensures var len := WrapU32(f[i].len + n);
      && len == (if n == 0 then f[i].len else f[i].len + n - TWO32)
      && 0 < len <= f[i].len && Canon(f[i := f[i].(len := len)])
  {
  }

  /** A size above 2^32 - 8, which rounds to 0, or a block that reaches 2^32:
      freemem accepts any address in range that is not strictly inside a free
      block. What it leaves is a list if and only if a free block ends there,
      and then only if that block stays as it was or loses bytes: no byte is
      ever freed. If a free block starts there the list becomes a loop. */
  lemma FreeMemOver(f: seq<Block>, low: UInt32, high: UInt32, addr: UInt32, size: UInt32)
    requires Canon(f) && 0 < low && size > 0 && !Plain(addr, size)
    ensures Frees(f, low, high, addr, size) <==> low <= addr <= high && !Inside(f, addr)
    ensures Frees(f, low, high, addr, size) ==>
      var n := RoundMb(size); var c := PutOver(f, addr, n);
      && (c.Looped? <==> StartsAt(f, addr))
      && (c.Astray? <==> addr + n == TWO32 && forall j :: 0 <= j < |f| ==> f[j].addr < addr)
      && (c.Proper? && Canon(c.blocks) <==> exists i: nat :: EndsShort(f, addr, n, i))
      && (forall i: nat :: EndsShort(f, addr, n, i) ==>
            c.blocks == if n == 0 then f else f[i := f[i].(len := f[i].len + n - TWO32)])
  {
    var n := RoundMb(size);
    NotPlain(addr, size);
    AcceptsOver(f, addr, n);
    hide Accepts, RoundMb, PutOver, Canon, Inside;
    if Frees(f, low, high, addr, size) {
      PutOverCanon(f, addr, n);
      PutOverKind(f, addr, n);
      forall i: nat | EndsShort(f, addr, n, i)
        ensures PutOver(f, addr, n).blocks == if n == 0 then f else f[i := f[i].(len := f[i].len + n - TWO32)]
      {
        PutOverShort(f, addr, n, i);
      }
    }
  }

  lemma PutOverKind(f: seq<Block>, addr: UInt32, n: UInt32)
    requires Canon(f) && addr > 0 && (n == 0 || addr + n >= TWO32)
    ensures var c := PutOver(f, addr, n);
      && (c.Looped? <==> StartsAt(f, addr))
      && (c.Astray? <==> addr + n == TWO32 && forall j :: 0 <= j < |f| ==> f[j].addr < addr)
  {
    Placement(f, addr);
    var i := Below(f, addr);
    if i > 0 && End(f[i - 1]) == addr {
      assert EndsAt(f, addr, i - 1);
    }
    hide Canon, EndsAt, StartsAt, WrapU32;
  }

  lemma PutOverEnds(f: seq<Block>, addr: UInt32, n: UInt32)
    requires Below(f, addr) > 0 && End(f[Below(f, addr) - 1]) == addr
    ensures PutOver(f, addr, n).blocks == Grown(f, Below(f, addr) - 1, n)
  {
    hide Grown, Added;
  }

  lemma PutOverShort(f: seq<Block>, addr: UInt32, n: UInt32, i: nat)
    requires Canon(f) && EndsShort(f, addr, n, i)
    ensures PutOver(f, addr, n).blocks == if n == 0 then f else f[i := f[i].(len := f[i].len + n - TWO32)]
  {
    EndsBelow(f, addr, i);
    PutOverEnds(f, addr, n);
    ShorterCanon(f, i, n);
    hide Canon, PutOver, Below, WrapU32;
    assert f[i := f[i].(len := f[i].len)] == f;
  }

  // ---- order of release ------------------------------------------------

  /** Two blocks apart from each other and from the list may be released in
      either order. */
  lemma ReleaseCommutes(f: seq<Block>, b: Block, c: Block)
    requires Canon(f) && b.len > 0 && b.addr > 0 && End(b) < TWO32 && Clear(f, b)
    requires c.len > 0 && c.addr > 0 && End(c) < TWO32 && Clear(f, c)
    requires forall a :: In(b, a) ==> !In(c, a)
    ensures Canon(Release(f, b)) && Canon(Release(f, c))
    ensures Release(Release(f, b), c) == Release(Release(f, c), b)
  {
    ReleaseSplits(f, b);
    ReleaseSplits(f, c);
    var fb, fc := Release(f, b), Release(f, c);
    ReleaseSplits(fb, c);
    ReleaseSplits(fc, b);
    Unique(Release(fb, c), Release(fc, b));
  }

  /** Putting back what was taken out restores the list. */
  lemma ReleaseRestores(f: seq<Block>, f': seq<Block>, b: Block)
    requires Canon(f) && Canon(f') && Splits(f, f', b)
    requires b.len > 0 && b.addr > 0 && End(b) < TWO32
    ensures Clear(f', b) && Release(f', b) == f
  {
    ReleaseSplits(f', b);
    Unique(Release(f', b), f);
  }

  /** freemem accepts the block back and undoes the allocation. */
  lemma GiveBack(f: seq<Block>, f': seq<Block>, low: UInt32, high: UInt32, b: Block, size: UInt32)
    requires Canon(f) && Canon(f') && Splits(f, f', b)
    requires b.len > 0 && b.addr > 0 && End(b) < TWO32
    requires 0 < low <= b.addr <= high && 0 < size <= TWO32 - 8 && RoundMb(size) == b.len
    ensures FreeMem(f', low, high, b.addr, size) == (f, true)
  {
    ReleaseRestores(f, f', b);
    AcceptsExact(f', b.addr, b.len);
  }

  // ---- getmem ----------------------------------------------------------

  /** The blocks lie in the heap's range. */
  ghost predicate Within(f: seq<Block>, low: UInt32, high: UInt32) {
    forall i :: 0 <= i < |f| ==> low <= f[i].addr && End(f[i]) <= high + 1
  }

  lemma WithinCovers(f: seq<Block>, low: UInt32, high: UInt32, a: int)
    requires Within(f, low, high) && Covers(f, a)
    ensures low <= a <= high
  {
    var i := CoveredBy(f, a);
  }

  /** The block granted is the start of the first free block with room. */
  ghost predicate FirstFit(f: seq<Block>, n: UInt32, p: int, i: nat) {
    i < |f| && p == f[i].addr && f[i].len >= n && forall j :: 0 <= j < i ==> f[j].len < n
  }

  lemma {:induction false} TakeFirstFits(f: seq<Block>, n: UInt32)
    requires TakeFirst(f, n).0.Granted?
    ensures exists i: nat :: FirstFit(f, n, TakeFirst(f, n).0.addr, i)
  {
    var p := TakeFirst(f, n).0.addr;
    if f[0].len >= n {
      assert FirstFit(f, n, p, 0);
    } else {
      TakeFirstFits(f[1..], n);
      var i: nat :| FirstFit(f[1..], n, p, i);
      assert FirstFit(f, n, p, i + 1);
    }
  }

  /** getmem is first fit; getstk takes the top of the last block that fits. */
  lemma WhichBlock(f: seq<Block>, n: UInt32)
    requires n > 0
    ensures GetMem(f, n).0.Granted? ==> exists i: nat :: FirstFit(f, RoundMb(n), GetMem(f, n).0.addr, i)
    ensures GetStk(f, n).0.Granted? ==> exists i: nat :: LastFits(f, RoundEw(n), GetStk(f, n).0.addr, i)
  {
    hide RoundMb, RoundEw;
    if GetMem(f, n).0.Granted? {
      TakeFirstFits(f, RoundMb(n));
    }
    if GetStk(f, n).0.Granted? {
      assert LastFits(f, RoundEw(n), GetStk(f, n).0.addr, LastFit(f, RoundEw(n)));
    }
  }

  ghost predicate LastFits(f: seq<Block>, n: UInt32, p: int, i: nat) {
    i < |f| && p + 4 == End(f[i]) && f[i].len >= n && forall j :: i < j < |f| ==> f[j].len < n
  }

  /** getmem followed by freemem of the block restores the free list. */
  lemma GetMemFreeMem(f: seq<Block>, low: UInt32, high: UInt32, n: UInt32)
    requires Canon(f) && Within(f, low, high) && 0 < low && 0 < n <= TWO32 - 8
    ensures var (g, f') := GetMem(f, n);
      match g
      case NoRoom => f' == f && forall i :: 0 <= i < |f| ==> f[i].len < RoundMb(n)
      case Granted(p) => 0 < p < TWO32 - RoundMb(n) && Splits(f, f', Block(p, RoundMb(n)))
                         && Canon(f') && FreeMem(f', low, high, p, n) == (f, true)
  {
    RoundMbUp(n);
    TakeFirstSplits(f, RoundMb(n));
    var (g, f') := GetMem(f, n);
    if g.Granted? {
      var b := Block(g.addr, RoundMb(n));
      assert In(b, g.addr);
      assert Covers(f, g.addr);
      WithinCovers(f, low, high, g.addr);
      GiveBack(f, f', low, high, b, n);
    }
  }

  /** A granted address is taken off the list if and only if the request does
      not wrap to zero when rounded up. */
  lemma GetMemTakes(f: seq<Block>, n: UInt32)
    requires Canon(f) && f != [] && n > 0
    ensures var (g, f') := GetMem(f, n);
      g.Granted? ==> (!Covers(f', g.addr) <==> n <= TWO32 - 8)
    ensures n > TWO32 - 8 ==> GetMem(f, n) == (Granted(f[0].addr), f)
  {
    if n <= TWO32 - 8 {
      RoundMbUp(n);
      TakeFirstSplits(f, RoundMb(n));
      var (g, f') := GetMem(f, n);
      if g.Granted? {
        assert In(Block(g.addr, RoundMb(n)), g.addr);
      }
    } else {
      RoundMbOver(n);
      assert Block(f[0].addr, f[0].len) == f[0] && [f[0]] + f[1..] == f;
      assert Covers(f, f[0].addr);
    }
  }

  // ---- getstk ----------------------------------------------------------

  lemma EwUp(n: UInt32)
    requires n <= TWO32 - 4
    ensures n <= RoundEw(n) < n + 4 && RoundEw(n) % 4 == 0
  {
  }

  lemma RoundEwUp(n: UInt32)
    requires n <= TWO32 - 8
    ensures n <= RoundEw(n) < n + 4 && RoundEw(n) % 4 == 0
    ensures RoundMb(n) == if RoundEw(n) % 8 == 0 then RoundEw(n) else RoundEw(n) + 4
  {
    var k, r := n / 8, n % 8;
    assert (n + 3) / 4 == 2 * k + (if r == 0 then 0 else if r <= 4 then 1 else 2);
    assert (n + 7) / 8 == k + (if r == 0 then 0 else 1);
  }

  /** getstk takes its bytes off the top of the last block that has room. */
  lemma GetStkSplits(f: seq<Block>, n: UInt32)
    requires Canon(f) && 0 < n <= TWO32 - 4
    ensures var (g, f') := GetStk(f, n);
      match g
      case NoRoom => f' == f && forall i :: 0 <= i < |f| ==> f[i].len < RoundEw(n)
      case Granted(p) => p + 4 - RoundEw(n) > 0 && p + 4 < TWO32 && Canon(f')
                         && Splits(f, f', Block(p + 4 - RoundEw(n), RoundEw(n)))
  {
    EwUp(n);
    var i := LastFit(f, RoundEw(n));
    if i >= 0 {
      CutTopCanon(f, i, RoundEw(n));
      CutTopSplits(f, i, RoundEw(n));
    }
  }

  lemma EwOver(n: UInt32)
    requires n > TWO32 - 4
    ensures RoundEw(n) == 0
  {
  }

  /** The topmost byte granted is taken off the list if and only if the request
      does not wrap to zero when rounded up. */
  lemma GetStkTakes(f: seq<Block>, n: UInt32)
    requires Canon(f) && f != [] && n > 0
    ensures var (g, f') := GetStk(f, n);
      g.Granted? ==> (!Covers(f', g.addr + 3) <==> n <= TWO32 - 4)
    ensures n > TWO32 - 4 ==> GetStk(f, n) == (Granted(End(f[|f| - 1]) - 4), f)
  {
    if n <= TWO32 - 4 {
      EwUp(n);
      GetStkSplits(f, n);
      var (g, f') := GetStk(f, n);
      if g.Granted? {
        assert In(Block(g.addr + 4 - RoundEw(n), RoundEw(n)), g.addr + 3);
      }
    } else {
      EwOver(n);
      var k := |f| - 1;
      assert f[k := f[k].(len := f[k].len - 0)] == f;
      assert In(f[k], End(f[k]) - 1);
      CoversAt(f, k, End(f[k]) - 1);
    }
  }

  /** What getstk took, as a block. */
  ghost function StkTaken(f: seq<Block>, n: UInt32): Block
    requires Canon(f) && 0 < n <= TWO32 - 8 && GetStk(f, n).0.Granted?
  {
    GetStkSplits(f, n);
    RoundEwUp(n);
    Block(GetStk(f, n).0.addr + 4 - RoundEw(n), RoundEw(n))
  }

  lemma StkTakenWithin(f: seq<Block>, low: UInt32, high: UInt32, n: UInt32)
    requires Canon(f) && Within(f, low, high) && 0 < n <= TWO32 - 8 && GetStk(f, n).0.Granted?
    ensures var b := StkTaken(f, n);
      low <= b.addr <= high && End(b) <= high + 1 && End(b) < TWO32 && b.len > 0
  {
    RoundEwUp(n);
    GetStkSplits(f, n);
    var b := StkTaken(f, n);
    assert In(b, b.addr) && In(b, End(b) - 1);
    assert Covers(f, b.addr) && Covers(f, End(b) - 1);
    WithinCovers(f, low, high, b.addr);
    WithinCovers(f, low, high, End(b) - 1);
  }

  lemma StkBlockIs(f: seq<Block>, n: UInt32)
    requires Canon(f) && 0 < n <= TWO32 - 8 && GetStk(f, n).0.Granted?
    ensures var b := StkTaken(f, n);
      && RoundMb(RoundMb(n)) == RoundMb(n)
      && StkBlock(GetStk(f, n).0.addr, RoundMb(n)) == End(b) - RoundMb(n)
      && (RoundMb(n) == b.len || RoundMb(n) == b.len + 4)
  {
    RoundEwUp(n);
    RoundMbUp(n);
    GetStkSplits(f, n);
  }

  /** freestk restores the list after getstk if and only if rounding to 8 adds
      nothing to rounding to 4. */
  lemma GetStkFreeStk(f: seq<Block>, low: UInt32, high: UInt32, n: UInt32)
    requires Canon(f) && Within(f, low, high) && 8 <= low && 0 < n <= TWO32 - 8
    requires GetStk(f, n).0.Granted?
    ensures var (g, f') := GetStk(f, n); var b := StkBlock(g.addr, RoundMb(n));
      && 0 < b && b + RoundMb(n) < TWO32 && Canon(f')
      && (FreeMem(f', low, high, b, RoundMb(n)) == (f, true) <==> RoundMb(n) == RoundEw(n))
  {
    hide RoundMb;
    hide RoundEw;
    hide Canon;
    hide Splits;
    hide FreeMem;
    hide Within;
    RoundMbUp(n);
    GetStkSplits(f, n);
    StkTakenWithin(f, low, high, n);
    StkBlockIs(f, n);
    var f' := GetStk(f, n).1;
    var b := StkTaken(f, n);
    if RoundMb(n) == RoundEw(n) {
      GiveBack(f, f', low, high, b, RoundMb(n));
    } else {
      GetStkOdd(f, f', low, high, b, RoundMb(n));
    }
  }

  /** Freeing four bytes more than were taken never restores the list. */
  lemma GetStkOdd(f: seq<Block>, f': seq<Block>, low: UInt32, high: UInt32, b: Block, size: UInt32)
    requires Canon(f) && Canon(f') && Splits(f, f', b)
    requires size == b.len + 4 && b.len > 0 && b.addr > 4 && End(b) < TWO32
    requires 0 < low && size <= TWO32 - 8 && RoundMb(size) == size
    ensures FreeMem(f', low, high, b.addr - 4, size) != (f, true)
  {
    FreeMemExact(f', low, high, b.addr - 4, size);
    var c := Block(b.addr - 4, size);
    var (r, ok) := FreeMem(f', low, high, b.addr - 4, size);
    if ok {
      assert In(c, b.addr - 4) && Covers(r, b.addr - 4);
      assert !Covers(f', b.addr - 4) && !In(b, b.addr - 4);
    }
  }

  // ---- the heap at boot ------------------------------------------------

  lemma BootCanon(end: UInt32, maxaddr: UInt32)
    requires Bootable(end, maxaddr)
    ensures Canon(BootList(end, maxaddr))
  {
    RoundMbUp(end);
  }

  lemma TruncWhole(n: UInt32)
    ensures TruncEw(n) % 8 == 0 <==> n % 8 < 4
  {
    var k, r := n / 8, n % 8;
    assert n / 4 == 2 * k + (if r < 4 then 0 else 1);
  }

  /** The lower boot block is a whole number of 8-byte units exactly when the
      kernel ends 1 to 4 above a multiple of 8, the upper one exactly when the
      last address is 0 to 3 above one. */
  lemma BootWhole(end: UInt32, maxaddr: UInt32)
    requires Bootable(end, maxaddr)
    ensures BootList(end, maxaddr)[0].len % 8 == 0 <==> 1 <= end % 8 <= 4
    ensures BootList(end, maxaddr)[1].len % 8 == 0 <==> maxaddr % 8 < 4
  {
    hide RoundMb, TruncEw;
    TruncWhole(maxaddr - HOLEEND - NULLSTK);
    TruncHalf(HOLESTART - end);
  }

  lemma TruncHalf(n: UInt32)
    ensures (TruncEw(n) - 4) % 8 == 0 <==> n % 8 >= 4
  {
    var k, r := n / 8, n % 8;
    assert n / 4 == 2 * k + (if r < 4 then 0 else 1);
  }

  /** Every block has room for its 8-byte header. */
  ghost predicate HeadersFit(f: seq<Block>) { forall i :: 0 <= i < |f| ==> f[i].len >= 8 }

  /** What the boot blocks and everything cut from them are. */
  ghost predicate InWords(f: seq<Block>) { forall i :: 0 <= i < |f| ==> f[i].len % 4 == 0 }

  lemma ShapeBehind<T>(f: seq<T>, i: nat, rest: seq<T>)
    requires 0 < i < |f|
    ensures [f[0]] + (f[1..][..i - 1] + rest + f[1..][i..]) == f[..i] + rest + f[i + 1..]
  {
    assert f[1..][i..] == f[i + 1..];
    assert [f[0]] + f[1..][..i - 1] == f[..i];
  }

  lemma ShapeHere<T>(f: seq<T>, rest: seq<T>)
    requires f != []
    ensures f[..0] + rest + f[1..] == if rest == [] then f[1..] else rest + f[1..]
  {
  }

  lemma {:induction false} TakeFirstShape(f: seq<Block>, n: UInt32, p: int, i: nat)
    requires Canon(f) && n > 0 && FirstFit(f, n, p, i)
    ensures TakeFirst(f, n) ==
      (Granted(f[i].addr), f[..i] + (if f[i].len == n then [] else [Block(f[i].addr + n, f[i].len - n)]) + f[i + 1..])
  {
    CanonTail(f);
    assert End(f[i]) < TWO32 && f[i].len >= n;
    hide Canon;
    var rest := if f[i].len == n then [] else [Block(f[i].addr + n, f[i].len - n)];
    if i > 0 {
      assert FirstFit(f[1..], n, p, i - 1);
      TakeFirstShape(f[1..], n, p, i - 1);
      ShapeBehind(f, i, rest);
    } else {
      ShapeHere(f, rest);
    }
  }

  /** Replacing block i by what is left of it. */
  lemma RestFits(f: seq<Block>, i: nat, rest: seq<Block>, r: seq<Block>)
    requires i < |f| && HeadersFit(f) && r == f[..i] + rest + f[i + 1..]
    ensures HeadersFit(r) <==> HeadersFit(rest)
  {
    assert forall j :: 0 <= j < |rest| ==> r[i + j] == rest[j];
    assert forall j :: 0 <= j < i ==> r[j] == f[j];
    assert forall j :: i + |rest| <= j < |r| ==> r[j] == f[j + 1 - |rest|];
  }

  lemma MultipleOf4(b: int)
    requires b % 8 == 0
    ensures b % 4 == 0
  {
    assert b == 4 * (2 * (b / 8));
  }

  /** From any list, what getmem leaves of the block it cuts has room for a
      header if and only if that block is not 4 bytes longer than the rounded
      request. */
  lemma LeftoverHeader(f: seq<Block>, n: UInt32, i: nat)
    requires Canon(f) && HeadersFit(f) && InWords(f) && 0 < n <= TWO32 - 8
    requires i < |f| && FirstFit(f, RoundMb(n), f[i].addr, i)
    ensures HeadersFit(GetMem(f, n).1) <==> f[i].len != RoundMb(n) + 4
  {
    var m := RoundMb(n);
    RoundMbUp(n);
    MultipleOf4(m);
    MultiplesOf4Less(f[i].len, m);
    assert End(f[i]) < TWO32 && f[i].len - m >= 0;
    hide RoundMb, Canon, TakeFirst;
    TakeFirstShape(f, m, f[i].addr, i);
    RestOf(f, i, m, Block(f[i].addr + m, f[i].len - m), GetMem(f, n).1);
  }

  /** The same of getstk, which leaves the bottom of the block it cuts. */
  lemma StkLeftoverHeader(f: seq<Block>, n: UInt32, i: nat)
    requires Canon(f) && HeadersFit(f) && InWords(f) && 0 < n <= TWO32 - 4
    requires LastFit(f, RoundEw(n)) == i
    ensures HeadersFit(GetStk(f, n).1) <==> f[i].len != RoundEw(n) + 4
  {
    var m := RoundEw(n);
    EwUp(n);
    hide RoundEw, Canon;
    CutTopShape(f, i, m);
    hide CutTop, InWords;
    assert GetStk(f, n).1 == CutTop(f, i, m);
    hide GetStk;
    MultiplesOf4Less(f[i].len, m);
    RestOf(f, i, m, f[i].(len := f[i].len - m), CutTop(f, i, m));
  }

  /** Block i gives up m of its bytes and b is left. */
  lemma RestOf(f: seq<Block>, i: nat, m: UInt32, b: Block, r: seq<Block>)
    requires i < |f| && HeadersFit(f) && m <= f[i].len && b.len == f[i].len - m
    requires f[i].len - m >= 8 || f[i].len == m || f[i].len == m + 4
    requires r == f[..i] + (if f[i].len == m then [] else [b]) + f[i + 1..]
    ensures HeadersFit(r) <==> f[i].len != m + 4
  {
    var rest := if f[i].len == m then [] else [b];
    RestFits(f, i, rest, r);
    assert rest != [] ==> rest[0] == b;
  }

  lemma CutTopShape(f: seq<Block>, i: nat, m: UInt32)
    requires i < |f| && m <= f[i].len
    ensures CutTop(f, i, m) == f[..i] + (if f[i].len == m then [] else [f[i].(len := f[i].len - m)]) + f[i + 1..]
  {
  }

  lemma MultiplesOf4Less(a: int, b: int)
    requires a % 4 == 0 && b % 4 == 0 && b <= a
    ensures a - b >= 8 || a == b || a == b + 4
  {
  }

  lemma TakeSecond(b: Block, c: Block, n: UInt32)
    requires b.len < n < c.len && End(c) < TWO32
    ensures TakeFirst([b, c], n) == (Granted(c.addr), [b, Block(c.addr + n, c.len - n)])
  {
    var g, left := [b, c][1..], Block(c.addr + n, c.len - n);
    assert g == [c] && [left] + g[1..] == [left];
    assert TakeFirst(g, n) == (Granted(c.addr), [left]);
    assert [b] + [left] == [b, left];
  }

  lemma RoundWhole(n: UInt32)
    requires n % 8 == 0 && n <= TWO32 - 8
    ensures RoundMb(n) == n
  {
    var k := n / 8;
    assert n == 8 * k && (n + 7) / 8 == k;
  }

  /** On a machine with memory up to a multiple of 8 such a request exists from
      the start; on the 16 MB machine maxaddr is 0xffffff. */
  lemma BootSliver(end: UInt32, maxaddr: UInt32)
    requires Bootable(end, maxaddr) && maxaddr % 8 == 7 && maxaddr >= HOLEEND + NULLSTK + HOLESTART + 16
    ensures var f := BootList(end, maxaddr); var n := f[1].len - 4;
      n > 0 && GetMem(f, n) == (Granted(HOLEEND), [f[0], Block(HOLEEND + n, 4)])
  {
    hide RoundMb;
    hide TakeFirst;
    var f := BootList(end, maxaddr);
    BootWhole(end, maxaddr);
    RoundWhole(f[1].len - 4);
    TakeSecond(f[0], f[1], f[1].len - 4);
  }
}
