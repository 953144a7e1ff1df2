/** The allocator as it runs: headers stored in the free memory itself, linked
    by address from the list head. */
module HeapTables {
  import opened Ints
  import opened HeapSpec
  import opened HeapLaws
  import opened HeapTheorems

  datatype MBlock = MBlock(mnext: UInt32, mlen: UInt32)

  /** The address of block i. Address 0, which is no block, holds the list
      head and is also the null link. */
  function At(f: seq<Block>, i: int): UInt32 { if 0 <= i < |f| then f[i].addr else 0 }

  ghost predicate HeaderOK(h: seq<MBlock>, f: seq<Block>, i: nat)
    requires |h| == TWO32 && i < |f|
  {
    h[f[i].addr] == MBlock(At(f, i + 1), f[i].len)
  }

  /** The headers from the list head on spell out f. */
  ghost predicate Chained(h: seq<MBlock>, f: seq<Block>) {
    && |h| == TWO32
    && h[0].mnext == At(f, 0)
    && forall i :: 0 <= i < |f| ==> HeaderOK(h, f, i)
  }

  // ---- relinking -------------------------------------------------------

  /** In address order; blocks may touch while one is being released. */
  ghost predicate Ascending(f: seq<Block>) {
    && (forall i :: 0 <= i < |f| ==> f[i].addr > 0)
    && (forall i, j :: 0 <= i < j < |f| ==> f[i].addr < f[j].addr)
  }

  lemma CanonAscends(f: seq<Block>)
    requires Canon(f)
    ensures Ascending(f)
  {
    forall i, j | 0 <= i < j < |f| ensures f[i].addr < f[j].addr {
      assert End(f[i]) < f[j].addr;
    }
  }

  lemma AddrLess(f: seq<Block>, i: nat, j: nat)
    requires Ascending(f) && i < j < |f|
    ensures 0 < f[i].addr < f[j].addr
  {
  }

  lemma AddrDiffer(f: seq<Block>, i: nat, j: nat)
    requires Ascending(f) && i < |f| && j < |f| && i != j
    ensures f[i].addr != f[j].addr
  {
    AddrLess(f, if i < j then i else j, if i < j then j else i);
  }

  /** Block i unlinked through the header in front of it. */
  lemma ChainDrop(h: seq<MBlock>, f: seq<Block>, i: nat)
    requires Chained(h, f) && Ascending(f) && i < |f|
    ensures var q := At(f, i - 1);
      Chained(h[q := h[q].(mnext := At(f, i + 1))], f[..i] + f[i + 1..])
  {
    hide Ascending;
    if i > 0 {
      AddrPositive(f, i - 1);
    }
    var q := At(f, i - 1);
    var h' := h[q := h[q].(mnext := At(f, i + 1))];
    var f' := f[..i] + f[i + 1..];
    forall j | 0 <= j <= |f'| ensures At(f', j) == if j < i then At(f, j) else At(f, j + 1) {
      if j < |f'| {
        assert f'[j] == f[if j < i then j else j + 1];
      }
    }
    forall j | 0 <= j < |f'| ensures HeaderOK(h', f', j) {
      DropHeader(h, f, i, if j < i then j else j + 1);
    }
  }

  lemma DropHeader(h: seq<MBlock>, f: seq<Block>, i: nat, k: nat)
    requires Chained(h, f) && Ascending(f) && i < |f| && k < |f| && k != i
    ensures var q := At(f, i - 1); var h' := h[q := h[q].(mnext := At(f, i + 1))];
      h'[f[k].addr] == MBlock(if k == i - 1 then At(f, i + 1) else At(f, k + 1), f[k].len)
  {
    hide Ascending;
    assert HeaderOK(h, f, k);
    if i > 0 && k != i - 1 {
      AddrDiffer(f, i - 1, k);
    }
    AddrDiffer(f, i, k);
    AddrPositive(f, k);
  }

  lemma AddrPositive(f: seq<Block>, i: nat)
    requires Ascending(f) && i < |f|
    ensures f[i].addr > 0
  {
  }

  /** Block i given a new length, or moved up to a new header. */
  lemma ChainReplace(h: seq<MBlock>, f: seq<Block>, i: nat, b: Block)
    requires Chained(h, f) && Canon(f) && i < |f| && f[i].addr <= b.addr < End(f[i])
    ensures var q := At(f, i - 1);
      Chained(h[q := h[q].(mnext := b.addr)][b.addr := MBlock(At(f, i + 1), b.len)], f[i := b])
  {
    var q := At(f, i - 1);
    var h' := h[q := h[q].(mnext := b.addr)][b.addr := MBlock(At(f, i + 1), b.len)];
    var f' := f[i := b];
    assert q < f[i].addr by {
      assert i > 0 ==> End(f[i - 1]) < f[i].addr;
    }
    forall j | 0 <= j < |f'| ensures HeaderOK(h', f', j) {
      assert HeaderOK(h, f, j);
      assert j < i ==> End(f[j]) < f[i].addr;
      assert i < j ==> End(f[i]) < f[j].addr;
      assert j < i - 1 ==> End(f[j]) < f[i - 1].addr;
    }
  }

  /** A new length for block i in place. */
  lemma ChainResize(h: seq<MBlock>, f: seq<Block>, i: nat, n: UInt32)
    requires Chained(h, f) && Ascending(f) && i < |f|
    ensures Chained(h[f[i].addr := h[f[i].addr].(mlen := n)], f[i := f[i].(len := n)])
  {
    var h' := h[f[i].addr := h[f[i].addr].(mlen := n)];
    var f' := f[i := f[i].(len := n)];
    forall j | 0 <= j < |f'| ensures HeaderOK(h', f', j) {
      assert HeaderOK(h, f, j);
      if j != i {
        AddrDiffer(f, i, j);
      }
    }
  }

  /** A new block linked in as number i. */
  lemma ChainInsert(h: seq<MBlock>, f: seq<Block>, i: nat, b: Block)
    requires Chained(h, f) && Ascending(f) && i <= |f| && b.addr > 0
    requires (i > 0 ==> f[i - 1].addr < b.addr) && (i < |f| ==> b.addr < f[i].addr)
    ensures var q := At(f, i - 1);
      Chained(h[b.addr := MBlock(At(f, i), b.len)][q := h[q].(mnext := b.addr)], f[..i] + [b] + f[i..])
  {
    hide Ascending;
    if i > 0 {
      AddrPositive(f, i - 1);
    }
    var q := At(f, i - 1);
    var h' := h[b.addr := MBlock(At(f, i), b.len)][q := h[q].(mnext := b.addr)];
    var f' := f[..i] + [b] + f[i..];
    assert |f'| == |f| + 1 && f'[i] == b;
    forall j | 0 <= j <= |f'|
      ensures At(f', j) == if j < i then At(f, j) else if j == i then b.addr else At(f, j - 1)
    {
      if j < |f'| && j != i {
        assert f'[j] == f[if j < i then j else j - 1];
      }
    }
    forall j | 0 <= j < |f'| ensures HeaderOK(h', f', j) {
      if j != i {
        InsertHeader(h, f, i, b, if j < i then j else j - 1);
      }
    }
  }

  lemma InsertHeader(h: seq<MBlock>, f: seq<Block>, i: nat, b: Block, k: nat)
    requires Chained(h, f) && Ascending(f) && i <= |f| && k < |f| && b.addr > 0
    requires (i > 0 ==> f[i - 1].addr < b.addr) && (i < |f| ==> b.addr < f[i].addr)
    ensures var q := At(f, i - 1);
      var h' := h[b.addr := MBlock(At(f, i), b.len)][q := h[q].(mnext := b.addr)];
      h'[f[k].addr] == MBlock(if k == i - 1 then b.addr else At(f, k + 1), f[k].len)
  {
    hide Ascending;
    assert HeaderOK(h, f, k);
    AddrPositive(f, k);
    if k < i - 1 {
      AddrLess(f, k, i - 1);
    } else if i < k {
      AddrLess(f, i, k);
      if i > 0 {
        AddrLess(f, i - 1, k);
      }
    } else if k == i && i > 0 {
      AddrLess(f, i - 1, k);
    }
  }

  /** Block i swallows the next one. */
  function Merged(f: seq<Block>, i: nat): seq<Block>
    requires i + 1 < |f| && f[i].len + f[i + 1].len < TWO32
  {
    f[..i] + [Block(f[i].addr, f[i].len + f[i + 1].len)] + f[i + 2..]
  }

  lemma ChainMerge(h: seq<MBlock>, f: seq<Block>, i: nat)
    requires Chained(h, f) && Ascending(f) && i + 1 < |f| && f[i].len + f[i + 1].len < TWO32
    ensures var q := f[i].addr;
      Chained(h[q := MBlock(At(f, i + 2), f[i].len + f[i + 1].len)], Merged(f, i))
  {
    hide Ascending;
    var q, n := f[i].addr, f[i].len + f[i + 1].len;
    var h1, f1 := h[q := h[q].(mlen := n)], f[i := f[i].(len := n)];
    ChainResize(h, f, i, n);
    SameOrder(f, f1);
    ChainDrop(h1, f1, i + 1);
    assert Merged(f, i) == f1[..i + 1] + f1[i + 2..];
    assert h[q := MBlock(At(f, i + 2), n)] == h1[q := h1[q].(mnext := At(f1, i + 2))];
  }

  lemma SameOrder(f: seq<Block>, g: seq<Block>)
    requires Ascending(f) && |g| == |f| && forall i :: 0 <= i < |f| ==> g[i].addr == f[i].addr
    ensures Ascending(g)
  {
  }

  // ---- freemem's writes --------------------------------------------------

  /** The block gets its header and goes between q and p. */
  function LinkHdr(h: seq<MBlock>, q: UInt32, p: UInt32, block: UInt32, size: UInt32): seq<MBlock>
    requires |h| == TWO32
  {
    var h1 := h[block := MBlock(p, size)];
    h1[q := h1[q].(mnext := block)]
  }

  /** If the block at q ends where p is, q takes over what is read at p. */
  function JoinHdr(h: seq<MBlock>, q: UInt32, p: UInt32, zero: MBlock): seq<MBlock>
    requires |h| == TWO32
  {
    var b := if p == 0 then zero else h[p];
    if WrapU32(h[q].mlen + q) == p then h[q := MBlock(b.mnext, WrapU32(h[q].mlen + b.mlen))] else h
  }

  function GrowHdr(h: seq<MBlock>, q: UInt32, size: UInt32): seq<MBlock>
    requires |h| == TWO32
  {
    h[q := h[q].(mlen := WrapU32(h[q].mlen + size))]
  }

  /** All of it for an accepted block, q and p being where the walk stopped;
      `zero` is what lies at address 0. */
  function PutHdr(h: seq<MBlock>, q: UInt32, p: UInt32, block: UInt32, size: UInt32, zero: MBlock): seq<MBlock>
    requires |h| == TWO32
  {
    if q != 0 && WrapU32(h[q].mlen + q) == block then JoinHdr(GrowHdr(h, q, size), q, p, zero)
    else JoinHdr(LinkHdr(h, q, p, block, size), block, p, zero)
  }

  /** The header of the last block. */
  function LastHdr(c: Chain, b: Block, zero: MBlock): MBlock {
    match c
    case Proper(_) => MBlock(0, b.len)
    case Looped(_) => MBlock(b.addr, b.len)
    case Astray(_) => MBlock(zero.mnext, WrapU32(b.len + zero.mlen))
  }

  /** The headers from the list head on spell out c. */
  ghost predicate Spells(h: seq<MBlock>, c: Chain, zero: MBlock) {
    && |h| == TWO32
    && h[0].mnext == At(c.blocks, 0)
    && (forall i :: 0 <= i < |c.blocks| - 1 ==> HeaderOK(h, c.blocks, i))
    && (c.blocks != [] ==> h[c.blocks[|c.blocks| - 1].addr] == LastHdr(c, c.blocks[|c.blocks| - 1], zero))
  }

  lemma ProperSpells(h: seq<MBlock>, f: seq<Block>, zero: MBlock)
    ensures Spells(h, Proper(f), zero) <==> Chained(h, f)
  {
    if Spells(h, Proper(f), zero) {
      forall i | 0 <= i < |f| ensures HeaderOK(h, f, i) {
      }
    }
    if Chained(h, f) && f != [] {
      assert HeaderOK(h, f, |f| - 1);
    }
  }

  /** The last block's header rewritten from the words at address 0. */
  lemma StrayLast(h: seq<MBlock>, f: seq<Block>, zero: MBlock)
    requires Chained(h, f) && Ascending(f) && f != []
    ensures var b := f[|f| - 1];
      Spells(h[b.addr := MBlock(zero.mnext, WrapU32(b.len + zero.mlen))], Astray(f), zero)
  {
    var b := f[|f| - 1];
    AddrPositive(f, |f| - 1);
    var h' := h[b.addr := MBlock(zero.mnext, WrapU32(b.len + zero.mlen))];
    forall i | 0 <= i < |f| - 1 ensures HeaderOK(h', f, i) {
      assert HeaderOK(h, f, i);
      AddrLess(f, i, |f| - 1);
    }
  }

  /** Where a free block starts at the address, its header is overwritten with
      a link to itself. */
  lemma LoopHdr(h: seq<MBlock>, f: seq<Block>, i: nat, size: UInt32, zero: MBlock)
    requires Chained(h, f) && Ascending(f) && i < |f|
    ensures var b := f[i].addr; var q := At(f, i - 1);
      && LinkHdr(h, q, b, b, size) == h[b := MBlock(b, size)]
      && Spells(h[b := MBlock(b, size)], Looped(f[..i] + [Block(b, size)]), zero)
  {
    var b, q := f[i].addr, At(f, i - 1);
    var g := f[..i] + [Block(b, size)];
    var h' := h[b := MBlock(b, size)];
    AddrPositive(f, i);
    if i > 0 {
      assert HeaderOK(h, f, i - 1);
      AddrLess(f, i - 1, i);
    }
    assert LinkHdr(h, q, b, b, size) == h';
    forall j | 0 <= j <= i ensures At(g, j) == At(f, j) {
    }
    forall j | 0 <= j < i ensures HeaderOK(h', g, j) {
      assert HeaderOK(h, f, j);
      AddrLess(f, j, i);
      assert g[j] == f[j];
    }
    assert g[i] == Block(b, size) && |g| == i + 1;
  }

  lemma JoinPlain(h: seq<MBlock>, f: seq<Block>, i: nat, zero: MBlock)
    requires Chained(h, f) && Ascending(f) && i < |f|
    requires End(f[i]) < TWO32 && (i + 1 < |f| ==> End(f[i + 1]) < TWO32)
    ensures Chained(JoinHdr(h, f[i].addr, At(f, i + 1), zero),
      if i + 1 < |f| && End(f[i]) == f[i + 1].addr then Merged(f, i) else f)
  {
    assert |h| == TWO32;
    hide Chained, Ascending;
    HeaderAt(h, f, i);
    AddrPositive(f, i);
    if i + 1 < |f| {
      HeaderAt(h, f, i + 1);
      AddrPositive(f, i + 1);
      if End(f[i]) == f[i + 1].addr {
        ChainMerge(h, f, i);
      }
    }
  }

  lemma GrownChain(h: seq<MBlock>, f: seq<Block>, i: nat, size: UInt32)
    requires Chained(h, f) && Ascending(f) && i < |f|
    ensures var g := Grown(f, i, size);
      Chained(GrowHdr(h, f[i].addr, size), g) && Ascending(g)
  {
    assert |h| == TWO32;
    hide Chained, Ascending;
    HeaderAt(h, f, i);
    ChainResize(h, f, i, WrapU32(f[i].len + size));
    SameOrder(f, Grown(f, i, size));
  }

  lemma LinkedChain(h: seq<MBlock>, f: seq<Block>, i: nat, b: Block)
    requires Chained(h, f) && Ascending(f) && i <= |f| && b.addr > 0
    requires (i > 0 ==> f[i - 1].addr < b.addr) && (i < |f| ==> b.addr < f[i].addr)
    ensures var g := Added(f, i, b);
      Chained(LinkHdr(h, At(f, i - 1), At(f, i), b.addr, b.len), g) && Ascending(g)
  {
    assert |h| == TWO32;
    hide Chained, Ascending;
    ChainInsert(h, f, i, b);
    InsertAscends(f, i, b);
    var q := At(f, i - 1);
    assert q != b.addr;
    assert LinkHdr(h, q, At(f, i), b.addr, b.len) == h[b.addr := MBlock(At(f, i), b.len)][q := h[q].(mnext := b.addr)];
  }

  // ---- what a walk has seen --------------------------------------------

  /** First fit goes on behind the blocks that are too small. */
  lemma {:induction false} TakeFirstSkips(f: seq<Block>, i: nat, n: UInt32)
    requires i <= |f| && forall j :: 0 <= j < i ==> f[j].len < n
    ensures TakeFirst(f, n) == (TakeFirst(f[i..], n).0, f[..i] + TakeFirst(f[i..], n).1)
    decreases i
  {
    if i > 0 {
      TakeFirstSkips(f[1..], i - 1, n);
      assert f[1..][i - 1..] == f[i..];
      assert [f[0]] + f[1..][..i - 1] == f[..i];
      assert f[..i] + TakeFirst(f[i..], n).1 == [f[0]] + (f[1..][..i - 1] + TakeFirst(f[i..], n).1);
    } else {
      assert f[0..] == f && f[..0] + TakeFirst(f, n).1 == TakeFirst(f, n).1;
    }
  }

  /** What first fit does at the first block that is large enough. */
  lemma TakeFirstAt(f: seq<Block>, i: nat, n: UInt32)
    requires i < |f| && f[i].len >= n && forall j :: 0 <= j < i ==> f[j].len < n
    ensures TakeFirst(f, n) ==
      if f[i].len == n then (Granted(f[i].addr), f[..i] + f[i + 1..])
      else (Granted(f[i].addr), f[i := Block(WrapU32(f[i].addr + n), f[i].len - n)])
  {
    TakeFirstSkips(f, i, n);
    assert f[i..][1..] == f[i + 1..];
    if f[i].len > n {
      var b := Block(WrapU32(f[i].addr + n), f[i].len - n);
      assert f[..i] + ([b] + f[i + 1..]) == f[i := b];
    }
  }

  lemma TakeFirstNone(f: seq<Block>, n: UInt32)
    requires forall j :: 0 <= j < |f| ==> f[j].len < n
    ensures TakeFirst(f, n) == (NoRoom, f)
  {
    TakeFirstSkips(f, |f|, n);
    assert f[|f|..] == [] && f[..|f|] + [] == f;
  }

  /** The blocks before block i. */
  lemma {:induction false} BelowIs(f: seq<Block>, i: nat, a: int)
    requires i <= |f| && (forall j :: 0 <= j < i ==> f[j].addr < a) && (i < |f| ==> f[i].addr >= a)
    ensures Below(f, a) == i
    decreases i
  {
    if i > 0 {
      BelowIs(f[1..], i - 1, a);
    }
  }

  lemma {:induction false} LastFitIs(f: seq<Block>, n: UInt32, k: int)
    requires -1 <= k < |f| && (k >= 0 ==> f[k].len >= n) && forall j :: k < j < |f| ==> f[j].len < n
    ensures LastFit(f, n) == k
    decreases |f|
  {
    if f != [] && k != |f| - 1 {
      LastFitIs(f[..|f| - 1], n, k);
    }
  }

  /** Release, at the position the walk stopped at. */
  function ReleaseHere(f: seq<Block>, i: nat, b: Block): seq<Block>
    requires i <= |f| && End(b) < TWO32 && forall j :: 0 <= j < |f| ==> End(f[j]) < TWO32
  {
    if i > 0 && End(f[i - 1]) == b.addr then
      var b1 := Block(f[i - 1].addr, f[i - 1].len + b.len);
      if i < |f| && End(b1) == f[i].addr
      then f[..i - 1] + [Block(b1.addr, End(f[i]) - b1.addr)] + f[i + 1..]
      else f[..i - 1] + [b1] + f[i..]
    else if i < |f| && End(b) == f[i].addr
    then f[..i] + [Block(b.addr, End(f[i]) - b.addr)] + f[i + 1..]
    else f[..i] + [b] + f[i..]
  }

  lemma ConsMid(x: Block, s: seq<Block>, y: Block, t: seq<Block>)
    ensures [x] + s + [y] + t == [x] + (s + [y] + t)
  {
  }

  lemma TailSlices(f: seq<Block>, i: nat)
    requires 1 <= i <= |f|
    ensures f[..i] == [f[0]] + f[1..][..i - 1] && f[i..] == f[1..][i - 1..]
  {
  }

  lemma ReleaseHereStep(f: seq<Block>, i: nat, b: Block)
    requires 1 <= i <= |f| && End(b) < TWO32 && forall j :: 0 <= j < |f| ==> End(f[j]) < TWO32
    requires i > 1 || End(f[0]) != b.addr
    ensures ReleaseHere(f, i, b) == [f[0]] + ReleaseHere(f[1..], i - 1, b)
  {
    var g := f[1..];
    TailSlices(f, i);
    if i < |f| {
      TailSlices(f, i + 1);
    }
    if i > 1 {
      TailSlices(f, i - 1);
    }
    if i > 1 && End(f[i - 1]) == b.addr {
      var b1 := Block(f[i - 1].addr, f[i - 1].len + b.len);
      if i < |f| && End(b1) == f[i].addr {
        ConsMid(f[0], g[..i - 2], Block(b1.addr, End(f[i]) - b1.addr), g[i..]);
      } else {
        ConsMid(f[0], g[..i - 2], b1, g[i - 1..]);
      }
    } else if i < |f| && End(b) == f[i].addr {
      ConsMid(f[0], g[..i - 1], Block(b.addr, End(f[i]) - b.addr), g[i..]);
    } else {
      ConsMid(f[0], g[..i - 1], b, g[i - 1..]);
    }
  }

  lemma ReleaseAtFront(f: seq<Block>, b: Block)
    requires (forall j :: 0 <= j < |f| ==> End(f[j]) < TWO32) && End(b) < TWO32
    requires f != [] ==> f[0].addr >= b.addr
    ensures Release(f, b) == ReleaseHere(f, 0, b)
  {
    assert f[..0] == [] && f[0..] == f;
  }

  lemma NoneBefore(f: seq<Block>, x: Block, t: seq<Block>)
    ensures f[..0] + [x] + t == [x] + t
  {
  }

  function FirstMerged(f: seq<Block>, b: Block): seq<Block>
    requires (forall j :: 0 <= j < |f| ==> End(f[j]) < TWO32) && End(b) < TWO32
    requires f != [] && End(f[0]) == b.addr
  {
    var b1 := Block(f[0].addr, f[0].len + b.len);
    if |f| > 1 && End(b1) == f[1].addr then [Block(b1.addr, End(f[1]) - b1.addr)] + f[2..] else [b1] + f[1..]
  }

  lemma FirstMergedHere(f: seq<Block>, b: Block)
    requires (forall j :: 0 <= j < |f| ==> End(f[j]) < TWO32) && End(b) < TWO32
    requires f != [] && End(f[0]) == b.addr
    ensures ReleaseHere(f, 1, b) == FirstMerged(f, b)
  {
    var b1 := Block(f[0].addr, f[0].len + b.len);
    if |f| > 1 && End(b1) == f[1].addr {
      NoneBefore(f, Block(b1.addr, End(f[1]) - b1.addr), f[2..]);
    } else {
      NoneBefore(f, b1, f[1..]);
    }
  }

  lemma ReleaseAtFirst(f: seq<Block>, b: Block)
    requires (forall j :: 0 <= j < |f| ==> End(f[j]) < TWO32) && End(b) < TWO32
    requires f != [] && End(f[0]) == b.addr && f[0].addr < b.addr
    ensures Release(f, b) == ReleaseHere(f, 1, b)
  {
    FirstMergedHere(f, b);
    hide ReleaseHere;
  }

  lemma {:induction false} ReleaseAt(f: seq<Block>, i: nat, b: Block)
    requires Canon(f) && i <= |f| && b.len > 0 && End(b) < TWO32 && Clear(f, b)
    requires (forall j :: 0 <= j < i ==> f[j].addr < b.addr) && (i < |f| ==> f[i].addr >= b.addr)
    ensures Release(f, b) == ReleaseHere(f, i, b)
    decreases i
  {
    hide Clear;
    if i > 1 || (i == 1 && End(f[0]) != b.addr) {
      ReleaseStep(f, i, b);
      ReleaseAt(f[1..], i - 1, b);
      ReleaseHereStep(f, i, b);
    } else if i == 1 {
      ReleaseAtFirst(f, b);
    } else {
      ReleaseAtFront(f, b);
    }
  }

  /** Growing the block in front, then joining. */
  lemma GrowThenJoin(f: seq<Block>, i: nat, b: Block)
    requires 0 < i <= |f| && End(b) < TWO32 && End(f[i - 1]) == b.addr
    requires forall j :: 0 <= j < |f| ==> End(f[j]) < TWO32
    requires i < |f| ==> End(b) <= f[i].addr
    ensures var f1 := f[i - 1 := Block(f[i - 1].addr, f[i - 1].len + b.len)];
      ReleaseHere(f, i, b) ==
        if i < |f1| && End(f1[i - 1]) == f1[i].addr then Merged(f1, i - 1) else f1
  {
  }

  /** Linking the block in, then joining. */
  lemma LinkThenJoin(f: seq<Block>, i: nat, b: Block)
    requires i <= |f| && End(b) < TWO32 && (i > 0 ==> End(f[i - 1]) != b.addr)
    requires forall j :: 0 <= j < |f| ==> End(f[j]) < TWO32
    requires i < |f| ==> End(b) <= f[i].addr
    ensures var f1 := f[..i] + [b] + f[i..];
      ReleaseHere(f, i, b) ==
        if i + 1 < |f1| && End(f1[i]) == f1[i + 1].addr then Merged(f1, i) else f1
  {
    var f1 := f[..i] + [b] + f[i..];
    if i < |f| && End(b) == f[i].addr {
      assert f1[i + 1] == f[i] && f1[..i] == f[..i] && f1[i + 2..] == f[i + 1..];
    } else if i < |f| {
      assert f1[i + 1] == f[i];
    }
  }

  lemma ReleaseStep(f: seq<Block>, i: nat, b: Block)
    requires Canon(f) && 1 <= i <= |f| && b.len > 0 && End(b) < TWO32 && Clear(f, b)
    requires f[i - 1].addr < b.addr && (i > 1 || End(f[0]) != b.addr)
    ensures f[0].addr < b.addr && End(f[0]) < b.addr && Clear(f[1..], b)
    ensures Release(f, b) == [f[0]] + Release(f[1..], b)
  {
    if i > 1 {
      assert End(f[0]) < f[i - 1].addr;
    } else {
      FirstBelow(f, b);
    }
    forall a | In(b, a) ensures !Covers(f[1..], a) {
      assert !Covers(f, a);
    }
  }

  // ---- canonical lists, block by block ---------------------------------

  lemma DropCanon(f: seq<Block>, i: nat)
    requires Canon(f) && i < |f|
    ensures Canon(f[..i] + f[i + 1..])
  {
    var g := f[..i] + f[i + 1..];
    forall j, k | 0 <= j < k < |g| ensures End(g[j]) < g[k].addr {
      assert End(f[if j < i then j else j + 1]) < f[if k < i then k else k + 1].addr;
    }
  }

  /** A block cut short at either end. */
  lemma ShrinkCanon(f: seq<Block>, i: nat, b: Block)
    requires Canon(f) && i < |f| && b.len > 0 && f[i].addr <= b.addr && End(b) <= End(f[i])
    ensures Canon(f[i := b])
  {
  }

  class Heap {
    const hdr: array<MBlock>
    const low: UInt32
    const high: UInt32
    ghost var free: seq<Block>

    ghost predicate Valid()
      reads this, hdr
    {
      hdr.Length == TWO32 && Chained(hdr[..], free) && Canon(free)
    }

    /** The heap sysinit sets up. */
    constructor (end: UInt32, maxaddr: UInt32)
      requires Bootable(end, maxaddr)
      ensures Valid() && free == BootList(end, maxaddr) && low == end && high == maxaddr
    {
      hdr := new MBlock[TWO32](i => MBlock(0, 0));
      low, high := end, maxaddr;
      free := BootList(end, maxaddr);
      new;
      BootCanon(end, maxaddr);
      var mptr := RoundMb(end);
      hdr[0] := hdr[0].(mnext := mptr);
      hdr[mptr] := MBlock(HOLEEND, TruncEw(HOLESTART - end));
      hdr[mptr] := hdr[mptr].(mlen := hdr[mptr].mlen - 4);
      hdr[HOLEEND] := MBlock(0, TruncEw(maxaddr - HOLEEND - NULLSTK));
    }

    /** A private heap of one block, as vcreate sets it up. */
    constructor Private(start: UInt32, len: UInt32, end: UInt32)
      requires 0 < start && 0 < len && start + len < TWO32
      ensures Valid() && free == [Block(start, len)] && low == end && high == TWO32 - 1
    {
      hdr := new MBlock[TWO32](i => MBlock(0, 0));
      low, high := end, TWO32 - 1;
      free := [Block(start, len)];
      new;
      hdr[0] := hdr[0].(mnext := start);
      hdr[start] := hdr[start].(mlen := len);
      hdr[start] := hdr[start].(mnext := 0);
    }

    /** Block i and the link behind it, as the walk reads them. */
    lemma Walk(i: nat)
      requires Valid() && i < |free|
      ensures hdr[free[i].addr] == MBlock(At(free, i + 1), free[i].len)
      ensures 0 < free[i].addr && End(free[i]) < TWO32
    {
      assert HeaderOK(hdr[..], free, i);
    }

    lemma WalkStart()
      requires Valid()
      ensures hdr[0].mnext == At(free, 0)
    {
    }

    /** The null link is behind the last block only. */
    lemma WalkEnd(i: nat)
      requires Valid() && i <= |free|
      ensures At(free, i) == 0 <==> i == |free|
    {
    }

    // ---- getmem.c ------------------------------------------------------

    /** The block behind q is taken off the chain. */
    method Unlink(q: UInt32, p: UInt32, ghost i: nat)
      requires Valid() && i < |free| && p == free[i].addr && q == At(free, i - 1)
      modifies this`free, hdr
      ensures Valid() && free == old(free)[..i] + old(free)[i + 1..]
    {
      hide Canon;
      hide Chained;
      Walk(i);
      CanonAscends(free);
      ChainDrop(hdr[..], free, i);
      DropCanon(free, i);
      hdr[q] := hdr[q].(mnext := hdr[p].mnext);
      assert hdr[..] == old(hdr[..])[q := old(hdr[q]).(mnext := At(free, i + 1))];
      free := free[..i] + free[i + 1..];
    }

    /** The rest of block p, above its first n bytes, takes its place. */
    method SplitBottom(q: UInt32, p: UInt32, n: UInt32, ghost i: nat)
      requires Valid() && i < |free| && p == free[i].addr && q == At(free, i - 1) && n < free[i].len
      modifies this`free, hdr
      ensures Valid() && free == old(free)[i := Block(WrapU32(p + n), old(free)[i].len - n)]
    {
      hide Canon;
      hide Chained;
      Walk(i);
      ghost var b := Block(WrapU32(p + n), free[i].len - n);
      ChainReplace(hdr[..], free, i, b);
      ShrinkCanon(free, i, b);
      Before(i);
      var leftover := WrapU32(p + n);
      var next, len := hdr[p].mnext, hdr[p].mlen;
      hdr[q] := hdr[q].(mnext := leftover);
      hdr[leftover] := hdr[leftover].(mnext := next);
      hdr[leftover] := hdr[leftover].(mlen := len - n);
      assert hdr[..] == old(hdr[..])[q := old(hdr[q]).(mnext := b.addr)][b.addr := MBlock(At(free, i + 1), b.len)];
      free := free[i := b];
    }

    lemma Before(i: nat)
      requires Valid() && i < |free|
      ensures At(free, i - 1) < free[i].addr
    {
    }

    method GetMem(nbytes: UInt32) returns (g: Grant)
      requires Valid()
      modifies this`free, hdr
      ensures Valid() && (g, free) == HeapSpec.GetMem(old(free), nbytes)
    {
      hide Canon;
      hide Chained;
      hide TakeFirst;
      WalkStart();
      WalkEnd(0);
      TakeFirstNone([], RoundMb(nbytes));
      if nbytes == 0 || hdr[0].mnext == 0 {
        return NoRoom;
      }
      var n := RoundMb(nbytes);
      var q, p := 0, hdr[0].mnext;
      ghost var i := 0;
      while p != 0
        invariant Valid() && free == old(free)
        invariant 0 <= i <= |free| && p == At(free, i) && q == At(free, i - 1)
        invariant forall j :: 0 <= j < i ==> free[j].len < n
        decreases |free| - i
      {
        WalkEnd(i);
        Walk(i);
        if hdr[p].mlen == n {
          TakeFirstAt(free, i, n);
          Unlink(q, p, i);
          return Granted(p);
        } else if hdr[p].mlen > n {
          TakeFirstAt(free, i, n);
          SplitBottom(q, p, n, i);
          return Granted(p);
        }
        WalkEnd(i + 1);
        q, p, i := p, hdr[p].mnext, i + 1;
      }
      WalkEnd(i);
      TakeFirstNone(free, n);
      g := NoRoom;
    }

    // ---- getstk.c ------------------------------------------------------

    /** The block at p gives up its top n bytes. */
    method CutBlock(p: UInt32, n: UInt32, ghost i: nat)
      requires Valid() && i < |free| && p == free[i].addr && n < free[i].len
      modifies this`free, hdr
      ensures Valid() && free == old(free)[i := old(free)[i].(len := old(free)[i].len - n)]
    {
      hide Canon;
      hide Chained;
      Walk(i);
      CanonAscends(free);
      ChainResize(hdr[..], free, i, free[i].len - n);
      ShrinkCanon(free, i, free[i].(len := free[i].len - n));
      hdr[p] := hdr[p].(mlen := hdr[p].mlen - n);
      assert hdr[..] == old(hdr[..])[p := old(hdr[p]).(mlen := free[i].len - n)];
      free := free[i := free[i].(len := free[i].len - n)];
    }

    /** getstk's walk: the last block with room and the one before it. */
    method FindFit(n: UInt32) returns (fits: int, fitsq: int, ghost k: int)
      requires Valid()
      ensures k == LastFit(free, n) && fits == At(free, k) && fitsq == At(free, k - 1)
    {
      hide Canon;
      hide Chained;
      fits, fitsq, k := 0, 0, -1;
      WalkStart();
      WalkEnd(0);
      var q, p := 0, hdr[0].mnext;
      ghost var i := 0;
      while p != 0
        invariant 0 <= i <= |free| && p == At(free, i) && q == At(free, i - 1)
        invariant -1 <= k < i && fits == At(free, k) && fitsq == At(free, k - 1)
        invariant k >= 0 ==> free[k].len >= n
        invariant forall j :: k < j < i ==> free[j].len < n
        decreases |free| - i
      {
        WalkEnd(i);
        Walk(i);
        if hdr[p].mlen >= n {
          fitsq, fits, k := q, p, i;
        }
        WalkEnd(i + 1);
        q, p, i := p, hdr[p].mnext, i + 1;
      }
      WalkEnd(i);
      LastFitIs(free, n, k);
    }

    /** The length getstk keeps in the topmost word is not part of the list. */
    method GetStk(nbytes: UInt32) returns (g: Grant)
      requires Valid()
      modifies this`free, hdr
      ensures Valid() && (g, free) == HeapSpec.GetStk(old(free), nbytes)
    {
      hide Canon;
      hide Chained;
      hide RoundEw;
      if nbytes == 0 {
        return NoRoom;
      }
      var n := RoundEw(nbytes);
      var fits, fitsq, k := FindFit(n);
      if fits == 0 {
        FitsNone(k);
        return NoRoom;
      }
      FitsNone(k);
      Walk(k);
      var len := hdr[fits].mlen;
      if n == len {
        Unlink(fitsq, fits, k);
      } else {
        CutBlock(fits, n, k);
      }
      g := Granted(fits + len - 4);
    }

    lemma FitsNone(k: int)
      requires Valid() && -1 <= k < |free|
      ensures At(free, k) == 0 <==> k == -1
    {
    }

    // ---- freemem.c -----------------------------------------------------

    /** The walk to the first block at or above `block`. */
    method FindGap(block: UInt32) returns (q: UInt32, p: UInt32, ghost i: nat)
      requires Valid()
      ensures i == Below(free, block) && p == At(free, i) && q == At(free, i - 1)
    {
      hide Canon;
      hide Chained;
      WalkStart();
      WalkEnd(0);
      q, p, i := 0, hdr[0].mnext, 0;
      while p != 0 && p < block
        invariant 0 <= i <= |free| && p == At(free, i) && q == At(free, i - 1)
        invariant forall j :: 0 <= j < i ==> free[j].addr < block
        decreases |free| - i
      {
        WalkEnd(i);
        Walk(i);
        WalkEnd(i + 1);
        q, p, i := p, hdr[p].mnext, i + 1;
      }
      WalkEnd(i);
      BelowIs(free, i, block);
    }

    /** What freemem does once the block is accepted. */
    method Put(block: UInt32, size: UInt32, q0: UInt32, p: UInt32, zero: MBlock)
      requires hdr.Length == TWO32
      modifies hdr
      ensures hdr[..] == PutHdr(old(hdr[..]), q0, p, block, size, zero)
    {
      var q := q0;
      if q != 0 && WrapU32(hdr[q].mlen + q) == block {
        hdr[q] := hdr[q].(mlen := WrapU32(hdr[q].mlen + size));
        assert hdr[..] == GrowHdr(old(hdr[..]), q, size);
      } else {
        hdr[block] := hdr[block].(mlen := size);
        hdr[block] := hdr[block].(mnext := p);
        hdr[q] := hdr[q].(mnext := block);
        assert hdr[..] == LinkHdr(old(hdr[..]), q, p, block, size);
        q := block;
      }
      ghost var h := hdr[..];
      if WrapU32(hdr[q].mlen + q) == p {
        var b := if p == 0 then zero else hdr[p];
        hdr[q] := MBlock(b.mnext, WrapU32(hdr[q].mlen + b.mlen));
      }
      assert hdr[..] == JoinHdr(h, q, p, zero);
    }

    /** `zero` is what lies at address 0, which freemem reads if a block is made
        to end at 2^32. */
    method FreeMem(block: UInt32, nbytes: UInt32, zero: MBlock) returns (ok: bool)
      requires Valid() && 0 < low
      modifies this`free, hdr
      ensures ok == Frees(old(free), low, high, block, nbytes)
      ensures !ok ==> Valid() && free == old(free) && hdr[..] == old(hdr[..])
      ensures Plain(block, nbytes) ==> Valid() && (free, ok) == HeapSpec.FreeMem(old(free), low, high, block, nbytes)
      ensures ok && !Plain(block, nbytes) ==> Spells(hdr[..], PutOver(old(free), block, RoundMb(nbytes)), zero)
    {
      hide Canon;
      hide Chained;
      hide Release;
      hide RoundMb;
      hide PutHdr;
      hide PutOver;
      BlockEnds();
      if nbytes == 0 || block > high || block < low {
        return false;
      }
      var size := RoundMb(nbytes);
      var q, p, i := FindGap(block);
      if i > 0 {
        Walk(i - 1);
      }
      Neighbours(i);
      var top := WrapU32(hdr[q].mlen + q);
      if (q != 0 && top > block) || (p != 0 && WrapU32(size + block) > p) {
        return false;
      }
      Put(block, size, q, p, zero);
      if Plain(block, nbytes) {
        RoundMbUp(nbytes);
        PutPlain(old(hdr[..]), free, block, size, zero);
        free := Release(free, Block(block, size));
      } else {
        NotPlain(block, nbytes);
        PutOverSpells(old(hdr[..]), free, block, size, zero);
      }
      ok := true;
    }

    lemma BlockEnds()
      requires Valid()
      ensures forall j :: 0 <= j < |free| ==> End(free[j]) < TWO32
    {
    }

    lemma Neighbours(i: nat)
      requires Valid() && i <= |free|
      ensures At(free, i) == 0 <==> i == |free|
      ensures At(free, i - 1) == 0 <==> i == 0
    {
    }
  }

  lemma PutGrows(h: seq<MBlock>, f: seq<Block>, i: nat, block: UInt32, size: UInt32, zero: MBlock)
    requires Chained(h, f) && Ascending(f) && 0 < i <= |f| && End(f[i - 1]) == block
    ensures var q := At(f, i - 1);
      q == f[i - 1].addr && PutHdr(h, q, At(f, i), block, size, zero) == JoinHdr(GrowHdr(h, q, size), q, At(f, i), zero)
  {
    hide JoinHdr, GrowHdr, LinkHdr;
    HeaderAt(h, f, i - 1);
    AddrPositive(f, i - 1);
  }

  lemma PutLinks(h: seq<MBlock>, f: seq<Block>, i: nat, block: UInt32, size: UInt32, zero: MBlock)
    requires Chained(h, f) && i <= |f| && (i > 0 ==> End(f[i - 1]) < TWO32 && End(f[i - 1]) != block)
    ensures var q := At(f, i - 1);
      PutHdr(h, q, At(f, i), block, size, zero) == JoinHdr(LinkHdr(h, q, At(f, i), block, size), block, At(f, i), zero)
  {
    hide JoinHdr, GrowHdr, LinkHdr;
    if i > 0 {
      HeaderAt(h, f, i - 1);
    }
  }

  lemma GrownPlain(f: seq<Block>, i: nat, b: Block)
    requires 0 < i <= |f| && End(f[i - 1]) == b.addr && End(b) < TWO32
    ensures var g := Grown(f, i - 1, b.len);
      && g == f[i - 1 := Block(f[i - 1].addr, f[i - 1].len + b.len)]
      && g[i - 1].addr == f[i - 1].addr && End(g[i - 1]) == End(b)
      && At(g, i) == At(f, i) && |g| == |f| && (i < |f| ==> g[i] == f[i])
  {
  }

  /** The writes when a free block ends at the address. */
  lemma GrowPut(h: seq<MBlock>, f: seq<Block>, i: nat, b: Block, zero: MBlock)
    requires Chained(h, f) && Ascending(f) && 0 < i <= |f| && End(f[i - 1]) == b.addr && End(b) < TWO32
    requires (forall j :: 0 <= j < |f| ==> End(f[j]) < TWO32) && (i < |f| ==> End(b) <= f[i].addr)
    ensures Chained(PutHdr(h, At(f, i - 1), At(f, i), b.addr, b.len, zero), ReleaseHere(f, i, b))
  {
    assert |h| == TWO32;
    GrownPlain(f, i, b);
    hide Chained, Ascending, ReleaseHere, Merged, JoinHdr, GrowHdr, LinkHdr, PutHdr, Grown;
    PutGrows(h, f, i, b.addr, b.len, zero);
    GrowThenJoin(f, i, b);
    GrownChain(h, f, i - 1, b.len);
    JoinPlain(GrowHdr(h, f[i - 1].addr, b.len), Grown(f, i - 1, b.len), i - 1, zero);
  }

  /** The writes when none does. */
  lemma LinkPut(h: seq<MBlock>, f: seq<Block>, i: nat, b: Block, zero: MBlock)
    requires Chained(h, f) && Ascending(f) && i <= |f| && 0 < b.addr && End(b) < TWO32
    requires i > 0 ==> f[i - 1].addr < b.addr && End(f[i - 1]) != b.addr
    requires forall j :: 0 <= j < |f| ==> End(f[j]) < TWO32
    requires i < |f| ==> b.addr < f[i].addr && End(b) <= f[i].addr
    ensures Chained(PutHdr(h, At(f, i - 1), At(f, i), b.addr, b.len, zero), ReleaseHere(f, i, b))
  {
    assert |h| == TWO32;
    hide Chained, Ascending, ReleaseHere, Merged, JoinHdr, GrowHdr, LinkHdr, PutHdr;
    PutLinks(h, f, i, b.addr, b.len, zero);
    LinkThenJoin(f, i, b);
    LinkedChain(h, f, i, b);
    Spliced(f, i, b);
    JoinPlain(LinkHdr(h, At(f, i - 1), At(f, i), b.addr, b.len), Added(f, i, b), i, zero);
  }

  lemma Spliced(f: seq<Block>, i: nat, b: Block)
    requires i <= |f|
    ensures var g := Added(f, i, b);
      |g| == |f| + 1 && g[i] == b && At(g, i + 1) == At(f, i) && (i < |f| ==> g[i + 1] == f[i])
  {
  }

  /** On a block that ends below 2^32 the writes are Release. */
  lemma PutPlain(h: seq<MBlock>, f: seq<Block>, block: UInt32, size: UInt32, zero: MBlock)
    requires Chained(h, f) && Canon(f) && size > 0 && 0 < block && block + size < TWO32 && Accepts(f, block, size)
    ensures var i := Below(f, block); var r := Release(f, Block(block, size));
      Chained(PutHdr(h, At(f, i - 1), At(f, i), block, size, zero), r) && Canon(r)
  {
    var i := Below(f, block);
    var b := Block(block, size);
    AcceptsExact(f, block, size);
    AcceptedGap(f, block, size);
    CanonAscends(f);
    Small(f);
    hide Canon, Release, Clear, Splits, Accepts, Chained, Ascending, ReleaseHere, PutHdr;
    ReleaseAt(f, i, b);
    ReleaseSplits(f, b);
    if i > 0 && End(f[i - 1]) == block {
      GrowPut(h, f, i, b, zero);
    } else {
      LinkPut(h, f, i, b, zero);
    }
  }

  lemma Small(f: seq<Block>)
    requires Canon(f)
    ensures forall i :: 0 <= i < |f| ==> End(f[i]) < TWO32
  {
  }

  /** The last block is linked onwards from address 0 if it was made to end at
      2^32, and to nothing else. */
  lemma JoinOver(h: seq<MBlock>, f: seq<Block>, i: nat, block: UInt32, n: UInt32, zero: MBlock)
    requires Chained(h, f) && Ascending(f) && i < |f| && (n == 0 || block + n >= TWO32) && block > 0
    requires WrapU32(End(f[i])) == WrapU32(block + n) && (i + 1 < |f| ==> f[i + 1].addr > block)
    ensures var h' := JoinHdr(h, f[i].addr, At(f, i + 1), zero);
      Spells(h', ProperOr(block + n == TWO32 && i + 1 == |f|, f), zero)
  {
    assert |h| == TWO32;
    hide Chained, Ascending, Spells;
    HeaderAt(h, f, i);
    if i + 1 < |f| {
      assert WrapU32(block + n) <= block;
      ProperSpells(h, f, zero);
    } else if block + n == TWO32 {
      StrayLast(h, f, zero);
    } else {
      assert WrapU32(block + n) != 0;
      ProperSpells(h, f, zero);
    }
  }

  lemma LoopJoins(h: seq<MBlock>, block: UInt32, n: UInt32, zero: MBlock)
    requires |h| == TWO32 && h[block] == MBlock(block, n) && block > 0 && (n == 0 || block + n >= TWO32)
    ensures JoinHdr(h, block, block, zero) == h
  {
  }

  function ProperOr(stray: bool, f: seq<Block>): Chain { if stray then Astray(f) else Proper(f) }

  lemma GrowPutOver(h: seq<MBlock>, f: seq<Block>, i: nat, block: UInt32, n: UInt32, zero: MBlock)
    requires Chained(h, f) && Ascending(f) && 0 < i <= |f| && End(f[i - 1]) == block && 0 < block
    requires (n == 0 || block + n >= TWO32) && (i < |f| ==> block < f[i].addr)
    ensures Spells(PutHdr(h, At(f, i - 1), At(f, i), block, n, zero),
      ProperOr(block + n == TWO32 && i == |f|, Grown(f, i - 1, n)), zero)
  {
    assert |h| == TWO32;
    GrownParts(f, i, n);
    hide Chained, Ascending, JoinHdr, GrowHdr, LinkHdr, Spells, PutHdr, Grown, ProperOr;
    PutGrows(h, f, i, block, n, zero);
    GrownChain(h, f, i - 1, n);
    JoinOver(GrowHdr(h, f[i - 1].addr, n), Grown(f, i - 1, n), i - 1, block, n, zero);
  }

  lemma GrownParts(f: seq<Block>, i: nat, n: UInt32)
    requires 0 < i <= |f|
    ensures var g := Grown(f, i - 1, n);
      && |g| == |f| && g[i - 1].addr == f[i - 1].addr && At(g, i) == At(f, i) && (i < |f| ==> g[i] == f[i])
      && WrapU32(End(g[i - 1])) == WrapU32(End(f[i - 1]) + n)
  {
    WrapTwice(f[i - 1].len, n, f[i - 1].addr);
    hide WrapU32;
  }

  lemma WrapTwice(len: UInt32, n: UInt32, addr: UInt32)
    ensures WrapU32(addr + WrapU32(len + n)) == WrapU32(addr + len + n)
  {
  }

  lemma LinkPutOver(h: seq<MBlock>, f: seq<Block>, i: nat, block: UInt32, n: UInt32, zero: MBlock)
    requires Chained(h, f) && Ascending(f) && i <= |f| && 0 < block && (n == 0 || block + n >= TWO32)
    requires i > 0 ==> f[i - 1].addr < block && End(f[i - 1]) < TWO32 && End(f[i - 1]) != block
    requires i < |f| ==> block < f[i].addr
    ensures Spells(PutHdr(h, At(f, i - 1), At(f, i), block, n, zero),
      ProperOr(block + n == TWO32 && i == |f|, Added(f, i, Block(block, n))), zero)
  {
    assert |h| == TWO32;
    hide Chained, Ascending, JoinHdr, GrowHdr, LinkHdr, Spells, PutHdr;
    PutLinks(h, f, i, block, n, zero);
    LinkedChain(h, f, i, Block(block, n));
    Spliced(f, i, Block(block, n));
    JoinOver(LinkHdr(h, At(f, i - 1), At(f, i), block, n), Added(f, i, Block(block, n)), i, block, n, zero);
  }

  lemma LoopPut(h: seq<MBlock>, f: seq<Block>, i: nat, n: UInt32, zero: MBlock)
    requires Chained(h, f) && Ascending(f) && i < |f| && (n == 0 || f[i].addr + n >= TWO32)
    requires i > 0 ==> End(f[i - 1]) < TWO32 && End(f[i - 1]) != f[i].addr
    ensures var block := f[i].addr;
      Spells(PutHdr(h, At(f, i - 1), block, block, n, zero), Looped(f[..i] + [Block(block, n)]), zero)
  {
    assert |h| == TWO32;
    hide Chained, Ascending, JoinHdr, LinkHdr, Spells, PutHdr;
    var block := f[i].addr;
    PutLinks(h, f, i, block, n, zero);
    AddrPositive(f, i);
    LoopHdr(h, f, i, n, zero);
    LoopJoins(h[block := MBlock(block, n)], block, n, zero);
  }

  lemma GapOver(f: seq<Block>, block: UInt32)
    requires Canon(f)
    ensures var i := Below(f, block);
      && (i > 0 ==> f[i - 1].addr < block && End(f[i - 1]) < TWO32)
      && (i < |f| ==> block <= f[i].addr && (i > 0 ==> End(f[i - 1]) < f[i].addr))
  {
  }

  lemma PutOverCases(f: seq<Block>, block: UInt32, n: UInt32)
    ensures var i := Below(f, block); var top := block + n == TWO32 && i == |f|;
      PutOver(f, block, n) ==
        if i > 0 && End(f[i - 1]) == block then ProperOr(top, Grown(f, i - 1, n))
        else if i < |f| && f[i].addr == block then Looped(f[..i] + [Block(block, n)])
        else ProperOr(top, Added(f, i, Block(block, n)))
  {
    hide Grown, Added;
  }

  /** On any other block they leave the chain PutOver says. */
  lemma PutOverSpells(h: seq<MBlock>, f: seq<Block>, block: UInt32, n: UInt32, zero: MBlock)
    requires Chained(h, f) && Canon(f) && 0 < block && (n == 0 || block + n >= TWO32)
    ensures var i := Below(f, block);
      Spells(PutHdr(h, At(f, i - 1), At(f, i), block, n, zero), PutOver(f, block, n), zero)
  {
    var i := Below(f, block);
    CanonAscends(f);
    GapOver(f, block);
    PutOverCases(f, block, n);
    hide *;
    if i > 0 && End(f[i - 1]) == block {
      GrowPutOver(h, f, i, block, n, zero);
    } else if i < |f| && f[i].addr == block {
      LoopPut(h, f, i, n, zero);
    } else {
      LinkPutOver(h, f, i, block, n, zero);
    }
  }

  lemma AcceptedGap(f: seq<Block>, addr: UInt32, size: UInt32)
    requires Canon(f) && Accepts(f, addr, size) && size > 0 && addr + size < TWO32
    ensures var i := Below(f, addr);
      && (i > 0 ==> End(f[i - 1]) <= addr && f[i - 1].addr < addr)
      && (i < |f| ==> addr < addr + size <= f[i].addr)
  {
  }

  lemma HeaderAt(h: seq<MBlock>, f: seq<Block>, i: nat)
    requires Chained(h, f)
    ensures i < |f| ==> h[f[i].addr] == MBlock(At(f, i + 1), f[i].len)
  {
    assert i < |f| ==> HeaderOK(h, f, i);
  }

  lemma InsertAscends(f: seq<Block>, i: nat, b: Block)
    requires Ascending(f) && i <= |f| && b.addr > 0
    requires (i > 0 ==> f[i - 1].addr < b.addr) && (i < |f| ==> b.addr < f[i].addr)
    ensures Ascending(f[..i] + [b] + f[i..])
  {
    forall j | 0 <= j < i ensures f[j].addr < b.addr {
      if j < i - 1 {
        AddrLess(f, j, i - 1);
      }
    }
    forall j | i <= j < |f| ensures b.addr < f[j].addr {
      if i < j {
        AddrLess(f, i, j);
      }
    }
  }
}
