/** What is left of the free list when freemem accepts a block that is empty
    once rounded or reaches 2^32. */
module HeapOver {
  import opened Ints
  import opened HeapSpec
  import opened HeapTheorems
  import opened HeapTables

  ghost predicate Positive(f: seq<Block>) {
    forall i :: 0 <= i < |f| ==> f[i].addr > 0
  }

  /** The headers spell c, up to the link behind its last block. */
  lemma SpelledHeader(h: seq<MBlock>, c: Chain, zero: MBlock, i: nat)
    requires Spells(h, c, zero) && i < |c.blocks|
    ensures i < |c.blocks| - 1 ==> h[c.blocks[i].addr] == MBlock(c.blocks[i + 1].addr, c.blocks[i].len)
    ensures i == |c.blocks| - 1 ==> h[c.blocks[i].addr] == LastHdr(c, c.blocks[i], zero)
  {
    assert i < |c.blocks| - 1 ==> HeaderOK(h, c.blocks, i);
  }

  /** Whatever list g the headers spell too, it starts with c's blocks. */
  lemma {:induction false} SamePrefix(h: seq<MBlock>, c: Chain, zero: MBlock, g: seq<Block>, k: nat)
    requires Spells(h, c, zero) && Chained(h, g) && Positive(c.blocks) && k < |c.blocks|
    ensures k < |g| && g[k].addr == c.blocks[k].addr && h[g[k].addr] == MBlock(At(g, k + 1), g[k].len)
    decreases k
  {
    hide Spells, Chained;
    if k > 0 {
      SamePrefix(h, c, zero, g, k - 1);
      SpelledHeader(h, c, zero, k - 1);
    } else {
      SameStart(h, c, zero, g);
    }
    HeaderAt(h, g, k);
  }

  lemma SameStart(h: seq<MBlock>, c: Chain, zero: MBlock, g: seq<Block>)
    requires Spells(h, c, zero) && Chained(h, g)
    ensures At(c.blocks, 0) == At(g, 0)
  {
  }

  /** The headers of a proper chain spell no other list. */
  lemma ProperOnly(h: seq<MBlock>, f: seq<Block>, zero: MBlock, g: seq<Block>)
    requires Spells(h, Proper(f), zero) && Chained(h, g) && Positive(f) && Positive(g)
    ensures g == f
  {
    hide Spells, Chained;
    var c := Proper(f);
    SameStart(h, c, zero, g);
    forall i | 0 <= i < |f| ensures i < |g| && g[i] == f[i] {
      SamePrefix(h, c, zero, g, i);
      SpelledHeader(h, c, zero, i);
    }
    if |f| > 0 {
      var k := |f| - 1;
      SamePrefix(h, c, zero, g, k);
      SpelledHeader(h, c, zero, k);
      assert At(g, k + 1) == 0;
    }
  }

  /** Those of a loop spell none. */
  lemma LoopSpellsNone(h: seq<MBlock>, f: seq<Block>, zero: MBlock, g: seq<Block>)
    requires Spells(h, Looped(f), zero) && Chained(h, g) && Positive(f) && f != []
    ensures !Canon(g)
  {
    hide Spells, Chained;
    var k := |f| - 1;
    SamePrefix(h, Looped(f), zero, g, k);
    SpelledHeader(h, Looped(f), zero, k);
    assert At(g, k + 1) == g[k].addr > 0;
    hide Canon;
    if Canon(g) {
      Apart(g, k);
    }
  }

  lemma Apart(g: seq<Block>, k: nat)
    requires Canon(g) && k + 1 < |g|
    ensures g[k].addr != g[k + 1].addr
  {
    assert End(g[k]) < g[k + 1].addr;
  }

  lemma PutOverPositive(f: seq<Block>, addr: UInt32, n: UInt32)
    requires Canon(f) && addr > 0
    ensures Positive(PutOver(f, addr, n).blocks)
    ensures PutOver(f, addr, n).Looped? ==> PutOver(f, addr, n).blocks != []
  {
  }

  /** Unless the last block was made to end at 2^32 and linked to whatever lies
      at address 0: the headers freemem leaves still spell a free list if and
      only if a free block ended at the address and was not lengthened. */
  lemma SurvivesExactly(h: seq<MBlock>, f: seq<Block>, addr: UInt32, n: UInt32, zero: MBlock)
    requires Canon(f) && addr > 0 && (n == 0 || addr + n >= TWO32)
    requires Spells(h, PutOver(f, addr, n), zero) && !PutOver(f, addr, n).Astray?
    ensures (exists g :: Canon(g) && Chained(h, g)) <==> exists i: nat :: EndsShort(f, addr, n, i)
  {
    PutOverCanon(f, addr, n);
    PutOverPositive(f, addr, n);
    var c := PutOver(f, addr, n);
    hide PutOver, Spells, Chained, EndsShort;
    if c.Proper? {
      ProperSpells(h, c.blocks, zero);
      forall g | Canon(g) && Chained(h, g) ensures g == c.blocks {
        ProperOnly(h, c.blocks, zero, g);
      }
    } else {
      forall g | Chained(h, g) ensures !Canon(g) {
        LoopSpellsNone(h, c.blocks, zero, g);
      }
    }
  }

  /** The address k links on from the list head. */
  function Follow(h: seq<MBlock>, k: nat): UInt32
    requires |h| == TWO32
  {
    if k == 0 then 0 else h[Follow(h, k - 1)].mnext
  }

  /** Once there, a walk stays at the block linked to itself, whose length is the
      rounded size: any search for more never ends. */
  lemma {:induction false} LoopForever(h: seq<MBlock>, f: seq<Block>, zero: MBlock, k: nat)
    requires Spells(h, Looped(f), zero) && f != []
    ensures Follow(h, k) == if k == 0 then 0 else if k <= |f| then f[k - 1].addr else f[|f| - 1].addr
    ensures h[f[|f| - 1].addr] == MBlock(f[|f| - 1].addr, f[|f| - 1].len)
    decreases k
  {
    SpelledHeader(h, Looped(f), zero, |f| - 1);
    if k > 1 {
      LoopForever(h, f, zero, k - 1);
      SpelledHeader(h, Looped(f), zero, if k <= |f| then k - 2 else |f| - 1);
    }
  }
}
