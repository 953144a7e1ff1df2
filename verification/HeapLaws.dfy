/** A sorted, fully merged free list is the one representation of its bytes;
    allocating and releasing remove and add exactly the bytes concerned. */
module HeapLaws {
  import opened Ints
  import opened HeapSpec

  // ---- canonical lists -------------------------------------------------

  lemma CanonTail(f: seq<Block>)
    requires Canon(f) && f != []
    ensures Canon(f[1..])
  {
  }

  lemma CanonCons(b: Block, f: seq<Block>)
    requires Canon(f) && b.len > 0 && b.addr > 0 && End(b) < TWO32
    requires f != [] ==> End(b) < f[0].addr
    ensures Canon([b] + f)
  {
    var g := [b] + f;
    forall i, j | 0 <= i < j < |g| ensures End(g[i]) < g[j].addr {
      if i == 0 && j > 1 {
        assert End(f[0]) < f[j - 1].addr;
      }
    }
  }

  /** Everything covered lies at or above the first block. */
  lemma {:induction false} CoversFrom(f: seq<Block>, a: int)
    requires Canon(f) && Covers(f, a)
    ensures f[0].addr <= a && (a >= End(f[0]) ==> Covers(f[1..], a) && a > End(f[0]))
  {
    if !In(f[0], a) {
      CoversFrom(f[1..], a);
    }
  }

  lemma CoversCons(b: Block, f: seq<Block>, a: int)
    ensures Covers([b] + f, a) <==> In(b, a) || Covers(f, a)
  {
    assert ([b] + f)[1..] == f;
  }

  lemma UniqueFirst(f: seq<Block>, g: seq<Block>)
    requires Canon(f) && Canon(g) && f != [] && g != []
    requires forall a :: Covers(f, a) <==> Covers(g, a)
    ensures f[0].addr >= g[0].addr && End(f[0]) >= End(g[0])
  {
    assert Covers(f, f[0].addr);
    CoversFrom(g, f[0].addr);
    if End(f[0]) < End(g[0]) {
      var a := End(f[0]);
      if a >= g[0].addr {
        assert Covers(g, a);
        CoversFrom(f, a);
      }
    }
  }

  /** What is left of two such lists behind their first block. */
  lemma UniqueRest(f: seq<Block>, g: seq<Block>)
    requires Canon(f) && Canon(g) && f != [] && g != [] && f[0] == g[0]
    requires forall a :: Covers(f, a) <==> Covers(g, a)
    ensures forall a :: Covers(f[1..], a) ==> Covers(g[1..], a)
  {
    forall a | Covers(f[1..], a) ensures Covers(g[1..], a) {
      AboveFirst(f, a);
      hide Canon;
    }
  }

  /** Two canonical lists with the same bytes are the same list. */
  lemma {:induction false} Unique(f: seq<Block>, g: seq<Block>)
    requires Canon(f) && Canon(g)
    requires forall a :: Covers(f, a) <==> Covers(g, a)
    ensures f == g
  {
    assert f != [] ==> Covers(f, f[0].addr);
    assert g != [] ==> Covers(g, g[0].addr);
    if f != [] && g != [] {
      UniqueFirst(f, g);
      UniqueFirst(g, f);
      CanonTail(f);
      CanonTail(g);
      hide Canon;
      assert f[0] == g[0];
      UniqueRest(f, g);
      UniqueRest(g, f);
      hide Covers;
      Unique(f[1..], g[1..]);
      assert f == [f[0]] + f[1..] && g == [g[0]] + g[1..];
    }
  }

  lemma AboveFirst(f: seq<Block>, a: int)
    requires Canon(f) && f != [] && Covers(f[1..], a)
    ensures Covers(f, a) && a > End(f[0])
  {
    CoversFrom(f[1..], a);
  }

  /** f and b are apart, and together they are g. */
  ghost predicate Splits(g: seq<Block>, f: seq<Block>, b: Block) {
    && (forall a :: Covers(g, a) <==> Covers(f, a) || In(b, a))
    && (forall a :: Covers(f, a) ==> !In(b, a))
  }

  /** f and b have no byte in common. */
  ghost predicate Clear(f: seq<Block>, b: Block) {
    forall a :: In(b, a) ==> !Covers(f, a)
  }

  // ---- allocation ------------------------------------------------------

  /** Taking n bytes off the bottom of the first block. */
  lemma SplitFirst(f: seq<Block>, n: UInt32)
    requires Canon(f) && f != [] && 0 < n < f[0].len
    ensures var left := Block(f[0].addr + n, f[0].len - n);
      Canon([left] + f[1..]) && Splits(f, [left] + f[1..], Block(f[0].addr, n))
  {
    var left := Block(f[0].addr + n, f[0].len - n);
    CanonTail(f);
    CanonCons(left, f[1..]);
    forall a ensures Covers([left] + f[1..], a) <==> In(left, a) || Covers(f[1..], a) {
      CoversCons(left, f[1..], a);
    }
    forall a | Covers(f[1..], a) ensures a > End(f[0]) {
      AboveFirst(f, a);
    }
  }

  lemma DropFirstBlock(f: seq<Block>)
    requires Canon(f) && f != []
    ensures Canon(f[1..]) && Splits(f, f[1..], f[0])
  {
    forall a | Covers(f[1..], a) ensures a > End(f[0]) {
      AboveFirst(f, a);
    }
  }

  /** What holds of a block in the rest of the list holds in the list. */
  lemma SplitsCons(b: Block, f: seq<Block>, f': seq<Block>, c: Block)
    requires Canon([b] + f) && Splits(f, f', c)
    ensures Splits([b] + f, [b] + f', c)
  {
    var g := [b] + f;
    assert g[1..] == f;
    forall a ensures Covers([b] + f', a) <==> In(b, a) || Covers(f', a) {
      CoversCons(b, f', a);
    }
    forall a | In(c, a) ensures !In(b, a) {
      AboveFirst(g, a);
    }
  }

  /** First fit fails only if no block is large enough; otherwise it removes
      exactly the n bytes it grants. */
  lemma {:induction false} TakeFirstSplits(f: seq<Block>, n: UInt32)
    requires Canon(f) && n > 0
    ensures var (g, f') := TakeFirst(f, n);
      match g
      case NoRoom => f' == f && forall i :: 0 <= i < |f| ==> f[i].len < n
      case Granted(p) => p > 0 && p + n < TWO32 && Canon(f') && Splits(f, f', Block(p, n))
                         && (f' != [] ==> f'[0].addr >= f[0].addr)
  {
    hide Splits;
    if f == [] {
    } else if f[0].len == n {
      DropFirstBlock(f);
    } else if f[0].len > n {
      SplitFirst(f, n);
    } else {
      TakeFirstSplits(f[1..], n);
      var (g, rest) := TakeFirst(f[1..], n);
      assert [f[0]] + f[1..] == f;
      if g.Granted? {
        CanonCons(f[0], rest);
        SplitsCons(f[0], f[1..], rest, Block(g.addr, n));
      }
    }
  }

  /** Every byte of the list is in one of its blocks. */
  lemma {:induction false} CoversAt(f: seq<Block>, i: nat, a: int)
    requires i < |f| && In(f[i], a)
    ensures Covers(f, a)
  {
    if i > 0 {
      CoversAt(f[1..], i - 1, a);
    }
  }

  lemma {:induction false} CoversSplit(f: seq<Block>, i: nat, a: int)
    requires i <= |f|
    ensures Covers(f, a) <==> Covers(f[..i], a) || Covers(f[i..], a)
    decreases i
  {
    if i > 0 {
      CoversSplit(f[1..], i - 1, a);
      assert f[..i][1..] == f[1..][..i - 1] && f[i..] == f[1..][i - 1..];
    } else {
      assert f[0..] == f;
    }
  }

  lemma CutTopCanon(f: seq<Block>, i: nat, n: UInt32)
    requires Canon(f) && i < |f| && 0 < n <= f[i].len
    ensures Canon(CutTop(f, i, n))
  {
    var f' := CutTop(f, i, n);
    if n == f[i].len {
      forall j, k | 0 <= j < k < |f'| ensures End(f'[j]) < f'[k].addr {
        assert End(f[if j < i then j else j + 1]) < f[if k < i then k else k + 1].addr;
      }
    }
  }

  lemma CutTopSplits(f: seq<Block>, i: nat, n: UInt32)
    requires Canon(f) && i < |f| && 0 < n <= f[i].len
    ensures Splits(f, CutTop(f, i, n), Block(End(f[i]) - n, n))
  {
    var f' := CutTop(f, i, n);
    var b := Block(End(f[i]) - n, n);
    var l, r := f[..i], f[i + 1..];
    forall a
      ensures Covers(f, a) <==> Covers(l, a) || In(f[i], a) || Covers(r, a)
      ensures Covers(f', a) <==> Covers(l, a) || (In(f[i], a) && !In(b, a)) || Covers(r, a)
    {
      CoversSplit(f, i, a);
      assert f[i..][1..] == r && f[i..][0] == f[i];
      CoversSplit(f', i, a);
      assert f'[..i] == l;
      if n == f[i].len {
        assert f'[i..] == r;
      } else {
        assert f'[i..][1..] == r && f'[i..][0] == f[i].(len := f[i].len - n);
      }
    }
    forall a | In(b, a) ensures !Covers(l, a) && !Covers(r, a) {
      Outside(f, i, a);
    }
  }

  /** A byte of block i is in no block before or behind it. */
  lemma Outside(f: seq<Block>, i: nat, a: int)
    requires Canon(f) && i < |f| && In(f[i], a)
    ensures !Covers(f[..i], a) && !Covers(f[i + 1..], a)
  {
    if Covers(f[..i], a) {
      var j := CoveredBy(f[..i], a);
    }
    if Covers(f[i + 1..], a) {
      var j := CoveredBy(f[i + 1..], a);
    }
  }

  lemma {:induction false} CoveredBy(f: seq<Block>, a: int) returns (i: nat)
    requires Covers(f, a)
    ensures i < |f| && In(f[i], a)
  {
    if In(f[0], a) {
      i := 0;
    } else {
      i := CoveredBy(f[1..], a);
      i := i + 1;
    }
  }

  // ---- release ---------------------------------------------------------

  /** Releasing a block that is clear of the list adds exactly its bytes. */
  lemma {:induction false} ReleaseSplits(f: seq<Block>, b: Block)
    requires Canon(f) && b.len > 0 && b.addr > 0 && End(b) < TWO32 && Clear(f, b)
    ensures Canon(Release(f, b)) && Splits(Release(f, b), f, b)
    ensures Release(f, b) != []
    ensures Release(f, b)[0].addr == if f != [] && f[0].addr < b.addr then f[0].addr else b.addr
  {
    if f == [] {
      CoversAll([b]);
    } else if f[0].addr < b.addr && End(f[0]) == b.addr {
      ReleaseBehind(f, b);
    } else if f[0].addr < b.addr {
      FirstBelow(f, b);
      forall a | In(b, a) ensures !Covers(f[1..], a) {
        assert !Covers(f, a);
      }
      ReleaseSplits(f[1..], b);
      CanonCons(f[0], Release(f[1..], b));
      forall a ensures Covers(Release(f, b), a) <==> In(f[0], a) || Covers(Release(f[1..], b), a) {
        CoversCons(f[0], Release(f[1..], b), a);
      }
    } else {
      ReleaseFront(f, b);
    }
  }

  lemma CoversAll(f: seq<Block>)
    requires |f| == 1
    ensures forall a :: Covers(f, a) <==> In(f[0], a)
  {
  }

  /** A block above the first one's start and clear of it starts past its end. */
  lemma FirstBelow(f: seq<Block>, b: Block)
    requires Canon(f) && f != [] && b.len > 0 && Clear(f, b) && f[0].addr < b.addr
    ensures End(f[0]) <= b.addr
  {
    assert In(b, b.addr);
    assert !Covers(f, b.addr);
  }

  /** A block below the first one's start and clear of it ends before it. */
  lemma FirstAbove(f: seq<Block>, b: Block)
    requires Canon(f) && f != [] && b.len > 0 && Clear(f, b) && f[0].addr >= b.addr
    ensures End(b) <= f[0].addr
  {
    assert Covers(f, f[0].addr);
    assert !In(b, f[0].addr);
  }

  lemma ReleaseFront(f: seq<Block>, b: Block)
    requires Canon(f) && f != [] && b.len > 0 && b.addr > 0 && Clear(f, b) && f[0].addr >= b.addr
    requires End(b) < TWO32
    ensures Canon(Release(f, b)) && Splits(Release(f, b), f, b)
    ensures Release(f, b)[0].addr == b.addr
  {
    FirstAbove(f, b);
    var r := Release(f, b);
    if End(b) == f[0].addr {
      CanonCons(r[0], f[1..]);
      forall a ensures Covers(r, a) <==> In(r[0], a) || Covers(f[1..], a) {
        CoversCons(r[0], f[1..], a);
      }
    } else {
      CanonCons(b, f);
      forall a ensures Covers(r, a) <==> In(b, a) || Covers(f, a) {
        CoversCons(b, f, a);
      }
    }
  }

  lemma ReleaseBehind(f: seq<Block>, b: Block)
    requires Canon(f) && f != [] && b.len > 0 && Clear(f, b)
    requires f[0].addr < b.addr && End(f[0]) == b.addr && End(b) < TWO32
    ensures Canon(Release(f, b)) && Splits(Release(f, b), f, b)
    ensures Release(f, b)[0].addr == f[0].addr
  {
    var r := Release(f, b);
    if |f| > 1 {
      assert Covers(f[1..], f[1].addr) && Covers(f, f[1].addr);
      assert End(f[0]) < f[1].addr && !In(b, f[1].addr);
    }
    if |f| > 1 && End(b) == f[1].addr {
      assert f[1..][1..] == f[2..];
      CanonCons(r[0], f[2..]);
      forall a ensures Covers(r, a) <==> In(r[0], a) || Covers(f[2..], a) {
        CoversCons(r[0], f[2..], a);
      }
    } else {
      CanonCons(r[0], f[1..]);
      forall a ensures Covers(r, a) <==> In(r[0], a) || Covers(f[1..], a) {
        CoversCons(r[0], f[1..], a);
      }
    }
  }
}
