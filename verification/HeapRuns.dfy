/** Runs of the allocator with clients that give back only what they hold. */
module HeapRuns {
  import opened Ints
  import opened HeapSpec
  import opened HeapLaws
  import opened HeapTheorems

  /** A block a client holds, and the size it asked for. */
  datatype Live = Live(block: Block, size: UInt32, stack: bool)

  datatype State = State(free: seq<Block>, live: seq<Live>)

  datatype Op =
    | Get(n: UInt32)
    | GetStack(n: UInt32)
    | Give(i: nat)

  /** Requests that can be rounded up; stack sizes that are whole header units. */
  predicate Legal(s: State, op: Op) {
    match op
    case Get(n) => n <= TWO32 - 8
    case GetStack(n) => n <= TWO32 - 8 && RoundMb(n) == RoundEw(n)
    case Give(i) => i < |s.live|
  }

  /** What is given back is a block freemem deals with as a block. */
  ghost predicate CanGive(s: State, op: Op)
    requires Legal(s, op)
  {
    op.Give? ==> Plain(s.live[op.i].block.addr, s.live[op.i].size)
  }

  ghost predicate FreeOK(f: seq<Block>) {
    forall i :: 0 <= i < |f| ==> End(f[i]) < TWO32
  }

  ghost function Step(s: State, op: Op, low: UInt32, high: UInt32): State
    requires FreeOK(s.free) && Legal(s, op)
    requires CanGive(s, op)
  {
    match op
    case Get(n) =>
      var (g, f) := GetMem(s.free, n);
      if g.NoRoom? then s
      else State(f, s.live + [Live(Block(WrapU32(g.addr), RoundMb(n)), n, false)])
    case GetStack(n) =>
      var (g, f) := GetStk(s.free, n);
      if g.NoRoom? then s
      else State(f, s.live + [Live(Block(WrapU32(StkBlock(g.addr, n)), RoundMb(n)), n, true)])
    case Give(i) =>
      var b := s.live[i];
      State(FreeMem(s.free, low, high, b.block.addr, b.size).0, s.live[..i] + s.live[i + 1..])
  }

  // ---- what every run keeps --------------------------------------------

  ghost function FreeBytes(f: seq<Block>): int {
    if f == [] then 0 else f[0].len + FreeBytes(f[1..])
  }

  ghost function LiveBytes(live: seq<Live>): int {
    if live == [] then 0 else live[0].block.len + LiveBytes(live[1..])
  }

  /** Whole header units, so that any split leaves room for a header. */
  ghost predicate Aligned(f: seq<Block>) {
    forall i :: 0 <= i < |f| ==> Whole(f[i])
  }

  ghost predicate Whole(b: Block) { b.addr % 8 == 0 && b.len % 8 == 0 }

  ghost predicate LiveOK(b: Live, low: UInt32, high: UInt32) {
    && b.block.len > 0 && low <= b.block.addr && End(b.block) <= high + 1 && End(b.block) < TWO32
    && 0 < b.size <= TWO32 - 8 && RoundMb(b.size) == b.block.len
  }

  ghost predicate Disjoint(b: Block, c: Block) {
    forall a :: In(b, a) ==> !In(c, a)
  }

  ghost predicate Inv(s: State, low: UInt32, high: UInt32) {
    && Canon(s.free) && Within(s.free, low, high) && 8 <= low
    && (forall i :: 0 <= i < |s.live| ==> LiveOK(s.live[i], low, high) && Clear(s.free, s.live[i].block))
    && (forall i, j :: 0 <= i < j < |s.live| ==> Disjoint(s.live[i].block, s.live[j].block))
  }

  /** Everything free or held is whole header units. */
  ghost predicate Tidy(s: State) {
    Aligned(s.free) && forall i :: 0 <= i < |s.live| ==> Whole(s.live[i].block)
  }

  // ---- bytes and alignment of each operation ---------------------------

  lemma {:induction false} TakeFirstBytes(f: seq<Block>, n: UInt32)
    requires Canon(f) && 0 < n && TakeFirst(f, n).0.Granted?
    ensures FreeBytes(TakeFirst(f, n).1) == FreeBytes(f) - n
  {
    hide Canon;
    var f' := TakeFirst(f, n).1;
    CanonTail(f);
    if f[0].len > n {
      assert f'[1..] == f[1..];
    } else if f[0].len < n {
      TakeFirstBytes(f[1..], n);
      assert f'[1..] == TakeFirst(f[1..], n).1;
    }
  }

  lemma WholeCut(b: Block, n: UInt32)
    requires Whole(b) && n % 8 == 0 && n < b.len && End(b) < TWO32
    ensures WrapU32(b.addr + n) == b.addr + n && Whole(Block(b.addr + n, b.len - n))
  {
  }

  lemma WholeJoin(b: Block, c: Block)
    requires Whole(b) && Whole(c) && b.len + c.len < TWO32
    ensures Whole(Block(b.addr, b.len + c.len))
  {
  }

  lemma {:induction false} TakeFirstAligned(f: seq<Block>, n: UInt32)
    requires Canon(f) && Aligned(f) && n % 8 == 0 && TakeFirst(f, n).0.Granted?
    ensures Aligned(TakeFirst(f, n).1)
    ensures Whole(Block(WrapU32(TakeFirst(f, n).0.addr), n))
  {
    hide WrapU32;
    assert Whole(f[0]);
    if f[0].len > n {
      hide Whole;
      WholeCut(f[0], n);
      TakenHere(f[0], n);
    } else if f[0].len < n {
      hide Whole;
      TakeFirstAligned(f[1..], n);
    }
  }

  lemma TakenHere(b: Block, n: UInt32)
    requires Whole(b) && n % 8 == 0
    ensures Whole(Block(WrapU32(b.addr), n))
  {
  }

  lemma {:induction false} FreeBytesSplit(f: seq<Block>, i: nat)
    requires i <= |f|
    ensures FreeBytes(f) == FreeBytes(f[..i]) + FreeBytes(f[i..])
    decreases i
  {
    if i > 0 {
      FreeBytesSplit(f[1..], i - 1);
      assert f[..i][1..] == f[1..][..i - 1] && f[i..] == f[1..][i - 1..];
    } else {
      assert f[0..] == f;
    }
  }

  lemma CutTopBytes(f: seq<Block>, i: nat, n: UInt32)
    requires i < |f| && 0 < n <= f[i].len
    ensures FreeBytes(CutTop(f, i, n)) == FreeBytes(f) - n
  {
    var f' := CutTop(f, i, n);
    FreeBytesSplit(f, i);
    FreeBytesSplit(f', i);
    assert f'[..i] == f[..i];
    if n == f[i].len {
      assert f'[i..] == f[i..][1..];
    } else {
      assert f'[i..][1..] == f[i..][1..];
    }
  }

  lemma CutTopAligned(f: seq<Block>, i: nat, n: UInt32)
    requires i < |f| && 0 < n <= f[i].len && Aligned(f) && n % 8 == 0
    requires End(f[i]) < TWO32
    ensures Aligned(CutTop(f, i, n)) && Whole(Block(End(f[i]) - n, n))
  {
    assert Whole(f[i]);
  }

  lemma {:induction false} ReleaseBytes(f: seq<Block>, b: Block)
    requires FreeOK(f) && b.len > 0 && End(b) < TWO32
    ensures FreeBytes(Release(f, b)) == FreeBytes(f) + b.len
  {
    var r := Release(f, b);
    if f != [] && f[0].addr < b.addr && End(f[0]) == b.addr {
      if |f| > 1 && End(b) == f[1].addr {
        assert r[1..] == f[2..] && f[1..][1..] == f[2..];
      } else {
        assert r[1..] == f[1..];
      }
    } else if f != [] && f[0].addr < b.addr {
      ReleaseBytes(f[1..], b);
      assert r[1..] == Release(f[1..], b);
    } else if f != [] && End(b) == f[0].addr {
      assert r[1..] == f[1..];
    } else {
      assert r[1..] == f;
    }
  }

  lemma {:induction false} ReleaseAligned(f: seq<Block>, b: Block)
    requires FreeOK(f) && End(b) < TWO32 && Aligned(f) && Whole(b)
    ensures Aligned(Release(f, b))
  {
    hide Whole;
    if f != [] {
      assert Whole(f[0]) && (|f| > 1 ==> Whole(f[1]));
      if f[0].addr < b.addr && End(f[0]) == b.addr {
        WholeJoin(f[0], b);
        if |f| > 1 && End(b) == f[1].addr {
          WholeJoin(Block(f[0].addr, f[0].len + b.len), f[1]);
        }
      } else if f[0].addr < b.addr {
        ReleaseAligned(f[1..], b);
      } else if End(b) == f[0].addr {
        WholeJoin(b, f[0]);
      }
    }
  }

  lemma {:induction false} LiveBytesSplit(s: seq<Live>, i: nat)
    requires i <= |s|
    ensures LiveBytes(s) == LiveBytes(s[..i]) + LiveBytes(s[i..])
    decreases i
  {
    if i > 0 {
      LiveBytesSplit(s[1..], i - 1);
      assert s[..i][1..] == s[1..][..i - 1] && s[i..] == s[1..][i - 1..];
    } else {
      assert s[0..] == s;
    }
  }

  // ---- one step --------------------------------------------------------

  lemma SubWithin(g: seq<Block>, f: seq<Block>, low: UInt32, high: UInt32)
    requires Canon(f) && Within(g, low, high) && forall a :: Covers(f, a) ==> Covers(g, a)
    ensures Within(f, low, high)
  {
    forall i | 0 <= i < |f| ensures low <= f[i].addr && End(f[i]) <= high + 1 {
      CoversAt(f, i, f[i].addr);
      CoversAt(f, i, End(f[i]) - 1);
      WithinCovers(g, low, high, f[i].addr);
      WithinCovers(g, low, high, End(f[i]) - 1);
    }
  }

  /** What is granted lies where the list did. */
  lemma GrantWithin(g: seq<Block>, f: seq<Block>, b: Block, low: UInt32, high: UInt32)
    requires Within(g, low, high) && Splits(g, f, b) && b.len > 0
    ensures low <= b.addr && End(b) <= high + 1
  {
    assert In(b, b.addr) && In(b, End(b) - 1);
    assert Covers(g, b.addr) && Covers(g, End(b) - 1);
    WithinCovers(g, low, high, b.addr);
    WithinCovers(g, low, high, End(b) - 1);
  }

  ghost function Total(s: State): int { FreeBytes(s.free) + LiveBytes(s.live) }

  /** A block moves from the free list to a client. */
  lemma Grants(s: State, f: seq<Block>, b: Live, low: UInt32, high: UInt32)
    requires Inv(s, low, high) && Canon(f) && Splits(s.free, f, b.block) && LiveOK(b, low, high)
    requires FreeBytes(f) == FreeBytes(s.free) - b.block.len
    ensures var r := State(f, s.live + [b]); Inv(r, low, high) && Total(r) == Total(s)
  {
    hide Canon;
    hide LiveOK;
    SubWithin(s.free, f, low, high);
    var live := s.live + [b];
    LiveBytesSplit(live, |s.live|);
    assert live[..|s.live|] == s.live && live[|s.live|..] == [b];
    assert LiveBytes([b]) == b.block.len;
  }

  lemma RangeOf(s: State, low: UInt32, high: UInt32)
    requires Inv(s, low, high)
    ensures Canon(s.free) && Within(s.free, low, high) && 8 <= low
    ensures forall i :: 0 <= i < |s.live| ==> LiveOK(s.live[i], low, high)
  {
  }

  lemma GetKeeps(s: State, n: UInt32, low: UInt32, high: UInt32)
    requires Inv(s, low, high) && n <= TWO32 - 8
    ensures var r := Step(s, Get(n), low, high); Inv(r, low, high) && Total(r) == Total(s)
  {
    hide Inv;
    RangeOf(s, low, high);
    RoundMbUp(n);
    var (g, f) := GetMem(s.free, n);
    if g.Granted? {
      GetMemFreeMem(s.free, low, high, n);
      TakeFirstBytes(s.free, RoundMb(n));
      var b := Block(g.addr, RoundMb(n));
      assert WrapU32(g.addr) == g.addr;
      GrantWithin(s.free, f, b, low, high);
      Grants(s, f, Live(b, n, false), low, high);
    }
  }

  lemma StkBytes(f: seq<Block>, n: UInt32)
    requires Canon(f) && 0 < n <= TWO32 - 8 && GetStk(f, n).0.Granted?
    ensures FreeBytes(GetStk(f, n).1) == FreeBytes(f) - RoundEw(n)
  {
    RoundEwUp(n);
    CutTopBytes(f, LastFit(f, RoundEw(n)), RoundEw(n));
  }

  lemma StkAligned(f: seq<Block>, n: UInt32)
    requires Canon(f) && Aligned(f) && 0 < n <= TWO32 - 8 && RoundMb(n) == RoundEw(n)
    requires GetStk(f, n).0.Granted?
    ensures Aligned(GetStk(f, n).1) && Whole(StkTaken(f, n))
  {
    RoundMbUp(n);
    CutTopAligned(f, LastFit(f, RoundEw(n)), RoundEw(n));
  }

  lemma GetStackKeeps(s: State, n: UInt32, low: UInt32, high: UInt32)
    requires Inv(s, low, high) && n <= TWO32 - 8 && RoundMb(n) == RoundEw(n)
    ensures var r := Step(s, GetStack(n), low, high); Inv(r, low, high) && Total(r) == Total(s)
  {
    hide Inv;
    hide Canon;
    hide RoundEw;
    hide RoundMb;
    RangeOf(s, low, high);
    RoundMbUp(n);
    var (g, f) := GetStk(s.free, n);
    if g.Granted? {
      GetStkSplits(s.free, n);
      StkTakenWithin(s.free, low, high, n);
      StkBytes(s.free, n);
      Grants(s, f, Live(StkTaken(s.free, n), n, true), low, high);
    }
  }

  /** Giving back a held block always succeeds. */
  lemma GiveSucceeds(s: State, i: nat, low: UInt32, high: UInt32)
    requires Inv(s, low, high) && i < |s.live|
    ensures var b := s.live[i];
      FreeMem(s.free, low, high, b.block.addr, b.size) == (Release(s.free, b.block), true)
  {
    AcceptsExact(s.free, s.live[i].block.addr, s.live[i].block.len);
  }

  /** The remaining clients keep clear of each other and of the list. */
  lemma GiveLive(s: State, i: nat, f: seq<Block>, low: UInt32, high: UInt32)
    requires Inv(s, low, high) && i < |s.live| && Splits(f, s.free, s.live[i].block)
    requires Canon(f) && Within(f, low, high)
    ensures Inv(State(f, s.live[..i] + s.live[i + 1..]), low, high)
  {
    hide Canon;
    hide Within;
    hide LiveOK;
    var live := s.live[..i] + s.live[i + 1..];
    assert forall j :: 0 <= j < |live| ==> live[j] == s.live[if j < i then j else j + 1];
    forall j | 0 <= j < |live| ensures LiveOK(live[j], low, high) && Clear(f, live[j].block) {
      var k := if j < i then j else j + 1;
      assert Clear(s.free, s.live[k].block);
      assert Disjoint(s.live[if k < i then k else i].block, s.live[if k < i then i else k].block);
    }
  }

  lemma GiveKeeps(s: State, i: nat, low: UInt32, high: UInt32)
    requires Inv(s, low, high) && i < |s.live|
    ensures var r := Step(s, Give(i), low, high); Inv(r, low, high) && Total(r) == Total(s)
  {
    hide Inv;
    RangeOf(s, low, high);
    var b := s.live[i].block;
    var f := Release(s.free, b);
    GiveSucceeds(s, i, low, high);
    GiveClear(s, i, low, high);
    ReleaseSplits(s.free, b);
    ReleaseBytes(s.free, b);
    ReleasedWithin(s.free, b, low, high);
    GiveLive(s, i, f, low, high);
    GiveBytes(s.live, i);
  }

  lemma GiveClear(s: State, i: nat, low: UInt32, high: UInt32)
    requires Inv(s, low, high) && i < |s.live|
    ensures Clear(s.free, s.live[i].block)
  {
  }

  lemma GiveBytes(live: seq<Live>, i: nat)
    requires i < |live|
    ensures LiveBytes(live[..i] + live[i + 1..]) == LiveBytes(live) - live[i].block.len
  {
    var r := live[..i] + live[i + 1..];
    LiveBytesSplit(live, i);
    LiveBytesSplit(r, i);
    assert r[..i] == live[..i] && r[i..] == live[i..][1..];
  }

  lemma ReleasedWithin(f: seq<Block>, b: Block, low: UInt32, high: UInt32)
    requires Canon(f) && Within(f, low, high) && low <= b.addr && End(b) <= high + 1
    requires b.len > 0 && b.addr > 0 && End(b) < TWO32 && Clear(f, b)
    ensures Within(Release(f, b), low, high)
  {
    ReleaseSplits(f, b);
    var r := Release(f, b);
    forall a | Covers(r, a) ensures low <= a <= high {
      if Covers(f, a) {
        WithinCovers(f, low, high, a);
      }
    }
    forall j | 0 <= j < |r| ensures low <= r[j].addr && End(r[j]) <= high + 1 {
      CoversAt(r, j, r[j].addr);
      CoversAt(r, j, End(r[j]) - 1);
    }
  }

  lemma StepKeeps(s: State, op: Op, low: UInt32, high: UInt32)
    requires Inv(s, low, high) && Legal(s, op)
    ensures FreeOK(s.free)
    ensures CanGive(s, op)
    ensures var r := Step(s, op, low, high); Inv(r, low, high) && Total(r) == Total(s)
  {
    match op
    case Get(n) => GetKeeps(s, n, low, high);
    case GetStack(n) => GetStackKeeps(s, n, low, high);
    case Give(i) => GiveKeeps(s, i, low, high);
  }

  // ---- header units ------------------------------------------------------

  lemma GetTidy(s: State, n: UInt32, low: UInt32, high: UInt32)
    requires Inv(s, low, high) && Tidy(s) && n <= TWO32 - 8
    ensures Tidy(Step(s, Get(n), low, high))
  {
    hide Inv, Whole, Aligned;
    RangeOf(s, low, high);
    RoundMbUp(n);
    if GetMem(s.free, n).0.Granted? {
      TakeFirstAligned(s.free, RoundMb(n));
    }
  }

  lemma GetStackTidy(s: State, n: UInt32, low: UInt32, high: UInt32)
    requires Inv(s, low, high) && Tidy(s) && n <= TWO32 - 8 && RoundMb(n) == RoundEw(n)
    ensures Tidy(Step(s, GetStack(n), low, high))
  {
    hide Inv, Whole, Aligned, Canon, RoundEw, RoundMb;
    RangeOf(s, low, high);
    RoundMbUp(n);
    if GetStk(s.free, n).0.Granted? {
      StkTakenWithin(s.free, low, high, n);
      StkAligned(s.free, n);
    }
  }

  lemma GiveTidy(s: State, i: nat, low: UInt32, high: UInt32)
    requires Inv(s, low, high) && Tidy(s) && i < |s.live|
    ensures CanGive(s, Give(i)) && FreeOK(s.free)
    ensures Tidy(Step(s, Give(i), low, high))
  {
    hide Whole, Aligned;
    GiveSucceeds(s, i, low, high);
    ReleaseAligned(s.free, s.live[i].block);
  }

  lemma StepTidy(s: State, op: Op, low: UInt32, high: UInt32)
    requires Inv(s, low, high) && Tidy(s) && Legal(s, op)
    ensures FreeOK(s.free)
    ensures CanGive(s, op)
    ensures Tidy(Step(s, op, low, high))
  {
    match op
    case Get(n) => GetTidy(s, n, low, high);
    case GetStack(n) => GetStackTidy(s, n, low, high);
    case Give(i) => GiveTidy(s, i, low, high);
  }

  // ---- over every run --------------------------------------------------

  /** The states a run goes through. */
  ghost predicate Run(states: seq<State>, ops: seq<Op>, low: UInt32, high: UInt32) {
    && |states| == |ops| + 1
    && forall i :: 0 <= i < |ops| ==> Next(states[i], ops[i], states[i + 1], low, high)
  }

  ghost predicate Next(s: State, op: Op, r: State, low: UInt32, high: UInt32) {
    && Legal(s, op) && FreeOK(s.free)
    && CanGive(s, op)
    && r == Step(s, op, low, high)
  }

  /** On the list as a value, wherever its headers are. */
  lemma {:induction false} ListKeeps(states: seq<State>, ops: seq<Op>, low: UInt32, high: UInt32, k: nat)
    requires Run(states, ops, low, high) && Inv(states[0], low, high) && k < |states|
    ensures Inv(states[k], low, high) && Total(states[k]) == Total(states[0])
    decreases k
  {
    if k > 0 {
      ListKeeps(states, ops, low, high, k - 1);
      assert Next(states[k - 1], ops[k - 1], states[k], low, high);
      StepKeeps(states[k - 1], ops[k - 1], low, high);
    }
  }

  /** The 8 bytes of a free block's header are in no client's hands. */
  ghost predicate HeadersApart(s: State) {
    forall i, j, a :: 0 <= i < |s.free| && 0 <= j < |s.live| && In(Header(s.free[i]), a) ==> !In(s.live[j].block, a)
  }

  function Header(b: Block): Block { Block(b.addr, 8) }

  lemma FitsApart(s: State, low: UInt32, high: UInt32)
    requires Inv(s, low, high) && HeadersFit(s.free)
    ensures HeadersApart(s)
  {
    forall i, j, a | 0 <= i < |s.free| && 0 <= j < |s.live| && In(Header(s.free[i]), a)
      ensures !In(s.live[j].block, a)
    {
      CoversAt(s.free, i, a);
      assert Clear(s.free, s.live[j].block);
    }
  }

  /** Whatever is asked for and given back, in whatever order, as long as every
      free block has had room for its header: no byte is both free and held,
      none is held twice, none is lost or gained, and no header lies in what a
      client holds. */
  lemma RunKeeps(states: seq<State>, ops: seq<Op>, low: UInt32, high: UInt32, k: nat)
    requires Run(states, ops, low, high) && Inv(states[0], low, high) && k < |states|
    requires forall j :: 0 <= j <= k ==> HeadersFit(states[j].free)
    ensures Inv(states[k], low, high) && Total(states[k]) == Total(states[0]) && HeadersApart(states[k])
  {
    ListKeeps(states, ops, low, high, k);
    FitsApart(states[k], low, high);
  }

  /** From a list of whole header units every free block always keeps room for
      its header. */
  lemma {:induction false} RunHeaders(states: seq<State>, ops: seq<Op>, low: UInt32, high: UInt32, k: nat)
    requires Run(states, ops, low, high) && Inv(states[0], low, high) && Tidy(states[0]) && k < |states|
    ensures Tidy(states[k]) && HeadersFit(states[k].free) && HeadersApart(states[k])
    decreases k
  {
    hide Inv, Tidy, HeadersFit, HeadersApart, Step, Legal;
    if k > 0 {
      RunHeaders(states, ops, low, high, k - 1);
      ListKeeps(states, ops, low, high, k - 1);
      assert Next(states[k - 1], ops[k - 1], states[k], low, high);
      StepTidy(states[k - 1], ops[k - 1], low, high);
    }
    ListKeeps(states, ops, low, high, k);
    TidyFits(states[k], low, high);
    FitsApart(states[k], low, high);
  }

  lemma TidyFits(s: State, low: UInt32, high: UInt32)
    requires Inv(s, low, high) && Tidy(s)
    ensures HeadersFit(s.free)
  {
    forall i | 0 <= i < |s.free| ensures s.free[i].len >= 8 {
      assert Whole(s.free[i]);
    }
  }

  // ---- the two heaps the system starts with ---------------------------------

  /** vcreate's block: hsize pages from the first address after the kernel's. */
  lemma PrivateStarts(pages: int, end: UInt32)
    requires 1 <= pages <= 256 && 8 <= end <= 4096 * 4096
    ensures var s := State([Block(4096 * 4096, 4096 * pages)], []);
      Inv(s, end, TWO32 - 1) && Tidy(s)
  {
  }

  lemma BootStarts(end: UInt32, maxaddr: UInt32)
    requires Bootable(end, maxaddr)
    ensures Inv(State(BootList(end, maxaddr), []), end, maxaddr)
    ensures Tidy(State(BootList(end, maxaddr), [])) <==> 1 <= end % 8 <= 4 && maxaddr % 8 < 4
  {
    BootCanon(end, maxaddr);
    BootWhole(end, maxaddr);
    RoundMbUp(end);
    var f := BootList(end, maxaddr);
    assert HOLEEND % 8 == 0 && f[0].addr % 8 == 0;
    assert Tidy(State(f, [])) <==> Whole(f[0]) && Whole(f[1]);
  }

  /** Every run from this list keeps room for every header. */
  ghost predicate KeepsHeaders(f: seq<Block>, low: UInt32, high: UInt32) {
    forall states: seq<State>, ops: seq<Op>, k: nat ::
      Run(states, ops, low, high) && states[0] == State(f, []) && k < |states| ==> HeadersFit(states[k].free)
  }

  lemma OneOpRun(f: seq<Block>, op: Op, low: UInt32, high: UInt32)
    requires FreeOK(f) && Legal(State(f, []), op) && !op.Give? && KeepsHeaders(f, low, high)
    ensures HeadersFit(Step(State(f, []), op, low, high).free)
  {
    var s := State(f, []);
    var r := Step(s, op, low, high);
    hide HeadersFit, Step, Legal;
    assert Next(s, op, r, low, high);
    assert Run([s, r], [op], low, high);
    assert [s, r][1] == r;
  }

  /** The heap sysinit sets up keeps its headers over every run if and only if
      the kernel ends 1 to 4 above a multiple of 8 and the last address is 0 to
      3 above one. */
  lemma BootHeadersExactly(end: UInt32, maxaddr: UInt32)
    requires Bootable(end, maxaddr)
    ensures KeepsHeaders(BootList(end, maxaddr), end, maxaddr) <==> 1 <= end % 8 <= 4 && maxaddr % 8 < 4
  {
    var f := BootList(end, maxaddr);
    BootStarts(end, maxaddr);
    if Tidy(State(f, [])) {
      hide Inv, Tidy, BootList, HeadersFit;
      forall states: seq<State>, ops: seq<Op>, k: nat
        | Run(states, ops, end, maxaddr) && states[0] == State(f, []) && k < |states|
        ensures HeadersFit(states[k].free)
      {
        RunHeaders(states, ops, end, maxaddr, k);
      }
    } else {
      BootLeaves(end, maxaddr);
      if KeepsHeaders(f, end, maxaddr) {
        var op := BootRequest(end, maxaddr);
        OneOpRun(f, op, end, maxaddr);
        assert false;
      }
    }
  }

  /** A request that leaves 4 bytes: of the lower block by getmem, of the upper
      one by getstk. */
  function BootRequest(end: UInt32, maxaddr: UInt32): Op
    requires Bootable(end, maxaddr)
  {
    var f := BootList(end, maxaddr);
    if f[0].len % 8 != 0 then Get(f[0].len - 4) else GetStack(f[1].len - 4)
  }

  lemma BootLeaves(end: UInt32, maxaddr: UInt32)
    requires Bootable(end, maxaddr) && !(1 <= end % 8 <= 4 && maxaddr % 8 < 4)
    ensures var f := BootList(end, maxaddr); var op := BootRequest(end, maxaddr);
      && FreeOK(f) && Legal(State(f, []), op) && !op.Give?
      && !HeadersFit(Step(State(f, []), op, end, maxaddr).free)
  {
    BootCanon(end, maxaddr);
    BootWhole(end, maxaddr);
    BootSizes(end, maxaddr);
    var f := BootList(end, maxaddr);
    hide BootList, Canon;
    if f[0].len % 8 != 0 {
      LowerLeaves(f);
    } else {
      UpperLeaves(f);
    }
  }

  lemma LowerLeaves(f: seq<Block>)
    requires |f| == 2 && f[0].len >= 12 && (f[0].len - 4) % 8 == 0 && f[0].len <= TWO32 - 8
    ensures var n := f[0].len - 4;
      n > 0 && GetMem(f, n).0.Granted? && GetMem(f, n).1[0].len == 4
  {
    RoundWhole(f[0].len - 4);
  }

  lemma UpperLeaves(f: seq<Block>)
    requires |f| == 2 && f[1].len >= 12 && (f[1].len - 4) % 8 == 0 && f[1].len <= TWO32 - 8
    ensures var n := f[1].len - 4;
      n > 0 && RoundMb(n) == RoundEw(n) && GetStk(f, n).0.Granted? && GetStk(f, n).1[1].len == 4
  {
    var n := f[1].len - 4;
    RoundWhole(n);
    MultipleOf4(n);
    RoundEwWhole(n);
    assert LastFit(f, n) == 1;
  }

  lemma TruncFours(n: UInt32)
    ensures TruncEw(n) % 4 == 0 && n - 4 < TruncEw(n) <= n
  {
  }

  lemma FoursOrEights(a: int)
    requires a % 4 == 0 && a % 8 != 0 && a >= 8
    ensures (a - 4) % 8 == 0 && a >= 12
  {
  }

  lemma BootSizes(end: UInt32, maxaddr: UInt32)
    requires Bootable(end, maxaddr)
    ensures var f := BootList(end, maxaddr);
      forall i :: 0 <= i < 2 ==>
        && 8 <= f[i].len <= TWO32 - 8 && f[i].len % 4 == 0
        && (f[i].len % 8 != 0 ==> f[i].len >= 12 && (f[i].len - 4) % 8 == 0)
  {
    hide RoundMb, TruncEw;
    TruncFours(HOLESTART - end);
    TruncFours(maxaddr - HOLEEND - NULLSTK);
    var f := BootList(end, maxaddr);
    assert f[0].len % 4 == 0;
    forall i | 0 <= i < 2 && f[i].len % 8 != 0 ensures f[i].len >= 12 && (f[i].len - 4) % 8 == 0 {
      FoursOrEights(f[i].len);
    }
  }

  lemma RoundEwWhole(n: UInt32)
    requires n % 4 == 0 && n <= TWO32 - 8
    ensures RoundEw(n) == n
  {
  }

  lemma OffTop(b: Block, n: UInt32)
    requires 0 < n < b.len && n % 8 == 0 && End(b) < TWO32
    ensures GetStk([b], n) == (Granted(End(b) - 4), [b.(len := b.len - n)])
  {
    MultipleOf4(n);
    RoundEwWhole(n);
    hide RoundEw;
    assert LastFit([b], n) == 0;
    hide LastFit;
    assert CutTop([b], 0, n) == [b.(len := b.len - n)];
  }

  lemma StackStep(s: State, n: UInt32, p: int, f: seq<Block>, low: UInt32, high: UInt32)
    requires FreeOK(s.free) && Legal(s, GetStack(n)) && GetStk(s.free, n) == (Granted(p), f)
    requires 0 <= StkBlock(p, n) < TWO32
    ensures Next(s, GetStack(n), State(f, s.live + [Live(Block(StkBlock(p, n), RoundMb(n)), n, true)]), low, high)
  {
    hide GetStk, StkBlock, RoundMb, FreeOK, Legal, WrapU32;
  }

  lemma StackFits(s: State, n: UInt32)
    requires |s.free| == 1 && 0 < n < s.free[0].len && n % 8 == 0 && End(s.free[0]) < TWO32
    ensures FreeOK(s.free) && Legal(s, GetStack(n)) && RoundMb(n) == n
    ensures StkBlock(End(s.free[0]) - 4, n) == End(s.free[0]) - n
  {
    RoundWhole(n);
    MultipleOf4(n);
    RoundEwWhole(n);
    hide RoundMb, RoundEw;
  }

  lemma StackOff(s: State, n: UInt32, low: UInt32, high: UInt32)
    requires |s.free| == 1 && 0 < n < s.free[0].len && n % 8 == 0 && End(s.free[0]) < TWO32
    ensures var b := s.free[0];
      Next(s, GetStack(n), State([b.(len := b.len - n)], s.live + [Live(Block(End(b) - n, n), n, true)]), low, high)
  {
    var b := s.free[0];
    assert s.free == [b] && 0 <= End(b) - n;
    hide *;
    StackFits(s, n);
    OffTop(b, n);
    StackStep(s, n, End(b) - 4, [b.(len := b.len - n)], low, high);
  }

  lemma BottomOff(s: State, n: UInt32, low: UInt32, high: UInt32)
    requires |s.free| == 1 && 0 < n < s.free[0].len && n % 8 == 0 && End(s.free[0]) < TWO32
    ensures var b := s.free[0];
      Next(s, Get(n), State([Block(b.addr + n, b.len - n)], s.live + [Live(Block(b.addr, n), n, false)]), low, high)
  {
    RoundWhole(n);
    hide RoundMb;
    assert s.free[1..] == [];
  }

  /** Without that room: a stack off the top of a block of an odd number of
      4-byte words, then getmem of all but 4 bytes of the rest. The length of
      the 4 bytes left is kept in the stack's lowest word. */
  lemma HeaderInStack(a: UInt32, len: UInt32, low: UInt32, high: UInt32)
    requires 8 <= low <= a && 20 <= len && len % 8 == 4 && a + len <= high + 1 && a + len < TWO32
    ensures var s := State([Block(a, len)], []);
      var s1 := State([Block(a, len - 8)], [Live(Block(a + len - 8, 8), 8, true)]);
      var s2 := State([Block(a + len - 12, 4)], s1.live + [Live(Block(a, len - 12), len - 12, false)]);
      Inv(s, low, high) && Next(s, GetStack(8), s1, low, high) && Next(s1, Get(len - 12), s2, low, high) && !HeadersApart(s2)
  {
    var s := State([Block(a, len)], []);
    var s1 := State([Block(a, len - 8)], [Live(Block(a + len - 8, 8), 8, true)]);
    var s2 := State([Block(a + len - 12, 4)], s1.live + [Live(Block(a, len - 12), len - 12, false)]);
    assert Inv(s, low, high);
    assert In(Header(s2.free[0]), a + len - 8) && In(s2.live[0].block, a + len - 8);
    hide Inv, Next, HeadersApart;
    StackOff(s, 8, low, high);
    BottomOff(s1, len - 12, low, high);
  }

  /** With stack sizes that round differently to 4 and to 8 no heap keeps its
      headers: getstk of all but 4 bytes of the last block. */
  lemma OddStackLeaves(f: seq<Block>)
    requires Canon(f) && f != [] && f[|f| - 1].len % 8 == 0 && f[|f| - 1].len <= TWO32 - 8
    ensures var n := f[|f| - 1].len - 4;
      && n > 0 && RoundMb(n) != RoundEw(n)
      && GetStk(f, n).0.Granted? && !HeadersFit(GetStk(f, n).1)
  {
    var n := f[|f| - 1].len - 4;
    EightsMinusFour(f[|f| - 1].len);
    RoundEwWhole(n);
    RoundMbUp(n);
    assert LastFit(f, n) == |f| - 1;
    hide RoundEw, RoundMb, LastFit, Canon;
    assert GetStk(f, n).1[|f| - 1].len == 4;
  }

  lemma EightsPlusFour(k: nat)
    ensures (8 * k + 4) % 8 == 4 && (8 * k + 4) % 4 == 0
  {
    assert 8 * k + 4 == 4 * (2 * k + 1);
  }

  lemma EightsMinusFour(a: int)
    requires a % 8 == 0 && a > 0
    ensures a >= 8 && (a - 4) % 4 == 0 && (a - 4) % 8 == 4
  {
    EightsPlusFour(a / 8 - 1);
  }
}
