/** The UDP checksum test (mon_udpcksum), against the definition of RFC 768:
    the one's complement sum of pseudo-header, header and data, as 16-bit words
    with the first octet of a pair most significant. */
module UdpSum {
  import opened Ints

  type Octet = x: int | 0 <= x < 0x100
  type Word = x: int | 0 <= x < 0x1_0000

  const IPT_UDP: int := 17
  const M: int := 0xffff

  // ---- the definition ---------------------------------------------------

  /** Addition with end-around carry. */
  function OnesAdd(a: Word, b: Word): Word { if a + b < 0x1_0000 then a + b else a + b - M }

  function OnesSum(ws: seq<Word>): Word {
    if ws == [] then 0 else OnesAdd(OnesSum(ws[..|ws| - 1]), ws[|ws| - 1])
  }

  /** A word of two octets, high then low. */
  function Join(hi: Octet, lo: Octet): Word {
    var h: int, l: int := hi, lo;
    256 * h + l
  }

  function Pad(s: seq<Octet>): seq<Octet> { if |s| % 2 == 0 then s else s + [0] }

  /** Pairs of octets, the first most significant. */
  function NetWords(s: seq<Octet>): seq<Word>
    requires |s| % 2 == 0
  {
    if s == [] then [] else NetWords(s[..|s| - 2]) + [Join(s[|s| - 2], s[|s| - 1])]
  }

  /** Source and destination address, protocol, length, datagram. */
  function SummedWords(addrs: seq<Octet>, udp: seq<Octet>): seq<Word>
    requires |addrs| == 8 && |udp| < 0x1_0000
  {
    NetWords(addrs) + [IPT_UDP, |udp|] + NetWords(Pad(udp))
  }

  ghost predicate SumIsAllOnes(addrs: seq<Octet>, udp: seq<Octet>)
    requires |addrs| == 8 && |udp| < 0x1_0000
  {
    OnesSum(SummedWords(addrs, udp)) == M
  }

  // ---- the program's arithmetic -----------------------------------------

  /** Pairs of octets as a little-endian machine loads them, added up. */
  function LoadSum(s: seq<Octet>): nat {
    if |s| < 2 then 0 else LoadSum(s[..|s| - 2]) + Join(s[|s| - 1], s[|s| - 2])
  }

  /** hs2net: the low two octets exchanged, the rest dropped. */
  function Hs2Net(x: nat): Word { x / 256 % 256 + 256 * (x % 256) }

  /** Two folds of the carries, then the complement's low half. */
  function FoldNot(s: nat): Word {
    var f := s / 0x1_0000 + s % 0x1_0000;
    M - (f + f / 0x1_0000) % 0x1_0000
  }

  function Cksum(addrs: seq<Octet>, udp: seq<Octet>): Word {
    FoldNot(LoadSum(addrs) + Hs2Net(IPT_UDP + |udp|) + LoadSum(Pad(udp)))
  }

  lemma {:induction false} LoadSumBound(s: seq<Octet>)
    ensures LoadSum(s) <= |s| / 2 * M
  {
    if |s| >= 2 {
      LoadSumBound(s[..|s| - 2]);
      assert |s[..|s| - 2]| / 2 == |s| / 2 - 1;
    }
  }

  lemma LoadSumNext(s: seq<Octet>, i: nat)
    requires 2 * i + 2 <= |s|
    ensures LoadSum(s[..2 * i + 2]) == LoadSum(s[..2 * i]) + Join(s[2 * i + 1], s[2 * i])
  {
    assert s[..2 * i + 2][..2 * i] == s[..2 * i];
  }

  method UdpCksum(addrs: seq<Octet>, udp: array<Octet>, len0: nat) returns (r: Word)
    requires |addrs| == 8 && len0 < 0x1_0000 && len0 + len0 % 2 <= udp.Length
    modifies udp
    ensures udp[..] == (if len0 % 2 == 0 then old(udp[..]) else old(udp[..])[len0 := 0])
    ensures r == Cksum(addrs, old(udp[..len0]))
  {
    hide LoadSum, Join, Hs2Net;
    var len := len0;
    var ucksum: UInt32 := AddAddresses(addrs);
    ucksum := ucksum + Hs2Net(IPT_UDP + len);
    if len % 2 != 0 {
      udp[len] := 0;
      len := len + 1;
    }
    ghost var p := udp[..len];
    ghost var head := LoadSum(addrs) + Hs2Net(IPT_UDP + len0);
    PadInPlace(old(udp[..]), udp[..], len0);
    len := len / 2;
    ucksum := AddLoads(ucksum, udp, len);
    ucksum := ucksum / 0x1_0000 + ucksum % 0x1_0000;
    ucksum := ucksum + ucksum / 0x1_0000;
    r := M - ucksum % 0x1_0000;
  }

  lemma PadInPlace(u0: seq<Octet>, u: seq<Octet>, len: nat)
    requires |u| == |u0| && len + len % 2 <= |u|
    requires u == (if len % 2 == 0 then u0 else u0[len := 0])
    ensures u[..len + len % 2] == Pad(u0[..len])
  {
  }

  /** The loop over both addresses. */
  method AddAddresses(addrs: seq<Octet>) returns (sum: UInt32)
    requires |addrs| == 8
    ensures sum == LoadSum(addrs) <= 4 * M
  {
    hide LoadSum, Join;
    sum := 0;
    assert LoadSum(addrs[..0]) == 0 by { LoadSumBound(addrs[..0]); }
    for i := 0 to 4
      invariant sum == LoadSum(addrs[..2 * i]) <= i * M
    {
      LoadSumNext(addrs, i);
      sum := sum + Join(addrs[2 * i + 1], addrs[2 * i]);
    }
    assert addrs[..8] == addrs;
  }

  /** The loop over the datagram. */
  method AddLoads(start: UInt32, udp: array<Octet>, len: nat) returns (sum: UInt32)
    requires 2 * len <= udp.Length && start <= 5 * M && len <= 0x8000
    ensures sum == start + LoadSum(udp[..2 * len])
  {
    hide LoadSum, Join;
    sum := start;
    assert LoadSum(udp[..0]) == 0 by { LoadSumBound(udp[..0]); }
    for i := 0 to len
      invariant sum == start + LoadSum(udp[..2 * i]) <= (5 + i) * M
    {
      LoadSumNext(udp[..], i);
      assert udp[..][..2 * i] == udp[..2 * i] && udp[..][..2 * i + 2] == udp[..2 * (i + 1)];
      var w := Join(udp[2 * i + 1], udp[2 * i]);
      assert (5 + i) * M + w <= (5 + i + 1) * M;
      sum := sum + w;
    }
  }

  // ---- the two agree ------------------------------------------------------

  function Total(ws: seq<Word>): nat {
    if ws == [] then 0 else Total(ws[..|ws| - 1]) + ws[|ws| - 1]
  }

  lemma {:induction false} TotalAppend(a: seq<Word>, b: seq<Word>)
    ensures Total(a + b) == Total(a) + Total(b)
  {
    if b == [] {
      assert a + b == a;
    } else {
      assert (a + b)[..|a + b| - 1] == a + b[..|b| - 1];
      TotalAppend(a, b[..|b| - 1]);
    }
  }

  /** The end-around sum is the sum modulo 2^16 - 1, zero only for zeros. */
  lemma {:induction false} OnesSumIsTotal(ws: seq<Word>)
    ensures exists k: nat :: Total(ws) == OnesSum(ws) + M * k
    ensures OnesSum(ws) == 0 <==> Total(ws) == 0
  {
    if ws == [] {
      assert Total(ws) == OnesSum(ws) + M * 0;
    } else {
      var v := ws[..|ws| - 1];
      OnesSumIsTotal(v);
      var k: nat :| Total(v) == OnesSum(v) + M * k;
      var k' := if OnesSum(v) + ws[|ws| - 1] < 0x1_0000 then k else k + 1;
      assert Total(ws) == OnesSum(ws) + M * k';
    }
  }

  lemma AllOnesExactly(ws: seq<Word>)
    ensures OnesSum(ws) == M <==> Total(ws) > 0 && Total(ws) % M == 0
  {
    OnesSumIsTotal(ws);
    var k: nat :| Total(ws) == OnesSum(ws) + M * k;
  }

  /** Exchanging the octets of a word multiplies it by 256 modulo 2^16 - 1. */
  lemma {:induction false} LoadIsSwapped(s: seq<Octet>)
    requires |s| % 2 == 0
    ensures Swapped(Total(NetWords(s)), LoadSum(s))
    ensures LoadSum(s) == 0 <==> Total(NetWords(s)) == 0
  {
    if s == [] {
      assert 256 * Total(NetWords(s)) == LoadSum(s) + M * 0;
    } else {
      var n := |s| - 2;
      var t := s[..n];
      LoadIsSwapped(t);
      var h: nat :| 256 * Total(NetWords(t)) == LoadSum(t) + M * h;
      assert NetWords(s)[..|NetWords(s)| - 1] == NetWords(t);
      assert 256 * Total(NetWords(s)) == LoadSum(s) + M * (h + s[n]);
    }
  }

  /** 256 is its own inverse modulo 2^16 - 1. */
  lemma SwapKeepsMultiples(t: nat, l: nat, h: nat)
    requires 256 * t == l + M * h
    ensures t % M == 0 <==> l % M == 0
  {
    if t % M == 0 {
      assert l == M * (256 * (t / M) - h);
    }
    if l % M == 0 {
      assert t == M * (256 * (l / M + h) - t);
    }
  }

  /** Two folds are enough for every sum the loops can form. */
  lemma FoldExactly(s: nat)
    requires s <= 0x8005 * M
    ensures FoldNot(s) == 0 <==> s > 0 && s % M == 0
  {
    var hi, lo := s / 0x1_0000, s % 0x1_0000;
    assert s == M * hi + (hi + lo);
  }

  lemma Hs2NetIsSwapped(x: nat)
    requires x < 0x1_0000
    ensures 256 * x == Hs2Net(x) + M * (x / 256)
  {
  }

  function Length(udp: seq<Octet>): nat { IPT_UDP + |udp| }

  ghost predicate Swapped(total: nat, loads: nat) {
    exists h: nat :: 256 * total == loads + M * h
  }

  lemma SwappedAdd(t1: nat, l1: nat, t2: nat, l2: nat)
    requires Swapped(t1, l1) && Swapped(t2, l2)
    ensures Swapped(t1 + t2, l1 + l2)
  {
    var h1: nat :| 256 * t1 == l1 + M * h1;
    var h2: nat :| 256 * t2 == l2 + M * h2;
    assert 256 * (t1 + t2) == l1 + l2 + M * (h1 + h2);
  }

  function Rest(addrs: seq<Octet>, udp: seq<Octet>): nat
    requires |addrs| == 8
  {
    Total(NetWords(addrs)) + Total(NetWords(Pad(udp)))
  }

  lemma SummedTotal(addrs: seq<Octet>, udp: seq<Octet>)
    requires |addrs| == 8 && |udp| < 0x1_0000
    ensures Total(SummedWords(addrs, udp)) == Rest(addrs, udp) + Length(udp)
  {
    assert |Pad(udp)| % 2 == 0;
    hide NetWords, Total, Pad;
    TwoWords(IPT_UDP, |udp|);
    TotalsOfThree(NetWords(addrs), [IPT_UDP, |udp|], NetWords(Pad(udp)));
  }

  lemma TotalsOfThree(a: seq<Word>, b: seq<Word>, c: seq<Word>)
    ensures Total(a + b + c) == Total(a) + Total(b) + Total(c)
  {
    hide Total;
    TotalAppend(a + b, c);
    TotalAppend(a, b);
  }

  lemma RestSwapped(addrs: seq<Octet>, udp: seq<Octet>)
    requires |addrs| == 8 && |udp| < 0x1_0000
    ensures Swapped(Rest(addrs, udp), LoadSum(addrs) + LoadSum(Pad(udp)))
  {
    assert |Pad(udp)| % 2 == 0;
    hide NetWords, LoadSum, Total, Pad, Swapped;
    LoadIsSwapped(addrs);
    LoadIsSwapped(Pad(udp));
    SwappedAdd(Total(NetWords(addrs)), LoadSum(addrs), Total(NetWords(Pad(udp))), LoadSum(Pad(udp)));
  }

  /** The words of the definition and the loads of the program, related. */
  lemma TotalsRelated(addrs: seq<Octet>, udp: seq<Octet>)
    requires |addrs| == 8 && |udp| < 0x1_0000
    ensures Total(SummedWords(addrs, udp)) == Rest(addrs, udp) + Length(udp)
    ensures Swapped(Rest(addrs, udp), LoadSum(addrs) + LoadSum(Pad(udp)))
  {
    hide Total, SummedWords, LoadSum, Pad, Swapped, Rest, Length;
    SummedTotal(addrs, udp);
    RestSwapped(addrs, udp);
  }

  lemma TwoWords(x: Word, y: Word)
    ensures var z: int := x; Total([x, y]) == z + y
  {
    assert [x, y][..1] == [x];
    assert [x][..0] == [];
    assert Total([x]) == x;
  }

  lemma SumFits(addrs: seq<Octet>, udp: seq<Octet>)
    requires |addrs| == 8 && |udp| < 0x1_0000
    ensures LoadSum(addrs) + Hs2Net(Length(udp)) + LoadSum(Pad(udp)) <= 0x8005 * M
  {
    LoadSumBound(addrs);
    LoadSumBound(Pad(udp));
    assert |Pad(udp)| / 2 <= 0x8000;
  }

  /** Up to 65518 octets the result is zero exactly when the one's complement
      sum of RFC 768 is all ones. */
  lemma ZeroExactly(addrs: seq<Octet>, udp: seq<Octet>)
    requires |addrs| == 8 && Length(udp) < 0x1_0000
    ensures Cksum(addrs, udp) == 0 <==> SumIsAllOnes(addrs, udp)
  {
    hide LoadSum, SummedWords, NetWords, Total, OnesSum, FoldNot, Hs2Net, Rest;
    TotalsRelated(addrs, udp);
    var rest := Rest(addrs, udp);
    var loads := LoadSum(addrs) + LoadSum(Pad(udp));
    var h: nat :| 256 * rest == loads + M * h;
    var n := Length(udp);
    Hs2NetIsSwapped(n);
    SumFits(addrs, udp);
    FoldExactly(loads + Hs2Net(n));
    SwapKeepsMultiples(rest + n, loads + Hs2Net(n), h + n / 256);
    AllOnesExactly(SummedWords(addrs, udp));
  }

  /** From 65519 octets on, adding the protocol to the length loses its carry:
      no correct datagram passes. */
  lemma LongNeverPasses(addrs: seq<Octet>, udp: seq<Octet>)
    requires |addrs| == 8 && Length(udp) >= 0x1_0000 && |udp| < 0x1_0000
    requires SumIsAllOnes(addrs, udp)
    ensures Cksum(addrs, udp) != 0
  {
    hide LoadSum, SummedWords, NetWords, Total, OnesSum, FoldNot, Hs2Net, Rest;
    TotalsRelated(addrs, udp);
    var rest := Rest(addrs, udp);
    var loads := LoadSum(addrs) + LoadSum(Pad(udp));
    var h: nat :| 256 * rest == loads + M * h;
    var n := Length(udp) - 0x1_0000;
    Hs2NetIsSwapped(n);
    Hs2NetDrops(n);
    SumFits(addrs, udp);
    FoldExactly(loads + Hs2Net(n));
    SwapKeepsMultiples(rest + n, loads + Hs2Net(n), h + n / 256);
    AllOnesExactly(SummedWords(addrs, udp));
    assert rest + Length(udp) == rest + n + 1 + M;
    NotBoth(rest + n);
  }

  lemma Hs2NetDrops(n: nat)
    ensures Hs2Net(n + 0x1_0000) == Hs2Net(n)
  {
    assert (n + 0x1_0000) / 256 == n / 256 + 256;
    assert (n + 0x1_0000) % 256 == n % 256;
  }

  lemma NotBoth(t: nat)
    ensures !(t % M == 0 && (t + 1 + M) % M == 0)
  {
  }

  /** A correct datagram is accepted if and only if it is short enough. */
  lemma CorrectAccepted(addrs: seq<Octet>, udp: seq<Octet>)
    requires |addrs| == 8 && |udp| < 0x1_0000 && SumIsAllOnes(addrs, udp)
    ensures Cksum(addrs, udp) == 0 <==> |udp| <= 65518
  {
    hide Cksum, SumIsAllOnes;
    if |udp| <= 65518 {
      ZeroExactly(addrs, udp);
    } else {
      LongNeverPasses(addrs, udp);
    }
  }

  // ---- what a sender fills in passes ---------------------------------------

  const CKSUM_AT: nat := 6

  /** RFC 768: the complement of the sum, all ones standing for zero. */
  function Filled(addrs: seq<Octet>, udp: seq<Octet>): (w: Word)
    requires |addrs| == 8 && |udp| < 0x1_0000
    ensures w != 0
  {
    var w: Word := M - OnesSum(SummedWords(addrs, udp));
    if w == 0 then M else w
  }

  function WithCksum(udp: seq<Octet>, w: Word): (r: seq<Octet>)
    requires |udp| >= 8
    ensures |r| == |udp|
  {
    udp[CKSUM_AT := w / 256][CKSUM_AT + 1 := w % 256]
  }

  lemma {:induction false} NetWordsSet(s: seq<Octet>, i: nat, a: Octet, b: Octet)
    requires |s| % 2 == 0 && i % 2 == 0 && i + 2 <= |s| && s[i] == s[i + 1] == 0
    ensures Total(NetWords(s[i := a][i + 1 := b])) == Total(NetWords(s)) + Join(a, b)
  {
    var t := s[i := a][i + 1 := b];
    var n := |s| - 2;
    assert NetWords(t)[..|NetWords(t)| - 1] == NetWords(t[..n]);
    assert NetWords(s)[..|NetWords(s)| - 1] == NetWords(s[..n]);
    if i == n {
      assert t[..n] == s[..n];
    } else {
      assert t[..n] == s[..n][i := a][i + 1 := b];
      NetWordsSet(s[..n], i, a, b);
    }
  }

  lemma FilledCorrect(addrs: seq<Octet>, udp: seq<Octet>)
    requires |addrs| == 8 && 8 <= |udp| < 0x1_0000
    requires udp[CKSUM_AT] == udp[CKSUM_AT + 1] == 0
    ensures SumIsAllOnes(addrs, WithCksum(udp, Filled(addrs, udp)))
  {
    var w := Filled(addrs, udp);
    var v := WithCksum(udp, w);
    FilledTotal(addrs, udp, w);
    hide WithCksum, SummedWords, OnesSum, Total;
    OnesSumIsTotal(SummedWords(addrs, udp));
    ComplementCloses(Total(SummedWords(addrs, udp)), OnesSum(SummedWords(addrs, udp)), w);
    AllOnesExactly(SummedWords(addrs, v));
  }

  /** Filling the checksum in as RFC 768 says makes a datagram correct at every
      length, and makes it pass if and only if it is short enough. */
  lemma FilledPasses(addrs: seq<Octet>, udp: seq<Octet>)
    requires |addrs| == 8 && 8 <= |udp| < 0x1_0000
    requires udp[CKSUM_AT] == udp[CKSUM_AT + 1] == 0
    ensures var v := WithCksum(udp, Filled(addrs, udp));
      SumIsAllOnes(addrs, v) && (Cksum(addrs, v) == 0 <==> |udp| <= 65518)
  {
    hide WithCksum, Cksum, SumIsAllOnes;
    FilledCorrect(addrs, udp);
    CorrectAccepted(addrs, WithCksum(udp, Filled(addrs, udp)));
  }

  lemma ComplementCloses(t: nat, s: Word, w: Word)
    requires exists k: nat :: t == s + M * k
    requires w == (if s == M then M else M - s)
    ensures var u: int := w; t + u > 0 && (t + u) % M == 0
  {
    var k: nat :| t == s + M * k;
    var u: int := w;
    assert t + u == M * (k + if s == M then 2 else 1);
  }

  lemma FilledTotal(addrs: seq<Octet>, udp: seq<Octet>, w: Word)
    requires |addrs| == 8 && 8 <= |udp| < 0x1_0000
    requires udp[CKSUM_AT] == udp[CKSUM_AT + 1] == 0
    ensures var t: int := Total(SummedWords(addrs, udp));
      Total(SummedWords(addrs, WithCksum(udp, w))) == t + w
  {
    var v := WithCksum(udp, w);
    assert Pad(v) == Pad(udp)[CKSUM_AT := w / 256][CKSUM_AT + 1 := w % 256];
    assert Join(w / 256, w % 256) == w;
    hide NetWords, SummedWords, Total, LoadSum;
    NetWordsSet(Pad(udp), CKSUM_AT, w / 256, w % 256);
    TotalsRelated(addrs, udp);
    TotalsRelated(addrs, v);
  }
}
