/** The pool code over memory words and bptab. The waits and signals around it
    are the kernel's; PoolSpec says where they fall. Each method takes a state
    of PoolSpec that shows the same chains, and its contract names the step that
    leads to the one shown afterwards. */
module PoolTables {
  import opened Lists
  import P = PoolSpec
  import opened PoolSpec

  const NULL: int := 0

  /** The chain starting at next runs through exactly these buffers. */
  ghost predicate Chained(m: seq<int>, next: int, free: seq<int>)
    decreases free
  {
    if free == [] then next == NULL
    else next == free[0] && 0 < next < |m| && Chained(m, m[next], free[1..])
  }

  lemma {:induction false} ChainedFrame(m: seq<int>, m': seq<int>, next: int, free: seq<int>)
    requires Chained(m, next, free) && |m'| == |m|
    requires forall b :: b in free && 0 < b < |m| ==> m'[b] == m[b]
    ensures Chained(m', next, free)
    decreases free
  {
    if free != [] {
      assert free[0] in free;
      assert forall b :: b in free[1..] ==> b in free;
      ChainedFrame(m, m', m[next], free[1..]);
    }
  }

  ghost predicate AllChained(m: seq<int>, nexts: seq<int>, frees: seq<seq<int>>) {
    |nexts| >= |frees| && forall i {:trigger frees[i]} :: 0 <= i < |frees| ==> Chained(m, nexts[i], frees[i])
  }

  /** No buffer twice, on one chain or on two. */
  ghost predicate Separate(frees: seq<seq<int>>) {
    && (forall i {:trigger frees[i]} :: 0 <= i < |frees| ==> NoDup(frees[i]))
    && (forall i, j, b {:trigger b in frees[i], b in frees[j]} ::
          0 <= i < |frees| && 0 <= j < |frees| && b in frees[i] && b in frees[j] ==> i == j)
  }

  ghost predicate OnSome(frees: seq<seq<int>>, b: int) {
    exists i :: 0 <= i < |frees| && b in frees[i]
  }

  lemma PopSeparate(frees: seq<seq<int>>, i: nat)
    requires Separate(frees) && i < |frees| && frees[i] != []
    ensures Separate(frees[i := frees[i][1..]]) && !OnSome(frees[i := frees[i][1..]], frees[i][0])
  {
    var f := frees[i := frees[i][1..]];
    assert NoDup(frees[i]);
    assert forall j, b :: 0 <= j < |f| && b in f[j] ==> b in frees[j];
    assert frees[i][0] in frees[i];
  }

  lemma PushSeparate(frees: seq<seq<int>>, i: nat, b: int)
    requires Separate(frees) && i < |frees| && !OnSome(frees, b)
    ensures Separate(frees[i := [b] + frees[i]])
  {
    var f := frees[i := [b] + frees[i]];
    assert NoDup(frees[i]) && b !in frees[i];
    assert forall j, x :: 0 <= j < |f| && x in f[j] ==> x in frees[j] || (x == b && j == i);
  }

  class BufferPools {
    const mem: array<int>
    const bpnext: array<int>
    const bptotal: array<int>
    const bpsize: array<int>
    const bpsem: array<int>
    var nbpools: nat
    ghost var frees: seq<seq<int>>

    ghost predicate Valid()
      reads this, mem, bpnext, bptotal, bpsize
    {
      && mem.Length > 0
      && bpnext.Length == bptotal.Length == bpsize.Length == bpsem.Length == NBPOOLS
      && bpnext != mem && bptotal != mem && bpsize != mem && bpnext != bptotal && bpnext != bpsize && bptotal != bpsize
      && bpsem != mem && bpsem != bpnext && bpsem != bptotal && bpsem != bpsize
      && nbpools == |frees| <= NBPOOLS
      && AllChained(mem[..], bpnext[..], frees) && Separate(frees)
    }

    /** The same chains, sizes and totals. */
    ghost predicate Shows(s: State)
      reads this, bptotal, bpsize
      requires bptotal.Length == bpsize.Length == NBPOOLS && |frees| <= NBPOOLS
    {
      |s.pools| == |frees| && forall i :: 0 <= i < |frees| ==>
        s.pools[i].free == frees[i] && s.pools[i].total == bptotal[i] && s.pools[i].size == bpsize[i] + WORD
    }

    constructor (memory: array<int>)
      requires memory.Length > 0
      ensures Valid() && mem == memory && frees == [] && fresh(bpnext) && fresh(bptotal) && fresh(bpsize) && fresh(bpsem)
      ensures forall n :: Shows(Init(n))
    {
      mem := memory;
      bpnext, bptotal, bpsize := new int[NBPOOLS], new int[NBPOOLS], new int[NBPOOLS];
      bpsem := new int[NBPOOLS];
      nbpools, frees := 0, [];
    }

    /** The two statements of getbuf and nbgetbuf that take the first buffer. */
    method Unlink(i: nat, ghost s: State, ghost p: nat) returns (buf: int)
      requires Valid() && i < nbpools && frees[i] != [] && Shows(s) && p < |s.pcs|
      modifies this`frees, bpnext
      ensures Valid() && buf == old(frees)[i][0] && frees == old(frees)[i := old(frees)[i][1..]]
      ensures 0 < buf < mem.Length && !OnSome(frees, buf)
      ensures Shows(P.Unlink(s, p, i)) && P.Unlink(s, p, i).pcs[p] == Popped(i, buf)
    {
      ghost var m, n0, f0 := mem[..], bpnext[..], frees;
      assert Chained(m, n0[i], f0[i]);
      buf := bpnext[i];
      bpnext[i] := mem[buf];
      frees := frees[i := frees[i][1..]];
      PopSeparate(f0, i);
      forall j | 0 <= j < |frees| ensures Chained(m, bpnext[..][j], frees[j]) {
        assert Chained(m, n0[j], f0[j]);
      }
    }

    /** The first word of a buffer that is on no chain is written. */
    method Store(buf: int, word: int)
      requires Valid() && 0 < buf < mem.Length && !OnSome(frees, buf)
      modifies mem
      ensures Valid() && mem[..] == old(mem[..])[buf := word]
    {
      ghost var m := mem[..];
      mem[buf] := word;
      forall j | 0 <= j < |frees| ensures Chained(mem[..], bpnext[..][j], frees[j]) {
        assert Chained(m, bpnext[..][j], frees[j]);
        ChainedFrame(m, mem[..], bpnext[j], frees[j]);
      }
    }

    /** freebuf up to the signal: the header word says which pool. */
    method FreeBuf(buf: int, ghost s: State, ghost p: nat) returns (poolid: int, ok: bool)
      requires Valid() && 0 < buf < mem.Length && !OnSome(frees, buf)
      requires Shows(s) && p < |s.pcs| && s.pcs[p] == Idle && buf in s.out && s.out[buf] == mem[buf]
      modifies this`frees, mem, bpnext
      ensures Valid() && poolid == old(mem[buf]) && ok == (0 <= poolid < nbpools)
      ensures frees == if ok then old(frees)[poolid := [buf] + old(frees)[poolid]] else old(frees)
      ensures forall a :: 0 <= a < mem.Length && a != buf ==> mem[a] == old(mem[a])
      ensures Shows(P.Step(s, P.FreeBuf(p, buf)))
    {
      poolid := mem[buf];
      ok := !(poolid < 0 || poolid >= nbpools);
      if ok {
        ghost var f0 := frees;
        Store(buf, bpnext[poolid]);
        ghost var m, n0 := mem[..], bpnext[..];
        bpnext[poolid] := buf;
        frees := frees[poolid := [buf] + frees[poolid]];
        PushSeparate(f0, poolid, buf);
        assert ([buf] + f0[poolid])[1..] == f0[poolid];
        forall j | 0 <= j < |frees| ensures Chained(m, bpnext[..][j], frees[j]) {
          assert Chained(m, n0[j], f0[j]);
        }
      }
    }

    /** mkpool, given what getmem answered, the block's address or none, and
        what screate answered, which is stored untested. */
    method MkPool(bufsiz: int, numbufs: int, where: int, granted: bool, sem: int, ghost s: State, ghost live: bool)
      returns (poolid: int, ok: bool)
      requires Valid() && Shows(s)
      requires granted && numbufs > 0 && bufsiz >= BPMINB ==>
        0 < where && where + numbufs * (bufsiz + WORD) <= mem.Length
      requires granted && numbufs > 0 ==> forall b :: b in Cut(where, bufsiz + WORD, numbufs) ==> !OnSome(frees, b)
      modifies this, mem, bpnext, bptotal, bpsize, bpsem
      ensures Valid()
      ensures ok == (BPMINB <= bufsiz <= BPMAXB && 1 <= numbufs <= BPMAXN && old(nbpools) < NBPOOLS && granted)
      ensures ok ==>
        && poolid == old(nbpools) && nbpools == poolid + 1
        && frees == old(frees) + [Cut(where, bufsiz + WORD, numbufs)]
        && bptotal[poolid] == numbufs && bpsize[poolid] == bufsiz && bpsem[poolid] == sem
      ensures !ok ==> frees == old(frees) && mem[..] == old(mem[..]) && nbpools == old(nbpools)
      ensures Shows(Make(s, bufsiz, numbufs, where, granted, live))
    {
      if bufsiz < BPMINB || bufsiz > BPMAXB || numbufs < 1 || numbufs > BPMAXN || nbpools >= NBPOOLS || !granted {
        return -1, false;
      }
      poolid, ok := nbpools, true;
      var size := bufsiz + WORD;
      ghost var f0, n0, m0 := frees, bpnext[..], mem[..];
      LinkBuffers(where, size, numbufs);
      bptotal[poolid] := numbufs;
      bpnext[poolid] := where;
      bpsize[poolid] := bufsiz;
      bpsem[poolid] := sem;
      nbpools := nbpools + 1;
      frees := frees + [Cut(where, size, numbufs)];
      NewSeparate(f0, where, size, numbufs);
      CutSplit(where, size, numbufs);
      forall j | 0 <= j < |frees| ensures Chained(mem[..], bpnext[..][j], frees[j]) {
        if j < |f0| {
          assert Chained(m0, n0[j], f0[j]);
          ChainedFrame(m0, mem[..], n0[j], f0[j]);
        }
      }
    }

    /** mkpool's loop: each buffer's first word is the next one's address. */
    method LinkBuffers(where0: int, size: int, n: int)
      requires n >= 1 && size > 0 && 0 < where0 && where0 + n * size <= mem.Length
      modifies mem
      ensures Chained(mem[..], where0, Cut(where0, size, n))
      ensures forall a :: 0 <= a < mem.Length && a !in Cut(where0, size, n) ==> mem[a] == old(mem[a])
    {
      var where := where0;
      var left := n - 1;
      ghost var c := Cut(where0, size, n);
      while left > 0
        invariant 0 <= left < n && where == where0 + (n - 1 - left) * size
        invariant 0 < where && where + (left + 1) * size <= mem.Length
        invariant forall k :: 0 <= k < n - 1 - left ==> 0 < c[k] < where && mem[c[k]] == c[k + 1]
        invariant forall a :: 0 <= a < mem.Length && a !in c ==> mem[a] == old(mem[a])
      {
        assert c[n - 1 - left] == where && c[n - left] == where + size by { CutSteps(where0, size, n, n - 1 - left); }
        assert (left + 1) * size == left * size + size && left * size >= size by { Times(left, size); }
        mem[where] := where + size;
        left := left - 1;
        where := where + size;
      }
      assert c[n - 1] == where;
      mem[where] := NULL;
      LinksChain(mem[..], where0, size, n, 0);
    }
  }

  lemma Times(k: int, size: int)
    requires k >= 1 && size > 0
    ensures k * size >= size && (k + 1) * size == k * size + size
  {
  }

  lemma CutSteps(where: int, size: int, n: int, k: int)
    requires 0 <= k < n - 1
    ensures var c := Cut(where, size, n); c[k] == where + k * size && c[k + 1] == where + k * size + size
  {
  }

  /** The words written, read as a chain. */
  lemma {:induction false} LinksChain(m: seq<int>, where: int, size: int, n: int, k: int)
    requires 0 <= k < n
    requires var c := Cut(where, size, n);
      && (forall i :: 0 <= i < n ==> 0 < c[i] < |m|)
      && (forall i :: 0 <= i < n - 1 ==> m[c[i]] == c[i + 1])
      && m[c[n - 1]] == NULL
    ensures Chained(m, Cut(where, size, n)[k], Cut(where, size, n)[k..])
    decreases n - k
  {
    var c := Cut(where, size, n);
    assert c[k..][1..] == c[k + 1..];
    if k < n - 1 {
      LinksChain(m, where, size, n, k + 1);
    }
  }

  lemma CutSplit(where: int, size: int, n: int)
    requires n >= 1
    ensures Cut(where, size, n)[0] == where
  {
  }

  lemma NewSeparate(frees: seq<seq<int>>, where: int, size: int, n: nat)
    requires Separate(frees) && size > 0
    requires forall b :: b in Cut(where, size, n) ==> !OnSome(frees, b)
    ensures Separate(frees + [Cut(where, size, n)])
  {
    var c := Cut(where, size, n);
    forall i, j | 0 <= i < j < |c| ensures c[i] != c[j] {
      assert (j - i) * size >= 1;
      assert j * size == i * size + (j - i) * size;
    }
    var f := frees + [c];
    assert forall i, b :: 0 <= i < |frees| && b in frees[i] ==> OnSome(frees, b);
  }
}
