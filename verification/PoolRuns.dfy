/** What holds of every pool in every interleaving. */
module PoolRuns {
  import opened Lists
  import opened PoolSpec

  // ---- the semaphore of each pool ----------------------------------------

  ghost predicate SemOK(pcs: seq<Pc>, q: Pool, i: nat) {
    && (!q.live || q.cnt >= 0 ==> q.queue == [])
    && (q.live && q.cnt < 0 ==> |q.queue| == -q.cnt)
    && NoDup(q.queue)
    && (forall p {:trigger p in q.queue} :: p in q.queue ==> p < |pcs| && pcs[p] == Waiting(i))
  }

  ghost predicate Sems(s: State) {
    forall i {:trigger s.pools[i]} :: 0 <= i < |s.pools| ==> SemOK(s.pcs, s.pools[i], i)
  }

  /** A process that changes between two states other than waiting. */
  lemma SemsKeepPc(s: State, p: nat, pc: Pc)
    requires Sems(s) && p < |s.pcs| && !s.pcs[p].Waiting?
    ensures Sems(SetPc(s, p, pc))
  {
    forall i | 0 <= i < |s.pools| ensures SemOK(s.pcs[p := pc], s.pools[i], i) {
      assert SemOK(s.pcs, s.pools[i], i);
    }
  }

  lemma SemsKeepPool(s: State, i: nat, q: Pool)
    requires Sems(s) && i < |s.pools| && q.live == s.pools[i].live
    requires q.cnt == s.pools[i].cnt && q.queue == s.pools[i].queue
    ensures Sems(SetPool(s, i, q))
  {
    forall j | 0 <= j < |s.pools| ensures SemOK(s.pcs, SetPool(s, i, q).pools[j], j) {
      assert SemOK(s.pcs, s.pools[j], j);
    }
  }

  lemma WaitSems(s: State, p: nat, i: nat)
    requires Sems(s) && p < |s.pcs| && s.pcs[p] == Idle && i < |s.pools|
    ensures Sems(WaitOn(s, p, i))
  {
    var r := WaitOn(s, p, i);
    assert SemOK(s.pcs, s.pools[i], i);
    if p in s.pools[i].queue {
      assert false;
    }
    AppendNoDup(s.pools[i].queue, p);
    forall j | 0 <= j < |s.pools| ensures SemOK(r.pcs, r.pools[j], j) {
      assert SemOK(s.pcs, s.pools[j], j);
    }
  }

  lemma SignalSems(s: State, i: nat)
    requires Sems(s) && i < |s.pools|
    ensures Sems(SignalOn(s, i))
  {
    var r := SignalOn(s, i);
    assert SemOK(s.pcs, s.pools[i], i);
    var queue := s.pools[i].queue;
    assert queue != [] ==> queue[0] in queue;
    forall j | 0 <= j < |s.pools| ensures SemOK(r.pcs, r.pools[j], j) {
      assert SemOK(s.pcs, s.pools[j], j);
      forall p | p in r.pools[j].queue ensures p < |r.pcs| && r.pcs[p] == Waiting(j) {
        assert p in s.pools[j].queue;
      }
    }
  }

  // ---- where every buffer is ----------------------------------------------

  ghost predicate Chains(s: State) {
    forall i, b {:trigger b in s.pools[i].free} ::
      0 <= i < |s.pools| && b in s.pools[i].free ==> Owns(s.pools[i], b) && b !in s.out
  }

  ghost predicate ChainsNoDup(s: State) {
    forall i {:trigger s.pools[i]} :: 0 <= i < |s.pools| ==> NoDup(s.pools[i].free)
  }

  ghost predicate Apart(s: State) {
    forall i, j, b {:trigger Owns(s.pools[i], b), Owns(s.pools[j], b)} ::
      0 <= i < |s.pools| && 0 <= j < |s.pools| && Owns(s.pools[i], b) && Owns(s.pools[j], b) ==> i == j
  }

  /** A buffer between chain and caller is neither on a chain nor held. */
  ghost predicate InTransit(s: State, pc: Pc) {
    pc.Popped? ==>
      && pc.pool < |s.pools| && Owns(s.pools[pc.pool], pc.buf)
      && pc.buf !in s.pools[pc.pool].free && pc.buf !in s.out
  }

  ghost predicate Transit(s: State) {
    && (forall p {:trigger s.pcs[p]} :: 0 <= p < |s.pcs| ==> InTransit(s, s.pcs[p]))
    && (forall p, p' {:trigger s.pcs[p], s.pcs[p']} ::
          (0 <= p < |s.pcs| && 0 <= p' < |s.pcs| && s.pcs[p].Popped? && s.pcs[p'].Popped?
            && s.pcs[p].buf == s.pcs[p'].buf) ==> p == p')
  }

  ghost predicate Held(s: State) {
    forall b {:trigger b in s.out} :: b in s.out ==> 0 <= s.out[b] < |s.pools| && Owns(s.pools[s.out[b]], b)
  }

  ghost predicate Moving(s: State, b: int) {
    exists p :: 0 <= p < |s.pcs| && s.pcs[p].Popped? && s.pcs[p].buf == b
  }

  ghost predicate NoneLost(s: State) {
    forall i, b {:trigger Owns(s.pools[i], b)} ::
      0 <= i < |s.pools| && Owns(s.pools[i], b) ==> b in s.pools[i].free || b in s.out || Moving(s, b)
  }

  ghost predicate Buffers(s: State) {
    Chains(s) && ChainsNoDup(s) && Apart(s) && Transit(s) && Held(s) && NoneLost(s)
  }

  /** Two states whose buffers are in the same places. */
  ghost predicate SamePlaces(s: State, r: State) {
    && r.out == s.out && |r.pools| == |s.pools| && |r.pcs| == |s.pcs|
    && (forall i {:trigger r.pools[i]} {:trigger s.pools[i]} :: 0 <= i < |s.pools| ==>
          r.pools[i].free == s.pools[i].free && r.pools[i].where == s.pools[i].where
          && r.pools[i].size == s.pools[i].size && r.pools[i].total == s.pools[i].total)
    && (forall p {:trigger r.pcs[p]} {:trigger s.pcs[p]} :: 0 <= p < |s.pcs| ==>
          (s.pcs[p].Popped? || r.pcs[p].Popped? ==> r.pcs[p] == s.pcs[p]))
  }

  lemma SamePlacesBuffers(s: State, r: State)
    requires Buffers(s) && SamePlaces(s, r)
    ensures Buffers(r)
  {
    assert forall i, b {:trigger Owns(r.pools[i], b)} :: 0 <= i < |s.pools| ==> (Owns(r.pools[i], b) <==> Owns(s.pools[i], b));
    assert Chains(r);
    assert ChainsNoDup(r);
    assert Apart(r);
    assert Held(r);
    assert Transit(r) by {
      forall p | 0 <= p < |r.pcs| ensures InTransit(r, r.pcs[p]) {
        assert InTransit(s, s.pcs[p]);
      }
    }
    forall i, b | 0 <= i < |r.pools| && Owns(r.pools[i], b) ensures b in r.pools[i].free || b in r.out || Moving(r, b) {
      assert Owns(s.pools[i], b);
      if Moving(s, b) {
        var p :| 0 <= p < |s.pcs| && s.pcs[p].Popped? && s.pcs[p].buf == b;
        assert r.pcs[p] == s.pcs[p];
      }
    }
  }

  lemma UnlinkBuffers(s: State, p: nat, i: nat)
    requires Buffers(s) && p < |s.pcs| && i < |s.pools| && !s.pcs[p].Popped? && s.pools[i].free != []
    ensures Buffers(Unlink(s, p, i))
  {
    var r := Unlink(s, p, i);
    var b0 := s.pools[i].free[0];
    assert b0 in s.pools[i].free;
    assert s.pools[i].free == [b0] + s.pools[i].free[1..];
    assert forall j :: 0 <= j < |s.pools| ==> r.pools[j].(free := s.pools[j].free) == s.pools[j];
    assert forall j, b {:trigger Owns(r.pools[j], b)} :: 0 <= j < |s.pools| ==> (Owns(r.pools[j], b) <==> Owns(s.pools[j], b));
    assert forall j, b {:trigger b in r.pools[j].free} ::
      0 <= j < |s.pools| && b in r.pools[j].free ==> b in s.pools[j].free && b != b0 by {
      UnlinkKeeps(s, p, i);
    }
    assert r.pcs[p] == Popped(i, b0);
    assert Transit(r) by {
      forall p' | 0 <= p' < |r.pcs| ensures InTransit(r, r.pcs[p']) && (r.pcs[p'].Popped? && p' != p ==> r.pcs[p'].buf != b0) {
        assert InTransit(s, s.pcs[p']);
        assert Owns(s.pools[i], b0);
      }
    }
    forall j, b | 0 <= j < |r.pools| && Owns(r.pools[j], b) ensures b in r.pools[j].free || b in r.out || Moving(r, b) {
      assert Owns(s.pools[j], b);
      if Moving(s, b) {
        var p' :| 0 <= p' < |s.pcs| && s.pcs[p'].Popped? && s.pcs[p'].buf == b;
        assert r.pcs[p'] == s.pcs[p'];
      }
    }
  }

  lemma UnlinkKeeps(s: State, p: nat, i: nat)
    requires Chains(s) && ChainsNoDup(s) && Apart(s)
    requires p < |s.pcs| && i < |s.pools| && s.pools[i].free != []
    ensures var b0 := s.pools[i].free[0];
      forall j, b :: 0 <= j < |s.pools| && b in Unlink(s, p, i).pools[j].free ==> b in s.pools[j].free && b != b0
  {
    var b0 := s.pools[i].free[0];
    assert b0 in s.pools[i].free;
    assert Owns(s.pools[i], b0);
    forall j, b | 0 <= j < |s.pools| && b in Unlink(s, p, i).pools[j].free ensures b in s.pools[j].free && b != b0 {
      assert b in s.pools[j].free;
      assert Owns(s.pools[j], b);
    }
  }

  lemma HeaderBuffers(s: State, p: nat)
    requires Buffers(s) && p < |s.pcs| && s.pcs[p].Popped?
    ensures Buffers(Step(s, SetHeader(p))) && s.pcs[p].buf !in s.out
  {
    var r := Step(s, SetHeader(p));
    var b0 := s.pcs[p].buf;
    assert InTransit(s, s.pcs[p]);
    assert Chains(r) by {
      forall j, b | 0 <= j < |s.pools| && b in r.pools[j].free ensures Owns(r.pools[j], b) && b !in r.out {
        assert b in s.pools[j].free;
        assert Owns(s.pools[j], b) && Owns(s.pools[s.pcs[p].pool], b0);
      }
    }
    assert Transit(r) by {
      forall p' | 0 <= p' < |r.pcs| ensures InTransit(r, r.pcs[p']) {
        assert InTransit(s, s.pcs[p']);
      }
    }
    forall j, b | 0 <= j < |r.pools| && Owns(r.pools[j], b) ensures b in r.pools[j].free || b in r.out || Moving(r, b) {
      assert Owns(s.pools[j], b);
      if b != b0 && Moving(s, b) {
        var p' :| 0 <= p' < |s.pcs| && s.pcs[p'].Popped? && s.pcs[p'].buf == b;
        assert r.pcs[p'] == s.pcs[p'];
      }
    }
  }

  lemma FreeChains(s: State, p: nat, b0: int)
    requires Buffers(s) && p < |s.pcs| && s.pcs[p] == Idle && b0 in s.out
    ensures Chains(Step(s, FreeBuf(p, b0))) && ChainsNoDup(Step(s, FreeBuf(p, b0)))
  {
    var r := Step(s, FreeBuf(p, b0));
    var i := s.out[b0];
    assert Owns(s.pools[i], b0);
    assert b0 !in s.pools[i].free;
    forall j, b | 0 <= j < |s.pools| && b in r.pools[j].free ensures Owns(r.pools[j], b) && b !in r.out {
      assert b in s.pools[j].free || b == b0;
    }
    assert NoDup(s.pools[i].free);
    forall j | 0 <= j < |r.pools| ensures NoDup(r.pools[j].free) {
      assert NoDup(s.pools[j].free);
    }
  }

  lemma FreeBuffers(s: State, p: nat, b0: int)
    requires Buffers(s) && p < |s.pcs| && s.pcs[p] == Idle && b0 in s.out
    ensures Buffers(Step(s, FreeBuf(p, b0)))
  {
    FreeChains(s, p, b0);
    hide NoDup;
    var r := Step(s, FreeBuf(p, b0));
    var i := s.out[b0];
    assert Owns(s.pools[i], b0);
    assert forall j, b {:trigger Owns(r.pools[j], b)} :: 0 <= j < |s.pools| ==> (Owns(r.pools[j], b) <==> Owns(s.pools[j], b));
    assert forall j :: 0 <= j < |s.pools| && j != i ==> r.pools[j] == s.pools[j];
    assert r.pools[i].free == [b0] + s.pools[i].free;
    hide Step, Owns;
    assert Transit(r) by {
      forall p' | 0 <= p' < |r.pcs| ensures InTransit(r, r.pcs[p']) {
        assert InTransit(s, s.pcs[p']);
      }
    }
    forall j, b | 0 <= j < |r.pools| && Owns(r.pools[j], b) ensures b in r.pools[j].free || b in r.out || Moving(r, b) {
      assert Owns(s.pools[j], b);
      assert b in s.pools[j].free ==> b in r.pools[j].free;
      if Moving(s, b) {
        var p' :| 0 <= p' < |s.pcs| && s.pcs[p'].Popped? && s.pcs[p'].buf == b;
        assert r.pcs[p'] == s.pcs[p'];
      }
    }
  }

  lemma Farther(i: nat, j: nat, size: int)
    requires size > 0 && i < j
    ensures i * size < j * size
  {
    assert j * size == i * size + (j - i) * size;
  }

  lemma CutNoDup(where: int, size: int, n: nat)
    requires size > 0
    ensures NoDup(Cut(where, size, n))
  {
    var c := Cut(where, size, n);
    forall i, j | 0 <= i < j < |c| ensures c[i] != c[j] {
      Farther(i, j, size);
    }
  }

  lemma MakeBuffers(s: State, bufsiz: int, numbufs: int, where: int, granted: bool, sem: bool)
    requires Buffers(s) && Legal(s, MkPool(bufsiz, numbufs, where, granted, sem))
    ensures Buffers(Make(s, bufsiz, numbufs, where, granted, sem))
  {
    var r := Make(s, bufsiz, numbufs, where, granted, sem);
    if r != s {
      var n := |s.pools|;
      CutNoDup(where, bufsiz + WORD, numbufs);
      assert r.pools[n].free == Cut(where, bufsiz + WORD, numbufs);
      assert forall j :: 0 <= j < n ==> r.pools[j] == s.pools[j];
      assert forall b {:trigger Owns(r.pools[n], b)} :: Owns(r.pools[n], b) <==> b in r.pools[n].free;
      assert Chains(r) by {
        forall j, b | 0 <= j < |r.pools| && b in r.pools[j].free ensures Owns(r.pools[j], b) && b !in r.out {
          assert j < n ==> b in s.pools[j].free;
        }
      }
      assert Apart(r) by {
        forall i, j, b | 0 <= i < |r.pools| && 0 <= j < |r.pools| && Owns(r.pools[i], b) && Owns(r.pools[j], b) ensures i == j {
          assert i < n ==> Owns(s.pools[i], b);
          assert j < n ==> Owns(s.pools[j], b);
        }
      }
      assert Transit(r) by {
        forall p | 0 <= p < |r.pcs| ensures InTransit(r, r.pcs[p]) {
          assert InTransit(s, s.pcs[p]);
        }
      }
      forall j, b | 0 <= j < |r.pools| && Owns(r.pools[j], b) ensures b in r.pools[j].free || b in r.out || Moving(r, b) {
        if j < n {
          assert Owns(s.pools[j], b);
          assert Moving(s, b) ==> Moving(r, b);
        }
      }
    }
  }

  // ---- how many buffers are spoken for --------------------------------------

  predicate Owes(pc: Pc, i: nat) { pc == Granted(i) || pc == Pushed(i) }

  function One(b: bool): nat { if b then 1 else 0 }

  /** Processes granted a buffer of pool i and not resumed, and buffers pushed
      and not signalled. */
  function Owing(pcs: seq<Pc>, i: nat): nat {
    if pcs == [] then 0 else Owing(pcs[..|pcs| - 1], i) + One(Owes(pcs[|pcs| - 1], i))
  }

  lemma {:induction false} OwingSet(pcs: seq<Pc>, p: nat, pc: Pc, i: nat)
    requires p < |pcs|
    ensures Owing(pcs[p := pc], i) + One(Owes(pcs[p], i)) == Owing(pcs, i) + One(Owes(pc, i))
  {
    var n := |pcs| - 1;
    if p == n {
      assert pcs[p := pc][..n] == pcs[..n];
    } else {
      assert pcs[p := pc][..n] == pcs[..n][p := pc];
      OwingSet(pcs[..n], p, pc, i);
    }
  }

  lemma {:induction false} OwingSome(pcs: seq<Pc>, p: nat, i: nat)
    requires p < |pcs| && Owes(pcs[p], i)
    ensures Owing(pcs, i) >= 1
  {
    if p < |pcs| - 1 {
      OwingSome(pcs[..|pcs| - 1], p, i);
    }
  }

  lemma {:induction false} OwingNone(pcs: seq<Pc>, i: nat)
    requires forall p :: 0 <= p < |pcs| ==> !Owes(pcs[p], i)
    ensures Owing(pcs, i) == 0
  {
    if pcs != [] {
      OwingNone(pcs[..|pcs| - 1], i);
    }
  }

  function Max0(x: int): nat { if x < 0 then 0 else x }

  ghost predicate Counted(s: State, i: nat)
    requires i < |s.pools|
  {
    s.pools[i].live ==> |s.pools[i].free| == Max0(s.pools[i].cnt) + Owing(s.pcs, i)
  }

  /** With a live semaphore the chain is as long as the semaphore and the
      processes in between say. */
  ghost predicate ChainCounts(s: State) {
    forall i: nat :: i < |s.pools| ==> Counted(s, i)
  }

  /** Only a pool without a live semaphore is followed through its null end. */
  ghost predicate FaultsDead(s: State) {
    forall i :: i in s.fault ==> 0 <= i < |s.pools| && !s.pools[i].live
  }

  ghost predicate Ranges(s: State) {
    forall p {:trigger s.pcs[p]} :: 0 <= p < |s.pcs| && (s.pcs[p].Granted? || s.pcs[p].Pushed?) ==> s.pcs[p].pool < |s.pools|
  }

  ghost predicate Inv(s: State) {
    Sems(s) && Buffers(s) && ChainCounts(s) && Ranges(s) && FaultsDead(s)
  }

  /** One process and one pool change, and the count with them. */
  lemma CountsChange(s: State, r: State, p: nat, i: nat)
    requires ChainCounts(s) && p < |s.pcs| == |r.pcs| && i < |s.pools| && |r.pools| == |s.pools|
    requires r.pcs == s.pcs[p := r.pcs[p]]
    requires forall j :: 0 <= j < |s.pools| && j != i ==> r.pools[j] == s.pools[j]
    requires forall j :: 0 <= j < |s.pools| && j != i ==> Owes(r.pcs[p], j) == Owes(s.pcs[p], j)
    requires r.pools[i].live == s.pools[i].live
    requires s.pools[i].live ==>
      |r.pools[i].free| - Max0(r.pools[i].cnt) - One(Owes(r.pcs[p], i))
      == |s.pools[i].free| - Max0(s.pools[i].cnt) - One(Owes(s.pcs[p], i))
    ensures ChainCounts(r)
  {
    forall j: nat | j < |r.pools| ensures Counted(r, j) {
      OwingSet(s.pcs, p, r.pcs[p], j);
      assert Counted(s, j);
    }
  }

  lemma WaitInv(s: State, p: nat, i: nat)
    requires Inv(s) && p < |s.pcs| && s.pcs[p] == Idle && i < |s.pools|
    ensures Inv(WaitOn(s, p, i))
  {
    var r := WaitOn(s, p, i);
    WaitSems(s, p, i);
    SamePlacesBuffers(s, r);
    CountsChange(s, r, p, i);
  }

  /** A process past a live pool's wait always finds a buffer. */
  lemma GrantedFinds(s: State, p: nat, i: nat)
    requires ChainCounts(s) && p < |s.pcs| && s.pcs[p] == Granted(i) && i < |s.pools| && s.pools[i].live
    ensures s.pools[i].free != []
  {
    OwingSome(s.pcs, p, i);
    assert Counted(s, i);
  }

  lemma UnlinkInv(s: State, p: nat, i: nat)
    requires Inv(s) && p < |s.pcs| && s.pcs[p] == Granted(i) && i < |s.pools|
    ensures s.pools[i].live ==> s.pools[i].free != []
    ensures Inv(Unlink(s, p, i))
  {
    if s.pools[i].live {
      GrantedFinds(s, p, i);
    }
    var r := Unlink(s, p, i);
    if s.pools[i].free == [] {
      SamePlacesBuffers(s, r);
      assert r == s.(fault := r.fault);
      forall j: nat | j < |r.pools| ensures Counted(r, j) {
        assert Counted(s, j);
      }
    } else {
      UnlinkBuffers(s, p, i);
      var b0 := s.pools[i].free[0];
      SemsKeepPool(s, i, s.pools[i].(free := s.pools[i].free[1..]));
      SemsKeepPc(SetPool(s, i, s.pools[i].(free := s.pools[i].free[1..])), p, Popped(i, b0));
      CountsChange(s, r, p, i);
    }
  }

  lemma HeaderInv(s: State, p: nat)
    requires Inv(s) && p < |s.pcs| && s.pcs[p].Popped?
    ensures Inv(Step(s, SetHeader(p)))
  {
    var r := Step(s, SetHeader(p));
    HeaderBuffers(s, p);
    SemsKeepPc(s, p, Idle);
    assert Sems(r);
    assert InTransit(s, s.pcs[p]);
    CountsChange(s, r, p, s.pcs[p].pool);
  }

  lemma FreeInv(s: State, p: nat, b: int)
    requires Inv(s) && p < |s.pcs| && s.pcs[p] == Idle && b in s.out
    ensures Inv(Step(s, FreeBuf(p, b)))
  {
    var r := Step(s, FreeBuf(p, b));
    FreeBuffers(s, p, b);
    var i := s.out[b];
    var q := s.pools[i].(free := [b] + s.pools[i].free);
    SemsKeepPool(s, i, q);
    SemsKeepPc(SetPool(s, i, q), p, Pushed(i));
    assert Sems(r);
    CountsChange(s, r, p, i);
  }

  lemma SignalPlaces(s: State, p: nat, i: nat)
    requires Sems(s) && p < |s.pcs| && s.pcs[p] == Pushed(i) && i < |s.pools|
    ensures SamePlaces(s, SignalOn(SetPc(s, p, Idle), i))
    ensures SignalOn(SetPc(s, p, Idle), i).fault == s.fault
    ensures forall j :: 0 <= j < |s.pools| ==> SignalOn(SetPc(s, p, Idle), i).pools[j].live == s.pools[j].live
  {
    var q := s.pools[i];
    assert SemOK(s.pcs, q, i);
    assert q.queue != [] ==> q.queue[0] in q.queue;
  }

  lemma SignalInv(s: State, p: nat)
    requires Inv(s) && p < |s.pcs| && s.pcs[p].Pushed?
    ensures Inv(Step(s, Signal(p)))
  {
    var i := s.pcs[p].pool;
    var s1 := SetPc(s, p, Idle);
    var r := SignalOn(s1, i);
    SemsKeepPc(s, p, Idle);
    SignalSems(s1, i);
    SignalPlaces(s, p, i);
    SignalCounts(s, p, i);
    hide Sems, ChainCounts, Buffers;
    SamePlacesBuffers(s, r);
  }

  lemma SignalCounts(s: State, p: nat, i: nat)
    requires ChainCounts(s) && Sems(s) && p < |s.pcs| && s.pcs[p] == Pushed(i) && i < |s.pools|
    ensures ChainCounts(SignalOn(SetPc(s, p, Idle), i))
  {
    var q := s.pools[i];
    var s1 := SetPc(s, p, Idle);
    var r := SignalOn(s1, i);
    assert SemOK(s.pcs, q, i);
    assert q.queue != [] ==> q.queue[0] in q.queue;
    forall j: nat | j < |r.pools| ensures Counted(r, j) {
      assert Counted(s, j);
      OwingSet(s.pcs, p, Idle, j);
      if q.live && q.cnt < 0 {
        OwingSet(s1.pcs, q.queue[0], Granted(i), j);
      }
    }
  }

  lemma {:induction false} OwingBeyond(pcs: seq<Pc>, n: nat)
    requires forall p :: 0 <= p < |pcs| && (pcs[p].Granted? || pcs[p].Pushed?) ==> pcs[p].pool < n
    ensures Owing(pcs, n) == 0
  {
    OwingNone(pcs, n);
  }

  lemma MakeInv(s: State, bufsiz: int, numbufs: int, where: int, granted: bool, sem: bool)
    requires Inv(s) && Legal(s, MkPool(bufsiz, numbufs, where, granted, sem))
    ensures Inv(Make(s, bufsiz, numbufs, where, granted, sem))
  {
    var r := Make(s, bufsiz, numbufs, where, granted, sem);
    MakeBuffers(s, bufsiz, numbufs, where, granted, sem);
    OwingBeyond(s.pcs, |s.pools|);
    if r != s {
      assert forall j :: 0 <= j < |s.pools| ==> r.pools[j] == s.pools[j];
      forall j | 0 <= j < |r.pools| ensures SemOK(r.pcs, r.pools[j], j) {
        assert j < |s.pools| ==> SemOK(s.pcs, s.pools[j], j);
      }
      forall j: nat | j < |r.pools| ensures Counted(r, j) {
        assert j < |s.pools| ==> Counted(s, j);
      }
    }
  }

  /** The boot loop takes every pool's semaphore away and leaves the chains. */
  lemma FreeAllInv(s: State)
    requires Inv(s) && Legal(s, FreeSems)
    ensures Inv(FreeAll(s))
  {
    var r := FreeAll(s);
    SamePlacesBuffers(s, r);
    forall i | 0 <= i < |r.pools| ensures SemOK(r.pcs, r.pools[i], i) {
      assert SemOK(s.pcs, s.pools[i], i);
      NoneWaits(s.pcs, s.pools[i], i);
    }
    assert forall i: nat :: i < |r.pools| ==> Counted(r, i);
  }

  lemma NoneWaits(pcs: seq<Pc>, q: Pool, i: nat)
    requires SemOK(pcs, q, i) && forall p :: 0 <= p < |pcs| ==> !pcs[p].Waiting?
    ensures q.queue == []
  {
    if q.queue != [] {
      SomeWaits(pcs, q, i);
      assert false;
    }
  }

  lemma SomeWaits(pcs: seq<Pc>, q: Pool, i: nat)
    requires SemOK(pcs, q, i) && q.queue != []
    ensures exists p :: 0 <= p < |pcs| && pcs[p].Waiting?
  {
    assert q.queue[0] in q.queue;
  }

  /** Every interleaving step keeps all of it. */
  lemma StepInv(s: State, e: Event)
    requires Inv(s) && Legal(s, e)
    ensures Inv(Step(s, e))
  {
    hide Inv, Legal;
    assert Ranges(s) && Held(s) by { InvParts(s); }
    match e
    case GetBuf(p, i) =>
      if p < |s.pcs| && s.pcs[p] == Idle && 0 <= i < |s.pools| {
        WaitInv(s, p, i);
      }
    case NbGetBuf(p, i) =>
      if p < |s.pcs| && s.pcs[p] == Idle && 0 <= i < |s.pools| && Scount(s.pools[i]) > 0 {
        WaitInv(s, p, i);
        UnlinkInv(WaitOn(s, p, i), p, i);
      }
    case Pop(p) =>
      if p < |s.pcs| && s.pcs[p].Granted? {
        UnlinkInv(s, p, s.pcs[p].pool);
      }
    case SetHeader(p) =>
      if p < |s.pcs| && s.pcs[p].Popped? {
        HeaderInv(s, p);
      }
    case FreeBuf(p, b) =>
      if p < |s.pcs| && s.pcs[p] == Idle && b in s.out {
        FreeInv(s, p, b);
      }
    case Signal(p) =>
      if p < |s.pcs| && s.pcs[p].Pushed? {
        SignalInv(s, p);
      }
    case MkPool(bufsiz, numbufs, where, granted, sem) =>
      MakeInv(s, bufsiz, numbufs, where, granted, sem);
    case FreeSems => FreeAllInv(s);
  }

  lemma InvParts(s: State)
    requires Inv(s)
    ensures Ranges(s) && Held(s)
  {
  }

  lemma {:induction false} RunInv(s: State, run: seq<Event>)
    requires Inv(s) && LegalRun(s, run)
    ensures Inv(Exec(s, run))
    decreases |run|
  {
    hide Inv, Legal, Step;
    if run != [] {
      StepInv(s, run[0]);
      RunInv(Step(s, run[0]), run[1..]);
    }
  }

  lemma InitInv(n: nat)
    ensures Inv(Init(n))
  {
    var s := Init(n);
    assert forall p :: 0 <= p < |s.pcs| ==> s.pcs[p] == Idle;
  }

  lemma LiveHolds(s: State, e: Event, i: nat)
    requires Inv(s) && Legal(s, e) && s.fault == {} && i < |s.pools| && s.pools[i].live
    ensures i !in Step(s, e).fault
  {
    StepInv(s, e);
    var r := Step(s, e);
    assert FaultsDead(r);
    hide Inv, Legal;
    assert e == FreeSems || (i < |r.pools| && r.pools[i].live);
  }

  /** From boot, in every interleaving so far without a null link followed: a
      pool with a live semaphore has the chain its count and the processes in
      between say, and the next step does not follow it through its null end. */
  lemma ChainLength(n: nat, run: seq<Event>, i: nat)
    requires LegalRun(Init(n), run) && Exec(Init(n), run).fault == {}
    requires i < |Exec(Init(n), run).pools| && Exec(Init(n), run).pools[i].live
    ensures var s := Exec(Init(n), run); var q := s.pools[i];
      && |q.free| == Max0(q.cnt) + Owing(s.pcs, i)
      && (q.cnt < 0 ==> |q.queue| == -q.cnt) && (q.cnt >= 0 ==> q.queue == [])
      && (forall e :: Legal(s, e) ==> i !in Step(s, e).fault)
  {
    InitInv(n);
    RunInv(Init(n), run);
    hide LegalRun, Exec, Buffers, Legal;
    var s := Exec(Init(n), run);
    forall e | Legal(s, e) ensures i !in Step(s, e).fault {
      LiveHolds(s, e, i);
    }
    hide Step;
    assert SemOK(s.pcs, s.pools[i], i);
    assert Counted(s, i);
  }

  /** The buffer getbuf is about to return is in no other hands, on no chain,
      and belongs to the pool asked. */
  lemma HandedOutOnce(n: nat, run: seq<Event>, p: nat)
    requires LegalRun(Init(n), run) && Exec(Init(n), run).fault == {}
    requires p < |Exec(Init(n), run).pcs| && Exec(Init(n), run).pcs[p].Popped?
    ensures var s := Exec(Init(n), run); var b := s.pcs[p].buf;
      && b !in s.out
      && (forall i :: 0 <= i < |s.pools| ==> b !in s.pools[i].free)
      && (forall p' :: 0 <= p' < |s.pcs| && p' != p && s.pcs[p'].Popped? ==> s.pcs[p'].buf != b)
      && s.pcs[p].pool < |s.pools| && Owns(s.pools[s.pcs[p].pool], b)
  {
    InitInv(n);
    RunInv(Init(n), run);
    hide LegalRun, Exec, Sems, ChainCounts;
    var s := Exec(Init(n), run);
    var b := s.pcs[p].buf;
    assert InTransit(s, s.pcs[p]);
    forall i | 0 <= i < |s.pools| ensures b !in s.pools[i].free {
      assert Owns(s.pools[s.pcs[p].pool], b);
    }
  }

  /** Once every process is out of the pool code and every buffer returned,
      each chain holds all its pool's buffers, and the semaphore counts them. */
  lemma AllReturned(n: nat, run: seq<Event>, i: nat)
    requires LegalRun(Init(n), run) && Exec(Init(n), run).fault == {} && i < |Exec(Init(n), run).pools|
    requires Exec(Init(n), run).out == map[]
    requires forall p :: 0 <= p < |Exec(Init(n), run).pcs| ==> Exec(Init(n), run).pcs[p] == Idle
    ensures var q := Exec(Init(n), run).pools[i];
      && (forall b :: b in q.free <==> Owns(q, b)) && NoDup(q.free) && (q.live ==> q.cnt == |q.free|)
  {
    InitInv(n);
    RunInv(Init(n), run);
    hide LegalRun, Exec;
    var s := Exec(Init(n), run);
    var q := s.pools[i];
    assert SemOK(s.pcs, q, i);
    NoneWaits(s.pcs, q, i);
    OwingNone(s.pcs, i);
    assert Counted(s, i);
    forall b ensures b in q.free <==> Owns(q, b) {
      assert b in q.free ==> Owns(q, b);
    }
  }

  // ---- pools without a live semaphore ----------------------------------------

  /** p gets k buffers of pool i, one after the other, and frees none. */
  function Gets(p: nat, i: int, k: nat): seq<Event> {
    if k == 0 then [] else [GetBuf(p, i), Pop(p), SetHeader(p)] + Gets(p, i, k - 1)
  }

  /** One buffer more than there are: the pop has nothing to take. */
  function OneMore(p: nat, i: int, k: nat): seq<Event> { Gets(p, i, k) + [GetBuf(p, i), Pop(p)] }

  ghost predicate DeadAndIdle(s: State, p: nat, i: nat) {
    p < |s.pcs| && s.pcs[p] == Idle && i < |s.pools| && !s.pools[i].live
  }

  lemma OneGet(s: State, p: nat, i: nat)
    requires DeadAndIdle(s, p, i) && s.pools[i].free != []
    ensures var r := Step(Step(Step(s, GetBuf(p, i)), Pop(p)), SetHeader(p));
      && DeadAndIdle(r, p, i) && r.pools[i].free == s.pools[i].free[1..] && r.fault == s.fault
  {
  }

  /** nbgetbuf never gets anything from such a pool. */
  lemma NbGetsNothing(s: State, p: nat, i: nat)
    requires DeadAndIdle(s, p, i)
    ensures Step(s, NbGetBuf(p, i)) == s
  {
  }

  lemma NoGet(s: State, p: nat, i: nat)
    requires DeadAndIdle(s, p, i) && s.pools[i].free == []
    ensures i in Step(Step(s, GetBuf(p, i)), Pop(p)).fault
  {
  }

  lemma ExecThree(s: State, a: Event, b: Event, c: Event, run: seq<Event>)
    ensures Exec(s, [a, b, c] + run) == Exec(Step(Step(Step(s, a), b), c), run)
  {
    hide Step;
    var all := [a, b, c] + run;
    assert all[1..] == [b, c] + run;
    assert ([b, c] + run)[1..] == [c] + run;
    assert ([c] + run)[1..] == run;
    var s1 := Step(s, a);
    var s2 := Step(s1, b);
    assert Exec(s2, [c] + run) == Exec(Step(s2, c), run);
    assert Exec(s1, [b, c] + run) == Exec(s2, [c] + run);
  }

  lemma ExecTwo(s: State, a: Event, b: Event)
    ensures Exec(s, [a, b]) == Step(Step(s, a), b)
  {
    hide Step;
    assert [a, b][1..] == [b] && [b][1..] == [];
    assert Exec(Step(s, a), [b]) == Step(Step(s, a), b);
  }

  /** A pool without a live semaphore hands out its chain and then follows the
      null end: with k buffers on the chain, at the get after the k-th. */
  lemma {:induction false} GetsFail(s: State, p: nat, i: nat, k: nat)
    requires DeadAndIdle(s, p, i) && |s.pools[i].free| == k
    ensures Exec(s, Gets(p, i, k)).fault == s.fault
    ensures i in Exec(s, OneMore(p, i, k)).fault
    decreases k
  {
    hide Step;
    if k == 0 {
      NoGet(s, p, i);
      ExecTwo(s, GetBuf(p, i), Pop(p));
      assert OneMore(p, i, 0) == [GetBuf(p, i), Pop(p)];
    } else {
      OneGet(s, p, i);
      var r := Step(Step(Step(s, GetBuf(p, i)), Pop(p)), SetHeader(p));
      GetsFail(r, p, i, k - 1);
      ExecThree(s, GetBuf(p, i), Pop(p), SetHeader(p), Gets(p, i, k - 1));
      ExecThree(s, GetBuf(p, i), Pop(p), SetHeader(p), OneMore(p, i, k - 1));
      assert OneMore(p, i, k) == [GetBuf(p, i), Pop(p), SetHeader(p)] + OneMore(p, i, k - 1);
    }
  }

  /** Runs that give every new pool a live semaphore and take none away. */
  ghost predicate Steady(run: seq<Event>) {
    forall k :: 0 <= k < |run| ==> run[k] != FreeSems && (run[k].MkPool? ==> run[k].sem)
  }

  ghost predicate AllLive(s: State) { forall i :: 0 <= i < |s.pools| ==> s.pools[i].live }

  lemma SteadyStep(s: State, e: Event)
    requires AllLive(s) && e != FreeSems && (e.MkPool? ==> e.sem)
    ensures AllLive(Step(s, e))
  {
  }

  lemma {:induction false} SteadyRun(s: State, run: seq<Event>)
    requires AllLive(s) && Steady(run)
    ensures AllLive(Exec(s, run))
    decreases |run|
  {
    hide Step, AllLive;
    if run != [] {
      SteadyStep(s, run[0]);
      assert forall k :: 0 <= k < |run[1..]| ==> run[1..][k] == run[k + 1];
      SteadyRun(Step(s, run[0]), run[1..]);
    }
  }

  /** Nothing but the steps of getbuf. */
  ghost predicate OnlyGets(run: seq<Event>) {
    forall k :: 0 <= k < |run| ==> run[k].GetBuf? || run[k].Pop? || run[k].SetHeader?
  }

  lemma {:induction false} OnlyGetsLegal(s: State, run: seq<Event>)
    requires OnlyGets(run)
    ensures LegalRun(s, run)
    decreases |run|
  {
    hide Step;
    if run != [] {
      assert forall k :: 0 <= k < |run[1..]| ==> run[1..][k] == run[k + 1];
      OnlyGetsLegal(Step(s, run[0]), run[1..]);
    }
  }

  lemma {:induction false} GetsOnly(p: nat, i: int, k: nat)
    ensures OnlyGets(Gets(p, i, k))
    decreases k
  {
    if k > 0 {
      GetsOnly(p, i, k - 1);
    }
  }

  lemma GetsPlain(s: State, p: nat, i: int, k: nat)
    ensures Steady(OneMore(p, i, k)) && LegalRun(s, OneMore(p, i, k))
  {
    GetsOnly(p, i, k);
    hide Gets, LegalRun;
    assert OnlyGets(OneMore(p, i, k));
    OnlyGetsLegal(s, OneMore(p, i, k));
  }

  /** As long as some process is free to call getbuf: no later run follows a
      null link if and only if every pool has a live semaphore. */
  lemma NeverNullExactly(n: nat, run: seq<Event>, p: nat)
    requires LegalRun(Init(n), run) && Exec(Init(n), run).fault == {}
    requires p < |Exec(Init(n), run).pcs| && Exec(Init(n), run).pcs[p] == Idle
    ensures var s := Exec(Init(n), run);
      AllLive(s) <==> forall more :: LegalRun(s, more) && Steady(more) ==> Exec(s, more).fault == {}
  {
    InitInv(n);
    RunInv(Init(n), run);
    var s := Exec(Init(n), run);
    hide Step, Gets, Steady;
    if AllLive(s) {
      forall more | LegalRun(s, more) && Steady(more) ensures Exec(s, more).fault == {} {
        RunInv(s, more);
        SteadyRun(s, more);
        DeadOnly(Exec(s, more));
      }
    } else {
      var i :| 0 <= i < |s.pools| && !s.pools[i].live;
      var k := |s.pools[i].free|;
      GetsFail(s, p, i, k);
      GetsPlain(s, p, i, k);
    }
  }

  lemma DeadOnly(s: State)
    requires FaultsDead(s) && AllLive(s)
    ensures s.fault == {}
  {
    forall i ensures i !in s.fault {
      if i in s.fault {
        SomeDead(s, i);
        assert false;
      }
    }
  }

  lemma SomeDead(s: State, i: int)
    requires FaultsDead(s) && i in s.fault
    ensures !AllLive(s)
  {
  }

  /** The monitor's pool is made before the boot loop frees the semaphore slots:
      whatever screate answered, the get after the sixteenth follows a null link,
      and nbgetbuf, which takes frames off the wire, never gets anything. */
  lemma BootPoolFails(n: nat, where: int, sem: bool, p: nat)
    requires p < n
    ensures var run := [MkPool(1530, 16, where, true, sem), FreeSems] + OneMore(p, 0, 16);
      && LegalRun(Init(n), run) && 0 in Exec(Init(n), run).fault
      && Exec(Init(n), run[..2] + [NbGetBuf(p, 0)]) == Exec(Init(n), run[..2])
  {
    var mk := MkPool(1530, 16, where, true, sem);
    BootPoolDead(n, where, sem, p);
    var s1 := Step(Init(n), mk);
    var s2 := Step(s1, FreeSems);
    var more := OneMore(p, 0, 16);
    hide OneMore, Step, Legal, Init, DeadAndIdle;
    GetsFail(s2, p, 0, 16);
    GetsPlain(s2, p, 0, 16);
    AfterTwo(Init(n), mk, FreeSems, more);
    NbGetsNothing(s2, p, 0);
    ExecTwo(Init(n), mk, FreeSems);
    ExecThree(Init(n), mk, FreeSems, NbGetBuf(p, 0), []);
    assert ([mk, FreeSems] + more)[..2] == [mk, FreeSems];
    assert [mk, FreeSems] + [NbGetBuf(p, 0)] == [mk, FreeSems, NbGetBuf(p, 0)] + [];
  }

  lemma BootPoolDead(n: nat, where: int, sem: bool, p: nat)
    requires p < n
    ensures var mk := MkPool(1530, 16, where, true, sem); var s1 := Step(Init(n), mk); var s2 := Step(s1, FreeSems);
      Legal(Init(n), mk) && Legal(s1, FreeSems) && DeadAndIdle(s2, p, 0) && |s2.pools[0].free| == 16
  {
  }

  lemma AfterTwo(s: State, a: Event, b: Event, more: seq<Event>)
    requires Legal(s, a) && Legal(Step(s, a), b) && LegalRun(Step(Step(s, a), b), more)
    ensures LegalRun(s, [a, b] + more) && Exec(s, [a, b] + more) == Exec(Step(Step(s, a), b), more)
  {
    hide Step, Legal;
    var run := [a, b] + more;
    assert run[1..] == [b] + more && ([b] + more)[1..] == more;
    assert LegalRun(Step(s, a), [b] + more) && Exec(Step(s, a), [b] + more) == Exec(Step(Step(s, a), b), more);
  }
}
