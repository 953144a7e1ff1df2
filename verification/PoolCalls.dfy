/** What each call on a pool does: who gets a buffer, which one, who waits and
    who is woken. */
module PoolCalls {
  import opened PoolSpec
  import opened PoolRuns

  // ---- mkpool ----------------------------------------------------------------

  /** mkpool makes a pool if and only if its arguments are in range, the table has
      room and getmem granted the block; all buffers are on the new chain. */
  lemma MakeExactly(s: State, bufsiz: int, numbufs: int, where: int, granted: bool, sem: bool)
    ensures var r := Step(s, MkPool(bufsiz, numbufs, where, granted, sem)); var n := |s.pools|;
      if 2 <= bufsiz <= 131072 && 1 <= numbufs <= 256 && n < 20 && granted then
        && |r.pools| == n + 1 && r.pools[..n] == s.pools
        && r.pools[n].total == numbufs == |r.pools[n].free| && r.pools[n].live == sem
        && (forall k :: 0 <= k < numbufs ==> r.pools[n].free[k] == where + k * (bufsiz + 4))
        && (sem ==> r.pools[n].cnt == numbufs) && r.pools[n].queue == []
        && r == s.(pools := r.pools)
      else r == s
  {
  }

  // ---- the calls ----------------------------------------------------------------

  ghost predicate Calls(s: State, p: nat, i: int) {
    p < |s.pcs| && s.pcs[p] == Idle && 0 <= i < |s.pools|
  }

  /** getbuf waits if and only if the pool's count is used up, and then at the
      end of the queue. */
  lemma GetExactly(s: State, p: nat, i: nat)
    requires Calls(s, p, i) && s.pools[i].live
    ensures var r := Step(s, GetBuf(p, i)); var q := s.pools[i];
      && r.pcs == s.pcs[p := if q.cnt <= 0 then Waiting(i) else Granted(i)]
      && r.pools == s.pools[i := q.(cnt := q.cnt - 1, queue := if q.cnt <= 0 then q.queue + [p] else q.queue)]
      && r.out == s.out && r.fault == s.fault
  {
  }

  /** nbgetbuf never waits: it gets the first buffer if and only if the count is
      positive, and otherwise changes nothing. */
  lemma NbGetExactly(s: State, p: nat, i: nat)
    requires Inv(s) && Calls(s, p, i) && s.pools[i].live
    ensures var r := Step(s, NbGetBuf(p, i)); var q := s.pools[i];
      if q.cnt <= 0 then r == s
      else q.free != [] && r.pcs == s.pcs[p := Popped(i, q.free[0])]
           && r.pools == s.pools[i := q.(cnt := q.cnt - 1, free := q.free[1..])] && r.out == s.out && r.fault == s.fault
  {
    if s.pools[i].cnt > 0 {
      assert WaitOn(s, p, i).pcs[p] == Granted(i);
      WaitInv(s, p, i);
      GrantedFinds(WaitOn(s, p, i), p, i);
    }
  }

  /** A signal raises the count and, if anybody waits, grants the one that has
      waited longest. */
  lemma SignalExactly(s: State, p: nat)
    requires Inv(s) && p < |s.pcs| && s.pcs[p].Pushed? && s.pools[s.pcs[p].pool].live
    ensures var r := Step(s, Signal(p)); var i := s.pcs[p].pool; var q := s.pools[i];
      && (q.queue != [] ==> q.queue[0] < |s.pcs|)
      && r.pools == s.pools[i := q.(cnt := q.cnt + 1, queue := if q.queue == [] then [] else q.queue[1..])]
      && r.pcs == (if q.queue == [] then s.pcs[p := Idle] else s.pcs[p := Idle][q.queue[0] := Granted(i)])
      && r.out == s.out && r.fault == s.fault
  {
    var i := s.pcs[p].pool;
    SignalParts(s, p);
    hide Inv;
  }

  lemma SignalParts(s: State, p: nat)
    requires Inv(s) && p < |s.pcs| && s.pcs[p].Pushed?
    ensures var i := s.pcs[p].pool;
      && i < |s.pools|
      && (s.pools[i].live && s.pools[i].queue != [] ==> s.pools[i].cnt < 0 && s.pools[i].queue[0] < |s.pcs|)
      && (s.pools[i].live && s.pools[i].queue == [] ==> s.pools[i].cnt >= 0)
  {
    assert Ranges(s);
    var i := s.pcs[p].pool;
    assert SemOK(s.pcs, s.pools[i], i);
    if s.pools[i].queue != [] {
      assert s.pools[i].queue[0] in s.pools[i].queue;
    }
  }

  /** A granted process takes the first buffer and is told the pool's header is
      to be written in it. */
  lemma PopExactly(s: State, p: nat)
    requires Inv(s) && p < |s.pcs| && s.pcs[p].Granted? && s.pools[s.pcs[p].pool].live
    ensures var i := s.pcs[p].pool; var q := s.pools[i]; var r := Step(s, Pop(p));
      && i < |s.pools| && q.free != [] && r.pcs == s.pcs[p := Popped(i, q.free[0])]
      && r.pools == s.pools[i := q.(free := q.free[1..])] && r.out == s.out && r.fault == s.fault
  {
    assert Ranges(s);
    GrantedFinds(s, p, s.pcs[p].pool);
    hide Inv;
  }

  /** The five steps of getbuf and freebuf on one buffer. */
  function GetAndFree(p: nat, i: int, b: int): seq<Event> {
    [GetBuf(p, i), Pop(p), SetHeader(p), FreeBuf(p, b), Signal(p)]
  }

  lemma ExecFive(s: State, a: Event, b: Event, c: Event, d: Event, e: Event)
    ensures Exec(s, [a, b, c, d, e]) == Step(Step(Step(Step(Step(s, a), b), c), d), e)
  {
    hide Step;
    ExecThree(s, a, b, c, [d, e]);
    ExecTwo(Step(Step(Step(s, a), b), c), d, e);
    assert [a, b, c] + [d, e] == [a, b, c, d, e];
  }

  // the steps on a pool nobody waits for

  lemma GetStep(s: State, p: nat, i: nat)
    requires Calls(s, p, i) && s.pools[i].live && s.pools[i].cnt > 0
    ensures Step(s, GetBuf(p, i)) == SetPc(SetPool(s, i, s.pools[i].(cnt := s.pools[i].cnt - 1)), p, Granted(i))
  {
  }

  lemma PopStep(s: State, p: nat, i: nat)
    requires p < |s.pcs| && i < |s.pools| && s.pcs[p] == Granted(i) && s.pools[i].free != []
    ensures var q := s.pools[i];
      Step(s, Pop(p)) == SetPc(SetPool(s, i, q.(free := q.free[1..])), p, Popped(i, q.free[0]))
  {
  }

  lemma HeaderStep(s: State, p: nat, i: nat, b: int)
    requires p < |s.pcs| && s.pcs[p] == Popped(i, b)
    ensures Step(s, SetHeader(p)) == SetPc(s, p, Idle).(out := s.out[b := i])
  {
  }

  lemma FreeStep(s: State, p: nat, i: nat, b: int)
    requires p < |s.pcs| && s.pcs[p] == Idle && b in s.out && s.out[b] == i < |s.pools|
    ensures var q := s.pools[i];
      Step(s, FreeBuf(p, b)) == SetPc(SetPool(s, i, q.(free := [b] + q.free)), p, Pushed(i)).(out := s.out - {b})
  {
  }

  lemma SignalStep(s: State, p: nat, i: nat)
    requires p < |s.pcs| && i < |s.pools| && s.pcs[p] == Pushed(i) && s.pools[i].live && s.pools[i].queue == []
    ensures Step(s, Signal(p)) == SetPc(SetPool(s, i, s.pools[i].(cnt := s.pools[i].cnt + 1)), p, Idle)
  {
  }

  lemma WakeStep(s: State, p: nat, i: nat)
    requires p < |s.pcs| && i < |s.pools| && s.pcs[p] == Pushed(i) && s.pools[i].live && s.pools[i].cnt < 0
    requires s.pools[i].queue != [] && s.pools[i].queue[0] < |s.pcs|
    ensures var q := s.pools[i];
      Step(s, Signal(p))
        == SetPc(SetPool(SetPc(s, p, Idle), i, q.(cnt := q.cnt + 1, queue := q.queue[1..])), q.queue[0], Granted(i))
  {
  }

  /** Getting a buffer and giving it back, with nothing in between, restores the
      pool and everything else. */
  lemma GetFreeRestores(s: State, p: nat, i: nat)
    requires Inv(s) && Calls(s, p, i) && s.pools[i].live && s.pools[i].cnt > 0
    ensures var b := s.pools[i].free;
      b != [] && Exec(s, GetAndFree(p, i, b[0])) == s
  {
    NbGetExactly(s, p, i);
    FirstIsIn(s, i);
    NobodyWaits(s, i);
    var q := s.pools[i];
    var b := q.free[0];
    hide Inv, Step;
    ExecFive(s, GetBuf(p, i), Pop(p), SetHeader(p), FreeBuf(p, b), Signal(p));
    var s1 := Step(s, GetBuf(p, i));
    GetStep(s, p, i);
    var s2 := Step(s1, Pop(p));
    PopStep(s1, p, i);
    var s3 := Step(s2, SetHeader(p));
    HeaderStep(s2, p, i, b);
    var s4 := Step(s3, FreeBuf(p, b));
    FreeStep(s3, p, i, b);
    var s5 := Step(s4, Signal(p));
    SignalStep(s4, p, i);
    assert [b] + q.free[1..] == q.free;
    assert s5.pools[i] == q;
    assert s5.pools == s.pools && s5.pcs == s.pcs;
    assert s5.out == s.out;
  }

  lemma FirstIsIn(s: State, i: nat)
    requires Inv(s) && i < |s.pools| && s.pools[i].free != []
    ensures s.pools[i].free[0] !in s.out
  {
    assert Buffers(s);
    hide Inv, Cut;
    var b := s.pools[i].free[0];
    assert b in s.pools[i].free;
  }

  lemma NobodyWaits(s: State, i: nat)
    requires Inv(s) && i < |s.pools| && s.pools[i].cnt >= 0
    ensures s.pools[i].queue == []
  {
    assert SemOK(s.pcs, s.pools[i], i);
  }

  /** A buffer freed while others wait goes to the one that has waited longest. */
  lemma FreedIsHandedOn(s: State, p: nat, b: int)
    requires Inv(s) && p < |s.pcs| && s.pcs[p] == Idle && b in s.out && 0 <= s.out[b] < |s.pools|
    requires var q := s.pools[s.out[b]]; q.live && q.queue != [] && q.free == []
    ensures var i := s.out[b]; var w := s.pools[i].queue[0]; var r := Exec(s, [FreeBuf(p, b), Signal(p), Pop(w)]);
      && w < |s.pcs| && r.pcs == s.pcs[w := Popped(i, b)]
      && |r.pools| == |s.pools| && r.pools[i].queue == s.pools[i].queue[1..] && r.pools[i].free == []
  {
    var i := s.out[b];
    var w := s.pools[i].queue[0];
    WaiterIs(s, i);
    FreeStep(s, p, i, b);
    hide Inv, Step;
    var s1 := Step(s, FreeBuf(p, b));
    WakeStep(s1, p, i);
    var s2 := Step(s1, Signal(p));
    assert s2.pcs == s.pcs[w := Granted(i)];
    PopStep(s2, w, i);
    ExecThree(s, FreeBuf(p, b), Signal(p), Pop(w), []);
    assert [FreeBuf(p, b), Signal(p), Pop(w)] + [] == [FreeBuf(p, b), Signal(p), Pop(w)];
  }

  lemma WaiterIs(s: State, i: nat)
    requires Inv(s) && i < |s.pools| && s.pools[i].queue != []
    ensures var w := s.pools[i].queue[0]; w < |s.pcs| && s.pcs[w] == Waiting(i) && s.pools[i].cnt < 0
  {
    assert SemOK(s.pcs, s.pools[i], i);
    assert s.pools[i].queue[0] in s.pools[i].queue;
  }
}
