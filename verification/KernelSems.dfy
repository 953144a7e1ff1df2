/** Semaphore calls. */
module KernelSems {
  import opened Ints
  import opened Lists
  import opened KernelSpec
  import opened KernelInv
  import opened KernelSched

  lemma JoinWaitersSettled(s: Sys, m: SemId)
    requires Inv(s) && s.currpid != NULLPROC && s.sem[m].used && s.sem[m].semcnt <= 0
    ensures Settled(JoinWaiters(SetCount(s, m, Wrap32(s.sem[m].semcnt - 1)), m))
    ensures s.sem[m].semcnt >= -NPROC
  {
    hide ReadyOK;
    hide DeltasOK;
    assert CountOK(s, m);
    WaiterBound(s, m);
    var s1 := SetCount(s, m, s.sem[m].semcnt - 1);
    var c := s.currpid;
    var s3 := JoinWaiters(s1, m);
    SameCore(s, s1);
    Unlisted(s1, c);
    HoldCore(s1, c, s3.proc[c]);
    EnqueueCore(SetProc(s1, c, s3.proc[c]), c, m);
    assert SemsBut(s, m);
    SemsButFrame(s, s3, m);
    assert CountOK(s3, m);
  }

  /** wait blocks exactly when the count is not positive. */
  lemma WaitWraps(s: Sys, m: SemId)
    requires Inv(s) && s.sem[m].used
    ensures Wrap32(s.sem[m].semcnt - 1) < 0 <==> s.sem[m].semcnt <= 0
  {
    assert CountOK(s, m);
    WaiterBound(s, m);
  }

  lemma WaitInv(s: Sys, m: int)
    requires Inv(s) && s.currpid != NULLPROC
    ensures Inv(Wait(s, m).0)
  {
    hide Core;
    hide Resched;
    hide JoinWaiters;
    if !NoSem(s, m) {
      assert CountOK(s, m);
      if s.sem[m].semcnt <= 0 {
        JoinWaitersSettled(s, m);
        ReschedInv(JoinWaiters(SetCount(s, m, Wrap32(s.sem[m].semcnt - 1)), m));
      } else {
        var s1 := SetCount(s, m, s.sem[m].semcnt - 1);
        SameCore(s, s1);
        assert SemsBut(s, m);
        SemsButFrame(s, s1, m);
        assert CountOK(s1, m);
      }
    }
  }

  /** There are no more waiters than processes. */
  lemma WaiterBound(s: Sys, m: SemId)
    requires Core(s, -1) && CountOK(s, m)
    ensures |s.lists[SemList(m)]| <= NPROC
    ensures s.sem[m].used ==> s.sem[m].semcnt >= -NPROC
  {
    var q := s.lists[SemList(m)];
    NoDupBound(q, NPROC);
  }

  /** Readying the oldest waiter takes it off the list. */
  lemma ReleaseCore(s: Sys, m: SemId)
    requires Core(s, -1) && s.lists[SemList(m)] != []
    ensures var p := s.lists[SemList(m)][0];
      var r := ReadyNoResch(DropFirst(s, SemList(m)), p);
      p != NULLPROC && Core(r, -1) && OnlyReadied(DropFirst(s, SemList(m)), r)
  {
    var p := s.lists[SemList(m)][0];
    OnHomeList(s, p, SemList(m));
    FirstCore(s, SemList(m));
    ReadyNoReschCore(DropFirst(s, SemList(m)), p);
  }

  function Max(x: int, y: int): int { if x < y then y else x }

  lemma SignalOneCore(s: Sys, m: SemId)
    requires Settled(s) && s.sem[m].used && s.sem[m].semcnt < MAXINT
    ensures Core(SignalOne(s, m), -1) && ClockOK(SignalOne(s, m))
    ensures SignalOne(s, m).sem == s.sem[m := SEntry(true, s.sem[m].semcnt + 1)]
    ensures |SignalOne(s, m).lists[SemList(m)]| == Max(0, |s.lists[SemList(m)]| - 1)
    ensures forall n: SemId :: n != m ==> SignalOne(s, m).lists[SemList(n)] == s.lists[SemList(n)]
  {
    hide Placed;
    hide Distinct;
    hide ReadyOK;
    hide DeltasOK;
    var s1 := SetCount(s, m, s.sem[m].semcnt + 1);
    SameCore(s, s1);
    assert CountOK(s, m);
    if s.sem[m].semcnt < 0 {
      ReleaseCore(s1, m);
    }
  }

  /** One step of signal keeps every count right, as long as the count itself
      does not overflow. */
  lemma SignalOneSettled(s: Sys, m: SemId)
    requires Settled(s) && s.sem[m].used && s.sem[m].semcnt < MAXINT
    ensures Settled(SignalOne(s, m))
    ensures SignalOne(s, m).sem[m] == SEntry(true, s.sem[m].semcnt + 1)
  {
    SignalOneCore(s, m);
    assert CountOK(s, m);
    var r := SignalOne(s, m);
    assert SemsBut(s, m);
    SemsButFrame(s, r, m);
    assert CountOK(r, m);
  }

  /** Even a count that wraps leaves the lists in order. */
  lemma SignalOneLists(s: Sys, m: SemId)
    requires Core(s, -1)
    ensures Core(SignalOne(s, m), -1)
  {
    hide Placed;
    hide Distinct;
    hide ReadyOK;
    hide DeltasOK;
    var s1 := SetCount(s, m, Wrap32(s.sem[m].semcnt + 1));
    SameCore(s, s1);
    if s.lists[SemList(m)] != [] {
      ReleaseCore(s1, m);
    }
  }

  /** A semaphore with a negative count has a waiter ready can take. */
  lemma WaiterThere(s: Sys, m: SemId)
    requires Inv(s) && s.sem[m].used && s.sem[m].semcnt < 0
    ensures !IsBadPid(First(s, SemList(m)))
  {
    assert CountOK(s, m);
    WaiterPid(s, m);
  }

  lemma WaiterPid(s: Sys, m: SemId)
    requires Core(s, -1) && s.lists[SemList(m)] != []
    ensures !IsBadPid(s.lists[SemList(m)][0])
  {
    OnHomeList(s, s.lists[SemList(m)][0], SemList(m));
  }

  lemma SignalInv(s: Sys, m: int)
    requires Inv(s) && (NoSem(s, m) || s.sem[m].semcnt < MAXINT)
    ensures Inv(Signal(s, m).0)
  {
    if !NoSem(s, m) {
      SignalOneSettled(s, m);
      assert CountOK(s, m);
      if s.sem[m].semcnt < 0 {
        OnHomeList(s, s.lists[SemList(m)][0], SemList(m));
        ReschedInv(SignalOne(s, m));
      }
    }
  }

  lemma {:induction false} SignalLoopSettled(s: Sys, m: SemId, n: nat)
    requires Settled(s) && s.sem[m].used && s.sem[m].semcnt + n <= MAXINT
    ensures Settled(SignalLoop(s, m, n))
    ensures SignalLoop(s, m, n).sem[m] == SEntry(true, s.sem[m].semcnt + n)
    decreases n
  {
    if n > 0 {
      SignalOneSettled(s, m);
      SignalLoopSettled(SignalOne(s, m), m, n - 1);
    }
  }

  /** A new return value for a process on a semaphore's list. */
  lemma MarkCore(s: Sys, p: Pid)
    requires Core(s, p) && s.proc[p].pstate == PrWait && p != NULLPROC
    ensures Core(SetProc(s, p, s.proc[p].(pwaitret := DELETED)), p)
  {
    HoldCore(s, p, s.proc[p].(pwaitret := DELETED));
  }

  /** One turn of the drain loop. */
  function DrainOne(s: Sys, l: ListId, deleted: bool): Sys
    requires s.lists[l] != []
  {
    var p := s.lists[l][0];
    var s1 := DropFirst(s, l);
    ReadyNoResch(if deleted then SetProc(s1, p, s1.proc[p].(pwaitret := DELETED)) else s1, p)
  }

  lemma DrainOneCore(s: Sys, m: SemId, deleted: bool)
    requires Core(s, -1) && s.lists[SemList(m)] != []
    ensures var r := DrainOne(s, SemList(m), deleted);
      Core(r, -1) && OnlyReadied(DropFirst(s, SemList(m)), r)
  {
    var l := SemList(m);
    var p := s.lists[l][0];
    OnHomeList(s, p, l);
    if deleted {
      FirstCore(s, l);
      MarkCore(DropFirst(s, l), p);
      ReadyNoReschCore(SetProc(DropFirst(s, l), p, s.proc[p].(pwaitret := DELETED)), p);
    } else {
      ReleaseCore(s, m);
    }
  }

  lemma DrainUnfold(s: Sys, m: SemId, deleted: bool)
    requires s.lists[SemList(m)] != []
    ensures DrainLoop(s, SemList(m), deleted) == DrainLoop(DrainOne(s, SemList(m), deleted), SemList(m), deleted)
  {
  }

  /** Readying everyone on a semaphore's list empties it and nothing else. */
  lemma {:induction false} DrainCore(s: Sys, m: SemId, deleted: bool)
    requires Core(s, -1)
    ensures var r := DrainLoop(s, SemList(m), deleted);
      && Core(r, -1) && r.lists[SemList(m)] == []
      && OnlyReadied(SetList(s, SemList(m), []), r)
    decreases |s.lists[SemList(m)]|
  {
    if s.lists[SemList(m)] != [] {
      DrainOneCore(s, m, deleted);
      DrainCore(DrainOne(s, SemList(m), deleted), m, deleted);
    }
  }

  lemma SResetSettled(s: Sys, m: SemId, n: Int32)
    requires Inv(s) && n >= 0
    ensures Settled(SetCount(DrainLoop(s, SemList(m), false), m, n))
  {
    hide Placed;
    hide Distinct;
    hide ReadyOK;
    hide DeltasOK;
    DrainCore(s, m, false);
    var r := SetCount(DrainLoop(s, SemList(m), false), m, n);
    SameCore(DrainLoop(s, SemList(m), false), r);
    assert SemsBut(s, m);
    SemsButFrame(s, r, m);
    assert CountOK(r, m);
  }

  lemma SResetInv(s: Sys, m: int, n: Int32)
    requires Inv(s)
    ensures Inv(SReset(s, m, n).0)
  {
    hide Core;
    hide Resched;
    if !NoSem(s, m) && n >= 0 {
      SResetSettled(s, m, n);
      ReschedInv(SetCount(DrainLoop(s, SemList(m), false), m, n));
    }
  }

  /** The slot of m given back, its waiters still queued. */
  function Freed(s: Sys, m: SemId): Sys {
    s.(sem := s.sem[m := s.sem[m].(used := false)])
  }

  lemma SDeleteSettled(s: Sys, m: SemId)
    requires Inv(s)
    ensures Core(Freed(s, m), -1)
    ensures Settled(DrainLoop(Freed(s, m), SemList(m), true))
    ensures s.lists[SemList(m)] == [] ==> Inv(Freed(s, m))
  {
    hide Placed;
    hide Distinct;
    hide ReadyOK;
    hide DeltasOK;
    var s1 := Freed(s, m);
    SameCore(s, s1);
    assert SemsBut(s, m);
    SemsButFrame(s, s1, m);
    DrainCore(s1, m, true);
    var r := DrainLoop(s1, SemList(m), true);
    SemsButFrame(s1, r, m);
    assert CountOK(r, m);
    if s.lists[SemList(m)] == [] {
      assert CountOK(s1, m);
    }
  }

  lemma SDeleteInv(s: Sys, m: int)
    requires Inv(s)
    ensures Inv(SDelete(s, m).0)
  {
    hide Core;
    hide Resched;
    if !NoSem(s, m) {
      SDeleteSettled(s, m);
      if s.lists[SemList(m)] != [] {
        ReschedInv(DrainLoop(Freed(s, m), SemList(m), true));
      }
    }
  }

  /** The slot newsem looks at in its i-th step. */
  function SemSlot(from: SemId, i: nat): SemId
    requires i < NSEM
  {
    if i <= from then from - i else from - i + NSEM
  }

  /** newsem finds a free slot whenever there is one. */
  lemma {:induction false} NewSemFinds(sem: SemTab, from: SemId, n: nat)
    requires n <= NSEM
    ensures var m := NewSem(sem, from, n).0;
      if IsBadSem(m)
      then m == SYSERR && forall i: nat :: i < n ==> sem[SemSlot(from, i)].used
      else !sem[m].used
    decreases n
  {
    if n > 0 && sem[from].used {
      NewSemFinds(sem, PrevSem(from), n - 1);
      forall i: nat | i < n ensures NewSem(sem, from, n).0 == SYSERR ==> sem[SemSlot(from, i)].used {
        if i > 0 {
          assert SemSlot(from, i) == SemSlot(PrevSem(from), i - 1);
        }
      }
    }
  }

  lemma NewSemRange(s: Sys)
    ensures var m := NewSem(s.sem, s.nextsem, NSEM).0;
      m == SYSERR || (!IsBadSem(m) && !s.sem[m].used)
  {
    NewSemFinds(s.sem, s.nextsem, NSEM);
  }

  /** screate fails for a count of 0 or more only when every slot is taken. */
  lemma SCreateFinds(s: Sys, n: Int32)
    requires n >= 0
    ensures SCreate(s, n).1 == Returns(SYSERR) <==> forall m: SemId :: s.sem[m].used
  {
    NewSemFinds(s.sem, s.nextsem, NSEM);
    var m := NewSem(s.sem, s.nextsem, NSEM).0;
    if IsBadSem(m) {
      forall k: SemId ensures s.sem[k].used {
        var i := if k <= s.nextsem then s.nextsem - k else s.nextsem - k + NSEM;
        assert SemSlot(s.nextsem, i) == k;
      }
    }
  }

  lemma SCreateInv(s: Sys, n: Int32)
    requires Inv(s)
    ensures Inv(SCreate(s, n).0)
  {
    NewSemFinds(s.sem, s.nextsem, NSEM);
    var m := NewSem(s.sem, s.nextsem, NSEM).0;
    if n >= 0 && !IsBadSem(m) {
      var r := SCreate(s, n).0;
      assert CountOK(s, m);
      SemsButFrame(s, r, m);
      assert CountOK(r, m);
    } else {
      SemsFrame(s, SCreate(s, n).0);
    }
  }
}
