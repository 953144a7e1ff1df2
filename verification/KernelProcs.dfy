/** Messages, process creation and process death. */
module KernelProcs {
  import opened Ints
  import opened Lists
  import opened KernelSpec
  import opened KernelInv
  import opened KernelSched
  import opened KernelClock

  // ---- messages --------------------------------------------------------

  /** The tables when send calls ready. */
  function Delivered(s: Sys, p: Pid, msg: Int32): Sys {
    var s1 := SetProc(s, p, s.proc[p].(pmsg := msg, phasmsg := true));
    if s.proc[p].pstate == PrTRecv then Unsleep(s1, p) else s1
  }

  /** A message wakes a process waiting for one, with or without a time limit. */
  lemma DeliveredCore(s: Sys, p: Pid, msg: Int32)
    requires Core(s, -1) && SemsOK(s) && ClockOK(s) && p != NULLPROC
    requires s.proc[p].pstate in {PrRecv, PrTRecv}
    ensures var d := Delivered(s, p, msg);
      && Core(d, p) && SemsOK(d) && ClockOK(d) && MessageOK(d.proc[p].(pstate := PrReady))
  {
    hide Placed;
    hide Distinct;
    hide ReadyOK;
    hide DeltasOK;
    var e := s.proc[p].(pmsg := msg, phasmsg := true);
    var s1 := SetProc(s, p, e);
    if s.proc[p].pstate == PrRecv {
      Unlisted(s, p);
      HoldCore(s, p, e);
      SemsFrame(s, s1);
    } else {
      UnsleepCore(s, p);
      UnsleepShape(s, p);
      UnsleepShape(s1, p);
      HoldCore(Unsleep(s, p), p, e);
      assert Unsleep(s1, p) == SetProc(Unsleep(s, p), p, e);
      SemsFrame(s, Unsleep(s1, p));
    }
  }

  /** ready gets the receiver detached and with its message. */
  lemma DeliveredReady(s: Sys, p: Pid, msg: Int32)
    requires Inv(s) && p != NULLPROC
    ensures s.proc[p].pstate == PrTRecv ==> p in s.lists[CLK]
    ensures s.proc[p].pstate in {PrRecv, PrTRecv} ==>
      && Core(ReadyNoResch(Delivered(s, p, msg), p), -1)
      && forall l: ListId :: p !in Delivered(s, p, msg).lists[l]
  {
    hide ReadyOK;
    hide DeltasOK;
    hide Unsleep;
    OnClockQueue(s, p);
    if s.proc[p].pstate in {PrRecv, PrTRecv} {
      DeliveredCore(s, p, msg);
      ReadyNoReschCore(Delivered(s, p, msg), p);
    }
  }

  lemma SendInv(s: Sys, p: int, msg: Int32)
    requires Inv(s)
    ensures Inv(Send(s, p, msg).0)
  {
    hide Placed;
    hide Distinct;
    hide ReadyOK;
    hide DeltasOK;
    hide Ready;
    hide Unsleep;
    if !IsBadPid(p) && s.proc[p].pstate != PrFree && !s.proc[p].phasmsg {
      if s.proc[p].pstate in {PrRecv, PrTRecv} {
        DeliveredCore(s, p, msg);
        ReadySettled(Delivered(s, p, msg), p);
      } else {
        var e := s.proc[p].(pmsg := msg, phasmsg := true);
        RewriteCore(s, p, e);
        SemsFrame(s, SetProc(s, p, e));
        RunningFrame(s, p, e);
      }
    }
  }

  /** The running process still is the right one when an entry keeps its state
      and priority. */
  lemma RunningFrame(s: Sys, p: Pid, e: PEntry)
    requires Running(s) && e.pstate == s.proc[p].pstate && e.pprio == s.proc[p].pprio
    ensures Running(SetProc(s, p, e))
  {
  }

  lemma ReceivingSettled(s: Sys)
    requires Inv(s) && s.currpid != NULLPROC && !s.proc[s.currpid].phasmsg
    ensures Settled(SetProc(s, s.currpid, s.proc[s.currpid].(pending := InReceive, pstate := PrRecv)))
  {
    hide Placed;
    hide Distinct;
    hide ReadyOK;
    hide DeltasOK;
    var c := s.currpid;
    var e := s.proc[c].(pending := InReceive, pstate := PrRecv);
    RewriteCore(s, c, e);
    SemsFrame(s, SetProc(s, c, e));
  }

  lemma ReceiveInv(s: Sys)
    requires Inv(s) && s.currpid != NULLPROC
    ensures Inv(Receive(s).0)
  {
    hide Placed;
    hide Distinct;
    hide ReadyOK;
    hide DeltasOK;
    hide Resched;
    var c := s.currpid;
    var e := s.proc[c].(pending := InReceive);
    if e.phasmsg {
      RewriteCore(s, c, e);
      SemsFrame(s, SetProc(s, c, e));
      RunningFrame(s, c, e);
    } else {
      ReceivingSettled(s);
      ReschedInv(SetProc(s, c, e.(pstate := PrRecv)));
    }
  }

  lemma RecvTimInv(s: Sys, n: Int32)
    requires Inv(s) && s.currpid != NULLPROC && (n > 0 ==> n * 1000 <= MAXINT)
    ensures Inv(RecvTim(s, n).0)
  {
    hide Placed;
    hide Distinct;
    hide ReadyOK;
    hide DeltasOK;
    hide Doze;
    if n >= 0 && s.clkruns {
      var c := s.currpid;
      var e := s.proc[c].(pending := InRecvTim);
      if e.phasmsg {
        RewriteCore(s, c, e);
        SemsFrame(s, SetProc(s, c, e));
        RunningFrame(s, c, e);
      } else {
        DozeInv(s, n * 1000, e.(pstate := PrTRecv));
      }
    }
  }

  // ---- creation and death ----------------------------------------------

  function PidSlot(from: Pid, i: nat): Pid
    requires i < NPROC
  {
    if i <= from then from - i else from - i + NPROC
  }

  /** newpid finds a free slot whenever there is one. */
  lemma {:induction false} NewPidFinds(proc: ProcTab, from: Pid, n: nat)
    requires n <= NPROC
    ensures var p := NewPid(proc, from, n).0;
      if p == SYSERR
      then forall i: nat :: i < n ==> proc[PidSlot(from, i)].pstate != PrFree
      else 0 <= p < NPROC && proc[p].pstate == PrFree
    decreases n
  {
    if n > 0 && proc[from].pstate != PrFree {
      NewPidFinds(proc, PrevPid(from), n - 1);
      forall i: nat | i < n
        ensures NewPid(proc, from, n).0 == SYSERR ==> proc[PidSlot(from, i)].pstate != PrFree
      {
        if i > 0 {
          assert PidSlot(from, i) == PidSlot(PrevPid(from), i - 1);
        }
      }
    }
  }

  /** p is the first free slot newpid comes to in n steps from `from`. */
  ghost predicate FirstFree(proc: ProcTab, from: Pid, n: nat, p: Pid)
    requires n <= NPROC
  {
    exists i: nat :: i < n && PidSlot(from, i) == p && proc[p].pstate == PrFree
      && forall k: nat :: k < i ==> proc[PidSlot(from, k)].pstate != PrFree
  }

  lemma {:induction false} NewPidFirst(proc: ProcTab, from: Pid, n: nat, p: Pid)
    requires n <= NPROC
    ensures NewPid(proc, from, n).0 == p <==> FirstFree(proc, from, n, p)
    decreases n
  {
    if n > 0 {
      assert PidSlot(from, 0) == from;
      if proc[from].pstate == PrFree {
        assert FirstFree(proc, from, n, from);
      } else {
        NewPidFirst(proc, PrevPid(from), n - 1, p);
        forall k: nat | k < n - 1 ensures PidSlot(from, k + 1) == PidSlot(PrevPid(from), k) {
        }
        FirstFreeNext(proc, from, n, p);
      }
    }
  }

  lemma FirstFreeNext(proc: ProcTab, from: Pid, n: nat, p: Pid)
    requires 0 < n <= NPROC && proc[from].pstate != PrFree
    ensures FirstFree(proc, from, n, p) <==> FirstFree(proc, PrevPid(from), n - 1, p)
  {
    assert PidSlot(from, 0) == from;
    forall k: nat | k < n - 1 ensures PidSlot(from, k + 1) == PidSlot(PrevPid(from), k) {
    }
    if FirstFree(proc, from, n, p) {
      var i: nat :| i < n && PidSlot(from, i) == p && proc[p].pstate == PrFree
        && forall k: nat :: k < i ==> proc[PidSlot(from, k)].pstate != PrFree;
      assert PidSlot(PrevPid(from), i - 1) == p;
      forall k: nat | k < i - 1 ensures proc[PidSlot(PrevPid(from), k)].pstate != PrFree {
        assert PidSlot(from, k + 1) == PidSlot(PrevPid(from), k);
      }
    }
    if FirstFree(proc, PrevPid(from), n - 1, p) {
      var i: nat :| i < n - 1 && PidSlot(PrevPid(from), i) == p && proc[p].pstate == PrFree
        && forall k: nat :: k < i ==> proc[PidSlot(PrevPid(from), k)].pstate != PrFree;
      assert PidSlot(from, i + 1) == p;
      forall k: nat | k < i + 1 ensures proc[PidSlot(from, k)].pstate != PrFree {
        assert k > 0 ==> PidSlot(from, k) == PidSlot(PrevPid(from), k - 1);
      }
    }
  }

  /** With room for the stack and a priority above 0, create fails only when
      every slot is taken; otherwise it suspends a new process in a free one. */
  lemma CreateFinds(s: Sys, prio: Int32)
    requires prio >= 1
    ensures match Create(s, true, prio).1
      case Returns(p) =>
        if p == SYSERR then forall q: Pid :: s.proc[q].pstate != PrFree
        else && 0 <= p < NPROC && s.proc[p].pstate == PrFree
             && Create(s, true, prio).0.proc[p].pstate == PrSusp
             && Create(s, true, prio).0.proc[p].pprio == prio
      case Blocks => false
  {
    NewPidFinds(s.proc, s.nextproc, NPROC);
    var p := NewPid(s.proc, s.nextproc, NPROC).0;
    if p == SYSERR {
      forall q: Pid ensures s.proc[q].pstate != PrFree {
        var i := if q <= s.nextproc then s.nextproc - q else s.nextproc - q + NPROC;
        assert PidSlot(s.nextproc, i) == q;
      }
    }
  }

  lemma CreateInv(s: Sys, stack: bool, prio: Int32)
    requires Inv(s)
    ensures Inv(Create(s, stack, prio).0)
  {
    hide Placed;
    hide Distinct;
    hide ReadyOK;
    hide DeltasOK;
    var r := Create(s, stack, prio).0;
    if stack {
      NewPidFinds(s.proc, s.nextproc, NPROC);
      var p := NewPid(s.proc, s.nextproc, NPROC).0;
      if r.proc != s.proc {
        var e := r.proc[p];
        RewriteCore(s, p, e);
        SameCore(SetProc(s, p, e), r);
        SemsFrame(s, r);
        CreatedRunning(s, p, e);
      } else {
        SameCore(s, r);
        SemsFrame(s, r);
      }
    }
  }

  lemma CreatedRunning(s: Sys, p: Pid, e: PEntry)
    requires Inv(s) && s.proc[p].pstate == PrFree
    ensures Running(SetProc(s, p, e))
  {
  }

  lemma SetNokInv(s: Sys, nok: Int32, p: int)
    requires Inv(s)
    ensures Inv(SetNok(s, nok, p).0)
  {
    hide Placed;
    hide Distinct;
    hide ReadyOK;
    hide DeltasOK;
    if !IsBadPid(p) {
      var e := s.proc[p].(pnxtkin := nok);
      RewriteCore(s, p, e);
      SemsFrame(s, SetProc(s, p, e));
      RunningFrame(s, p, e);
    }
  }

  lemma KillInv(s: Sys, p: int)
    requires Inv(s)
    ensures Inv(Kill(s, p).0)
  {
    hide Core;
    hide SemsOK;
    hide Send;
    hide ClockOK;
    if !IsBadPid(p) && s.proc[p].pstate != PrFree {
      PendingCore(s, InKill(p));
      SendInv(SetPending(s, s.currpid, InKill(p)), s.proc[p].pnxtkin, p);
    }
  }

  /** Killing a waiter gives back the count it had taken. */
  lemma RemoveWaiter(s: Sys, p: Pid)
    requires Inv(s) && s.proc[p].pstate == PrWait && p != NULLPROC
    ensures Inv(Remove(s, p))
  {
    hide NoDup;
    hide ReadyOK;
    hide DeltasOK;
    var m := s.proc[p].psem;
    var l := SemList(m);
    AtHome(s, p);
    assert CountOK(s, m);
    DetachCore(s, p, l);
    WithoutCount(s, p, l);
    var e := s.proc[p].(pstate := PrFree);
    HoldCore(Dequeue(s, p, l), p, e);
    var r := Remove(s, p);
    SameCore(SetProc(Dequeue(s, p, l), p, e), r);
    SemsButFrame(s, r, m);
    assert CountOK(r, m);
  }

  lemma WithoutCount(s: Sys, p: Pid, l: ListId)
    requires Distinct(s) && p in s.lists[l]
    ensures |Without(s.lists[l], p)| == |s.lists[l]| - 1
  {
    WithoutNoDup(s.lists[l], p);
  }

  lemma RemoveReady(s: Sys, p: Pid)
    requires Inv(s) && s.proc[p].pstate == PrReady && p != NULLPROC
    ensures Inv(Remove(s, p))
  {
    var e := s.proc[p].(pstate := PrFree);
    AtHome(s, p);
    DetachCore(s, p, RDY);
    HoldCore(Dequeue(s, p, RDY), p, e);
    assert Remove(s, p) == SetProc(Dequeue(s, p, RDY), p, e);
    SemsFrame(s, Remove(s, p));
    WithoutNoDup(s.lists[RDY], p);
  }

  lemma RemoveSleeper(s: Sys, p: Pid)
    requires Inv(s) && s.proc[p].pstate in {PrSleep, PrTRecv} && p != NULLPROC
    ensures Inv(Remove(s, p))
  {
    hide Placed;
    hide Distinct;
    hide ReadyOK;
    hide DeltasOK;
    hide Unsleep;
    UnsleepCore(s, p);
    UnsleepShape(s, p);
    HoldCore(Unsleep(s, p), p, s.proc[p].(pstate := PrFree));
    SemsFrame(s, Remove(s, p));
    SleeperNotRunning(s, p);
  }

  lemma SleeperNotRunning(s: Sys, p: Pid)
    requires Inv(s) && s.proc[p].pstate in {PrSleep, PrTRecv}
    ensures p != s.currpid && p !in s.lists[RDY]
  {
  }

  lemma SuicideSettled(s: Sys, p: Pid)
    requires Inv(s) && p != NULLPROC && s.proc[p].pstate == PrCurr
    ensures Settled(SetState(s, p, PrFree))
  {
    hide Placed;
    hide Distinct;
    hide ReadyOK;
    hide DeltasOK;
    RewriteCore(s, p, s.proc[p].(pstate := PrFree));
    SemsFrame(s, SetState(s, p, PrFree));
  }

  lemma RemoveInv(s: Sys, p: Pid)
    requires Inv(s) && p != NULLPROC
    ensures Inv(Remove(s, p))
  {
    hide Placed;
    hide Distinct;
    hide ReadyOK;
    hide DeltasOK;
    hide Dequeue;
    hide Unsleep;
    hide Resched;
    var e := s.proc[p].(pstate := PrFree);
    match s.proc[p].pstate {
      case PrWait => RemoveWaiter(s, p);
      case PrReady => RemoveReady(s, p);
      case PrSleep => RemoveSleeper(s, p);
      case PrTRecv => RemoveSleeper(s, p);
      case PrCurr =>
        SuicideSettled(s, p);
        ReschedInv(SetState(s, p, PrFree));
      case _ =>
        RewriteCore(s, p, e);
        SemsFrame(s, SetProc(s, p, e));
        IdleRunning(s, p, e);
    }
  }

  lemma IdleRunning(s: Sys, p: Pid, e: PEntry)
    requires Inv(s) && Home(s.proc[p]) == -1 && p != s.currpid
    ensures Running(SetProc(s, p, e))
  {
  }

  // ---- coming back -----------------------------------------------------

  /** A process back from a blocking receive has a message to return. */
  lemma FinishReceive(s: Sys)
    requires Inv(s) && s.proc[s.currpid].pending == InReceive
    ensures s.proc[s.currpid].phasmsg
    ensures Finish(s).1 == Returns(s.proc[s.currpid].pmsg)
  {
  }

  lemma VictimOK(s: Sys)
    requires Inv(s)
    ensures var w := s.proc[s.currpid].pending; w.InKill? ==> w.victim != NULLPROC
  {
  }

  /** Where kill finds its victim. */
  lemma OnLists(s: Sys, p: Pid)
    requires Inv(s)
    ensures match s.proc[p].pstate
      case PrWait => p in s.lists[SemList(s.proc[p].psem)]
      case PrReady => p in s.lists[RDY]
      case PrSleep => p in s.lists[CLK]
      case PrTRecv => p in s.lists[CLK]
      case _ => true
  {
    AtHome(s, p);
  }

  lemma FinishInv(s: Sys)
    requires Inv(s)
    ensures Inv(Finish(s).0)
  {
    hide Placed;
    hide Distinct;
    hide ReadyOK;
    hide DeltasOK;
    hide Resched;
    hide Remove;
    var c := s.currpid;
    var e := s.proc[c];
    PendingCore(s, Nothing);
    var s1 := SetPending(s, c, Nothing);
    if e.phasmsg {
      var e' := e.(pending := Nothing, phasmsg := false);
      RewriteCore(s, c, e');
      SemsFrame(s, SetProc(s, c, e'));
      RunningFrame(s, c, e');
    }
    match e.pending {
      case InClkInt =>
        var s2 := s1.(preempt := s1.preempt - 1);
        SameCore(s1, s2);
        SemsFrame(s1, s2);
        if s2.preempt <= 0 {
          ReschedInv(s2);
        }
      case InKill(p) => RemoveInv(s1, p);
      case _ =>
    }
  }
}
