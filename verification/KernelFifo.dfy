/** Semaphore queues are first in, first out, and how far signal can count. */
module KernelFifo {
  import opened Ints
  import opened Lists
  import opened KernelSpec
  import opened KernelInv
  import opened KernelSems
  import opened KernelClock
  import opened KernelRun

  /** r is q without its first k, and at most one newcomer at the end. */
  ghost predicate Fifo(q: seq<Pid>, r: seq<Pid>) {
    exists k :: 0 <= k <= |q| && |q| - k <= |r| <= |q| - k + 1 && r[..|q| - k] == q[k..]
  }

  lemma FifoDrop(q: seq<Pid>, k: nat)
    requires k <= |q|
    ensures Fifo(q, q[k..])
  {
    var r := q[k..];
    assert r[..|q| - k] == q[k..];
  }

  lemma FifoAppend(q: seq<Pid>, x: Pid)
    ensures Fifo(q, q + [x])
  {
    assert (q + [x])[..|q| - 0] == q[0..];
  }

  /** No list but the ready list and the clock queue changes. */
  ghost predicate SemsStill(s: Sys, r: Sys) {
    forall m: SemId {:trigger SemList(m)} :: r.lists[SemList(m)] == s.lists[SemList(m)]
  }

  lemma ReschedStill(s: Sys)
    ensures SemsStill(s, Resched(s))
  {
    ReschedFrame(s);
  }

  lemma AwakeStill(s: Sys)
    requires Core(s, -1)
    ensures SemsStill(s, Wakeup(s))
  {
    hide Core, Resched, WakeLoop;
    WakeLoopCore(s);
    ReschedStill(Awake(s));
  }

  lemma SendStill(s: Sys, p: int, msg: Int32)
    ensures SemsStill(s, Send(s, p, msg).0)
  {
    hide Resched, InsPos, HandOn;
    if !IsBadPid(p) {
      var s1 := SetProc(s, p, s.proc[p].(pmsg := msg, phasmsg := true));
      ReschedStill(ReadyNoResch(s1, p));
      ReschedStill(ReadyNoResch(Unsleep(s1, p), p));
    }
  }

  lemma TickStill(s: Sys)
    requires Inv(s)
    ensures SemsStill(s, Tick(s))
  {
    hide Core, Wakeup;
    if s.lists[CLK] != [] {
      TickIs(s);
      TickedCore(s);
      AwakeStill(Ticked(s));
    }
  }

  lemma StrtClkStill(s: Sys)
    requires Inv(s)
    ensures SemsStill(s, StrtClk(s))
  {
    hide Core, Wakeup, Resched;
    CaughtUpCore(s);
    AwakeStill(CaughtUp(s));
    ReschedStill(Wakeup(CaughtUp(s)));
    ReschedStill(s.(defclk := 0, preempt := s.preempt - s.clkdiff, clkdiff := 0));
  }

  lemma ChPrioStill(s: Sys, p: int, prio: Int32)
    ensures SemsStill(s, ChPrio(s, p, prio).0)
  {
    hide Resched, InsPos, Without;
    if !IsBadPid(p) {
      var s1 := SetProc(s, p, s.proc[p].(pprio := prio));
      ReschedStill(s1);
      ReschedStill(Insert(Dequeue(s1, p, RDY), p, RDY, prio));
    }
  }

  lemma OthersStill(s: Sys, c: Call)
    requires Inv(s) && Legal(s, c) && !c.DoFinish?
    requires !(c.DoWait? || c.DoSignal? || c.DoSignalN? || c.DoSReset? || c.DoSDelete?)
    ensures SemsStill(s, Step(s, c).0)
  {
    hide Core, SemsOK, Running, Resched, Wakeup, Tick, StrtClk, ChPrio, Send, InsPos, Without, DPos, NewPid, NewSem;
    match c
    case DoResume(p) => if !IsBadPid(p) { ReschedStill(ReadyNoResch(s, p)); }
    case DoSuspend(p) =>
      if !IsBadPid(p) { ReschedStill(SetProc(s, p, s.proc[p].(pstate := PrSusp, pending := InSuspend))); }
    case DoSend(p, msg) => SendStill(s, p, msg);
    case DoReceive => ReschedStill(SetProc(s, s.currpid, s.proc[s.currpid].(pending := InReceive, pstate := PrRecv)));
    case DoRecvTim(n) =>
      ReschedStill(Dozing(s, Wrap32(n * 1000), s.proc[s.currpid].(pending := InRecvTim, pstate := PrTRecv)));
    case DoSleep(n, unit) =>
      ReschedStill(s);
      ReschedStill(Dozing(s, Wrap32(n * unit), s.proc[s.currpid].(pstate := PrSleep)));
    case DoChPrio(p, prio) => ChPrioStill(s, p, prio);
    case DoKill(p) =>
      if !IsBadPid(p) { SendStill(SetPending(s, s.currpid, InKill(p)), s.proc[p].pnxtkin, p); }
    case DoTick => TickStill(s);
    case DoStrtClk => StrtClkStill(s);
    case DoResched => ReschedStill(s);
    case _ =>
  }

  // ---- the calls on semaphores ----------------------------------------------

  lemma WaitFifo(s: Sys, m: int, n: SemId)
    ensures Fifo(s.lists[SemList(n)], Wait(s, m).0.lists[SemList(n)])
  {
    hide Resched;
    var q := s.lists[SemList(n)];
    FifoDrop(q, 0);
    if !NoSem(s, m) {
      var s1 := SetCount(s, m, Wrap32(s.sem[m].semcnt - 1));
      ReschedStill(JoinWaiters(s1, m));
      FifoAppend(q, s.currpid);
    }
  }

  /** signal takes the head of its own queue, if its count was negative. */
  lemma SignalOneLists(s: Sys, m: SemId, n: SemId)
    ensures var q := s.lists[SemList(n)];
      SignalOne(s, m).lists[SemList(n)] == if n == m && s.sem[m].semcnt < 0 && q != [] then q[1..] else q
  {
    hide InsPos;
  }

  ghost predicate Suffix(q: seq<Pid>, r: seq<Pid>) {
    exists j :: 0 <= j <= |q| && r == q[j..]
  }

  lemma SuffixTail(q: seq<Pid>, r: seq<Pid>)
    requires q != [] && Suffix(q[1..], r)
    ensures Suffix(q, r)
  {
    var j :| 0 <= j <= |q[1..]| && r == q[1..][j..];
    assert q[1..][j..] == q[j + 1..];
  }

  lemma {:induction false} SignalLoopLists(s: Sys, m: SemId, k: nat, n: SemId)
    ensures Suffix(s.lists[SemList(n)], SignalLoop(s, m, k).lists[SemList(n)])
    decreases k
  {
    var q := s.lists[SemList(n)];
    if k == 0 {
      assert q == q[0..];
    } else {
      SignalOneLists(s, m, n);
      hide SignalOne;
      var s1 := SignalOne(s, m);
      SignalLoopLists(s1, m, k - 1, n);
      hide Suffix;
      if s1.lists[SemList(n)] != q {
        SuffixTail(q, SignalLoop(s1, m, k - 1).lists[SemList(n)]);
      }
    }
  }

  lemma SignalFifo(s: Sys, m: int, n: SemId)
    ensures Fifo(s.lists[SemList(n)], Signal(s, m).0.lists[SemList(n)])
  {
    hide Resched, SignalOne;
    var q := s.lists[SemList(n)];
    FifoDrop(q, 0);
    assert q[0..] == q;
    if !NoSem(s, m) {
      SignalOneLists(s, m, n);
      ReschedStill(SignalOne(s, m));
      if q != [] {
        FifoDrop(q, 1);
      }
    }
  }

  lemma SignalNFifo(s: Sys, m: int, k: int, n: SemId)
    ensures Fifo(s.lists[SemList(n)], SignalN(s, m, k).0.lists[SemList(n)])
  {
    hide Resched, SignalLoop;
    var q := s.lists[SemList(n)];
    FifoDrop(q, 0);
    assert q[0..] == q;
    if !NoSem(s, m) && k > 0 {
      SignalLoopLists(s, m, k, n);
      var j :| 0 <= j <= |q| && SignalLoop(s, m, k).lists[SemList(n)] == q[j..];
      ReschedStill(SignalLoop(s, m, k));
      FifoDrop(q, j);
    }
  }

  lemma DrainLists(s: Sys, m: SemId, deleted: bool, n: SemId)
    requires Core(s, -1)
    ensures DrainLoop(s, SemList(m), deleted).lists[SemList(n)] == if n == m then [] else s.lists[SemList(n)]
  {
    hide Core;
    DrainCore(s, m, deleted);
  }

  lemma ResetFifo(s: Sys, m: int, k: Int32, n: SemId)
    requires Inv(s)
    ensures Fifo(s.lists[SemList(n)], SReset(s, m, k).0.lists[SemList(n)])
  {
    hide Resched, DrainLoop, Core;
    var q := s.lists[SemList(n)];
    FifoDrop(q, 0);
    assert q[0..] == q && q[|q|..] == [];
    FifoDrop(q, |q|);
    if !NoSem(s, m) {
      DrainLists(s, m, false, n);
      ReschedStill(SetCount(DrainLoop(s, SemList(m), false), m, k));
    }
  }

  lemma DeleteFifo(s: Sys, m: int, n: SemId)
    requires Inv(s)
    ensures Fifo(s.lists[SemList(n)], SDelete(s, m).0.lists[SemList(n)])
  {
    hide Resched, DrainLoop, Core;
    var q := s.lists[SemList(n)];
    FifoDrop(q, 0);
    assert q[0..] == q && q[|q|..] == [];
    FifoDrop(q, |q|);
    if !NoSem(s, m) {
      SDeleteSettled(s, m);
      DrainLists(Freed(s, m), m, true, n);
      ReschedStill(DrainLoop(Freed(s, m), SemList(m), true));
    }
  }

  /** kill takes its victim out of the middle of a queue. */
  lemma FinishFifo(s: Sys, n: SemId)
    requires Inv(s)
    ensures var q, r := s.lists[SemList(n)], Finish(s).0.lists[SemList(n)];
      r == q || (s.proc[s.currpid].pending.InKill? && r == Without(q, s.proc[s.currpid].pending.victim))
  {
    hide Core, SemsOK, Running, Resched, Without, HandOn;
    var s1 := SetPending(s, s.currpid, Nothing);
    ReschedStill(s1.(preempt := s1.preempt - 1));
    match s.proc[s.currpid].pending
    case InKill(v) =>
      ReschedStill(SetState(s1, v, PrFree));
    case _ =>
  }

  /** Over every step a semaphore's waiters leave oldest first and newcomers
      join at the end; only kill takes one out of turn. */
  lemma OldestFirst(s: Sys, c: Call, n: SemId)
    requires Inv(s) && Legal(s, c)
    ensures var q, r := s.lists[SemList(n)], Step(s, c).0.lists[SemList(n)];
      || Fifo(q, r)
      || (c.DoFinish? && s.proc[s.currpid].pending.InKill? && r == Without(q, s.proc[s.currpid].pending.victim))
  {
    var q := s.lists[SemList(n)];
    FifoDrop(q, 0);
    assert q[0..] == q;
    hide Inv, Fifo, Wait, Signal, SignalN, SReset, SDelete, Finish;
    match c
    case DoWait(m) => WaitFifo(s, m, n);
    case DoSignal(m) => SignalFifo(s, m, n);
    case DoSignalN(m, k) => SignalNFifo(s, m, k, n);
    case DoSReset(m, k) => ResetFifo(s, m, k, n);
    case DoSDelete(m) => DeleteFifo(s, m, n);
    case DoFinish => FinishFifo(s, n);
    case _ =>
      hide Step;
      OthersStill(s, c);
      assert Step(s, c).0.lists[SemList(n)] == q;
  }

  /** signal keeps the counts right if and only if the count can still grow. */
  lemma SignalExactly(s: Sys, m: int)
    requires Inv(s)
    ensures Inv(Signal(s, m).0) <==> NoSem(s, m) || s.sem[m].semcnt < MAXINT
  {
    if NoSem(s, m) || s.sem[m].semcnt < MAXINT {
      SignalInv(s, m);
    } else {
      hide Core, ClockOK, Running;
      assert CountOK(s, m);
      var r := Signal(s, m).0;
      assert !CountOK(r, m);
    }
  }
}
