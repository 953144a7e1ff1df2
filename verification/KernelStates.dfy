/** Which call moves which process to which state: one table for all calls, and
    the proof that the calls keep to it. */
module KernelStates {
  import opened Ints
  import opened Lists
  import opened KernelSpec
  import opened KernelInv
  import opened KernelSched
  import opened KernelSems
  import opened KernelClock
  import opened KernelProcs
  import opened KernelRun
  import opened SleepQueue

  /** A state, ready and running not told apart. */
  function Class(st: PState): PState { if st == PrCurr then PrReady else st }

  function ClassOf(s: Sys, p: Pid): PState { Class(s.proc[p].pstate) }

  /** Whether a message for p would wake it. */
  predicate Wakes(s: Sys, p: Pid) { s.proc[p].pstate in {PrRecv, PrTRecv} && !s.proc[p].phasmsg }

  function Min(x: int, y: int): int { if x < y then x else y }

  /** The state p is in after the call. */
  ghost function Expected(s: Sys, c: Call, p: Pid): PState {
    var same := ClassOf(s, p);
    match c
    case DoCreate(stack, prio) =>
      if stack && prio >= 1 && FirstFree(s.proc, s.nextproc, NPROC, p) then PrSusp else same
    case DoResume(q) => if q == p && s.proc[p].pstate == PrSusp && p != NULLPROC then PrReady else same
    case DoSuspend(q) => if q == p && same == PrReady && p != NULLPROC then PrSusp else same
    case DoWait(m) => if p == s.currpid && !NoSem(s, m) && s.sem[m].semcnt <= 0 then PrWait else same
    case DoSignal(m) => if !NoSem(s, m) && p in s.lists[SemList(m)][..Min(1, |s.lists[SemList(m)]|)] then PrReady else same
    case DoSignalN(m, n) =>
      if !NoSem(s, m) && n > 0 && p in s.lists[SemList(m)][..Min(n, |s.lists[SemList(m)]|)] then PrReady else same
    case DoSReset(m, n) => if !NoSem(s, m) && n >= 0 && p in s.lists[SemList(m)] then PrReady else same
    case DoSDelete(m) => if !NoSem(s, m) && p in s.lists[SemList(m)] then PrReady else same
    case DoSend(q, msg) => if q == p && p != NULLPROC && Wakes(s, p) then PrReady else same
    case DoReceive => if p == s.currpid && !s.proc[p].phasmsg then PrRecv else same
    case DoRecvTim(n) => if p == s.currpid && n >= 0 && s.clkruns && !s.proc[p].phasmsg then PrTRecv else same
    case DoSleep(n, unit) => if p == s.currpid && n > 0 && s.clkruns then PrSleep else same
    case DoKill(q) =>
      if !IsBadPid(q) && s.proc[q].pstate != PrFree && s.proc[q].pnxtkin == p && p != NULLPROC && Wakes(s, p)
      then PrReady else same
    case DoTick => if p in s.lists[CLK] && Deadline(s, p) <= TickStep(s) then PrReady else same
    case DoStrtClk => if s.defclk == 1 && p in s.lists[CLK] && Deadline(s, p) <= s.clkdiff then PrReady else same
    case DoFinish => if s.proc[s.currpid].pending == InKill(p) then PrFree else same
    case _ => same
  }

  // ---- what resched and ready do to states ---------------------------------

  ghost predicate SameClass(s: Sys, r: Sys) {
    forall p: Pid {:trigger ClassOf(r, p)} :: ClassOf(r, p) == ClassOf(s, p)
  }

  lemma DispatchClass(y: Sys)
    requires Core(y, -1) && y.lists[RDY] != []
    ensures SameClass(y, Dispatch(y))
  {
    hide Distinct, ReadyOK, DeltasOK, ProcsOK;
    var q := y.lists[RDY];
    OnHomeList(y, q[|q| - 1], RDY);
  }

  lemma YieldClass(s: Sys)
    ensures SameClass(s, Yield(s))
  {
    YieldProc(s);
    hide Yield;
  }

  lemma ReschedClass(s: Sys)
    requires Core(s, -1)
    ensures SameClass(s, Resched(s))
  {
    if !KeepsCpu(s) {
      NullIsThere(s);
      YieldCore(s);
      YieldClass(s);
      hide Yield, Dispatch, Core;
      DispatchClass(Yield(s));
    }
  }

  lemma Rescheduled(s: Sys, p: Pid)
    requires Core(s, -1)
    ensures ClassOf(Resched(s), p) == ClassOf(s, p)
  {
    hide Resched;
    ReschedClass(s);
  }

  // ---- call by call ----------------------------------------------------------

  lemma ResumeStates(s: Sys, q: int, p: Pid)
    requires Inv(s)
    ensures ClassOf(Resume(s, q).0, p) == Expected(s, DoResume(q), p)
  {
    hide Resched, Insert;
    if !IsBadPid(q) && s.proc[q].pstate == PrSusp {
      ResumeSettled(s, q);
      InsertKeepsProc(SetState(s, q, PrReady), q, s.proc[q].pprio);
      Rescheduled(ReadyNoResch(s, q), p);
    }
  }

  lemma SuspendStates(s: Sys, q: int, p: Pid)
    requires Inv(s)
    ensures ClassOf(Suspend(s, q).0, p) == Expected(s, DoSuspend(q), p)
  {
    hide Resched;
    if !IsBadPid(q) && s.proc[q].pstate == PrCurr {
      SuspendSelfCore(s, q);
      Rescheduled(SetProc(s, q, s.proc[q].(pstate := PrSusp, pending := InSuspend)), p);
    }
  }

  lemma ChPrioStates(s: Sys, q: int, prio: Int32, p: Pid)
    requires Inv(s)
    ensures ClassOf(ChPrio(s, q, prio).0, p) == ClassOf(s, p)
  {
    hide Resched, Insert, Dequeue;
    if !IsBadPid(q) && prio > 0 && s.proc[q].pstate != PrFree {
      var s1 := SetProc(s, q, s.proc[q].(pprio := prio));
      if s.proc[q].pstate == PrReady {
        ChPrioReady(s, q, prio);
        InsertKeepsProc(Dequeue(s1, q, RDY), q, prio);
        DequeueKeepsProc(s1, q);
        Rescheduled(Insert(Dequeue(s1, q, RDY), q, RDY, prio), p);
      } else {
        ChPrioOther(s, q, prio);
        Rescheduled(s1, p);
      }
    }
  }

  lemma InsertKeepsProc(s: Sys, q: Pid, k: int)
    ensures Insert(s, q, RDY, k).proc == s.proc
  {
  }

  lemma DequeueKeepsProc(s: Sys, q: Pid)
    ensures Dequeue(s, q, RDY).proc == s.proc
  {
  }

  lemma WaitStates(s: Sys, m: int, p: Pid)
    requires Inv(s) && s.currpid != NULLPROC
    ensures ClassOf(Wait(s, m).0, p) == Expected(s, DoWait(m), p)
  {
    hide Placed, Distinct, ReadyOK, DeltasOK, ProcsOK, SemsOK, Resched;
    if !NoSem(s, m) {
      WaitWraps(s, m);
      if s.sem[m].semcnt <= 0 {
        JoinWaitersSettled(s, m);
        Rescheduled(JoinWaiters(SetCount(s, m, Wrap32(s.sem[m].semcnt - 1)), m), p);
      }
    }
  }

  /** The first n processes of a list are ready, no other state has changed. */
  ghost predicate Released(s: Sys, r: Sys, q: seq<Pid>) {
    forall p: Pid {:trigger ClassOf(r, p)} :: ClassOf(r, p) == if p in q then PrReady else ClassOf(s, p)
  }

  lemma ReleasedFirst(s: Sys, s1: Sys, q: Pid)
    requires s1.proc == s.proc[q := s1.proc[q]] && s1.proc[q].pstate == PrReady
    ensures Released(s, s1, [q])
  {
  }

  lemma ReleasedThen(s: Sys, s1: Sys, r: Sys, q: Pid, rest: seq<Pid>)
    requires Released(s, s1, [q]) && Released(s1, r, rest)
    ensures Released(s, r, [q] + rest)
  {
    assert forall p: Pid :: p in [q] + rest <==> p == q || p in rest;
  }

  lemma ReleasedNone(s: Sys, r: Sys)
    requires r.proc == s.proc
    ensures Released(s, r, [])
  {
  }

  lemma SignalReleases(s: Sys, m: SemId)
    requires s.sem[m].semcnt < 0 && s.lists[SemList(m)] != [] && !IsBadPid(s.lists[SemList(m)][0])
    ensures var q, r := s.lists[SemList(m)], SignalOne(s, m);
      r.proc == s.proc[q[0] := s.proc[q[0]].(pstate := PrReady)] && r.lists[SemList(m)] == q[1..]
  {
    hide InsPos;
  }

  lemma SignalOneStates(s: Sys, m: SemId)
    requires Settled(s) && s.sem[m].used && s.sem[m].semcnt < MAXINT
    ensures var q := s.lists[SemList(m)];
      && Released(s, SignalOne(s, m), q[..Min(1, |q|)])
      && SignalOne(s, m).lists[SemList(m)] == q[Min(1, |q|)..]
  {
    assert CountOK(s, m);
    var q := s.lists[SemList(m)];
    if q != [] {
      WaiterPid(s, m);
      hide Settled, Released;
      SignalReleases(s, m);
      hide SignalOne;
      ReleasedFirst(s, SignalOne(s, m), q[0]);
      assert q[..1] == [q[0]];
    } else {
      hide Settled, Released;
      assert q[..0] == [] && q[0..] == q;
      ReleasedNone(s, SignalOne(s, m));
    }
  }

  lemma SignalUnfold(s: Sys, m: SemId, n: nat)
    ensures SignalLoop(s, m, n) == if n == 0 then s else SignalLoop(SignalOne(s, m), m, n - 1)
  {
  }

  lemma {:induction false} SignalLoopStates(s: Sys, m: SemId, n: nat)
    requires Settled(s) && s.sem[m].used && s.sem[m].semcnt + n <= MAXINT
    ensures var q := s.lists[SemList(m)]; Released(s, SignalLoop(s, m, n), q[..Min(n, |q|)])
    decreases n
  {
    hide Settled, SignalOne, SignalLoop, Released, Min;
    var q := s.lists[SemList(m)];
    SignalUnfold(s, m, n);
    if n == 0 {
      ReleasedNone(s, s);
      assert Min(0, |q|) == 0 && q[..0] == [] by { MinZero(|q|); }
    } else {
      var s1 := SignalOne(s, m);
      SignalOneStates(s, m);
      SignalOneSettled(s, m);
      SignalLoopStates(s1, m, n - 1);
      ReleasedMore(s, s1, SignalLoop(s1, m, n - 1), q, n);
    }
  }

  lemma MinZero(n: nat)
    ensures Min(0, n) == 0
  {
  }

  lemma ReleasedMore(s: Sys, s1: Sys, r: Sys, q: seq<Pid>, n: nat)
    requires n > 0 && Released(s, s1, q[..Min(1, |q|)])
    requires var q1 := q[Min(1, |q|)..]; Released(s1, r, q1[..Min(n - 1, |q1|)])
    ensures Released(s, r, q[..Min(n, |q|)])
  {
    hide Released;
    if q == [] {
      assert q[..0] == [] && q[0..] == [];
      BothNone(s, s1, r);
    } else {
      assert q[..1] == [q[0]];
      assert q[..Min(n, |q|)] == [q[0]] + q[1..][..Min(n - 1, |q| - 1)];
      ReleasedThen(s, s1, r, q[0], q[1..][..Min(n - 1, |q| - 1)]);
    }
  }

  lemma BothNone(s: Sys, s1: Sys, r: Sys)
    requires Released(s, s1, []) && Released(s1, r, [])
    ensures Released(s, r, [])
  {
  }

  lemma SignalStates(s: Sys, m: int, p: Pid)
    requires Inv(s) && Fits(s, DoSignal(m))
    ensures ClassOf(Signal(s, m).0, p) == Expected(s, DoSignal(m), p)
  {
    hide Placed, Distinct, ReadyOK, DeltasOK, ProcsOK, Resched, SignalOne;
    if !NoSem(s, m) {
      SignalOneStates(s, m);
      SignalOneSettled(s, m);
      Rescheduled(SignalOne(s, m), p);
    }
  }

  lemma SignalNStates(s: Sys, m: int, n: Int32, p: Pid)
    requires Inv(s) && Fits(s, DoSignalN(m, n))
    ensures ClassOf(SignalN(s, m, n).0, p) == Expected(s, DoSignalN(m, n), p)
  {
    hide Placed, Distinct, ReadyOK, DeltasOK, ProcsOK, Resched, SignalLoop;
    if !NoSem(s, m) && n > 0 {
      SignalLoopStates(s, m, n);
      SignalLoopSettled(s, m, n);
      Rescheduled(SignalLoop(s, m, n), p);
    }
  }

  lemma DrainOneStates(s: Sys, m: SemId, deleted: bool)
    requires Core(s, -1) && s.lists[SemList(m)] != []
    ensures var q := s.lists[SemList(m)]; var r := DrainOne(s, SemList(m), deleted);
      Released(s, r, [q[0]]) && r.lists[SemList(m)] == q[1..]
  {
    hide Insert;
    var q := s.lists[SemList(m)];
    WaiterPid(s, m);
    DrainOneCore(s, m, deleted);
    var r := DrainOne(s, SemList(m), deleted);
    assert r.proc == s.proc[q[0] := r.proc[q[0]]] && r.proc[q[0]].pstate == PrReady by {
      var s1 := DropFirst(s, SemList(m));
      var s2 := if deleted then SetProc(s1, q[0], s1.proc[q[0]].(pwaitret := DELETED)) else s1;
      InsertKeepsProc(SetState(s2, q[0], PrReady), q[0], s2.proc[q[0]].pprio);
    }
    ReleasedFirst(s, r, q[0]);
  }

  lemma {:induction false} DrainStates(s: Sys, m: SemId, deleted: bool)
    requires Core(s, -1)
    ensures Released(s, DrainLoop(s, SemList(m), deleted), s.lists[SemList(m)])
    decreases |s.lists[SemList(m)]|, 0
  {
    hide Core, Released, DrainOne;
    var q := s.lists[SemList(m)];
    if q == [] {
      ReleasedNone(s, s);
    } else {
      DrainUnfold(s, m, deleted);
      hide DrainLoop;
      DrainOneStates(s, m, deleted);
      DrainOneCore(s, m, deleted);
      DrainNext(s, DrainOne(s, SemList(m), deleted), m, deleted);
    }
  }

  /** The rest of the loop after its first turn. */
  lemma {:induction false} DrainNext(s: Sys, s1: Sys, m: SemId, deleted: bool)
    requires Core(s1, -1) && s.lists[SemList(m)] != [] && s1.lists[SemList(m)] == s.lists[SemList(m)][1..]
    requires Released(s, s1, [s.lists[SemList(m)][0]])
    ensures Released(s, DrainLoop(s1, SemList(m), deleted), s.lists[SemList(m)])
    decreases |s1.lists[SemList(m)]|, 1
  {
    hide Core, Released, DrainLoop;
    var q := s.lists[SemList(m)];
    DrainStates(s1, m, deleted);
    ReleasedThen(s, s1, DrainLoop(s1, SemList(m), deleted), q[0], q[1..]);
    assert q == [q[0]] + q[1..];
  }

  lemma ResetStates(s: Sys, m: int, n: Int32, p: Pid)
    requires Inv(s)
    ensures ClassOf(SReset(s, m, n).0, p) == Expected(s, DoSReset(m, n), p)
  {
    hide Placed, Distinct, ReadyOK, DeltasOK, ProcsOK, Resched, DrainLoop;
    if !NoSem(s, m) && n >= 0 {
      var d := DrainLoop(s, SemList(m), false);
      DrainStates(s, m, false);
      SResetSettled(s, m, n);
      Rescheduled(SetCount(d, m, n), p);
      assert ClassOf(SetCount(d, m, n), p) == ClassOf(d, p);
    }
  }

  lemma DeleteStates(s: Sys, m: int, p: Pid)
    requires Inv(s)
    ensures ClassOf(SDelete(s, m).0, p) == Expected(s, DoSDelete(m), p)
  {
    hide Placed, Distinct, ReadyOK, DeltasOK, ProcsOK, Resched, DrainLoop;
    if !NoSem(s, m) && s.lists[SemList(m)] != [] {
      SDeleteSettled(s, m);
      var d := DrainLoop(Freed(s, m), SemList(m), true);
      DrainStates(Freed(s, m), m, true);
      Rescheduled(d, p);
    }
  }

  lemma SendStates(s: Sys, q: int, msg: Int32, p: Pid)
    requires Inv(s)
    ensures ClassOf(Send(s, q, msg).0, p) == Expected(s, DoSend(q, msg), p)
  {
    hide Placed, Distinct, ReadyOK, DeltasOK, ProcsOK, Resched, Unsleep, Insert;
    if !IsBadPid(q) && !s.proc[q].phasmsg && s.proc[q].pstate in {PrRecv, PrTRecv} {
      var d := Delivered(s, q, msg);
      DeliveredReady(s, q, msg);
      if s.proc[q].pstate == PrTRecv {
        UnsleepShape(SetProc(s, q, s.proc[q].(pmsg := msg, phasmsg := true)), q);
      }
      InsertKeepsProc(SetState(d, q, PrReady), q, d.proc[q].pprio);
      Rescheduled(ReadyNoResch(d, q), p);
    }
  }

  lemma ReceiveStates(s: Sys, p: Pid)
    requires Inv(s) && s.currpid != NULLPROC
    ensures ClassOf(Receive(s).0, p) == Expected(s, DoReceive, p)
  {
    hide Placed, Distinct, ReadyOK, DeltasOK, ProcsOK, Resched;
    var c := s.currpid;
    if !s.proc[c].phasmsg {
      ReceivingSettled(s);
      Rescheduled(SetProc(s, c, s.proc[c].(pending := InReceive, pstate := PrRecv)), p);
    }
  }

  lemma DozeStates(s: Sys, k: int, e: PEntry, p: Pid)
    requires Inv(s) && s.currpid != NULLPROC && 0 <= k <= MAXINT
    requires e.pstate in {PrSleep, PrTRecv} && e.pprio == s.proc[s.currpid].pprio && MessageOK(e)
    ensures ClassOf(Doze(s, k, e), p) == if p == s.currpid then e.pstate else ClassOf(s, p)
  {
    hide Placed, Distinct, ReadyOK, DeltasOK, Resched;
    DozingSettled(s, k, e);
    Rescheduled(Dozing(s, k, e), p);
  }

  lemma RecvTimStates(s: Sys, n: Int32, p: Pid)
    requires Inv(s) && s.currpid != NULLPROC && (n > 0 ==> n * 1000 <= MAXINT)
    ensures ClassOf(RecvTim(s, n).0, p) == Expected(s, DoRecvTim(n), p)
  {
    hide Placed, Distinct, ReadyOK, DeltasOK, ProcsOK, Doze;
    var e := s.proc[s.currpid].(pending := InRecvTim);
    if n >= 0 && s.clkruns && !e.phasmsg {
      DozeStates(s, n * 1000, e.(pstate := PrTRecv), p);
    }
  }

  lemma SleepStates(s: Sys, n: Int32, unit: nat, p: Pid)
    requires Inv(s) && (n > 0 ==> s.currpid != NULLPROC && n * unit <= MAXINT)
    ensures ClassOf(Sleep(s, n, unit).0, p) == Expected(s, DoSleep(n, unit), p)
  {
    hide Placed, Distinct, ReadyOK, DeltasOK, Doze, Resched;
    if n > 0 && s.clkruns {
      assert n * unit >= 0;
      DozeStates(s, n * unit, s.proc[s.currpid].(pstate := PrSleep), p);
    } else {
      Rescheduled(s, p);
    }
  }

  // ---- time, death and birth -------------------------------------------------

  /** A process on the clock queue, and one that is not. */
  lemma WakeupStates(s: Sys, p: Pid)
    requires Core(s, -1) && SemsOK(s) && s.clkdiff >= 0
    ensures ClassOf(Wakeup(s), p) == if p in s.lists[CLK] && Deadline(s, p) <= 0 then PrReady else ClassOf(s, p)
  {
    hide Placed, Distinct, ReadyOK, Resched, WakeLoop;
    WakeLoopCore(s);
    AwakeSettled(s);
    Rescheduled(Awake(s), p);
    if p in s.lists[CLK] {
      WakeLoopDeadlines(s, p);
      DueLowerBound(s.key, s.lists[CLK], p);
      assert s.lists[CLK][0] in s.lists[CLK];
      FrontOrBack(s.lists[CLK], Expired(s.key, s.lists[CLK]), p);
    } else {
      FrontIn(s.lists[CLK], Expired(s.key, s.lists[CLK]), p);
    }
  }

  lemma FrontIn(q: seq<Pid>, n: nat, p: Pid)
    requires n <= |q| && p !in q
    ensures p !in q[..n]
  {
  }

  lemma FrontOrBack(q: seq<Pid>, n: nat, p: Pid)
    requires n <= |q| && p in q
    ensures p in q[..n] || p in q[n..]
  {
    assert q == q[..n] + q[n..];
  }

  /** What the tick does before wakeup, if that is called. */
  lemma TickedStates(s: Sys, p: Pid)
    requires Inv(s) && s.lists[CLK] != []
    ensures ClassOf(Ticked(s), p) == ClassOf(s, p) && Ticked(s).lists == s.lists && Ticked(s).clkdiff >= 0
    ensures p in s.lists[CLK] ==>
      Deadline(Ticked(s), p) == Deadline(s, p) - TickStep(s) && Deadline(s, p) >= s.key[s.lists[CLK][0]] >= 0
  {
    var q := s.lists[CLK];
    DelaysNonNeg(s);
    ClockDistinct(s);
    assert q[0] in q;
    hide Core, SemsOK, Running;
    if p in q {
      DueShift(s.key, TickedKeys(s), q, p, 0 - TickStep(s));
      DueLowerBound(s.key, q, p);
    }
  }

  lemma TickStates(s: Sys, p: Pid)
    requires Inv(s)
    ensures ClassOf(Tick(s), p) == Expected(s, DoTick, p)
  {
    if s.lists[CLK] != [] {
      TickIs(s);
      TickedCore(s);
      TickedStates(s, p);
      hide Core, SemsOK, ClockOK, Running, Wakeup, Tick, Ticked;
      if s.key[s.lists[CLK][0]] <= 1 {
        WakeupStates(Ticked(s), p);
      }
    } else {
      assert !s.slnempty;
    }
  }

  lemma CaughtUpStates(s: Sys, p: Pid)
    requires Inv(s)
    ensures Core(Wakeup(CaughtUp(s)), -1)
    ensures ClassOf(Wakeup(CaughtUp(s)), p) ==
      if p in s.lists[CLK] && Deadline(s, p) <= s.clkdiff then PrReady else ClassOf(s, p)
  {
    var q := s.lists[CLK];
    CaughtUpCore(s);
    WakeupInv(CaughtUp(s));
    ClockDistinct(s);
    if p in q {
      MakeUpDue(s.key, q, s.clkdiff, p);
    }
    hide Core, SemsOK, Running, Wakeup, MakeUp;
    WakeupStates(CaughtUp(s), p);
  }

  lemma StrtClkStates(s: Sys, p: Pid)
    requires Inv(s)
    ensures ClassOf(StrtClk(s), p) == Expected(s, DoStrtClk, p)
  {
    hide Core, SemsOK, Running, Resched, Wakeup, MakeUp;
    if s.defclk == 1 && s.slnempty {
      CaughtUpStates(s, p);
      Rescheduled(Wakeup(CaughtUp(s)), p);
    } else if s.defclk == 1 {
      var s1 := s.(defclk := 0, preempt := s.preempt - s.clkdiff, clkdiff := 0);
      SameCore(s, s1);
      Rescheduled(s1, p);
    }
  }

  lemma RemoveStates(s: Sys, v: Pid, p: Pid)
    requires Inv(s) && v != NULLPROC
    ensures ClassOf(Remove(s, v), p) == if v == p then PrFree else ClassOf(s, p)
  {
    hide Placed, Distinct, ReadyOK, DeltasOK, ProcsOK, Resched, Unsleep, Without;
    match s.proc[v].pstate {
      case PrCurr =>
        SuicideSettled(s, v);
        Rescheduled(SetState(s, v, PrFree), p);
      case PrSleep => UnsleepShape(s, v);
      case PrTRecv => UnsleepShape(s, v);
      case _ =>
    }
  }

  lemma FinishStates(s: Sys, p: Pid)
    requires Inv(s)
    ensures ClassOf(Finish(s).0, p) == Expected(s, DoFinish, p)
  {
    hide Placed, Distinct, ReadyOK, DeltasOK, ProcsOK, Resched, Remove;
    var c := s.currpid;
    PendingCore(s, Nothing);
    var s1 := SetPending(s, c, Nothing);
    match s.proc[c].pending {
      case InClkInt =>
        var s2 := s1.(preempt := s1.preempt - 1);
        SameCore(s1, s2);
        Rescheduled(s2, p);
      case InKill(v) =>
        VictimOK(s);
        RemoveStates(s1, v, p);
      case _ =>
    }
  }

  lemma KillStates(s: Sys, q: int, p: Pid)
    requires Inv(s)
    ensures ClassOf(Kill(s, q).0, p) == Expected(s, DoKill(q), p)
  {
    hide Placed, Distinct, ReadyOK, DeltasOK, ProcsOK, Resched, Send;
    if !IsBadPid(q) && s.proc[q].pstate != PrFree {
      PendingCore(s, InKill(q));
      SendStates(SetPending(s, s.currpid, InKill(q)), s.proc[q].pnxtkin, q, p);
    }
  }

  lemma CreateStates(s: Sys, stack: bool, prio: Int32, p: Pid)
    ensures ClassOf(Create(s, stack, prio).0, p) == Expected(s, DoCreate(stack, prio), p)
  {
    hide NewPid, FirstFree;
    NewPidFinds(s.proc, s.nextproc, NPROC);
    NewPidFirst(s.proc, s.nextproc, NPROC, p);
  }

  /** The table holds of every call, for every process. */
  lemma StatesAsExpected(s: Sys, c: Call, p: Pid)
    requires Inv(s) && Legal(s, c)
    ensures ClassOf(Step(s, c).0, p) == Expected(s, c, p)
  {
    if c.DoSleep? || c.DoRecvTim? {
      DelayStates(s, c, p);
    } else {
      CallStates(s, c, p);
    }
  }

  lemma DelayStates(s: Sys, c: Call, p: Pid)
    requires Inv(s) && Legal(s, c) && (c.DoSleep? || c.DoRecvTim?)
    ensures ClassOf(Step(s, c).0, p) == Expected(s, c, p)
  {
    hide Inv, Expected, Sleep, RecvTim;
    match c
    case DoRecvTim(n) => RecvTimStates(s, n, p);
    case DoSleep(n, unit) => SleepStates(s, n, unit, p);
  }

  lemma CallStates(s: Sys, c: Call, p: Pid)
    requires Inv(s) && Legal(s, c) && !c.DoSleep? && !c.DoRecvTim?
    ensures ClassOf(Step(s, c).0, p) == Expected(s, c, p)
  {
    hide Inv, Expected, Tick, StrtClk, Finish, Create, Resume, Suspend, Wait, Signal, SignalN, SReset;
    hide SDelete, Send, Receive, ChPrio, Kill, Resched;
    match c
    case DoCreate(stack, prio) => CreateStates(s, stack, prio, p);
    case DoResume(q) => ResumeStates(s, q, p);
    case DoSuspend(q) => SuspendStates(s, q, p);
    case DoWait(m) => WaitStates(s, m, p);
    case DoSignal(m) => SignalStates(s, m, p);
    case DoSignalN(m, n) => SignalNStates(s, m, n, p);
    case DoSReset(m, n) => ResetStates(s, m, n, p);
    case DoSDelete(m) => DeleteStates(s, m, p);
    case DoSend(q, msg) => SendStates(s, q, msg, p);
    case DoReceive => ReceiveStates(s, p);
    case DoKill(q) => KillStates(s, q, p);
    case DoTick => TickStates(s, p);
    case DoStrtClk => StrtClkStates(s, p);
    case DoFinish => FinishStates(s, p);
    case _ => OtherStates(s, c, p);
  }

  lemma OtherStates(s: Sys, c: Call, p: Pid)
    requires Inv(s) && (c.DoSCreate? || c.DoChPrio? || c.DoSetNok? || c.DoStopClk? || c.DoDefer? || c.DoResched?)
    ensures ClassOf(Step(s, c).0, p) == Expected(s, c, p)
  {
    hide Placed, Distinct, ReadyOK, DeltasOK, ProcsOK, Resched, ChPrio, NewSem;
    match c
    case DoChPrio(q, prio) => ChPrioStates(s, q, prio, p);
    case DoResched => Rescheduled(s, p);
    case _ =>
  }
}
