/** Which calls give the processor away, to nobody or to whom, and how time
    slices run out. */
module KernelSwitch {
  import opened Ints
  import opened Lists
  import opened KernelSpec
  import opened KernelInv
  import opened KernelSched
  import opened KernelSems
  import opened KernelClock
  import opened KernelProcs
  import opened KernelRun
  import opened KernelStates
  import opened KernelMail
  import opened KernelFields
  import opened KernelFair

  // ---- the law -------------------------------------------------------------

  /** The call is one that lets others compete for the processor. */
  predicate Competes(s: Sys, c: Call) {
    match c
    case DoResume(p) => !IsBadPid(p) && s.proc[p].pstate == PrSusp
    case DoSuspend(p) => p == s.currpid && !IsBadPid(p)
    case DoWait(m) => BlocksOn(s, c)
    case DoSignal(m) => !NoSem(s, m) && s.sem[m].semcnt < 0
    case DoSignalN(m, n) => !NoSem(s, m) && n > 0
    case DoSReset(m, n) => !NoSem(s, m) && n >= 0
    case DoSDelete(m) => !NoSem(s, m) && s.lists[SemList(m)] != []
    case DoSend(p, msg) => HasRoom(s, p) && Wakes(s, p)
    case DoReceive => !s.proc[s.currpid].phasmsg
    case DoRecvTim(n) => n >= 0 && s.clkruns && !s.proc[s.currpid].phasmsg
    case DoSleep(n, unit) => n >= 0 && s.clkruns
    case DoChPrio(p, prio) => Kills(s, p) && prio > 0 && s.proc[p].pstate in {PrCurr, PrReady}
    case DoKill(v) => Kills(s, v) && HasRoom(s, s.proc[v].pnxtkin) && Wakes(s, s.proc[v].pnxtkin)
    case DoTick => s.lists[CLK] != [] && s.key[s.lists[CLK][0]] <= 1
    case DoStrtClk => s.defclk == 1 && (s.lists[CLK] != [] || s.preempt <= s.clkdiff)
    case DoResched => true
    case DoFinish =>
      var w := s.proc[s.currpid].pending;
      (w == InClkInt && s.preempt <= 1) || (w.InKill? && w.victim == s.currpid)
    case _ => false
  }

  /** What is left of the time slice if nobody else gets the processor. */
  function SliceKept(s: Sys, c: Call): int {
    if c.DoFinish? && s.proc[s.currpid].pending == InClkInt then s.preempt - 1
    else if c.DoStrtClk? && s.defclk == 1 then s.preempt - s.clkdiff
    else s.preempt
  }

  /** x can run after the call and has at least the priority of the process that
      made it. */
  ghost predicate Rivals(s: Sys, c: Call, x: Pid) {
    && x != s.currpid && Expected(s, c, x) == PrReady
    && RestAfter(s, c, x).pprio >= RestAfter(s, c, s.currpid).pprio
  }

  /** The processor changes hands exactly when the call lets others compete and
      its caller cannot go on or has a rival; the slice starts anew exactly then. */
  ghost predicate SwitchLaw(s: Sys, c: Call, r: Sys) {
    && (r.currpid != s.currpid <==>
          Competes(s, c) && (Expected(s, c, s.currpid) != PrReady || exists x: Pid :: Rivals(s, c, x)))
    && r.preempt == (if r.currpid != s.currpid then QUANTUM else SliceKept(s, c))
  }

  // ---- resched --------------------------------------------------------------

  /** x is ready with at least the running process's priority. */
  ghost predicate Rival(t: Sys, x: Pid) {
    x != t.currpid && t.proc[x].pstate == PrReady && t.proc[x].pprio >= t.proc[t.currpid].pprio
  }

  lemma {:induction false} LastIsBest(key: KeyTab, q: seq<Pid>, x: Pid)
    requires Sorted(key, q) && x in q
    ensures key[x] <= key[q[|q| - 1]]
  {
    var i :| 0 <= i < |q| && q[i] == x;
    assert i < |q| - 1 ==> key[q[i]] <= key[q[|q| - 1]];
  }

  lemma KeepsExactly(t: Sys)
    requires Core(t, -1)
    ensures KeepsCpu(t) <==> t.proc[t.currpid].pstate == PrCurr && forall x: Pid :: !Rival(t, x)
  {
    hide Distinct, DeltasOK;
    var q := t.lists[RDY];
    forall x: Pid | Rival(t, x) ensures !KeepsCpu(t) {
      AtHome(t, x);
      LastIsBest(t.key, q, x);
    }
    if q != [] {
      OnHomeList(t, q[|q| - 1], RDY);
      assert t.proc[t.currpid].pstate == PrCurr && !KeepsCpu(t) ==> Rival(t, q[|q| - 1]);
    }
  }

  lemma DispatchOther(t: Sys)
    requires Core(t, -1) && t.proc[t.currpid].pstate != PrReady && !KeepsCpu(t)
    ensures var r := Resched(t); r.currpid != t.currpid && r.preempt == QUANTUM
  {
    NullIsThere(t);
    YieldCore(t);
    var y := Yield(t);
    var q := t.lists[RDY];
    if t.proc[t.currpid].pstate == PrCurr {
      hide Core;
      YieldLast(t);
    } else {
      OnHomeList(t, q[|q| - 1], RDY);
    }
  }

  /** The one that yields goes before the last of those as good as it is. */
  lemma YieldLast(t: Sys)
    requires t.proc[t.currpid].pstate == PrCurr && !KeepsCpu(t) && t.proc[t.currpid].pprio >= 0
    requires Sorted(t.key, t.lists[RDY]) && t.currpid !in t.lists[RDY]
    ensures var q := Yield(t).lists[RDY]; q != [] && q[|q| - 1] != t.currpid
  {
    var q, k := t.lists[RDY], t.proc[t.currpid].pprio;
    assert q != [] && t.key[q[|q| - 1]] >= k;
    assert InsPos(t.key, q, k) < |q|;
  }

  lemma ReschedSwitch(t: Sys)
    requires Core(t, -1) && t.proc[t.currpid].pstate != PrReady
    ensures var r := Resched(t);
      && (r.currpid != t.currpid <==> t.proc[t.currpid].pstate != PrCurr || exists x: Pid :: Rival(t, x))
      && r.preempt == (if r.currpid != t.currpid then QUANTUM else t.preempt)
  {
    KeepsExactly(t);
    hide Core, Resched, Rival;
    if !KeepsCpu(t) {
      DispatchOther(t);
    } else {
      assert Resched(t) == t by {
        KeptIs(t);
      }
    }
  }

  lemma KeptIs(t: Sys)
    requires KeepsCpu(t)
    ensures Resched(t) == t
  {
  }

  /** The tables after the call, and those resched was called on. */
  lemma ViaTables(s: Sys, c: Call, t: Sys, x: Pid)
    requires Inv(s) && Legal(s, c) && Step(s, c).0 == Resched(t) && Core(t, -1)
    ensures Expected(s, c, x) == ClassOf(t, x) && RestAfter(s, c, x).pprio == t.proc[x].pprio
  {
    var r := Step(s, c).0;
    ReschedClass(t);
    ReschedRest(t);
    StatesAsExpected(s, c, x);
    LegalAllowed(s, c);
    FieldsAsExpected(s, c, x, 0);
    hide Step, Resched, Inv, Legal, Expected, RestAfter, SemAfter, Core, CountersAfter;
    assert ClassOf(r, x) == ClassOf(t, x);
    assert Rest(r.proc[x]) == Rest(t.proc[x]);
  }

  lemma LegalAllowed(s: Sys, c: Call)
    requires Legal(s, c)
    ensures Allowed(s, c)
  {
  }

  lemma RivalsAre(s: Sys, c: Call, t: Sys, x: Pid)
    requires Inv(s) && Legal(s, c) && Step(s, c).0 == Resched(t) && Core(t, -1) && t.currpid == s.currpid
    ensures Rivals(s, c, x) <==> Rival(t, x)
  {
    OnlyOneRuns(t, x);
    hide Step, Resched, Inv, Legal, Expected, RestAfter, Core;
    ViaTables(s, c, t, x);
    ViaTables(s, c, t, s.currpid);
  }

  /** A call that ends in resched on the tables t. */
  lemma Via(s: Sys, c: Call, t: Sys)
    requires Inv(s) && Legal(s, c) && Competes(s, c) && Step(s, c).0 == Resched(t) && Core(t, -1)
    requires t.currpid == s.currpid && t.proc[t.currpid].pstate != PrReady && t.preempt == SliceKept(s, c)
    ensures SwitchLaw(s, c, Step(s, c).0)
  {
    hide Step, Resched, Inv, Legal, Expected, RestAfter, Core, Competes, SliceKept, Rival, Rivals;
    ReschedSwitch(t);
    ViaTables(s, c, t, s.currpid);
    forall x: Pid ensures Rivals(s, c, x) <==> Rival(t, x) {
      RivalsAre(s, c, t, x);
    }
  }

  lemma OnlyOneRuns(t: Sys, x: Pid)
    requires Core(t, -1)
    ensures x != t.currpid ==> t.proc[x].pstate != PrCurr
  {
  }

  /** A call that lets nobody compete. */
  lemma Stays(s: Sys, c: Call)
    requires !Competes(s, c) && Step(s, c).0.currpid == s.currpid && Step(s, c).0.preempt == SliceKept(s, c)
    ensures SwitchLaw(s, c, Step(s, c).0)
  {
  }

  // ---- loops that only make others ready -----------------------------------------

  ghost predicate Untouched(s: Sys, r: Sys, x: Pid) {
    r.proc[x].pstate == s.proc[x].pstate && r.currpid == s.currpid && r.preempt == s.preempt
  }

  lemma ReadyUntouched(s: Sys, p: int, x: Pid)
    requires p != x
    ensures var r := ReadyNoResch(s, p);
      Untouched(s, r, x) && forall l: ListId :: l != RDY ==> r.lists[l] == s.lists[l]
  {
    hide InsPos;
  }

  lemma SignalUntouched(s: Sys, m: SemId, x: Pid)
    requires x !in s.lists[SemList(m)]
    ensures var r := SignalOne(s, m); Untouched(s, r, x) && x !in r.lists[SemList(m)]
  {
    hide ReadyNoResch;
    var s1 := SetCount(s, m, Wrap32(s.sem[m].semcnt + 1));
    if s.lists[SemList(m)] != [] {
      assert s.lists[SemList(m)][0] != x;
      ReadyUntouched(DropFirst(s1, SemList(m)), s.lists[SemList(m)][0], x);
    } else {
      ReadyBad(s1);
    }
  }

  lemma ReadyBad(s: Sys)
    ensures ReadyNoResch(s, EMPTY) == s
  {
  }

  lemma {:induction false} SignalsUntouched(s: Sys, m: SemId, n: nat, x: Pid)
    requires x !in s.lists[SemList(m)]
    ensures Untouched(s, SignalLoop(s, m, n), x)
    decreases n
  {
    if n > 0 {
      SignalUntouched(s, m, x);
      hide SignalOne;
      SignalsUntouched(SignalOne(s, m), m, n - 1, x);
    }
  }

  lemma DrainOneUntouched(s: Sys, m: SemId, deleted: bool, x: Pid)
    requires s.lists[SemList(m)] != [] && x !in s.lists[SemList(m)]
    ensures var t := DrainOne(s, SemList(m), deleted); Untouched(s, t, x) && t.lists[SemList(m)] == s.lists[SemList(m)][1..]
  {
    hide ReadyNoResch;
    var p := s.lists[SemList(m)][0];
    var s1 := DropFirst(s, SemList(m));
    ReadyUntouched(if deleted then SetProc(s1, p, s1.proc[p].(pwaitret := DELETED)) else s1, p, x);
  }

  lemma {:induction false} DrainUntouched(s: Sys, m: SemId, deleted: bool, x: Pid)
    requires x !in s.lists[SemList(m)]
    ensures Untouched(s, DrainLoop(s, SemList(m), deleted), x)
    decreases |s.lists[SemList(m)]|
  {
    if s.lists[SemList(m)] != [] {
      DrainOneUntouched(s, m, deleted, x);
      DrainUnfold(s, m, deleted);
      hide DrainOne, DrainLoop;
      DrainUntouched(DrainOne(s, SemList(m), deleted), m, deleted, x);
    }
  }

  lemma {:induction false} WakesUntouched(s: Sys, x: Pid)
    requires x !in s.lists[CLK]
    ensures Untouched(s, WakeLoop(s), x)
    decreases |s.lists[CLK]|
  {
    if s.lists[CLK] != [] && s.key[s.lists[CLK][0]] <= 0 {
      var p := s.lists[CLK][0];
      var t := ReadyNoResch(DropFirst(s, CLK), p);
      ReadyUntouched(DropFirst(s, CLK), p, x);
      WakeUnfold(s);
      hide ReadyNoResch, WakeLoop;
      WakesUntouched(t, x);
    }
  }

  // ---- call by call -----------------------------------------------------------

  lemma CurrentRuns(s: Sys)
    requires Inv(s)
    ensures s.proc[s.currpid].pstate == PrCurr && Core(s, -1) && forall l: ListId :: s.currpid !in s.lists[l]
    ensures s.slnempty == (s.lists[CLK] != []) && (s.slnempty ==> s.sltop == s.lists[CLK][0])
  {
    OnNoList(s);
  }

  lemma ResumeSwitch(s: Sys, p: int)
    requires Inv(s) && Legal(s, DoResume(p))
    ensures SwitchLaw(s, DoResume(p), Step(s, DoResume(p)).0)
  {
    CurrentRuns(s);
    hide Inv, SwitchLaw, Resched, Legal;
    if Competes(s, DoResume(p)) {
      ResumeSettled(s, p);
      ReadyUntouched(s, p, s.currpid);
      hide ReadyNoResch;
      Via(s, DoResume(p), ReadyNoResch(s, p));
    } else {
      Stays(s, DoResume(p));
    }
  }

  lemma SuspendSwitch(s: Sys, p: int)
    requires Inv(s) && Legal(s, DoSuspend(p))
    ensures SwitchLaw(s, DoSuspend(p), Step(s, DoSuspend(p)).0)
  {
    CurrentRuns(s);
    if !IsBadPid(p) {
      CurrIsRunning(s, p);
    }
    hide Inv, SwitchLaw, Resched, Legal;
    if Competes(s, DoSuspend(p)) {
      SuspendSelfCore(s, p);
      Via(s, DoSuspend(p), SetProc(s, p, s.proc[p].(pstate := PrSusp, pending := InSuspend)));
    } else {
      Stays(s, DoSuspend(p));
    }
  }

  lemma WaitSwitch(s: Sys, m: int)
    requires Inv(s) && Legal(s, DoWait(m))
    ensures SwitchLaw(s, DoWait(m), Step(s, DoWait(m)).0)
  {
    CurrentRuns(s);
    assert s.currpid != NULLPROC;
    hide Inv, SwitchLaw, Resched, Legal, Wrap32;
    if !NoSem(s, m) {
      WaitWraps(s, m);
    }
    if Competes(s, DoWait(m)) {
      JoinWaitersSettled(s, m);
      Via(s, DoWait(m), JoinWaiters(SetCount(s, m, Wrap32(s.sem[m].semcnt - 1)), m));
    } else {
      Stays(s, DoWait(m));
    }
  }

  lemma SignalSwitch(s: Sys, m: int)
    requires Inv(s) && Legal(s, DoSignal(m))
    ensures SwitchLaw(s, DoSignal(m), Step(s, DoSignal(m)).0)
  {
    CurrentRuns(s);
    hide Inv, SwitchLaw, Resched, Legal, Wrap32;
    if Competes(s, DoSignal(m)) {
      WaiterThere(s, m);
      SignalOneSettled(s, m);
      SignalUntouched(s, m, s.currpid);
      hide SignalOne;
      Via(s, DoSignal(m), SignalOne(s, m));
    } else {
      Stays(s, DoSignal(m));
    }
  }

  lemma SignalNSwitch(s: Sys, m: int, n: Int32)
    requires Inv(s) && Legal(s, DoSignalN(m, n))
    ensures SwitchLaw(s, DoSignalN(m, n), Step(s, DoSignalN(m, n)).0)
  {
    CurrentRuns(s);
    hide Inv, SwitchLaw, Resched, SignalLoop;
    if Competes(s, DoSignalN(m, n)) {
      SignalLoopSettled(s, m, n);
      SignalsUntouched(s, m, n, s.currpid);
      hide Legal;
      Via(s, DoSignalN(m, n), SignalLoop(s, m, n));
    } else {
      Stays(s, DoSignalN(m, n));
    }
  }

  lemma SResetSwitch(s: Sys, m: int, n: Int32)
    requires Inv(s) && Legal(s, DoSReset(m, n))
    ensures SwitchLaw(s, DoSReset(m, n), Step(s, DoSReset(m, n)).0)
  {
    CurrentRuns(s);
    hide Inv, SwitchLaw, Resched, DrainLoop, Legal;
    if Competes(s, DoSReset(m, n)) {
      SResetSettled(s, m, n);
      DrainUntouched(s, m, false, s.currpid);
      Via(s, DoSReset(m, n), SetCount(DrainLoop(s, SemList(m), false), m, n));
    } else {
      Stays(s, DoSReset(m, n));
    }
  }

  lemma SDeleteSwitch(s: Sys, m: int)
    requires Inv(s) && Legal(s, DoSDelete(m))
    ensures SwitchLaw(s, DoSDelete(m), Step(s, DoSDelete(m)).0)
  {
    CurrentRuns(s);
    hide Inv, SwitchLaw, Resched, DrainLoop, Legal;
    if Competes(s, DoSDelete(m)) {
      SDeleteSettled(s, m);
      DrainUntouched(Freed(s, m), m, true, s.currpid);
      Via(s, DoSDelete(m), DrainLoop(Freed(s, m), SemList(m), true));
    } else {
      Stays(s, DoSDelete(m));
    }
  }

  lemma ReceiveSwitch(s: Sys)
    requires Inv(s) && Legal(s, DoReceive)
    ensures SwitchLaw(s, DoReceive, Step(s, DoReceive).0)
  {
    CurrentRuns(s);
    assert s.currpid != NULLPROC;
    hide Inv, SwitchLaw, Resched, Legal;
    if Competes(s, DoReceive) {
      ReceivingSettled(s);
      Via(s, DoReceive, SetProc(s, s.currpid, s.proc[s.currpid].(pending := InReceive, pstate := PrRecv)));
    } else {
      Stays(s, DoReceive);
    }
  }

  lemma DozingUntouched(s: Sys, k: int, e: PEntry)
    ensures var d := Dozing(s, k, e); d.currpid == s.currpid && d.preempt == s.preempt && d.proc[s.currpid] == e
  {
    hide DPos, DKeys;
  }

  lemma RecvTimIs(s: Sys, n: Int32)
    requires n <= 0 || n * 1000 <= MAXINT
    ensures n >= 0 && s.clkruns && !s.proc[s.currpid].phasmsg ==>
      RecvTim(s, n).0 == Resched(Dozing(s, n * 1000, s.proc[s.currpid].(pending := InRecvTim, pstate := PrTRecv)))
  {
    hide Resched, Dozing;
  }

  lemma RecvTimStays(s: Sys, n: Int32)
    requires !Competes(s, DoRecvTim(n))
    ensures RecvTim(s, n).0.currpid == s.currpid && RecvTim(s, n).0.preempt == s.preempt
  {
    hide Doze;
  }

  lemma TimedSettled(s: Sys, k: int)
    requires Inv(s) && s.currpid != NULLPROC && 0 <= k <= MAXINT && !s.proc[s.currpid].phasmsg
    ensures Core(Dozing(s, k, s.proc[s.currpid].(pending := InRecvTim, pstate := PrTRecv)), -1)
  {
    DozingSettled(s, k, s.proc[s.currpid].(pending := InRecvTim, pstate := PrTRecv));
  }

  lemma RecvTimSwitch(s: Sys, n: Int32)
    requires Inv(s) && Legal(s, DoRecvTim(n))
    ensures SwitchLaw(s, DoRecvTim(n), Step(s, DoRecvTim(n)).0)
  {
    CurrentRuns(s);
    assert s.currpid != NULLPROC && (n <= 0 || n * 1000 <= MAXINT);
    RecvTimIs(s, n);
    hide Inv, SwitchLaw, Resched, Legal, Dozing, Core, RecvTim;
    if Competes(s, DoRecvTim(n)) {
      var e := s.proc[s.currpid].(pending := InRecvTim, pstate := PrTRecv);
      TimedSettled(s, n * 1000);
      DozingUntouched(s, n * 1000, e);
      Via(s, DoRecvTim(n), Dozing(s, n * 1000, e));
    } else {
      RecvTimStays(s, n);
      Stays(s, DoRecvTim(n));
    }
  }

  lemma NapSettled(s: Sys, k: int)
    requires Inv(s) && s.currpid != NULLPROC && 0 <= k <= MAXINT && s.proc[s.currpid].pending == Nothing
    ensures Core(Dozing(s, k, s.proc[s.currpid].(pstate := PrSleep)), -1)
  {
    DozingSettled(s, k, s.proc[s.currpid].(pstate := PrSleep));
  }

  lemma SleepIs(s: Sys, n: Int32, unit: nat)
    requires n <= 0 || n * unit <= MAXINT
    ensures Sleep(s, n, unit).0 ==
      if n < 0 || !s.clkruns then s
      else if n == 0 then Resched(s)
      else Resched(Dozing(s, n * unit, s.proc[s.currpid].(pstate := PrSleep)))
  {
    hide Resched, Dozing;
    assert n > 0 ==> 0 <= n * unit;
  }

  lemma SleepSwitch(s: Sys, n: Int32, unit: nat)
    requires Inv(s) && Legal(s, DoSleep(n, unit))
    ensures SwitchLaw(s, DoSleep(n, unit), Step(s, DoSleep(n, unit)).0)
  {
    CurrentRuns(s);
    assert n > 0 ==> s.currpid != NULLPROC && 0 <= n * unit <= MAXINT && s.proc[s.currpid].pending == Nothing;
    SleepIs(s, n, unit);
    hide Inv, SwitchLaw, Resched, Legal, Dozing, Core, Sleep;
    if Competes(s, DoSleep(n, unit)) && n > 0 {
      var e := s.proc[s.currpid].(pstate := PrSleep);
      NapSettled(s, n * unit);
      DozingUntouched(s, n * unit, e);
      Via(s, DoSleep(n, unit), Dozing(s, n * unit, e));
    } else if Competes(s, DoSleep(n, unit)) {
      Via(s, DoSleep(n, unit), s);
    } else {
      Stays(s, DoSleep(n, unit));
    }
  }

  lemma ChPrioSwitch(s: Sys, p: int, prio: Int32)
    requires Inv(s) && Legal(s, DoChPrio(p, prio))
    ensures SwitchLaw(s, DoChPrio(p, prio), Step(s, DoChPrio(p, prio)).0)
  {
    CurrentRuns(s);
    hide Inv, SwitchLaw, Resched, Legal, InsPos, Dequeue;
    if Competes(s, DoChPrio(p, prio)) {
      var s1 := SetProc(s, p, s.proc[p].(pprio := prio));
      if s.proc[p].pstate == PrReady {
        ChPrioReady(s, p, prio);
        DequeueKeepsProc(s1, p);
        DequeueFrame(s1, p);
        Via(s, DoChPrio(p, prio), Insert(Dequeue(s1, p, RDY), p, RDY, prio));
      } else {
        ChPrioOther(s, p, prio);
        Via(s, DoChPrio(p, prio), s1);
      }
    } else {
      Stays(s, DoChPrio(p, prio));
    }
  }

  lemma DequeueFrame(s: Sys, p: Pid)
    ensures var r := Dequeue(s, p, RDY); r.currpid == s.currpid && r.preempt == s.preempt
  {
  }

  /** Where a message wakes its receiver, resched is called on these tables. */
  lemma SendWakes(s: Sys, p: Pid, msg: Int32)
    requires Inv(s) && HasRoom(s, p) && Wakes(s, p)
    ensures var t := ReadyNoResch(Delivered(s, p, msg), p);
      && Send(s, p, msg).0 == Resched(t) && Core(t, -1)
      && t.currpid == s.currpid && t.proc[t.currpid].pstate == PrCurr && t.preempt == s.preempt
  {
    CurrentRuns(s);
    DeliveredReady(s, p, msg);
    hide Inv, Resched, HandOn, Without;
    ReadyUntouched(Delivered(s, p, msg), p, s.currpid);
    hide ReadyNoResch;
  }

  lemma SendStays(s: Sys, p: int, msg: Int32)
    requires !(HasRoom(s, p) && Wakes(s, p))
    ensures Send(s, p, msg).0.currpid == s.currpid && Send(s, p, msg).0.preempt == s.preempt
  {
  }

  lemma SendSwitch(s: Sys, p: int, msg: Int32)
    requires Inv(s) && Legal(s, DoSend(p, msg))
    ensures SwitchLaw(s, DoSend(p, msg), Step(s, DoSend(p, msg)).0)
  {
    hide Inv, SwitchLaw, Resched, Legal, Send, ReadyNoResch, Delivered;
    if Competes(s, DoSend(p, msg)) {
      SendWakes(s, p, msg);
      Via(s, DoSend(p, msg), ReadyNoResch(Delivered(s, p, msg), p));
    } else {
      SendStays(s, p, msg);
      Stays(s, DoSend(p, msg));
    }
  }

  lemma PendingInv(s: Sys, v: Pid)
    requires Inv(s) && v != NULLPROC
    ensures Inv(SetPending(s, s.currpid, InKill(v)))
  {
    PendingCore(s, InKill(v));
  }

  lemma KillSwitch(s: Sys, v: int)
    requires Inv(s) && Legal(s, DoKill(v))
    ensures SwitchLaw(s, DoKill(v), Step(s, DoKill(v)).0)
  {
    if Kills(s, v) {
      var s1 := SetPending(s, s.currpid, InKill(v));
      var p := s.proc[v].pnxtkin;
      assert s1.currpid == s.currpid && s1.preempt == s.preempt && (HasRoom(s1, p) <==> HasRoom(s, p));
      assert HasRoom(s, p) ==> (Wakes(s1, p) <==> Wakes(s, p));
      PendingInv(s, v);
      hide Inv, SwitchLaw, Resched, Legal, Send, ReadyNoResch, Delivered, SetPending;
      if Competes(s, DoKill(v)) {
        SendWakes(s1, p, v);
        Via(s, DoKill(v), ReadyNoResch(Delivered(s1, p, v), p));
      } else {
        SendStays(s1, p, v);
        Stays(s, DoKill(v));
      }
    } else {
      Stays(s, DoKill(v));
    }
  }

  lemma AwakeUntouched(s: Sys, x: Pid)
    requires x !in s.lists[CLK]
    ensures Untouched(s, Awake(s), x)
  {
    hide WakeLoop;
    WakesUntouched(s, x);
  }

  lemma TickSwitch(s: Sys)
    requires Inv(s) && Legal(s, DoTick)
    ensures SwitchLaw(s, DoTick, Step(s, DoTick).0)
  {
    CurrentRuns(s);
    hide Inv, SwitchLaw, Resched, Legal, Awake, Tick, SetPending;
    if s.lists[CLK] != [] {
      TickIs(s);
      TickedCore(s);
      TickedSame(s);
      hide Ticked;
      if Competes(s, DoTick) {
        AwakeSettled(Ticked(s));
        AwakeUntouched(Ticked(s), s.currpid);
        Via(s, DoTick, Awake(Ticked(s)));
      } else {
        Stays(s, DoTick);
      }
    } else {
      TickIdle(s);
      Stays(s, DoTick);
    }
  }

  lemma TickedSame(s: Sys)
    requires s.lists[CLK] != []
    ensures var t := Ticked(s);
      && t.lists == s.lists && t.currpid == s.currpid && t.preempt == s.preempt && t.clkdiff == s.clkdiff
      && t.proc[s.currpid].pstate == s.proc[s.currpid].pstate
  {
  }

  lemma TickIdle(s: Sys)
    requires !s.slnempty
    ensures Tick(s).currpid == s.currpid && Tick(s).preempt == s.preempt
  {
  }

  lemma StrtClkSwitch(s: Sys)
    requires Inv(s) && Legal(s, DoStrtClk)
    ensures SwitchLaw(s, DoStrtClk, Step(s, DoStrtClk).0)
  {
    CurrentRuns(s);
    hide Inv, SwitchLaw, Resched, Legal, Awake, StrtClk, CaughtUp, Core, SemsOK, Wakeup;
    if Competes(s, DoStrtClk) && s.lists[CLK] != [] {
      CaughtUpCore(s);
      CaughtUpSame(s);
      StrtClkIs(s);
      AwakeSettled(CaughtUp(s));
      AwakeUntouched(CaughtUp(s), s.currpid);
      Via(s, DoStrtClk, Awake(CaughtUp(s)));
    } else if Competes(s, DoStrtClk) {
      DeferredCore(s);
      StrtClkEmpty(s);
      Via(s, DoStrtClk, Deferred(s));
    } else {
      StrtClkStays(s);
      Stays(s, DoStrtClk);
    }
  }

  /** The tables once the deferred ticks have been counted. */
  function Deferred(s: Sys): Sys { s.(defclk := 0, preempt := s.preempt - s.clkdiff, clkdiff := 0) }

  lemma DeferredCore(s: Sys)
    requires Core(s, -1)
    ensures Core(Deferred(s), -1)
  {
    SameCore(s, Deferred(s));
  }

  lemma StrtClkEmpty(s: Sys)
    requires s.defclk == 1 && !s.slnempty && s.preempt <= s.clkdiff
    ensures StrtClk(s) == Resched(Deferred(s))
  {
    hide Resched, Wakeup;
  }

  lemma StrtClkStays(s: Sys)
    requires s.slnempty == (s.lists[CLK] != []) && !Competes(s, DoStrtClk)
    ensures StrtClk(s).currpid == s.currpid && StrtClk(s).preempt == SliceKept(s, DoStrtClk)
  {
    hide Resched, Wakeup;
  }

  lemma CaughtUpSame(s: Sys)
    requires Inv(s)
    ensures var t := CaughtUp(s);
      t.lists == s.lists && t.currpid == s.currpid && t.preempt == s.preempt - s.clkdiff && t.clkdiff >= 0
      && t.proc[s.currpid].pstate == s.proc[s.currpid].pstate
  {
    hide MakeUp;
  }

  lemma StrtClkUnfold(s: Sys)
    requires s.defclk == 1 && s.slnempty
    ensures var r := Resched(Awake(CaughtUp(s))); StrtClk(s) == if r.preempt <= 0 then Resched(r) else r
  {
    hide Awake, Resched, MakeUp;
  }

  /** The second resched finds nothing left to do. */
  lemma StrtClkIs(s: Sys)
    requires Inv(s) && s.defclk == 1 && s.lists[CLK] != []
    ensures StrtClk(s) == Resched(Awake(CaughtUp(s)))
  {
    CurrentRuns(s);
    CaughtUpCore(s);
    CaughtUpSame(s);
    StrtClkUnfold(s);
    hide Inv, Core, Awake, Resched, CaughtUp, StrtClk;
    AwakeSettled(CaughtUp(s));
    ReschedOnce(Awake(CaughtUp(s)));
  }

  lemma FinishSwitch(s: Sys)
    requires Inv(s) && Legal(s, DoFinish)
    ensures SwitchLaw(s, DoFinish, Step(s, DoFinish).0)
  {
    CurrentRuns(s);
    var s1 := SetPending(s, s.currpid, Nothing);
    PendingCore(s, Nothing);
    if s.proc[s.currpid].pending == InClkInt {
      ClkIntSwitch(s);
    } else if s.proc[s.currpid].pending.InKill? {
      KillRestSwitch(s);
    } else {
      hide SwitchLaw, Resched, Remove;
      Stays(s, DoFinish);
    }
  }

  /** The tables once the interrupt has counted its tick. */
  function Counted(s: Sys): Sys { SetPending(s, s.currpid, Nothing).(preempt := s.preempt - 1) }

  lemma CountedCore(s: Sys)
    requires Inv(s)
    ensures Core(Counted(s), -1)
  {
    PendingCore(s, Nothing);
    SameCore(SetPending(s, s.currpid, Nothing), Counted(s));
  }

  lemma FinishTick(s: Sys)
    requires s.proc[s.currpid].pending == InClkInt
    ensures Finish(s).0 == if s.preempt <= 1 then Resched(Counted(s)) else Counted(s)
  {
    hide Resched;
  }

  lemma FinishKill(s: Sys)
    requires s.proc[s.currpid].pending.InKill?
    ensures Finish(s).0 == Remove(SetPending(s, s.currpid, Nothing), s.proc[s.currpid].pending.victim)
  {
    hide Remove;
  }

  lemma RemoveRunning(s: Sys, v: Pid)
    requires s.proc[v].pstate == PrCurr
    ensures Remove(s, v) == Resched(SetState(s, v, PrFree))
  {
    hide Resched;
  }

  lemma ClkIntSwitch(s: Sys)
    requires Inv(s) && Legal(s, DoFinish) && s.proc[s.currpid].pending == InClkInt
    ensures SwitchLaw(s, DoFinish, Step(s, DoFinish).0)
  {
    CurrentRuns(s);
    CountedCore(s);
    FinishTick(s);
    hide Inv, SwitchLaw, Resched, Legal, Core, Finish;
    if Competes(s, DoFinish) {
      Via(s, DoFinish, Counted(s));
    } else {
      Stays(s, DoFinish);
    }
  }

  /** The tables once the running process has freed its own slot. */
  function Gone(s: Sys): Sys { SetState(SetPending(s, s.currpid, Nothing), s.currpid, PrFree) }

  lemma GoneCore(s: Sys)
    requires Inv(s) && s.proc[s.currpid].pending == InKill(s.currpid)
    ensures Core(Gone(s), -1) && Finish(s).0 == Resched(Gone(s))
  {
    CurrentRuns(s);
    PendingNothing(s);
    FinishKill(s);
    hide Inv, Resched, Core, Finish, Remove;
    SuicideSettled(SetPending(s, s.currpid, Nothing), s.currpid);
    RemoveRunning(SetPending(s, s.currpid, Nothing), s.currpid);
  }

  lemma GoneIs(s: Sys)
    requires s.proc[s.currpid].pending == InKill(s.currpid)
    ensures var t := Gone(s); t.currpid == s.currpid && t.proc[t.currpid].pstate == PrFree && t.preempt == s.preempt
    ensures Competes(s, DoFinish) && SliceKept(s, DoFinish) == s.preempt && Step(s, DoFinish) == Finish(s)
  {
    hide Finish;
  }

  lemma SuicideSwitch(s: Sys)
    requires Inv(s) && Legal(s, DoFinish) && s.proc[s.currpid].pending == InKill(s.currpid)
    ensures SwitchLaw(s, DoFinish, Step(s, DoFinish).0)
  {
    hide Inv, SwitchLaw, Resched, Legal, Core, Finish, Gone, Step, Competes, SliceKept;
    GoneCore(s);
    GoneIs(s);
    Via(s, DoFinish, Gone(s));
  }

  lemma OtherGone(s: Sys)
    requires Inv(s) && s.proc[s.currpid].pending.InKill? && s.proc[s.currpid].pending.victim != s.currpid
    ensures Finish(s).0.currpid == s.currpid && Finish(s).0.preempt == s.preempt
  {
    var v := s.proc[s.currpid].pending.victim;
    CurrIsRunning(s, v);
    FinishKill(s);
    hide Inv, Finish, Remove;
    RemoveStays(SetPending(s, s.currpid, Nothing), v);
  }

  lemma KillRestSwitch(s: Sys)
    requires Inv(s) && Legal(s, DoFinish) && s.proc[s.currpid].pending.InKill?
    ensures SwitchLaw(s, DoFinish, Step(s, DoFinish).0)
  {
    hide Inv, SwitchLaw, Legal, Finish;
    if s.proc[s.currpid].pending.victim == s.currpid {
      SuicideSwitch(s);
    } else {
      OtherGone(s);
      Stays(s, DoFinish);
    }
  }

  lemma PendingNothing(s: Sys)
    requires Inv(s)
    ensures Inv(SetPending(s, s.currpid, Nothing))
    ensures s.proc[s.currpid].pending.InKill? ==> s.proc[s.currpid].pending.victim != NULLPROC
  {
    PendingCore(s, Nothing);
  }

  lemma RemoveStays(s: Sys, v: Pid)
    requires s.proc[v].pstate != PrCurr
    ensures Remove(s, v).currpid == s.currpid && Remove(s, v).preempt == s.preempt
  {
    hide HandOn, Without, Wrap32;
  }

  lemma QuietSwitch(s: Sys, c: Call)
    requires c.DoCreate? || c.DoSCreate? || c.DoSetNok? || c.DoStopClk? || c.DoDefer?
    ensures SwitchLaw(s, c, Step(s, c).0)
  {
    hide NewPid, NewSem, SwitchLaw;
    Stays(s, c);
  }

  lemma ReschedCallSwitch(s: Sys)
    requires Inv(s) && Legal(s, DoResched)
    ensures SwitchLaw(s, DoResched, Step(s, DoResched).0)
  {
    CurrentRuns(s);
    hide Inv, SwitchLaw, Resched, Legal;
    Via(s, DoResched, s);
  }

  /** Over every call the processor changes hands exactly as the law says. */
  lemma SwitchExactly(s: Sys, c: Call)
    requires Inv(s) && Legal(s, c)
    ensures SwitchLaw(s, c, Step(s, c).0)
  {
    hide Inv, Legal, SwitchLaw, Step;
    match c
    case DoResume(p) => ResumeSwitch(s, p);
    case DoSuspend(p) => SuspendSwitch(s, p);
    case DoWait(m) => WaitSwitch(s, m);
    case DoSignal(m) => SignalSwitch(s, m);
    case DoSignalN(m, n) => SignalNSwitch(s, m, n);
    case DoSReset(m, n) => SResetSwitch(s, m, n);
    case DoSDelete(m) => SDeleteSwitch(s, m);
    case DoSend(p, msg) => SendSwitch(s, p, msg);
    case DoReceive => ReceiveSwitch(s);
    case DoRecvTim(n) => RecvTimSwitch(s, n);
    case DoSleep(n, unit) => SleepSwitch(s, n, unit);
    case DoChPrio(p, prio) => ChPrioSwitch(s, p, prio);
    case DoKill(p) => KillSwitch(s, p);
    case DoTick => TickSwitch(s);
    case DoStrtClk => StrtClkSwitch(s);
    case DoResched => ReschedCallSwitch(s);
    case DoFinish => FinishSwitch(s);
    case _ => QuietSwitch(s, c);
  }

  // ---- time slices ---------------------------------------------------------------

  lemma FinishLeaves(s: Sys, x: Pid)
    requires s.proc[s.currpid].pending == InClkInt
    ensures Expected(s, DoFinish, x) == ClassOf(s, x) && RestAfter(s, DoFinish, x).pprio == s.proc[x].pprio
  {
  }

  lemma TickRival(s: Sys, x: Pid)
    requires Inv(s) && s.proc[s.currpid].pending == InClkInt
    requires s.proc[x].pstate == PrReady && s.proc[x].pprio == s.proc[s.currpid].pprio
    ensures Rivals(s, DoFinish, x)
  {
    CurrentRuns(s);
    FinishLeaves(s, x);
    FinishLeaves(s, s.currpid);
    hide Inv, Expected, RestAfter;
  }

  /** A tick shortens the time slice by one; the last one gives the processor to
      another process of the same priority if there is one. */
  lemma TickSlice(s: Sys, x: Pid)
    requires Inv(s) && Legal(s, DoFinish) && s.proc[s.currpid].pending == InClkInt
    ensures var r := Finish(s).0;
      && (s.preempt > 1 ==> r.currpid == s.currpid && r.preempt == s.preempt - 1)
      && (s.preempt <= 1 && s.proc[x].pstate == PrReady && s.proc[x].pprio == s.proc[s.currpid].pprio ==>
            r.currpid != s.currpid && r.preempt == QUANTUM)
  {
    hide Inv, Finish, Legal, Expected, Rivals;
    SwitchExactly(s, DoFinish);
    if s.proc[x].pstate == PrReady && s.proc[x].pprio == s.proc[s.currpid].pprio {
      TickRival(s, x);
    }
  }

  /** Clock ticks counted in the run. */
  function Ticks(s: Sys, run: seq<Call>): nat
    decreases |run|
  {
    if run == [] then 0
    else
      (if run[0].DoFinish? && s.proc[s.currpid].pending == InClkInt then 1 else 0)
      + Ticks(Step(s, run[0]).0, run[1..])
  }

  function Max(x: int, y: int): int { if x < y then y else x }

  /** What those ahead of p and the running process may still use up. */
  function Budget(s: Sys, p: Pid): int { |Ahead(s, p)| * QUANTUM + Max(s.preempt, 1) }

  /** If nobody is better than p after a tick, the running process is not. */
  lemma TickEqual(s: Sys, p: Pid)
    requires Inv(s) && Legal(s, DoFinish) && s.proc[s.currpid].pending == InClkInt && Waiting(s, Finish(s).0, p)
    ensures s.proc[p].pstate == PrReady && s.proc[p].pprio == s.proc[s.currpid].pprio
  {
    var c := s.currpid;
    var r := Finish(s).0;
    CurrentRuns(s);
    ReadyBelow(s, p);
    StatesAsExpected(s, DoFinish, c);
    FieldsAsExpected(s, DoFinish, c, 0);
    FieldsAsExpected(s, DoFinish, p, 0);
    FinishLeaves(s, c);
    FinishLeaves(s, p);
    hide Inv, Finish, Legal, Expected, RestAfter, SemAfter;
    assert Rest(r.proc[c]) == RestAfter(s, DoFinish, c) && Rest(r.proc[p]) == RestAfter(s, DoFinish, p);
    assert r.proc[c].pstate in {PrReady, PrCurr};
  }

  lemma ReadyBelow(s: Sys, p: Pid)
    requires Inv(s)
    ensures s.proc[p].pstate == PrReady ==> s.proc[p].pprio <= s.proc[s.currpid].pprio
  {
    AtHome(s, p);
  }

  lemma NearerIs(s: Sys, r: Sys, p: Pid)
    requires Nearer(s, r, p)
    ensures |Ahead(r, p)| <= |Ahead(s, p)| - (if r.currpid != s.currpid then 1 else 0)
  {
  }

  lemma BudgetStep(s: Sys, c: Call, p: Pid)
    requires Inv(s) && Legal(s, c) && Waiting(s, Step(s, c).0, p) && !(c.DoChPrio? && c.pid == p)
    ensures Budget(Step(s, c).0, p)
      <= Budget(s, p) - (if c.DoFinish? && s.proc[s.currpid].pending == InClkInt then 1 else 0)
  {
    var r := Step(s, c).0;
    StepFair(s, c, p);
    NearerIs(s, r, p);
    SwitchExactly(s, c);
    DeferNonNeg(s);
    if c.DoFinish? && s.proc[s.currpid].pending == InClkInt {
      TickEqual(s, p);
      TickSlice(s, p);
    }
    hide Inv, Legal, Step, Finish, Ahead, Nearer, Waiting, Quiet, Competes, Expected, Rivals;
  }

  lemma DeferNonNeg(s: Sys)
    requires Inv(s)
    ensures s.clkdiff >= 0
  {
  }

  lemma BudgetBounds(s: Sys, p: Pid)
    ensures Budget(s, p) >= 1 && (s.preempt <= QUANTUM ==> Budget(s, p) <= (|Ahead(s, p)| + 1) * QUANTUM)
  {
  }

  /** While p waits, ticks use up the budget. */
  lemma {:induction false} TicksBounded(s: Sys, run: seq<Call>, p: Pid)
    requires Inv(s) && LegalRun(s, run) && WaitsThrough(s, run, p)
    ensures Ticks(s, run) <= Budget(s, p) - Budget(Exec(s, run), p)
    decreases |run|
  {
    hide Inv, Legal, Step, Budget, Waiting;
    if run != [] {
      StepInv(s, run[0]);
      BudgetStep(s, run[0], p);
      TicksBounded(Step(s, run[0]).0, run[1..], p);
    }
  }

  /** No time slice is ever longer than QUANTUM. */
  lemma {:induction false} SliceBound(s: Sys, run: seq<Call>)
    requires Inv(s) && LegalRun(s, run) && s.preempt <= QUANTUM
    ensures Exec(s, run).preempt <= QUANTUM
    decreases |run|
  {
    hide Inv, Legal, Step, Competes, Expected, Rivals;
    if run != [] {
      StepInv(s, run[0]);
      SwitchExactly(s, run[0]);
      DeferNonNeg(s);
      SliceBound(Step(s, run[0]).0, run[1..]);
    }
  }

  /** From boot: with k processes ahead of it and nobody of higher priority, a
      ready process has run before the (k + 1) * QUANTUM-th clock tick. */
  lemma RunsWithin(before: seq<Call>, run: seq<Call>, p: Pid)
    requires LegalRun(Boot(), before) && LegalRun(Exec(Boot(), before), run)
    requires Ticks(Exec(Boot(), before), run) >= (|Ahead(Exec(Boot(), before), p)| + 1) * QUANTUM
    ensures !WaitsThrough(Exec(Boot(), before), run, p)
  {
    BootInv();
    RunInv(Boot(), before);
    SliceBound(Boot(), before);
    hide Inv, Ticks, LegalRun, Ahead, Exec, Boot, WaitsThrough, Budget;
    var s := Exec(Boot(), before);
    if WaitsThrough(s, run, p) {
      BudgetBounds(s, p);
      BudgetBounds(Exec(s, run), p);
      TicksBounded(s, run, p);
    }
  }
}
