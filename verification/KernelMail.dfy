/** Messages: each one accepted for a process is returned to it once, in order. */
module KernelMail {
  import opened Ints
  import opened KernelSpec
  import opened KernelInv
  import opened KernelRun
  import KernelProcs

  /** The message waiting for p. */
  function Held(s: Sys, p: Pid): seq<Int32> {
    if s.proc[p].phasmsg then [s.proc[p].pmsg] else []
  }

  /** A message for p is accepted: p lives and holds none. */
  predicate HasRoom(s: Sys, p: int) { !IsBadPid(p) && s.proc[p].pstate != PrFree && !s.proc[p].phasmsg }

  /** What a step accepts for p: a message sent, or the notice that kill sends
      to its victim's next of kin. */
  function Accepted(s: Sys, c: Call, p: Pid): seq<Int32> {
    match c
    case DoSend(q, msg) => if q == p && HasRoom(s, p) then [msg] else []
    case DoKill(v) =>
      if !IsBadPid(v) && s.proc[v].pstate != PrFree && s.proc[v].pnxtkin == p && HasRoom(s, p) then [v] else []
    case _ => []
  }

  /** send accepts exactly then, and otherwise changes nothing. */
  lemma SendExactly(s: Sys, p: int, msg: Int32)
    ensures Send(s, p, msg).1 == Returns(if HasRoom(s, p) then OK else SYSERR)
    ensures !HasRoom(s, p) ==> Send(s, p, msg).0 == s
  {
    hide Ready, Unsleep;
  }

  /** What a step returns to p as a message. */
  function Taken(s: Sys, c: Call, p: Pid): seq<Int32> {
    if c.DoFinish? && s.currpid == p && s.proc[p].pending in {InReceive, InRecvTim} && s.proc[p].phasmsg
    then [s.proc[p].pmsg] else []
  }

  // ---- what leaves messages alone --------------------------------------

  ghost predicate SameMail(s: Sys, r: Sys) {
    forall p: Pid :: r.proc[p].phasmsg == s.proc[p].phasmsg && r.proc[p].pmsg == s.proc[p].pmsg
  }

  lemma ReschedMail(s: Sys)
    ensures SameMail(s, Resched(s))
  {
    hide Insert;
    assert SameMail(s, Yield(s)) by {
      YieldMail(s);
    }
    assert SameMail(Yield(s), Dispatch(Yield(s)));
  }

  lemma InsertMail(s: Sys, p: Pid, l: ListId, k: int)
    ensures Insert(s, p, l, k).proc == s.proc
  {
  }

  lemma YieldMail(s: Sys)
    ensures SameMail(s, Yield(s))
  {
    hide Insert;
    var c := s.currpid;
    InsertMail(SetState(s, c, PrReady), c, RDY, s.proc[c].pprio);
  }

  lemma ReadyMail(s: Sys, p: int)
    ensures SameMail(s, ReadyNoResch(s, p)) && SameMail(s, Ready(s, p))
  {
    hide Insert;
    hide Resched;
    if !IsBadPid(p) {
      InsertMail(SetState(s, p, PrReady), p, RDY, s.proc[p].pprio);
    }
    ReschedMail(ReadyNoResch(s, p));
  }

  lemma SignalOneMail(s: Sys, m: SemId)
    ensures SameMail(s, SignalOne(s, m))
  {
    hide ReadyNoResch;
    var s1 := SetCount(s, m, Wrap32(s.sem[m].semcnt + 1));
    ReadyMail(DropFirst(s1, SemList(m)), First(s, SemList(m)));
  }

  lemma {:induction false} SignalLoopMail(s: Sys, m: SemId, n: nat)
    ensures SameMail(s, SignalLoop(s, m, n))
    decreases n
  {
    hide SignalOne;
    if n > 0 {
      SignalOneMail(s, m);
      SignalLoopMail(SignalOne(s, m), m, n - 1);
    }
  }

  lemma {:induction false} DrainMail(s: Sys, l: ListId, deleted: bool)
    requires l != RDY
    ensures SameMail(s, DrainLoop(s, l, deleted))
    decreases |s.lists[l]|
  {
    hide Insert;
    if s.lists[l] != [] {
      var p := s.lists[l][0];
      var s1 := DropFirst(s, l);
      var s2 := if deleted then SetProc(s1, p, s1.proc[p].(pwaitret := DELETED)) else s1;
      ReadyMail(s2, p);
      ReadyOtherLists(s2, p, l);
      DrainMail(ReadyNoResch(s2, p), l, deleted);
    }
  }

  lemma ReadyOtherLists(s: Sys, p: int, l: ListId)
    requires l != RDY
    ensures ReadyNoResch(s, p).lists[l] == s.lists[l]
  {
  }

  lemma {:induction false} WakeLoopMail(s: Sys)
    ensures SameMail(s, WakeLoop(s))
    decreases |s.lists[CLK]|
  {
    hide Insert;
    if s.lists[CLK] != [] && s.key[s.lists[CLK][0]] <= 0 {
      var s1 := DropFirst(s, CLK);
      ReadyMail(s1, First(s, CLK));
      ReadyOtherLists(s1, First(s, CLK), CLK);
      WakeLoopMail(ReadyNoResch(s1, First(s, CLK)));
    }
  }

  lemma WakeupMail(s: Sys)
    ensures SameMail(s, Wakeup(s))
  {
    hide WakeLoop;
    hide Resched;
    WakeLoopMail(s);
    ReschedMail(Awake(s));
  }

  lemma StrtClkMail(s: Sys)
    ensures SameMail(s, StrtClk(s))
  {
    hide Wakeup;
    hide Resched;
    hide MakeUp;
    if s.defclk == 1 {
      var s1 := s.(defclk := 0, preempt := s.preempt - s.clkdiff, clkdiff := 0);
      var s2 := s1.(key := MakeUp(s.key, s.lists[CLK], s.clkdiff));
      WakeupMail(s2);
      ReschedMail(if s.slnempty then Wakeup(s2) else s1);
    }
  }

  lemma TickMail(s: Sys)
    ensures SameMail(s, Tick(s))
  {
    hide Wakeup;
    var s1 := SetPending(s, s.currpid, InClkInt);
    WakeupMail(s1.(key := s.key[s.sltop := s.key[s.sltop] - 1]));
  }

  lemma UnsleepMail(s: Sys, p: int)
    ensures Unsleep(s, p).proc == s.proc
  {
    hide HandOn;
  }

  lemma RemoveMail(s: Sys, p: Pid)
    ensures SameMail(s, Remove(s, p))
  {
    hide Resched;
    hide Unsleep;
    ReschedMail(SetState(s, p, PrFree));
    UnsleepMail(s, p);
  }

  lemma DozeMail(s: Sys, k: int, e: PEntry)
    requires e.phasmsg == s.proc[s.currpid].phasmsg && e.pmsg == s.proc[s.currpid].pmsg
    ensures SameMail(s, Doze(s, k, e))
  {
    hide Resched;
    ReschedMail(Dozing(s, k, e));
  }

  /** Semaphores, scheduling and the clock do not touch messages. */
  lemma OtherMail(s: Sys, c: Call)
    requires !c.DoSend? && !c.DoKill? && !c.DoCreate? && !c.DoFinish?
    ensures SameMail(s, Step(s, c).0)
  {
    hide Resched;
    hide Ready;
    hide SignalLoop;
    hide DrainLoop;
    hide Doze;
    hide StrtClk;
    hide Tick;
    hide SignalOne;
    hide Insert;
    hide SameMail;
    match c
    case DoResume(p) => ReadyMail(s, p); SameRefl(s);
    case DoSuspend(p) => SuspendMail(s, p);
    case DoWait(m) => WaitMail(s, m);
    case DoSignal(m) => SignalMail(s, m);
    case DoSignalN(m, n) => SignalNMail(s, m, n);
    case DoSReset(m, n) => SResetMail(s, m, n);
    case DoSDelete(m) => SDeleteMail(s, m);
    case DoSCreate(n) => SameProc(s, SCreate(s, n).0);
    case DoReceive => ReceiveMail(s);
    case DoRecvTim(n) => RecvTimMail(s, n);
    case DoSleep(n, unit) => SleepMail(s, n, unit);
    case DoChPrio(p, prio) => ChPrioMail(s, p, prio);
    case DoSetNok(nok, p) => SetNokMail(s, nok, p);
    case DoTick => TickMail(s);
    case DoStopClk => SameProc(s, s.(defclk := s.defclk + 1));
    case DoStrtClk => StrtClkMail(s);
    case DoDefer(n) => SameProc(s, s.(clkdiff := s.clkdiff + n));
    case DoResched => ReschedMail(s);
  }

  lemma SameRefl(s: Sys)
    ensures SameMail(s, s)
  {
  }

  lemma SameProc(s: Sys, r: Sys)
    requires r.proc == s.proc
    ensures SameMail(s, r)
  {
  }

  lemma SuspendMail(s: Sys, p: int)
    ensures SameMail(s, Suspend(s, p).0)
  {
    hide Resched;
    if !IsBadPid(p) {
      ReschedMail(SetProc(s, p, s.proc[p].(pstate := PrSusp, pending := InSuspend)));
    }
  }

  lemma WaitMail(s: Sys, m: int)
    ensures SameMail(s, Wait(s, m).0)
  {
    hide Resched;
    if !NoSem(s, m) {
      ReschedMail(JoinWaiters(SetCount(s, m, Wrap32(s.sem[m].semcnt - 1)), m));
    }
  }

  lemma SignalMail(s: Sys, m: int)
    ensures SameMail(s, Signal(s, m).0)
  {
    hide Resched;
    hide SignalOne;
    if !NoSem(s, m) {
      SignalOneMail(s, m);
      ReschedMail(SignalOne(s, m));
    }
  }

  lemma SignalNMail(s: Sys, m: int, n: int)
    ensures SameMail(s, SignalN(s, m, n).0)
  {
    hide Resched;
    hide SignalLoop;
    if !NoSem(s, m) && n > 0 {
      SignalLoopMail(s, m, n);
      ReschedMail(SignalLoop(s, m, n));
    }
  }

  lemma SResetMail(s: Sys, m: int, n: Int32)
    ensures SameMail(s, SReset(s, m, n).0)
  {
    hide Resched;
    hide DrainLoop;
    if !IsBadSem(m) {
      DrainMail(s, SemList(m), false);
      ReschedMail(SetCount(DrainLoop(s, SemList(m), false), m, n));
    }
  }

  lemma SDeleteMail(s: Sys, m: int)
    ensures SameMail(s, SDelete(s, m).0)
  {
    hide Resched;
    hide DrainLoop;
    if !IsBadSem(m) {
      var s1 := s.(sem := s.sem[m := s.sem[m].(used := false)]);
      DrainMail(s1, SemList(m), true);
      ReschedMail(DrainLoop(s1, SemList(m), true));
    }
  }

  lemma ReceiveMail(s: Sys)
    ensures SameMail(s, Receive(s).0)
  {
    hide Resched;
    var e := s.proc[s.currpid].(pending := InReceive);
    ReschedMail(SetProc(s, s.currpid, e.(pstate := PrRecv)));
  }

  lemma RecvTimMail(s: Sys, n: Int32)
    ensures SameMail(s, RecvTim(s, n).0)
  {
    hide Doze;
    var e := s.proc[s.currpid].(pending := InRecvTim);
    DozeMail(s, Wrap32(n * 1000), e.(pstate := PrTRecv));
  }

  lemma SleepMail(s: Sys, n: Int32, unit: nat)
    ensures SameMail(s, Sleep(s, n, unit).0)
  {
    hide Doze;
    hide Resched;
    ReschedMail(s);
    DozeMail(s, Wrap32(n * unit), s.proc[s.currpid].(pstate := PrSleep));
  }

  lemma ChPrioMail(s: Sys, p: int, prio: Int32)
    ensures SameMail(s, ChPrio(s, p, prio).0)
  {
    hide Resched;
    hide Insert;
    if !IsBadPid(p) {
      var s1 := SetProc(s, p, s.proc[p].(pprio := prio));
      InsertMail(Dequeue(s1, p, RDY), p, RDY, prio);
      ReschedMail(Insert(Dequeue(s1, p, RDY), p, RDY, prio));
      ReschedMail(s1);
    }
  }

  lemma SetNokMail(s: Sys, nok: Int32, p: int)
    ensures SameMail(s, SetNok(s, nok, p).0)
  {
  }

  // ---- what moves them -------------------------------------------------

  /** send stores the message if it accepts it, and touches no other. */
  lemma SendMail(s: Sys, q: int, msg: Int32, p: Pid)
    ensures Held(s, p) + (if q == p && HasRoom(s, p) then [msg] else []) == Held(Send(s, q, msg).0, p)
  {
    hide Resched;
    hide Ready;
    hide Unsleep;
    if !IsBadPid(q) {
      var s1 := SetProc(s, q, s.proc[q].(pmsg := msg, phasmsg := true));
      ReadyMail(s1, q);
      UnsleepMail(s1, q);
      ReadyMail(Unsleep(s1, q), q);
    }
  }

  /** A message leaves its slot only as the value returned to its process. */
  lemma FinishMail(s: Sys, p: Pid)
    requires Inv(s)
    ensures Held(s, p) == Taken(s, DoFinish, p) + Held(Finish(s).0, p)
    ensures Taken(s, DoFinish, p) != [] ==> Finish(s).1 == Returns(Taken(s, DoFinish, p)[0])
  {
    hide Resched;
    hide Remove;
    hide Inv;
    var s1 := SetPending(s, s.currpid, Nothing);
    ReschedMail(s1.(preempt := s1.preempt - 1));
    if s.proc[s.currpid].pending.InKill? {
      RemoveMail(s1, s.proc[s.currpid].pending.victim);
    }
    ReturningHasMessage(s);
  }

  lemma ReturningHasMessage(s: Sys)
    requires Inv(s)
    ensures s.proc[s.currpid].pending == InReceive ==> s.proc[s.currpid].phasmsg
  {
  }

  lemma CreateMail(s: Sys, stack: bool, prio: Int32, p: Pid)
    requires s.proc[p].pstate != PrFree
    ensures Held(Create(s, stack, prio).0, p) == Held(s, p)
  {
    hide NewPid;
    KernelProcs.NewPidFinds(s.proc, s.nextproc, NPROC);
  }

  lemma KillMail(s: Sys, v: int, p: Pid)
    ensures Held(s, p) + Accepted(s, DoKill(v), p) == Held(Kill(s, v).0, p)
  {
    hide Send;
    if !IsBadPid(v) && s.proc[v].pstate != PrFree {
      SendMail(SetPending(s, s.currpid, InKill(v)), s.proc[v].pnxtkin, v, p);
    }
  }

  lemma StillMail(s: Sys, c: Call, p: Pid)
    requires !c.DoSend? && !c.DoKill? && !c.DoCreate? && !c.DoFinish?
    ensures Held(Step(s, c).0, p) == Held(s, p) && Accepted(s, c, p) == [] && Taken(s, c, p) == []
  {
    hide Step;
    OtherMail(s, c);
  }

  /** One step: messages held before and accepted now are those returned now
      and held after. */
  lemma MailStep(s: Sys, c: Call, p: Pid)
    requires Inv(s) && s.proc[p].pstate != PrFree
    ensures Held(s, p) + Accepted(s, c, p) == Taken(s, c, p) + Held(Step(s, c).0, p)
  {
    hide Inv, Held, Send, Finish, Create, Kill;
    match c
    case DoSend(q, msg) => SendMail(s, q, msg, p);
    case DoKill(v) => KillMail(s, v, p);
    case DoCreate(stack, prio) => CreateMail(s, stack, prio, p);
    case DoFinish => FinishMail(s, p);
    case _ =>
      hide Step, Accepted, Taken;
      StillMail(s, c, p);
  }

  // ---- over a run ------------------------------------------------------

  function AllAccepted(s: Sys, run: seq<Call>, p: Pid): seq<Int32>
    decreases |run|
  {
    if run == [] then [] else Accepted(s, run[0], p) + AllAccepted(Step(s, run[0]).0, run[1..], p)
  }

  function AllTaken(s: Sys, run: seq<Call>, p: Pid): seq<Int32>
    decreases |run|
  {
    if run == [] then [] else Taken(s, run[0], p) + AllTaken(Step(s, run[0]).0, run[1..], p)
  }

  predicate LivesThrough(s: Sys, run: seq<Call>, p: Pid)
    decreases |run|
  {
    run == [] || (s.proc[p].pstate != PrFree && LivesThrough(Step(s, run[0]).0, run[1..], p))
  }

  /** Over any run a process lives through, the messages returned to it are the
      ones accepted for it, in order, none lost and none twice; at most one is
      still waiting at the end. */
  lemma {:induction false} MessagesOnce(s: Sys, run: seq<Call>, p: Pid)
    requires Inv(s) && LegalRun(s, run) && LivesThrough(s, run, p)
    ensures Held(s, p) + AllAccepted(s, run, p) == AllTaken(s, run, p) + Held(Exec(s, run), p)
    decreases |run|
  {
    hide Inv;
    hide Step;
    hide Held;
    hide Accepted;
    hide Taken;
    if run != [] {
      var c, s1 := run[0], Step(s, run[0]).0;
      StepInv(s, c);
      MailStep(s, c, p);
      MessagesOnce(s1, run[1..], p);
      calc {
        Held(s, p) + AllAccepted(s, run, p);
        (Held(s, p) + Accepted(s, c, p)) + AllAccepted(s1, run[1..], p);
        Taken(s, c, p) + (Held(s1, p) + AllAccepted(s1, run[1..], p));
        AllTaken(s, run, p) + Held(Exec(s, run), p);
      }
    }
  }
}
