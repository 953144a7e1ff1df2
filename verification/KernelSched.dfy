/** Scheduling calls: what resched, ready, suspend, resume and chprio keep. */
module KernelSched {
  import opened Ints
  import opened KernelSpec
  import opened KernelInv

  /** Everything but who runs: what a call may hand to resched. */
  ghost predicate Settled(s: Sys) {
    Core(s, -1) && SemsOK(s) && ClockOK(s)
  }

  /** Since the null process is running or ready, resched always finds a
      process to run. */
  lemma NullIsThere(s: Sys)
    requires Core(s, -1)
    ensures Schedulable(s)
  {
    if s.proc[NULLPROC].pstate == PrReady {
      assert NULLPROC in s.lists[RDY];
    }
  }

  lemma CoreSwitches(s: Sys)
    requires Core(s, -1)
    ensures CanSwitch(s)
  {
    NullIsThere(s);
    OnNoList(s);
  }

  lemma ReschedInv(s: Sys)
    requires Settled(s)
    ensures Inv(Resched(s))
  {
    NullIsThere(s);
    ReschedRunning(s);
    ReschedFrame(s);
    SemsFrame(s, Resched(s));
  }

  /** What readying a process leaves alone. */
  ghost predicate OnlyReadied(s: Sys, r: Sys) {
    && (forall l: ListId :: l != RDY ==> r.lists[l] == s.lists[l])
    && r == s.(lists := r.lists, proc := r.proc, key := r.key)
  }

  lemma ReadyNoReschCore(s: Sys, p: Pid)
    requires Core(s, p) && p != NULLPROC
    requires MessageOK(s.proc[p].(pstate := PrReady))
    ensures Core(ReadyNoResch(s, p), -1) && OnlyReadied(s, ReadyNoResch(s, p))
  {
    InsertCore(SetState(s, p, PrReady), p);
  }

  lemma ReadySettled(s: Sys, p: Pid)
    requires Core(s, p) && SemsOK(s) && ClockOK(s) && p != NULLPROC
    requires MessageOK(s.proc[p].(pstate := PrReady))
    ensures Inv(Ready(s, p))
  {
    ReadyNoReschCore(s, p);
    SemsFrame(s, ReadyNoResch(s, p));
    ReschedInv(ReadyNoResch(s, p));
  }

  lemma SuspendReadyInv(s: Sys, p: Pid)
    requires Inv(s) && s.proc[p].pstate == PrReady && p != NULLPROC
    ensures Inv(Dequeue(SetState(s, p, PrSusp), p, RDY))
  {
    DetachCore(s, p, RDY);
    var s1 := Dequeue(s, p, RDY);
    HoldCore(s1, p, s.proc[p].(pstate := PrSusp));
    SemsFrame(s, Dequeue(SetState(s, p, PrSusp), p, RDY));
  }

  lemma SuspendSelfCore(s: Sys, p: Pid)
    requires Inv(s) && s.proc[p].pstate == PrCurr && p != NULLPROC
    ensures Settled(SetProc(s, p, s.proc[p].(pstate := PrSusp, pending := InSuspend)))
  {
    var e := s.proc[p].(pstate := PrSusp, pending := InSuspend);
    Unlisted(s, p);
    HoldCore(s, p, e);
    SemsFrame(s, SetProc(s, p, e));
  }

  lemma SuspendInv(s: Sys, p: int)
    requires Inv(s)
    ensures Inv(Suspend(s, p).0)
  {
    if !IsBadPid(p) && s.proc[p].pstate == PrReady {
      SuspendReadyInv(s, p);
    } else if !IsBadPid(p) && s.proc[p].pstate == PrCurr {
      SuspendSelfCore(s, p);
      ReschedInv(SetProc(s, p, s.proc[p].(pstate := PrSusp, pending := InSuspend)));
    }
  }

  lemma ResumeSettled(s: Sys, p: Pid)
    requires Inv(s) && s.proc[p].pstate == PrSusp && p != NULLPROC
    ensures Core(ReadyNoResch(s, p), -1) && forall l: ListId :: p !in s.lists[l]
  {
    Unlisted(s, p);
    ReadyNoReschCore(s, p);
  }

  lemma ResumeInv(s: Sys, p: int)
    requires Inv(s)
    ensures Inv(Resume(s, p).0)
  {
    if !IsBadPid(p) && s.proc[p].pstate == PrSusp {
      Unlisted(s, p);
      ReadySettled(s, p);
    }
  }

  lemma ChPrioReady(s: Sys, p: Pid, prio: Int32)
    requires Inv(s) && s.proc[p].pstate == PrReady && p != NULLPROC && prio > 0
    ensures Settled(Insert(Dequeue(SetProc(s, p, s.proc[p].(pprio := prio)), p, RDY), p, RDY, prio))
  {
    hide Placed;
    hide Distinct;
    hide ReadyOK;
    hide DeltasOK;
    var e := s.proc[p].(pprio := prio);
    var d := Dequeue(SetProc(s, p, e), p, RDY);
    AtHome(s, p);
    DetachCore(s, p, RDY);
    HoldCore(Dequeue(s, p, RDY), p, e);
    assert d == SetProc(Dequeue(s, p, RDY), p, e);
    InsertCore(d, p);
    SemsFrame(s, Insert(d, p, RDY, prio));
  }

  lemma ChPrioOther(s: Sys, p: Pid, prio: Int32)
    requires Inv(s) && s.proc[p].pstate != PrReady && prio > 0
    ensures Settled(SetProc(s, p, s.proc[p].(pprio := prio)))
    ensures s.proc[p].pstate != PrCurr ==> Inv(SetProc(s, p, s.proc[p].(pprio := prio)))
  {
    var e := s.proc[p].(pprio := prio);
    assert p == NULLPROC ==> s.proc[p].pstate == PrCurr;
    RewriteCore(s, p, e);
    SemsFrame(s, SetProc(s, p, e));
  }

  lemma ChPrioInv(s: Sys, p: int, prio: Int32)
    requires Inv(s)
    ensures Inv(ChPrio(s, p, prio).0)
  {
    hide Core;
    hide SemsOK;
    hide Resched;
    if !IsBadPid(p) && prio > 0 && s.proc[p].pstate != PrFree {
      var e := s.proc[p].(pprio := prio);
      if s.proc[p].pstate == PrReady {
        ChPrioReady(s, p, prio);
        ReschedInv(Insert(Dequeue(SetProc(s, p, e), p, RDY), p, RDY, prio));
      } else {
        ChPrioOther(s, p, prio);
        ReschedInv(SetProc(s, p, e));
      }
    }
  }
}
