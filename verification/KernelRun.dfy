/** Runs of the kernel, and the invariant over every run. */
module KernelRun {
  import opened Ints
  import opened KernelSpec
  import opened KernelInv
  import opened KernelSched
  import opened KernelSems
  import opened KernelClock
  import opened KernelProcs

  /** One step of a run. Finish is the code a process still had to execute
      when it was switched out; Defer is the clock counting ticks it holds
      back. */
  datatype Call =
    | DoCreate(stack: bool, prio: Int32)
    | DoResume(pid: int)
    | DoSuspend(pid: int)
    | DoWait(sem: int)
    | DoSignal(sem: int)
    | DoSignalN(sem: int, n: Int32)
    | DoSReset(sem: int, count: Int32)
    | DoSDelete(sem: int)
    | DoSCreate(count: Int32)
    | DoSend(pid: int, msg: Int32)
    | DoReceive
    | DoRecvTim(maxwait: Int32)
    | DoSleep(n: Int32, unit: nat)
    | DoChPrio(pid: int, prio: Int32)
    | DoKill(pid: int)
    | DoSetNok(nok: Int32, pid: int)
    | DoTick
    | DoStopClk
    | DoStrtClk
    | DoDefer(ticks: nat)
    | DoResched
    | DoFinish

  function Step(s: Sys, c: Call): (Sys, Result) {
    match c
    case DoCreate(stack, prio) => Create(s, stack, prio)
    case DoResume(p) => Resume(s, p)
    case DoSuspend(p) => Suspend(s, p)
    case DoWait(m) => Wait(s, m)
    case DoSignal(m) => Signal(s, m)
    case DoSignalN(m, n) => SignalN(s, m, n)
    case DoSReset(m, n) => SReset(s, m, n)
    case DoSDelete(m) => SDelete(s, m)
    case DoSCreate(n) => SCreate(s, n)
    case DoSend(p, msg) => Send(s, p, msg)
    case DoReceive => Receive(s)
    case DoRecvTim(n) => RecvTim(s, n)
    case DoSleep(n, unit) => Sleep(s, n, unit)
    case DoChPrio(p, prio) => ChPrio(s, p, prio)
    case DoKill(p) => Kill(s, p)
    case DoSetNok(nok, p) => SetNok(s, nok, p)
    case DoTick => (Tick(s), Blocks)
    case DoStopClk => (s.(defclk := s.defclk + 1), Blocks)
    case DoStrtClk => (StrtClk(s), Blocks)
    case DoDefer(n) => (s.(clkdiff := s.clkdiff + n), Blocks)
    case DoResched => (Resched(s), Blocks)
    case DoFinish => Finish(s)
  }

  predicate Blocking(c: Call) {
    c.DoWait? || c.DoReceive? || c.DoRecvTim? || (c.DoSleep? && c.n > 0)
  }

  /** Delays and counts that fit in an int. */
  predicate Fits(s: Sys, c: Call) {
    match c
    case DoSleep(n, unit) => n <= 0 || n * unit <= MAXINT
    case DoRecvTim(n) => n <= 0 || n * 1000 <= MAXINT
    case DoSignal(m) => NoSem(s, m) || s.sem[m].semcnt < MAXINT
    case DoSignalN(m, n) => NoSem(s, m) || n <= 0 || s.sem[m].semcnt + n <= MAXINT
    case _ => true
  }

  /** A process first finishes what it was doing when switched out, with
      interrupts off; the null process never blocks. */
  predicate Allowed(s: Sys, c: Call) {
    && (c.DoFinish? <==> s.proc[s.currpid].pending != Nothing)
    && (s.currpid == NULLPROC ==> !Blocking(c))
  }

  /** And its arguments fit. */
  predicate Legal(s: Sys, c: Call) { Allowed(s, c) && Fits(s, c) }

  function Exec(s: Sys, run: seq<Call>): Sys
    decreases |run|
  {
    if run == [] then s else Exec(Step(s, run[0]).0, run[1..])
  }

  predicate LegalRun(s: Sys, run: seq<Call>)
    decreases |run|
  {
    run == [] || (Legal(s, run[0]) && LegalRun(Step(s, run[0]).0, run[1..]))
  }

  // ---- the invariant over every run ------------------------------------

  lemma CountersInv(s: Sys, d: int, n: nat)
    requires Inv(s)
    ensures Inv(s.(defclk := d)) && Inv(s.(clkdiff := s.clkdiff + n))
  {
    hide Placed;
    hide Distinct;
    hide ReadyOK;
    hide DeltasOK;
    SameCore(s, s.(defclk := d));
    SameCore(s, s.(clkdiff := s.clkdiff + n));
    SemsFrame(s, s.(defclk := d));
    SemsFrame(s, s.(clkdiff := s.clkdiff + n));
  }

  lemma SignalNInv(s: Sys, m: int, n: Int32)
    requires Inv(s) && Fits(s, DoSignalN(m, n))
    ensures Inv(SignalN(s, m, n).0)
  {
    hide Core;
    hide SemsOK;
    hide Resched;
    if !NoSem(s, m) && n > 0 {
      SignalLoopSettled(s, m, n);
      ReschedInv(SignalLoop(s, m, n));
    }
  }

  lemma StepInv(s: Sys, c: Call)
    requires Inv(s) && Legal(s, c)
    ensures Inv(Step(s, c).0)
  {
    hide Inv;
    match c
    case DoCreate(stack, prio) => CreateInv(s, stack, prio);
    case DoResume(p) => ResumeInv(s, p);
    case DoSuspend(p) => SuspendInv(s, p);
    case DoWait(m) => WaitInv(s, m);
    case DoSignal(m) => SignalInv(s, m);
    case DoSignalN(m, n) => SignalNInv(s, m, n);
    case DoSReset(m, n) => SResetInv(s, m, n);
    case DoSDelete(m) => SDeleteInv(s, m);
    case DoSCreate(n) => SCreateInv(s, n);
    case DoSend(p, msg) => SendInv(s, p, msg);
    case DoReceive => ReceiveInv(s);
    case DoRecvTim(n) => RecvTimInv(s, n);
    case DoSleep(n, unit) => SleepInv(s, n, unit);
    case DoChPrio(p, prio) => ChPrioInv(s, p, prio);
    case DoKill(p) => KillInv(s, p);
    case DoSetNok(nok, p) => SetNokInv(s, nok, p);
    case DoTick => TickInv(s);
    case DoStopClk => CountersInv(s, s.defclk + 1, 0);
    case DoStrtClk => StrtClkInv(s);
    case DoDefer(n) => CountersInv(s, 0, n);
    case DoResched => ReschedNow(s);
    case DoFinish => FinishInv(s);
  }

  lemma ReschedNow(s: Sys)
    requires Inv(s)
    ensures Inv(Resched(s))
  {
    ReschedInv(s);
  }

  /** Whatever the processes and the clock do, the tables stay consistent. */
  lemma {:induction false} RunInv(s: Sys, run: seq<Call>)
    requires Inv(s) && LegalRun(s, run)
    ensures Inv(Exec(s, run))
    decreases |run|
  {
    hide Inv;
    if run != [] {
      StepInv(s, run[0]);
      RunInv(Step(s, run[0]).0, run[1..]);
    }
  }

  lemma BootInv()
    ensures Inv(Boot())
  {
    assert Core(Boot(), -1);
  }

  /** From boot on: a process is on a list exactly when its state says so, and
      on no other. */
  lemma OneListPerProcess(run: seq<Call>, p: Pid, l: ListId)
    requires LegalRun(Boot(), run)
    ensures var s := Exec(Boot(), run);
      p in s.lists[l] <==> Home(s.proc[p]) == l
  {
    BootInv();
    RunInv(Boot(), run);
  }

  /** From boot on: the count of a used semaphore says exactly how many wait. */
  lemma CountsWaiters(run: seq<Call>, m: SemId)
    requires LegalRun(Boot(), run)
    ensures var s := Exec(Boot(), run);
      s.sem[m].used ==>
        && (s.sem[m].semcnt >= 0 <==> s.lists[SemList(m)] == [])
        && (s.sem[m].semcnt < 0 ==> s.sem[m].semcnt == -|s.lists[SemList(m)]|)
  {
    BootInv();
    RunInv(Boot(), run);
    assert CountOK(Exec(Boot(), run), m);
  }

  /** From boot on: nobody ready has a higher priority than the process that
      runs, and resched never finds the ready list empty. */
  lemma HighestRuns(run: seq<Call>, p: Pid)
    requires LegalRun(Boot(), run)
    ensures var s := Exec(Boot(), run);
      && s.proc[s.currpid].pstate == PrCurr
      && (s.proc[p].pstate == PrReady ==> s.proc[p].pprio <= s.proc[s.currpid].pprio)
      && (!KeepsCpu(s) ==> Yield(s).lists[RDY] != [])
  {
    BootInv();
    RunInv(Boot(), run);
    var s := Exec(Boot(), run);
    AtHome(s, p);
    NullIsThere(s);
    YieldCore(s);
  }
}
