/** A run from boot in which a clock tick is lost. */
module KernelLost {
  import opened KernelSpec
  import opened KernelInv
  import opened KernelClock
  import opened KernelRun

  /** The two processes of the run. */
  const A: Pid := 49
  const B: Pid := 48

  /** One that sleeps five ticks, then one that gives up waiting at once. */
  const LOSING_RUN: seq<Call> :=
    [DoCreate(true, 10), DoCreate(true, 10), DoResume(A), DoSleep(5, 1), DoResume(B), DoRecvTim(0)]

  /** Who runs and who is on which list. */
  ghost predicate Looks(s: Sys, cur: Pid, rdy: seq<Pid>, clk: seq<Pid>) {
    && s.currpid == cur && s.proc[cur].pstate == PrCurr && s.lists[RDY] == rdy && s.lists[CLK] == clk && s.clkruns
    && (forall p: Pid :: p in rdy ==> s.key[p] == s.proc[p].pprio)
    && s.proc[NULLPROC].pprio == 0 && s.proc[NULLPROC].pending == Nothing
  }

  ghost predicate Entry(s: Sys, p: Pid, st: PState) {
    s.proc[p].pstate == st && s.proc[p].pprio == 10 && s.proc[p].pending == Nothing && !s.proc[p].phasmsg
  }

  lemma Created(s: Sys, p: Pid)
    requires Looks(s, NULLPROC, [], []) && s.nextproc == p > 0 && s.proc[p].pstate == PrFree
    ensures var r := Create(s, true, 10).0;
      && Looks(r, NULLPROC, [], []) && r.nextproc == p - 1 && Entry(r, p, PrSusp)
      && r.proc == s.proc[p := r.proc[p]]
  {
    assert NewPid(s.proc, s.nextproc, NPROC) == (p, PrevPid(p));
  }

  /** The null process resumes p, which takes over. */
  lemma Resumed(s: Sys, p: Pid, clk: seq<Pid>)
    requires Looks(s, NULLPROC, [], clk) && Entry(s, p, PrSusp) && p != NULLPROC
    ensures var r := Resume(s, p).0;
      && Looks(r, p, [NULLPROC], clk) && Entry(r, p, PrCurr)
      && r.proc == s.proc[p := s.proc[p].(pstate := PrCurr)][NULLPROC := s.proc[NULLPROC].(pstate := PrReady)]
      && r.key == s.key[p := 10][NULLPROC := 0]
  {
    var s1 := ReadyNoResch(s, p);
    assert s1.lists[RDY] == [p];
    var y := Yield(s1);
    assert InsPos(s1.key, [p], 0) == 0;
    assert y.lists[RDY] == [NULLPROC, p];
    var q := y.lists[RDY];
    assert q[..|q| - 1] == [NULLPROC];
  }

  /** p goes to sleep and the null process takes over. */
  lemma Slept(s: Sys, p: Pid)
    requires Looks(s, p, [NULLPROC], []) && Entry(s, p, PrCurr) && s.proc[NULLPROC].pstate == PrReady && p != NULLPROC
    ensures var r := Sleep(s, 5, 1).0;
      && Looks(r, NULLPROC, [], [p])
      && r.proc == s.proc[p := s.proc[p].(pstate := PrSleep)][NULLPROC := s.proc[NULLPROC].(pstate := PrCurr)]
      && r.key == s.key[p := 5]
  {
    var d := Dozing(s, 5, s.proc[p].(pstate := PrSleep));
    assert DPos(s.key, [], 5) == (0, 5);
    assert d.lists[CLK] == [p];
    assert d.lists[RDY] == [NULLPROC];
    assert [NULLPROC][..0] == [];
  }

  /** The state before recvtim(0). */
  ghost predicate BeforeLoss(s: Sys) {
    Looks(s, B, [NULLPROC], [A]) && Entry(s, B, PrCurr) && s.key[A] == 5
  }

  lemma BootLooks()
    ensures Looks(Boot(), NULLPROC, [], []) && Boot().nextproc == A
    ensures Boot().proc[A].pstate == PrFree && Boot().proc[B].pstate == PrFree
  {
  }

  /** The run from boot leads to s. */
  ghost predicate Leads(run: seq<Call>, s: Sys) { LegalRun(Boot(), run) && Exec(Boot(), run) == s }

  lemma LeadsOn(run: seq<Call>, s: Sys, c: Call)
    requires Leads(run, s) && Legal(s, c)
    ensures Leads(run + [c], Step(s, c).0)
  {
    hide Boot, Step, Legal;
    RunSnoc(Boot(), run, c);
  }

  ghost predicate BothMade(s: Sys) { Looks(s, NULLPROC, [], []) && Entry(s, A, PrSusp) && Entry(s, B, PrSusp) }

  lemma TwoCreated()
    ensures exists s :: Leads(LOSING_RUN[..2], s) && BothMade(s)
  {
    BootLooks();
    var s0 := Boot();
    assert Leads([], s0);
    hide Create, Boot, Leads;
    Created(s0, A);
    LeadsOn([], s0, DoCreate(true, 10));
    var s1 := Create(s0, true, 10).0;
    Created(s1, B);
    LeadsOn([] + [DoCreate(true, 10)], s1, DoCreate(true, 10));
    assert [] + [DoCreate(true, 10)] + [DoCreate(true, 10)] == LOSING_RUN[..2];
  }

  lemma TwoThenThree(s2: Sys)
    requires Leads(LOSING_RUN[..2], s2) && BothMade(s2)
    ensures exists s :: Leads(LOSING_RUN[..5], s) && BeforeLoss(s)
  {
    hide Resume, Sleep, Leads;
    Resumed(s2, A, []);
    LeadsOn(LOSING_RUN[..2], s2, DoResume(A));
    var s3 := Resume(s2, A).0;
    Slept(s3, A);
    LeadsOn(LOSING_RUN[..2] + [DoResume(A)], s3, DoSleep(5, 1));
    var s4 := Sleep(s3, 5, 1).0;
    Resumed(s4, B, [A]);
    LeadsOn(LOSING_RUN[..2] + [DoResume(A)] + [DoSleep(5, 1)], s4, DoResume(B));
    assert LOSING_RUN[..2] + [DoResume(A)] + [DoSleep(5, 1)] + [DoResume(B)] == LOSING_RUN[..5];
  }

  lemma FiveCalls()
    ensures exists s :: Leads(LOSING_RUN[..5], s) && BeforeLoss(s)
  {
    hide Leads, BothMade, BeforeLoss;
    TwoCreated();
    var s2 :| Leads(LOSING_RUN[..2], s2) && BothMade(s2);
    TwoThenThree(s2);
  }

  /** A has five ticks to sleep, and still has them after the next one. */
  ghost predicate LosesTick(s: Sys) {
    && A in s.lists[CLK] && Deadline(s, A) == 5
    && A in Tick(s).lists[CLK] && Deadline(Tick(s), A) == 5
  }

  lemma LosesNext(s: Sys)
    requires Inv(s) && BeforeLoss(s)
    ensures Legal(s, DoRecvTim(0)) && LosesTick(RecvTim(s, 0).0)
  {
    hide Inv, RecvTim, Tick;
    assert Deadline(s, A) == 5;
    RecvTimZeroLoses(s, A);
  }

  lemma FiveThenLoss(run: seq<Call>, s: Sys)
    requires Leads(run, s) && BeforeLoss(s)
    ensures exists r :: Leads(run + [DoRecvTim(0)], r) && LosesTick(r)
  {
    BootInv();
    hide Inv, Boot, Exec, LegalRun, BeforeLoss, LosesTick, Legal, RecvTim;
    RunInv(Boot(), run);
    LosesNext(s);
    hide Leads;
    LeadsOn(run, s, DoRecvTim(0));
  }

  /** This run from boot is legal, and the tick after it takes nothing off the
      five ticks the first sleeper has left. */
  lemma TickLost()
    ensures LegalRun(Boot(), LOSING_RUN) && LosesTick(Exec(Boot(), LOSING_RUN))
  {
    hide BeforeLoss, LosesTick, Boot, Exec, LegalRun;
    FiveCalls();
    var s :| Leads(LOSING_RUN[..5], s) && BeforeLoss(s);
    FiveThenLoss(LOSING_RUN[..5], s);
    assert LOSING_RUN[..5] + [DoRecvTim(0)] == LOSING_RUN;
  }

  lemma {:induction false} RunSnoc(s: Sys, run: seq<Call>, c: Call)
    requires LegalRun(s, run) && Legal(Exec(s, run), c)
    ensures LegalRun(s, run + [c]) && Exec(s, run + [c]) == Step(Exec(s, run), c).0
    decreases |run|
  {
    hide Step, Legal;
    if run == [] {
      assert run + [c] == [c] && [c][1..] == [];
    } else {
      assert (run + [c])[1..] == run[1..] + [c];
      RunSnoc(Step(s, run[0]).0, run[1..], c);
    }
  }
}
