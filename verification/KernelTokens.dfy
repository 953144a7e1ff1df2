/** Semaphores as counters over a run: no wait gets through that is not paid for
    by the initial count or by a signal, and what a waiter is told in the end. */
module KernelTokens {
  import opened Ints
  import opened KernelSpec
  import opened KernelInv
  import opened KernelSems
  import opened KernelProcs
  import opened KernelRun
  import opened KernelFields

  function Min(x: int, y: int): int { if x < y then x else y }

  function Queue(s: Sys, m: SemId): seq<Pid> { s.lists[SemList(m)] }

  // ---- what one call adds ------------------------------------------------------

  function Signals(s: Sys, c: Call, m: SemId): nat {
    match c
    case DoSignal(n) => if n == m && s.sem[m].used then 1 else 0
    case DoSignalN(n, k) => if n == m && s.sem[m].used && k > 0 then k else 0
    case _ => 0
  }

  function Waits(s: Sys, c: Call, m: SemId): nat {
    if c.DoWait? && c.sem == m && s.sem[m].used then 1 else 0
  }

  function Killed(s: Sys, c: Call, m: SemId): nat { if KillsWaiter(s, c, m) then 1 else 0 }

  /** Waits that get through: at once, or when a signal releases the waiter. */
  function Passes(s: Sys, c: Call, m: SemId): nat {
    if c.DoWait? then (if c.sem == m && s.sem[m].used && s.sem[m].semcnt > 0 then 1 else 0)
    else Min(Signals(s, c, m), |Queue(s, m)|)
  }

  /** Neither resets nor deletes m. */
  predicate Leaves(c: Call, m: SemId) {
    !(c.DoSReset? && c.sem == m && c.count >= 0) && !(c.DoSDelete? && c.sem == m)
  }

  /** Units left to take. */
  function Tokens(s: Sys, m: SemId): nat { if s.sem[m].semcnt > 0 then s.sem[m].semcnt else 0 }

  lemma VictimWaits(s: Sys, c: Call, m: SemId)
    requires Inv(s) && KillsWaiter(s, c, m)
    ensures s.sem[m].used && -NPROC <= s.sem[m].semcnt < 0
  {
    var v := s.proc[s.currpid].pending.victim;
    AtHome(s, v);
    assert v in s.lists[SemList(m)];
    assert CountOK(s, m);
    WaiterBound(s, m);
  }

  lemma QueueLength(s: Sys, m: SemId)
    requires Inv(s) && s.sem[m].used
    ensures |Queue(s, m)| == (if s.sem[m].semcnt < 0 then -(s.sem[m].semcnt as int) else 0) && s.sem[m].semcnt >= -NPROC
  {
    assert CountOK(s, m);
    WaiterBound(s, m);
  }

  lemma CountStep(s: Sys, c: Call, m: SemId)
    requires Inv(s) && Legal(s, c) && s.sem[m].used && Leaves(c, m)
    ensures var r := Step(s, c).0;
      r.sem[m].used && r.sem[m].semcnt == s.sem[m].semcnt + Signals(s, c, m) - Waits(s, c, m) + Killed(s, c, m)
  {
    FieldsAsExpected(s, c, NULLPROC, m);
    QueueLength(s, m);
    if KillsWaiter(s, c, m) {
      VictimWaits(s, c, m);
    }
    hide Step, Inv, KillsWaiter;
    assert Step(s, c).0.sem[m] == SemAfter(s, c, m);
    assert c.DoSCreate? ==> !CreatesSem(s, c, m);
  }

  /** One call: units left and waits passed balance units there and signals. */
  lemma TokenStep(s: Sys, c: Call, m: SemId)
    requires Inv(s) && Legal(s, c) && s.sem[m].used && Leaves(c, m)
    ensures Tokens(Step(s, c).0, m) + Passes(s, c, m) == Tokens(s, m) + Signals(s, c, m)
  {
    CountStep(s, c, m);
    QueueLength(s, m);
    if KillsWaiter(s, c, m) {
      VictimWaits(s, c, m);
    }
    hide Step, Inv, KillsWaiter;
  }

  // ---- over a run -----------------------------------------------------------

  predicate AllLeave(run: seq<Call>, m: SemId) { forall i :: 0 <= i < |run| ==> Leaves(run[i], m) }

  function AllSignals(s: Sys, run: seq<Call>, m: SemId): nat
    decreases |run|
  {
    if run == [] then 0 else Signals(s, run[0], m) + AllSignals(Step(s, run[0]).0, run[1..], m)
  }

  function AllWaits(s: Sys, run: seq<Call>, m: SemId): nat
    decreases |run|
  {
    if run == [] then 0 else Waits(s, run[0], m) + AllWaits(Step(s, run[0]).0, run[1..], m)
  }

  function AllKilled(s: Sys, run: seq<Call>, m: SemId): nat
    decreases |run|
  {
    if run == [] then 0 else Killed(s, run[0], m) + AllKilled(Step(s, run[0]).0, run[1..], m)
  }

  function AllPasses(s: Sys, run: seq<Call>, m: SemId): nat
    decreases |run|
  {
    if run == [] then 0 else Passes(s, run[0], m) + AllPasses(Step(s, run[0]).0, run[1..], m)
  }

  /** Between resets and deletions the count is the one before, plus signals,
      minus waits, plus waiters killed. */
  lemma {:induction false} CountOver(s: Sys, run: seq<Call>, m: SemId)
    requires Inv(s) && LegalRun(s, run) && s.sem[m].used && AllLeave(run, m)
    ensures var r := Exec(s, run);
      && r.sem[m].used
      && r.sem[m].semcnt == s.sem[m].semcnt + AllSignals(s, run, m) - AllWaits(s, run, m) + AllKilled(s, run, m)
    decreases |run|
  {
    hide Inv, Step, Legal, Signals, Waits, Killed;
    if run != [] {
      StepInv(s, run[0]);
      CountStep(s, run[0], m);
      assert forall i :: 0 <= i < |run[1..]| ==> run[1..][i] == run[i + 1];
      CountOver(Step(s, run[0]).0, run[1..], m);
    }
  }

  /** Waits that got through and units left are exactly the units there at first
      and the signals since. */
  lemma {:induction false} TokensConserved(s: Sys, run: seq<Call>, m: SemId)
    requires Inv(s) && LegalRun(s, run) && s.sem[m].used && AllLeave(run, m)
    ensures AllPasses(s, run, m) + Tokens(Exec(s, run), m) == Tokens(s, m) + AllSignals(s, run, m)
    decreases |run|
  {
    hide Inv, Step, Legal, Signals, Passes, Tokens;
    if run != [] {
      StepInv(s, run[0]);
      CountStep(s, run[0], m);
      TokenStep(s, run[0], m);
      assert forall i :: 0 <= i < |run[1..]| ==> run[1..][i] == run[i + 1];
      TokensConserved(Step(s, run[0]).0, run[1..], m);
    }
  }

  /** From boot, a semaphore created with count n, over every run after that:
      waits that get through never outnumber n and the signals since. */
  lemma NeverOverdrawn(before: seq<Call>, n: Int32, m: SemId, run: seq<Call>)
    requires LegalRun(Boot(), before) && Legal(Exec(Boot(), before), DoSCreate(n))
    requires var s := Exec(Boot(), before);
      Step(s, DoSCreate(n)).1 == Returns(m) && LegalRun(Step(s, DoSCreate(n)).0, run) && AllLeave(run, m)
    ensures var s1 := Step(Exec(Boot(), before), DoSCreate(n)).0;
      AllPasses(s1, run, m) + Tokens(Exec(s1, run), m) == n + AllSignals(s1, run, m)
  {
    var s := Exec(Boot(), before);
    var s1 := Step(s, DoSCreate(n)).0;
    BootInv();
    RunInv(Boot(), before);
    StepInv(s, DoSCreate(n));
    FieldsAsExpected(s, DoSCreate(n), NULLPROC, m);
    NewAnswers(s, DoSCreate(n), m);
    assert s1.sem[m] == SEntry(true, n) by {
      hide Inv, Step, Exec, LegalRun, FirstFreeSem;
    }
    hide Inv, Step, Exec, LegalRun;
    TokensConserved(s1, run, m);
  }

  // ---- what a waiter is told -------------------------------------------------

  /** p has not come back from wait at any time in the run. */
  predicate StaysIn(s: Sys, run: seq<Call>, p: Pid)
    decreases |run|
  {
    s.proc[p].pending == InWait && (run == [] || StaysIn(Step(s, run[0]).0, run[1..], p))
  }

  /** The call deletes the semaphore p is queued on. */
  predicate DeletesUnder(s: Sys, c: Call, p: Pid) {
    c.DoSDelete? && !NoSem(s, c.sem) && p in Queue(s, c.sem)
  }

  predicate DeletedUnder(s: Sys, run: seq<Call>, p: Pid)
    decreases |run|
  {
    run != [] && (DeletesUnder(s, run[0], p) || DeletedUnder(Step(s, run[0]).0, run[1..], p))
  }

  lemma WaitRetStep(s: Sys, c: Call, p: Pid)
    requires Inv(s) && Legal(s, c) && s.proc[p].pending == InWait && Step(s, c).0.proc[p].pending == InWait
    ensures Step(s, c).0.proc[p].pwaitret == if DeletesUnder(s, c, p) then DELETED else s.proc[p].pwaitret
  {
    FieldsAsExpected(s, c, p, 0);
    hide Step, Inv, FirstFree;
    var r := Step(s, c).0;
    assert Rest(r.proc[p]) == RestAfter(s, c, p);
  }

  lemma {:induction false} WaitRetOver(s: Sys, run: seq<Call>, p: Pid)
    requires Inv(s) && LegalRun(s, run) && StaysIn(s, run, p)
    ensures Exec(s, run).proc[p].pending == InWait
    ensures Exec(s, run).proc[p].pwaitret == if DeletedUnder(s, run, p) then DELETED else s.proc[p].pwaitret
    decreases |run|
  {
    hide Inv, Step, Legal, DeletesUnder;
    if run != [] {
      StepInv(s, run[0]);
      WaitRetStep(s, run[0], p);
      WaitRetOver(Step(s, run[0]).0, run[1..], p);
    }
  }

  lemma BlockedEntry(s: Sys, m: int)
    requires Inv(s) && Legal(s, DoWait(m)) && BlocksOn(s, DoWait(m))
    ensures var e := Step(s, DoWait(m)).0.proc[s.currpid]; e.pwaitret == OK && e.pending == InWait
  {
    FieldsAsExpected(s, DoWait(m), s.currpid, 0);
    hide Inv, Step;
    assert Rest(Step(s, DoWait(m)).0.proc[s.currpid]) == RestAfter(s, DoWait(m), s.currpid);
  }

  /** A process that blocked in wait is told DELETED if and only if its semaphore
      was deleted while it was queued there, and OK otherwise. */
  lemma WaitReturns(s: Sys, m: int, run: seq<Call>)
    requires Inv(s) && Legal(s, DoWait(m)) && BlocksOn(s, DoWait(m))
    requires var s1 := Step(s, DoWait(m)).0;
      LegalRun(s1, run) && StaysIn(s1, run, s.currpid) && Exec(s1, run).currpid == s.currpid
    ensures var s1 := Step(s, DoWait(m)).0;
      Step(Exec(s1, run), DoFinish).1 == Returns(if DeletedUnder(s1, run, s.currpid) then DELETED else OK)
  {
    hide Inv, Step, Exec, LegalRun, StaysIn, DeletedUnder, Legal, BlocksOn;
    var p := s.currpid;
    var s1 := Step(s, DoWait(m)).0;
    StepInv(s, DoWait(m));
    BlockedEntry(s, m);
    WaitRetOver(s1, run, p);
    RunInv(s1, run);
    AnswersAsExpected(Exec(s1, run), DoFinish);
  }
}
