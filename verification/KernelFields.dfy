/** What every call does to priorities, semaphores, return values, next of kin,
    unfinished business and the kernel's counters: one table for all calls, and
    the proof that the calls keep to it. */
module KernelFields {
  import opened Ints
  import opened Lists
  import opened KernelSpec
  import opened KernelInv
  import opened KernelProcs
  import opened KernelSems
  import opened KernelRun
  import opened KernelMail

  /** An entry without its state and its message. */
  function Rest(e: PEntry): PEntry { e.(pstate := PrFree, pmsg := 0, phasmsg := false) }

  function RestOf(s: Sys, p: Pid): PEntry { Rest(s.proc[p]) }

  datatype Counters = Counters(nextproc: Pid, nextsem: SemId, defclk: int, clkdiff: int, clkruns: bool)

  function CountersOf(s: Sys): Counters { Counters(s.nextproc, s.nextsem, s.defclk, s.clkdiff, s.clkruns) }

  // ---- the table -----------------------------------------------------------

  /** The call makes p a new process. */
  ghost predicate Creates(s: Sys, c: Call, p: Pid) {
    c.DoCreate? && c.stack && c.prio >= 1 && FirstFree(s.proc, s.nextproc, NPROC, p)
  }

  /** The call makes m a new semaphore. */
  ghost predicate CreatesSem(s: Sys, c: Call, m: SemId) {
    c.DoSCreate? && c.count >= 0 && FirstFreeSem(s.sem, s.nextsem, NSEM, m)
  }

  predicate BlocksOn(s: Sys, c: Call) { c.DoWait? && !NoSem(s, c.sem) && s.sem[c.sem].semcnt <= 0 }

  predicate Kills(s: Sys, v: int) { !IsBadPid(v) && s.proc[v].pstate != PrFree }

  /** The waiter on m that the running process is about to kill. */
  predicate KillsWaiter(s: Sys, c: Call, m: SemId) {
    && c.DoFinish? && s.proc[s.currpid].pending.InKill?
    && var v := s.proc[s.currpid].pending.victim; s.proc[v].pstate == PrWait && s.proc[v].psem == m
  }

  /** p's entry after the call. */
  ghost function RestAfter(s: Sys, c: Call, p: Pid): PEntry {
    var e := RestOf(s, p);
    var me := p == s.currpid;
    if Creates(s, c, p) then e.(pprio := c.prio, psem := 0, pnxtkin := BADPID, pending := Nothing)
    else match c
      case DoChPrio(q, prio) => if q == p && prio > 0 && Kills(s, p) then e.(pprio := prio) else e
      case DoSetNok(nok, q) => if q == p && !IsBadPid(p) then e.(pnxtkin := nok) else e
      case DoWait(m) => if me && BlocksOn(s, c) then e.(psem := m, pwaitret := OK, pending := InWait) else e
      case DoSDelete(m) => if !NoSem(s, m) && p in s.lists[SemList(m)] then e.(pwaitret := DELETED) else e
      case DoSuspend(q) => if me && q == p && !IsBadPid(p) then e.(pending := InSuspend) else e
      case DoReceive => if me then e.(pending := InReceive) else e
      case DoRecvTim(n) => if me && n >= 0 && s.clkruns then e.(pending := InRecvTim) else e
      case DoKill(v) => if me && Kills(s, v) then e.(pending := InKill(v)) else e
      case DoTick => if me then e.(pending := InClkInt) else e
      case DoFinish => if me then e.(pending := Nothing) else e
      case _ => e
  }

  /** m's entry after the call. */
  ghost function SemAfter(s: Sys, c: Call, m: SemId): SEntry {
    var e := s.sem[m];
    match c
    case DoWait(n) => if n == m && e.used then e.(semcnt := Wrap32(e.semcnt - 1)) else e
    case DoSignal(n) => if n == m && e.used then e.(semcnt := Wrap32(e.semcnt + 1)) else e
    case DoSignalN(n, k) => if n == m && e.used && k > 0 then e.(semcnt := Wrap32(e.semcnt + k)) else e
    case DoSReset(n, k) => if n == m && e.used && k >= 0 then e.(semcnt := k) else e
    case DoSDelete(n) => if n == m then e.(used := false) else e
    case DoSCreate(k) => if CreatesSem(s, c, m) then SEntry(true, k) else e
    case DoFinish => if KillsWaiter(s, c, m) then e.(semcnt := Wrap32(e.semcnt + 1)) else e
    case _ => e
  }

  /** The counters after a call that makes nothing new. */
  function CountersAfter(s: Sys, c: Call): Counters {
    var k := CountersOf(s);
    match c
    case DoStopClk => k.(defclk := k.defclk + 1)
    case DoDefer(n) => k.(clkdiff := k.clkdiff + n)
    case DoStrtClk =>
      if k.defclk == 1 then k.(defclk := 0, clkdiff := 0) else if k.defclk > 1 then k.(defclk := k.defclk - 1) else k
    case _ => k
  }

  // ---- what leaves all of it alone -------------------------------------------

  ghost predicate SameRest(s: Sys, r: Sys) {
    && (forall p: Pid :: Rest(r.proc[p]) == Rest(s.proc[p]))
    && r.sem == s.sem && CountersOf(r) == CountersOf(s)
  }

  lemma SameThen(s: Sys, t: Sys, r: Sys)
    requires SameRest(s, t) && SameRest(t, r)
    ensures SameRest(s, r)
  {
  }

  lemma InsertRest(s: Sys, p: Pid, l: ListId, k: int)
    ensures Insert(s, p, l, k).proc == s.proc && SameRest(s, Insert(s, p, l, k))
  {
  }

  lemma YieldRest(s: Sys)
    ensures SameRest(s, Yield(s))
  {
    hide Insert;
    var c := s.currpid;
    InsertRest(SetState(s, c, PrReady), c, RDY, s.proc[c].pprio);
  }

  lemma DispatchRest(s: Sys)
    ensures SameRest(s, Dispatch(s))
  {
  }

  lemma ReschedRest(s: Sys)
    ensures SameRest(s, Resched(s))
  {
    YieldRest(s);
    DispatchRest(Yield(s));
    hide Yield, Dispatch;
  }

  lemma ReadyRest(s: Sys, p: int)
    ensures SameRest(s, ReadyNoResch(s, p)) && SameRest(s, Ready(s, p))
    ensures forall l: ListId :: l != RDY ==> ReadyNoResch(s, p).lists[l] == s.lists[l]
  {
    hide Resched, InsPos;
    if !IsBadPid(p) {
      InsertRest(SetState(s, p, PrReady), p, RDY, s.proc[p].pprio);
    }
    ReschedRest(ReadyNoResch(s, p));
  }

  lemma SignalOneRest(s: Sys, m: SemId)
    ensures SameRest(Raised(s, m, 1), SignalOne(s, m))
  {
    hide ReadyNoResch;
    var s1 := SetCount(s, m, Wrap32(s.sem[m].semcnt + 1));
    ReadyRest(DropFirst(s1, SemList(m)), First(s, SemList(m)));
  }

  lemma WrapAdd(x: int, n: nat)
    ensures Wrap32(Wrap32(x + 1) + n) == Wrap32(x + n + 1)
  {
    var a := Wrap32(x + 1);
    var b, c := Wrap32(a + n), Wrap32(x + n + 1);
    hide Wrap32;
    var i, j, k := (a - (x + 1)) / TWO32, (b - (a + n)) / TWO32, (c - (x + n + 1)) / TWO32;
    assert a == x + 1 + TWO32 * i && b == a + n + TWO32 * j && c == x + n + 1 + TWO32 * k;
    assert b - c == TWO32 * (i + j - k);
  }

  /** The count of m raised by n, in 32 bits. */
  function Raised(s: Sys, m: SemId, n: nat): Sys { SetCount(s, m, Wrap32(s.sem[m].semcnt + n)) }

  lemma RaisedThen(s: Sys, t: Sys, m: SemId, n: nat)
    requires SameRest(Raised(s, m, 1), t)
    ensures SameRest(Raised(s, m, n + 1), Raised(t, m, n))
  {
    WrapAdd(s.sem[m].semcnt, n);
    hide Wrap32;
  }

  lemma RaisedNone(s: Sys, m: SemId)
    ensures SameRest(Raised(s, m, 0), SignalLoop(s, m, 0))
  {
    assert Raised(s, m, 0).sem == s.sem;
  }

  lemma SignalMore(s: Sys, m: SemId, n: nat)
    requires n > 0
    ensures SignalLoop(s, m, n) == SignalLoop(SignalOne(s, m), m, n - 1)
  {
    hide SignalOne;
  }

  lemma {:induction false} SignalLoopRest(s: Sys, m: SemId, n: nat)
    ensures SameRest(Raised(s, m, n), SignalLoop(s, m, n))
    decreases n
  {
    hide SignalOne, SignalLoop, Raised, SameRest;
    if n > 0 {
      var t := SignalOne(s, m);
      SignalOneRest(s, m);
      SignalMore(s, m, n);
      RaisedThen(s, t, m, n - 1);
      SignalLoopRest(t, m, n - 1);
      SameThen(Raised(s, m, n), Raised(t, m, n - 1), SignalLoop(t, m, n - 1));
    } else {
      RaisedNone(s, m);
    }
  }

  /** The drain marks exactly those on the queue, if it marks at all. */
  ghost predicate Marked(s: Sys, r: Sys, q: seq<Pid>, deleted: bool) {
    && (forall p: Pid :: Rest(r.proc[p]) == if deleted && p in q then Rest(s.proc[p]).(pwaitret := DELETED) else Rest(s.proc[p]))
    && r.sem == s.sem && CountersOf(r) == CountersOf(s)
  }

  lemma MarkedThen(s: Sys, t: Sys, r: Sys, q: seq<Pid>, deleted: bool)
    requires q != [] && Marked(s, t, [q[0]], deleted) && Marked(t, r, q[1..], deleted)
    ensures Marked(s, r, q, deleted)
  {
    assert q == [q[0]] + q[1..];
  }

  lemma DrainOneRest(s: Sys, m: SemId, deleted: bool)
    requires s.lists[SemList(m)] != []
    ensures var q := s.lists[SemList(m)]; var t := DrainOne(s, SemList(m), deleted);
      t.lists[SemList(m)] == q[1..] && Marked(s, t, [q[0]], deleted)
  {
    hide ReadyNoResch;
    var p := s.lists[SemList(m)][0];
    var s1 := DropFirst(s, SemList(m));
    ReadyRest(if deleted then SetProc(s1, p, s1.proc[p].(pwaitret := DELETED)) else s1, p);
  }

  lemma {:induction false} DrainRest(s: Sys, m: SemId, deleted: bool)
    ensures Marked(s, DrainLoop(s, SemList(m), deleted), s.lists[SemList(m)], deleted)
    decreases |s.lists[SemList(m)]|
  {
    if s.lists[SemList(m)] != [] {
      DrainOneRest(s, m, deleted);
      DrainUnfold(s, m, deleted);
      hide DrainOne, DrainLoop, Marked;
      var t := DrainOne(s, SemList(m), deleted);
      DrainRest(t, m, deleted);
      MarkedThen(s, t, DrainLoop(t, SemList(m), deleted), s.lists[SemList(m)], deleted);
    }
  }

  lemma {:induction false} WakeLoopRest(s: Sys)
    ensures SameRest(s, WakeLoop(s))
    decreases |s.lists[CLK]|
  {
    if s.lists[CLK] != [] && s.key[s.lists[CLK][0]] <= 0 {
      var s1 := DropFirst(s, CLK);
      hide ReadyNoResch;
      var t := ReadyNoResch(s1, First(s, CLK));
      ReadyRest(s1, First(s, CLK));
      WakeLoopRest(t);
      assert WakeLoop(s) == WakeLoop(t);
      hide WakeLoop;
      SameThen(s, t, WakeLoop(t));
    }
  }

  lemma WakeupRest(s: Sys)
    ensures SameRest(s, Wakeup(s))
  {
    hide WakeLoop, Resched;
    WakeLoopRest(s);
    ReschedRest(Awake(s));
  }

  lemma UnsleepRest(s: Sys, p: int)
    ensures Unsleep(s, p).proc == s.proc && SameRest(s, Unsleep(s, p))
  {
    hide HandOn, Without;
  }

  lemma DozeRest(s: Sys, k: int, e: PEntry)
    ensures SameRest(SetProc(s, s.currpid, e), Doze(s, k, e))
  {
    hide Resched, DPos, DKeys;
    ReschedRest(Dozing(s, k, e));
  }

  // ---- call by call -----------------------------------------------------------

  /** The table's line for this call. */
  ghost predicate AsTabled(s: Sys, c: Call, r: Sys, x: Pid, y: SemId) {
    && RestOf(r, x) == RestAfter(s, c, x)
    && r.sem[y] == SemAfter(s, c, y)
    && (c.DoCreate? || c.DoSCreate? || CountersOf(r) == CountersAfter(s, c))
    && (c.DoCreate? ==> CountersOf(r) == CountersOf(s).(nextproc := r.nextproc) && NextAfter(s, c, r, x))
    && (c.DoSCreate? ==> CountersOf(r) == CountersOf(s).(nextsem := r.nextsem) && NextSemAfter(s, c, r, y))
  }

  /** The next search for a process starts below the slot found. */
  ghost predicate NextAfter(s: Sys, c: Call, r: Sys, x: Pid)
    requires c.DoCreate?
  {
    && (!c.stack ==> r.nextproc == s.nextproc)
    && (c.stack && FirstFree(s.proc, s.nextproc, NPROC, x) ==> r.nextproc == PrevPid(x))
  }

  ghost predicate NextSemAfter(s: Sys, c: Call, r: Sys, y: SemId)
    requires c.DoSCreate?
  {
    && (c.count < 0 ==> r.nextsem == s.nextsem)
    && (c.count >= 0 && FirstFreeSem(s.sem, s.nextsem, NSEM, y) ==> r.nextsem == PrevSem(y))
  }

  lemma ResumeRest(s: Sys, q: int, x: Pid, y: SemId)
    ensures AsTabled(s, DoResume(q), Resume(s, q).0, x, y)
  {
    hide Ready;
    ReadyRest(s, q);
  }

  lemma SuspendRest(s: Sys, q: int, x: Pid, y: SemId)
    requires Inv(s)
    ensures AsTabled(s, DoSuspend(q), Suspend(s, q).0, x, y)
  {
    hide Resched, Without, Core, SemsOK;
    if !IsBadPid(q) && s.proc[q].pstate == PrCurr {
      CurrIsRunning(s, q);
      ReschedRest(SetProc(s, q, s.proc[q].(pstate := PrSusp, pending := InSuspend)));
    }
  }

  lemma CurrIsRunning(s: Sys, q: Pid)
    requires Inv(s)
    ensures s.proc[q].pstate == PrCurr <==> q == s.currpid
  {
  }

  lemma JoinRest(s: Sys, m: SemId, x: Pid, y: SemId)
    requires s.sem[m].used && s.sem[m].semcnt <= 0
    ensures AsTabled(s, DoWait(m), Resched(JoinWaiters(SetCount(s, m, Wrap32(s.sem[m].semcnt - 1)), m)), x, y)
  {
    hide Resched, Wrap32;
    ReschedRest(JoinWaiters(SetCount(s, m, Wrap32(s.sem[m].semcnt - 1)), m));
  }

  lemma PassRest(s: Sys, m: SemId, x: Pid, y: SemId)
    requires s.sem[m].used && s.sem[m].semcnt > 0
    ensures AsTabled(s, DoWait(m), SetCount(s, m, Wrap32(s.sem[m].semcnt - 1)), x, y)
  {
    hide Wrap32;
  }

  lemma NoSemRest(s: Sys, m: int, x: Pid, y: SemId)
    requires NoSem(s, m)
    ensures AsTabled(s, DoWait(m), s, x, y)
  {
  }

  lemma WaitRest(s: Sys, m: int, x: Pid, y: SemId)
    requires Inv(s)
    ensures AsTabled(s, DoWait(m), Wait(s, m).0, x, y)
  {
    hide Resched, Inv, Wrap32, JoinWaiters, AsTabled;
    if NoSem(s, m) {
      NoSemRest(s, m, x, y);
    } else {
      WaitWraps(s, m);
      if s.sem[m].semcnt <= 0 {
        JoinRest(s, m, x, y);
      } else {
        PassRest(s, m, x, y);
      }
    }
  }

  lemma RaisedTabled(s: Sys, m: SemId, n: Int32, x: Pid, y: SemId)
    requires s.sem[m].used && n > 0
    ensures AsTabled(s, DoSignalN(m, n), Raised(s, m, n), x, y)
    ensures n == 1 ==> AsTabled(s, DoSignal(m), Raised(s, m, n), x, y)
  {
    hide Wrap32;
  }

  /** What leaves everything alone may follow. */
  lemma TabledThen(s: Sys, c: Call, t: Sys, r: Sys, x: Pid, y: SemId)
    requires AsTabled(s, c, t, x, y) && SameRest(t, r)
    ensures AsTabled(s, c, r, x, y)
  {
    hide RestAfter, SemAfter, CountersAfter;
  }

  lemma SignalRest(s: Sys, m: int, x: Pid, y: SemId)
    ensures AsTabled(s, DoSignal(m), Signal(s, m).0, x, y)
  {
    if !NoSem(s, m) {
      hide Resched, SignalOne, Raised, SameRest, AsTabled;
      SignalOneRest(s, m);
      ReschedRest(SignalOne(s, m));
      RaisedTabled(s, m, 1, x, y);
      TabledThen(s, DoSignal(m), Raised(s, m, 1), SignalOne(s, m), x, y);
      TabledThen(s, DoSignal(m), SignalOne(s, m), Resched(SignalOne(s, m)), x, y);
    }
  }

  lemma SignalNRest(s: Sys, m: int, n: Int32, x: Pid, y: SemId)
    ensures AsTabled(s, DoSignalN(m, n), SignalN(s, m, n).0, x, y)
  {
    if !NoSem(s, m) && n > 0 {
      hide Resched, SignalLoop, Raised, SameRest, AsTabled;
      SignalLoopRest(s, m, n);
      ReschedRest(SignalLoop(s, m, n));
      RaisedTabled(s, m, n, x, y);
      TabledThen(s, DoSignalN(m, n), Raised(s, m, n), SignalLoop(s, m, n), x, y);
      TabledThen(s, DoSignalN(m, n), SignalLoop(s, m, n), Resched(SignalLoop(s, m, n)), x, y);
    }
  }

  lemma SResetRest(s: Sys, m: int, n: Int32, x: Pid, y: SemId)
    ensures AsTabled(s, DoSReset(m, n), SReset(s, m, n).0, x, y)
  {
    if !IsBadSem(m) {
      hide Resched, DrainLoop;
      DrainRest(s, m, false);
      ReschedRest(SetCount(DrainLoop(s, SemList(m), false), m, n));
    }
  }

  lemma SDeleteRest(s: Sys, m: int, x: Pid, y: SemId)
    ensures AsTabled(s, DoSDelete(m), SDelete(s, m).0, x, y)
  {
    if !NoSem(s, m) {
      hide Resched, DrainLoop;
      var s1 := s.(sem := s.sem[m := s.sem[m].(used := false)]);
      DrainRest(s1, m, true);
      ReschedRest(DrainLoop(s1, SemList(m), true));
    }
  }

  /** m is the first free slot newsem comes to in n steps from `from`. */
  ghost predicate FirstFreeSem(sem: SemTab, from: SemId, n: nat, m: SemId)
    requires n <= NSEM
  {
    exists i: nat :: i < n && SemSlot(from, i) == m && !sem[m].used && forall k: nat :: k < i ==> sem[SemSlot(from, k)].used
  }

  lemma FirstFreeSemNext(sem: SemTab, from: SemId, n: nat, m: SemId)
    requires 0 < n <= NSEM && sem[from].used
    ensures FirstFreeSem(sem, from, n, m) <==> FirstFreeSem(sem, PrevSem(from), n - 1, m)
  {
    assert SemSlot(from, 0) == from;
    forall k: nat | k < n - 1 ensures SemSlot(from, k + 1) == SemSlot(PrevSem(from), k) {
    }
    if FirstFreeSem(sem, from, n, m) {
      var i: nat :| i < n && SemSlot(from, i) == m && !sem[m].used && forall k: nat :: k < i ==> sem[SemSlot(from, k)].used;
      assert SemSlot(PrevSem(from), i - 1) == m;
      forall k: nat | k < i - 1 ensures sem[SemSlot(PrevSem(from), k)].used {
        assert SemSlot(from, k + 1) == SemSlot(PrevSem(from), k);
      }
    }
    if FirstFreeSem(sem, PrevSem(from), n - 1, m) {
      var i: nat :| i < n - 1 && SemSlot(PrevSem(from), i) == m && !sem[m].used
        && forall k: nat :: k < i ==> sem[SemSlot(PrevSem(from), k)].used;
      assert SemSlot(from, i + 1) == m;
      forall k: nat | k < i + 1 ensures sem[SemSlot(from, k)].used {
        assert k > 0 ==> SemSlot(from, k) == SemSlot(PrevSem(from), k - 1);
      }
    }
  }

  lemma {:induction false} NewSemFirst(sem: SemTab, from: SemId, n: nat, m: SemId)
    requires n <= NSEM
    ensures NewSem(sem, from, n).0 == m <==> FirstFreeSem(sem, from, n, m)
    decreases n
  {
    if n > 0 {
      assert SemSlot(from, 0) == from;
      if !sem[from].used {
        assert FirstFreeSem(sem, from, n, from);
      } else {
        NewSemFirst(sem, PrevSem(from), n - 1, m);
        FirstFreeSemNext(sem, from, n, m);
      }
    }
  }

  lemma SCreateRest(s: Sys, n: Int32, x: Pid, y: SemId)
    ensures AsTabled(s, DoSCreate(n), SCreate(s, n).0, x, y)
  {
    hide NewSem, FirstFreeSem;
    NewSemFirst(s.sem, s.nextsem, NSEM, y);
    NewSemIs(s.sem, s.nextsem, NSEM);
    assert !IsBadSem(NewSem(s.sem, s.nextsem, NSEM).0) <==> NewSem(s.sem, s.nextsem, NSEM).0 != SYSERR;
  }

  lemma {:induction false} NewSemIs(sem: SemTab, from: SemId, n: nat)
    ensures var (m, next) := NewSem(sem, from, n); m == SYSERR || (0 <= m < NSEM && next == PrevSem(m))
    decreases n
  {
    if n > 0 && sem[from].used {
      NewSemIs(sem, PrevSem(from), n - 1);
    }
  }

  lemma {:induction false} NewPidIs(proc: ProcTab, from: Pid, n: nat)
    ensures var (p, next) := NewPid(proc, from, n); p == SYSERR || (0 <= p < NPROC && next == PrevPid(p))
    decreases n
  {
    if n > 0 && proc[from].pstate != PrFree {
      NewPidIs(proc, PrevPid(from), n - 1);
    }
  }

  lemma CreateRest(s: Sys, stack: bool, prio: Int32, x: Pid, y: SemId)
    ensures AsTabled(s, DoCreate(stack, prio), Create(s, stack, prio).0, x, y)
  {
    NewPidIs(s.proc, s.nextproc, NPROC);
    NewPidFirst(s.proc, s.nextproc, NPROC, x);
    hide NewPid, FirstFree;
  }

  lemma SendRest(s: Sys, q: int, msg: Int32)
    ensures SameRest(s, Send(s, q, msg).0)
  {
    hide Ready, Unsleep;
    if !IsBadPid(q) {
      var s1 := SetProc(s, q, s.proc[q].(pmsg := msg, phasmsg := true));
      ReadyRest(s1, q);
      UnsleepRest(s1, q);
      ReadyRest(Unsleep(s1, q), q);
    }
  }

  lemma SendTabled(s: Sys, q: int, msg: Int32, x: Pid, y: SemId)
    ensures AsTabled(s, DoSend(q, msg), Send(s, q, msg).0, x, y)
  {
    hide Send;
    SendRest(s, q, msg);
  }

  lemma KillRest(s: Sys, v: int, x: Pid, y: SemId)
    ensures AsTabled(s, DoKill(v), Kill(s, v).0, x, y)
  {
    hide Send;
    if Kills(s, v) {
      SendRest(SetPending(s, s.currpid, InKill(v)), s.proc[v].pnxtkin, v);
    }
  }

  lemma ReceiveRest(s: Sys, x: Pid, y: SemId)
    ensures AsTabled(s, DoReceive, Receive(s).0, x, y)
  {
    hide Resched;
    ReschedRest(SetProc(s, s.currpid, s.proc[s.currpid].(pending := InReceive, pstate := PrRecv)));
  }

  lemma RecvTimRest(s: Sys, n: Int32, x: Pid, y: SemId)
    ensures AsTabled(s, DoRecvTim(n), RecvTim(s, n).0, x, y)
  {
    hide Doze, Wrap32;
    DozeRest(s, Wrap32(n * 1000), s.proc[s.currpid].(pending := InRecvTim, pstate := PrTRecv));
  }

  lemma SleepRest(s: Sys, n: Int32, unit: nat, x: Pid, y: SemId)
    ensures AsTabled(s, DoSleep(n, unit), Sleep(s, n, unit).0, x, y)
  {
    hide Doze, Resched, Wrap32;
    ReschedRest(s);
    DozeRest(s, Wrap32(n * unit), s.proc[s.currpid].(pstate := PrSleep));
  }

  lemma ChPrioRest(s: Sys, q: int, prio: Int32, x: Pid, y: SemId)
    ensures AsTabled(s, DoChPrio(q, prio), ChPrio(s, q, prio).0, x, y)
  {
    hide Resched, Insert, Without;
    if !IsBadPid(q) {
      var s1 := SetProc(s, q, s.proc[q].(pprio := prio));
      InsertRest(Dequeue(s1, q, RDY), q, RDY, prio);
      ReschedRest(Insert(Dequeue(s1, q, RDY), q, RDY, prio));
      ReschedRest(s1);
    }
  }

  lemma SetNokRest(s: Sys, nok: Int32, q: int, x: Pid, y: SemId)
    ensures AsTabled(s, DoSetNok(nok, q), SetNok(s, nok, q).0, x, y)
  {
  }

  lemma TickRest(s: Sys, x: Pid, y: SemId)
    ensures AsTabled(s, DoTick, Tick(s), x, y)
  {
    hide Wakeup;
    var s1 := SetPending(s, s.currpid, InClkInt);
    WakeupRest(s1.(key := s.key[s.sltop := s.key[s.sltop] - 1]));
  }

  lemma StrtClkRest(s: Sys, x: Pid, y: SemId)
    ensures AsTabled(s, DoStrtClk, StrtClk(s), x, y)
  {
    hide Wakeup, Resched, MakeUp;
    if s.defclk == 1 {
      var s1 := s.(defclk := 0, preempt := s.preempt - s.clkdiff, clkdiff := 0);
      var s2 := s1.(key := MakeUp(s.key, s.lists[CLK], s.clkdiff));
      WakeupRest(s2);
      ReschedRest(if s.slnempty then Wakeup(s2) else s1);
    }
  }

  lemma PlainRest(s: Sys, c: Call, x: Pid, y: SemId)
    requires c.DoStopClk? || c.DoDefer? || c.DoResched?
    ensures AsTabled(s, c, Step(s, c).0, x, y)
  {
    hide Resched;
    ReschedRest(s);
  }

  lemma RemoveRest(s: Sys, v: Pid)
    ensures var r := Remove(s, v);
      && (forall p: Pid :: Rest(r.proc[p]) == Rest(s.proc[p])) && CountersOf(r) == CountersOf(s)
      && r.sem == if s.proc[v].pstate == PrWait
          then s.sem[s.proc[v].psem := s.sem[s.proc[v].psem].(semcnt := Wrap32(s.sem[s.proc[v].psem].semcnt + 1))] else s.sem
  {
    hide Resched, Unsleep, Without, Wrap32;
    ReschedRest(SetState(s, v, PrFree));
    UnsleepRest(s, v);
  }

  lemma FinishKillRest(s: Sys, x: Pid, y: SemId)
    requires s.proc[s.currpid].pending.InKill?
    ensures AsTabled(s, DoFinish, Finish(s).0, x, y)
  {
    hide Remove, Wrap32;
    RemoveRest(SetPending(s, s.currpid, Nothing), s.proc[s.currpid].pending.victim);
  }

  lemma FinishPlainRest(s: Sys, x: Pid, y: SemId)
    requires s.proc[s.currpid].pending != Nothing && !s.proc[s.currpid].pending.InKill?
    ensures AsTabled(s, DoFinish, Finish(s).0, x, y)
  {
    hide Resched;
    var s1 := SetPending(s, s.currpid, Nothing);
    ReschedRest(s1.(preempt := s1.preempt - 1));
  }

  lemma FinishRest(s: Sys, x: Pid, y: SemId)
    requires s.proc[s.currpid].pending != Nothing
    ensures AsTabled(s, DoFinish, Finish(s).0, x, y)
  {
    hide Finish, AsTabled;
    if s.proc[s.currpid].pending.InKill? {
      FinishKillRest(s, x, y);
    } else {
      FinishPlainRest(s, x, y);
    }
  }

  /** Every call leaves every entry, every semaphore and every counter as the
      table says. */
  lemma FieldsAsExpected(s: Sys, c: Call, x: Pid, y: SemId)
    requires Inv(s) && Allowed(s, c)
    ensures AsTabled(s, c, Step(s, c).0, x, y)
  {
    hide Inv, AsTabled;
    match c
    case DoCreate(stack, prio) => CreateRest(s, stack, prio, x, y);
    case DoResume(p) => ResumeRest(s, p, x, y);
    case DoSuspend(p) => SuspendRest(s, p, x, y);
    case DoWait(m) => WaitRest(s, m, x, y);
    case DoSignal(m) => SignalRest(s, m, x, y);
    case DoSignalN(m, n) => SignalNRest(s, m, n, x, y);
    case DoSReset(m, n) => SResetRest(s, m, n, x, y);
    case DoSDelete(m) => SDeleteRest(s, m, x, y);
    case DoSCreate(n) => SCreateRest(s, n, x, y);
    case DoSend(p, msg) => SendTabled(s, p, msg, x, y);
    case DoReceive => ReceiveRest(s, x, y);
    case DoRecvTim(n) => RecvTimRest(s, n, x, y);
    case DoSleep(n, unit) => SleepRest(s, n, unit, x, y);
    case DoChPrio(p, prio) => ChPrioRest(s, p, prio, x, y);
    case DoKill(p) => KillRest(s, p, x, y);
    case DoSetNok(nok, p) => SetNokRest(s, nok, p, x, y);
    case DoTick => TickRest(s, x, y);
    case DoStopClk => PlainRest(s, c, x, y);
    case DoStrtClk => StrtClkRest(s, x, y);
    case DoDefer(n) => PlainRest(s, c, x, y);
    case DoResched => PlainRest(s, c, x, y);
    case DoFinish => FinishRest(s, x, y);
  }

  /** A new process is suspended and holds no message. */
  lemma CreatedIsEmpty(s: Sys, c: Call, x: Pid)
    requires Creates(s, c, x)
    ensures var e := Step(s, c).0.proc[x]; e.pstate == PrSusp && Held(Step(s, c).0, x) == []
  {
    NewPidIs(s.proc, s.nextproc, NPROC);
    NewPidFirst(s.proc, s.nextproc, NPROC, x);
    hide NewPid, FirstFree;
  }

  // ---- answers ---------------------------------------------------------------

  /** What the caller is told, or nothing until it runs again. */
  function Answer(s: Sys, c: Call): Result {
    var me := s.proc[s.currpid];
    match c
    case DoResume(p) => Told(!IsBadPid(p) && s.proc[p].pstate == PrSusp, if IsBadPid(p) then 0 else s.proc[p].pprio)
    case DoSuspend(p) =>
      if p == s.currpid && !IsBadPid(p) then Blocks
      else Told(!IsBadPid(p) && s.proc[p].pstate == PrReady, if IsBadPid(p) then 0 else s.proc[p].pprio)
    case DoWait(m) => if BlocksOn(s, c) then Blocks else Told(!NoSem(s, m), OK)
    case DoSignal(m) => Told(!NoSem(s, m), OK)
    case DoSignalN(m, n) => Told(!NoSem(s, m) && n > 0, OK)
    case DoSReset(m, n) => Told(!NoSem(s, m) && n >= 0, OK)
    case DoSDelete(m) => Told(!NoSem(s, m), OK)
    case DoSend(p, msg) => Told(HasRoom(s, p), OK)
    case DoRecvTim(n) => if n >= 0 && s.clkruns then Blocks else Returns(SYSERR)
    case DoSleep(n, unit) => Told(n >= 0 && s.clkruns, OK)
    case DoChPrio(p, prio) => Told(Kills(s, p) && prio > 0, if IsBadPid(p) then 0 else s.proc[p].pprio)
    case DoKill(p) => if Kills(s, p) then Blocks else Returns(SYSERR)
    case DoSetNok(nok, p) => Told(!IsBadPid(p), OK)
    case DoFinish =>
      if me.pending.InReceive? || (me.pending.InRecvTim? && me.phasmsg) then Returns(me.pmsg)
      else if me.pending.InRecvTim? then Returns(TIMEOUT)
      else if me.pending.InWait? then Returns(me.pwaitret)
      else if me.pending.InSuspend? then Returns(me.pprio)
      else if me.pending.InKill? then Returns(OK)
      else Blocks
    case _ => Blocks
  }

  function Told(fine: bool, value: int): Result { Returns(if fine then value else SYSERR) }

  /** Every call answers as the table says. */
  lemma AnswersAsExpected(s: Sys, c: Call)
    requires Inv(s) && !c.DoCreate? && !c.DoSCreate?
    ensures Step(s, c).1 == Answer(s, c)
  {
    hide Resched, Tick, StrtClk, DrainLoop, SignalLoop, SignalOne, JoinWaiters, Doze, Ready, Remove, Core, SemsOK;
    match c
    case DoWait(m) =>
      if !NoSem(s, m) {
        WaitWraps(s, m);
      }
    case DoSuspend(p) =>
      if !IsBadPid(p) {
        CurrIsRunning(s, p);
      }
    case DoSend(p, msg) => SendExactly(s, p, msg);
    case _ =>
  }

  /** create and screate answer with the new slot, or SYSERR when there is none. */
  lemma NewAnswers(s: Sys, c: Call, k: int)
    requires c.DoCreate? || c.DoSCreate?
    ensures Step(s, c).1 == Returns(k) && k != SYSERR <==>
      (c.DoCreate? && 0 <= k < NPROC && Creates(s, c, k)) || (c.DoSCreate? && 0 <= k < NSEM && CreatesSem(s, c, k))
    ensures Step(s, c).1.Returns?
  {
    NewPidIs(s.proc, s.nextproc, NPROC);
    NewSemIs(s.sem, s.nextsem, NSEM);
    if 0 <= k < NPROC {
      NewPidFirst(s.proc, s.nextproc, NPROC, k);
    }
    if 0 <= k < NSEM {
      NewSemFirst(s.sem, s.nextsem, NSEM, k);
    }
    hide NewPid, NewSem, FirstFree, FirstFreeSem;
  }
}
