/** What holds of the kernel's tables between any two system calls, and the
    steps that keep it. */
module KernelInv {
  import opened Ints
  import opened Lists
  import opened KernelSpec

  // ---- the invariant ---------------------------------------------------

  /** The one list a process in this state is on, or none. */
  function Home(e: PEntry): int {
    match e.pstate
    case PrReady => RDY
    case PrWait => SemList(e.psem)
    case PrSleep => CLK
    case PrTRecv => CLK
    case _ => -1
  }

  /** Every process but x is on exactly its home list; x is on none. */
  ghost predicate Placed(s: Sys, x: int) {
    forall l: ListId, p: Pid {:trigger p in s.lists[l]} :: p in s.lists[l] <==> p != x && Home(s.proc[p]) == l
  }

  ghost predicate Distinct(s: Sys) {
    forall l: ListId :: NoDup(s.lists[l])
  }

  ghost predicate Sorted(key: KeyTab, q: seq<Pid>) {
    forall i, j :: 0 <= i < j < |q| ==> key[q[i]] <= key[q[j]]
  }

  ghost predicate ReadyOK(s: Sys) {
    && Sorted(s.key, s.lists[RDY])
    && (forall p: Pid :: p in s.lists[RDY] ==> s.key[p] == s.proc[p].pprio)
  }

  /** The sum of the delays on q. */
  ghost function Total(key: KeyTab, q: seq<Pid>): int {
    if q == [] then 0 else key[q[0]] + Total(key, q[1..])
  }

  ghost predicate DeltasOK(key: KeyTab, q: seq<Pid>) {
    && (forall p: Pid :: p in q ==> key[p] >= 0)
    && Total(key, q) <= MAXINT
  }

  /** A process blocked for a message has none; one past the wait has one. */
  ghost predicate MessageOK(e: PEntry) {
    && (e.pstate == PrRecv ==> e.pending == InReceive && !e.phasmsg)
    && (e.pstate == PrTRecv ==> e.pending == InRecvTim && !e.phasmsg)
    && (e.pstate == PrWait ==> e.pending == InWait)
    && (e.pending == InReceive && e.pstate != PrRecv && e.pstate != PrFree ==> e.phasmsg)
    && (e.pending.InKill? ==> e.pending.victim != NULLPROC)
  }

  ghost predicate ProcsOK(s: Sys, x: int) {
    && (forall p: Pid :: s.proc[p].pprio >= 0)
    && (forall p: Pid :: s.proc[p].pstate == PrCurr ==> p == s.currpid)
    && (forall p: Pid :: p != x ==> MessageOK(s.proc[p]))
    && s.proc[NULLPROC].pstate in {PrCurr, PrReady}
  }

  /** All but the semaphore counts and the clock's own variables, while x is
      between two lists. */
  ghost predicate Core(s: Sys, x: int) {
    && Placed(s, x)
    && Distinct(s)
    && ReadyOK(s)
    && DeltasOK(s.key, s.lists[CLK])
    && ProcsOK(s, x)
  }

  /** A used semaphore has exactly -semcnt waiters when semcnt is negative and
      none otherwise; a free one has none. */
  ghost predicate CountOK(s: Sys, m: SemId) {
    |s.lists[SemList(m)]| == if s.sem[m].used && s.sem[m].semcnt < 0 then -(s.sem[m].semcnt as int) else 0
  }

  ghost predicate SemsOK(s: Sys) {
    forall m: SemId :: CountOK(s, m)
  }

  ghost predicate ClockOK(s: Sys) {
    && s.slnempty == (s.lists[CLK] != [])
    && (s.slnempty ==> s.sltop == s.lists[CLK][0])
    && s.clkdiff >= 0
  }

  /** The running process is marked so, and none ready has higher priority. */
  ghost predicate Running(s: Sys) {
    && s.proc[s.currpid].pstate == PrCurr
    && (forall p: Pid :: p in s.lists[RDY] ==> s.proc[p].pprio <= s.proc[s.currpid].pprio)
  }

  ghost predicate Inv(s: Sys) {
    Core(s, -1) && SemsOK(s) && ClockOK(s) && Running(s)
  }

  // ---- lists -----------------------------------------------------------

  lemma {:induction false} TotalFrame(key: KeyTab, key': KeyTab, q: seq<Pid>)
    requires forall p: Pid :: p in q ==> key'[p] == key[p]
    ensures Total(key', q) == Total(key, q)
  {
    if q != [] {
      TotalFrame(key, key', q[1..]);
    }
  }

  lemma {:induction false} TotalNonNeg(key: KeyTab, q: seq<Pid>)
    requires forall p: Pid :: p in q ==> key[p] >= 0
    ensures Total(key, q) >= 0
  {
    if q != [] {
      TotalNonNeg(key, q[1..]);
    }
  }

  lemma {:induction false} TotalWithout(key: KeyTab, q: seq<Pid>, p: Pid)
    requires p in q
    ensures Total(key, Without(q, p)) == Total(key, q) - key[p]
  {
    if q[0] != p {
      assert Without(q, p)[1..] == Without(q[1..], p);
      TotalWithout(key, q[1..], p);
    }
  }

  lemma SortedWithout(key: KeyTab, q: seq<Pid>, p: Pid)
    requires NoDup(q) && Sorted(key, q) && p in q
    ensures Sorted(key, Without(q, p))
  {
    var k :| 0 <= k < |q| && q[k] == p;
    WithoutAt(q, k);
  }

  lemma OnHomeList(s: Sys, p: Pid, l: ListId)
    requires Placed(s, -1) && p in s.lists[l]
    ensures Home(s.proc[p]) == l
  {
  }

  lemma AtHome(s: Sys, p: Pid)
    requires Placed(s, -1)
    ensures forall l: ListId :: Home(s.proc[p]) == l ==> p in s.lists[l]
  {
  }

  lemma OnReadyList(s: Sys, p: Pid)
    requires Core(s, -1)
    ensures s.proc[p].pstate == PrReady ==> p in s.lists[RDY]
  {
  }

  lemma OnNoList(s: Sys)
    requires Core(s, -1)
    ensures s.proc[s.currpid].pstate == PrCurr ==> forall l: ListId :: s.currpid !in s.lists[l]
  {
  }

  /** Core speaks of the lists, their keys and the process table only. */
  lemma SameCore(s: Sys, s': Sys)
    requires Core(s, -1)
    requires s'.lists == s.lists && s'.key == s.key && s'.proc == s.proc && s'.currpid == s.currpid
    ensures Core(s', -1)
  {
  }

  lemma DetachPlaced(s: Sys, p: Pid, l: ListId)
    requires Placed(s, -1) && Distinct(s) && p in s.lists[l]
    ensures Placed(Dequeue(s, p, l), p) && Distinct(Dequeue(s, p, l))
  {
    WithoutNoDup(s.lists[l], p);
  }

  /** Dequeue leaves the ready list in order and the delays in bounds. */
  lemma DetachOrder(s: Sys, p: Pid, l: ListId)
    requires Distinct(s) && ReadyOK(s) && DeltasOK(s.key, s.lists[CLK]) && p in s.lists[l]
    ensures ReadyOK(Dequeue(s, p, l)) && DeltasOK(s.key, Dequeue(s, p, l).lists[CLK])
  {
    WithoutNoDup(s.lists[l], p);
    if l == CLK {
      TotalWithout(s.key, s.lists[CLK], p);
    } else if l == RDY {
      SortedWithout(s.key, s.lists[RDY], p);
    }
  }

  /** Taking a process off its list detaches it and keeps all else. */
  lemma DetachCore(s: Sys, p: Pid, l: ListId)
    requires Core(s, -1) && p in s.lists[l]
    ensures Core(Dequeue(s, p, l), p)
  {
    DetachPlaced(s, p, l);
    DetachOrder(s, p, l);
  }

  /** What an entry must be, whatever list its process is on. */
  ghost predicate EntryOK(s: Sys, p: Pid, e: PEntry) {
    && e.pprio >= 0
    && (e.pstate == PrCurr ==> p == s.currpid)
    && (p == NULLPROC ==> e.pstate in {PrCurr, PrReady})
  }

  /** A new entry that leaves its process where it is. */
  lemma RewriteCore(s: Sys, p: Pid, e: PEntry)
    requires Core(s, -1) && EntryOK(s, p, e) && MessageOK(e)
    requires Home(e) == Home(s.proc[p])
    requires Home(e) == RDY ==> e.pprio == s.proc[p].pprio
    ensures Core(SetProc(s, p, e), -1)
  {
  }

  lemma Unlisted(s: Sys, p: Pid)
    requires Core(s, -1) && Home(s.proc[p]) == -1
    ensures Core(s, p)
  {
  }

  lemma HoldPlaced(s: Sys, p: Pid, e: PEntry)
    requires Placed(s, p)
    ensures Placed(SetProc(s, p, e), p)
    ensures Home(e) == -1 ==> Placed(SetProc(s, p, e), -1)
  {
    var s' := SetProc(s, p, e);
    forall l: ListId, y: Pid ensures y in s'.lists[l] <==> y != p && Home(s'.proc[y]) == l {
      if y != p {
        assert s'.proc[y] == s.proc[y];
      }
    }
  }

  /** A new entry for a process that is on no list. */
  lemma HoldCore(s: Sys, p: Pid, e: PEntry)
    requires Core(s, p) && EntryOK(s, p, e)
    ensures Core(SetProc(s, p, e), p)
    ensures Home(e) == -1 && MessageOK(e) ==> Core(SetProc(s, p, e), -1)
  {
    HoldPlaced(s, p, e);
  }

  /** A detached process joins the end of the semaphore list it is bound for. */
  lemma EnqueueCore(s: Sys, p: Pid, m: SemId)
    requires Core(s, p) && s.proc[p].pstate == PrWait && s.proc[p].psem == m
    requires MessageOK(s.proc[p])
    ensures Core(Enqueue(s, p, SemList(m)), -1)
  {
    assert p !in s.lists[SemList(m)];
    AppendNoDup(s.lists[SemList(m)], p);
  }

  /** The first process of a list is the one getfirst detaches. */
  lemma FirstCore(s: Sys, l: ListId)
    requires Core(s, -1) && s.lists[l] != []
    ensures DropFirst(s, l) == Dequeue(s, s.lists[l][0], l)
    ensures Core(DropFirst(s, l), s.lists[l][0])
  {
    DetachCore(s, s.lists[l][0], l);
  }

  /** A process taken off its list is on none. */
  lemma OffLists(s: Sys, p: Pid, l: ListId)
    requires Core(s, -1) && p in s.lists[l]
    ensures forall m: ListId :: p !in Dequeue(s, p, l).lists[m]
  {
    DetachCore(s, p, l);
  }

  lemma FirstIsOff(s: Sys, l: ListId)
    requires Core(s, -1)
    ensures s.lists[l] == [] || forall m: ListId :: s.lists[l][0] !in DropFirst(s, l).lists[m]
  {
    if s.lists[l] != [] {
      FirstCore(s, l);
    }
  }

  /** The counts of all semaphores but m are right. */
  ghost predicate SemsBut(s: Sys, m: int) {
    forall n: SemId :: n != m ==> CountOK(s, n)
  }

  lemma SemsButFrame(s: Sys, s': Sys, m: int)
    requires SemsBut(s, m)
    requires forall n: SemId :: n != m ==> s'.sem[n] == s.sem[n] && s'.lists[SemList(n)] == s.lists[SemList(n)]
    ensures SemsBut(s', m)
  {
    forall n: SemId | n != m ensures CountOK(s', n) {
      assert CountOK(s, n);
    }
  }

  /** The semaphores are untouched when their lists and counts are. */
  lemma SemsFrame(s: Sys, s': Sys)
    requires SemsOK(s) && s'.sem == s.sem
    requires forall m: SemId :: s'.lists[SemList(m)] == s.lists[SemList(m)]
    ensures SemsOK(s')
  {
    forall m: SemId ensures CountOK(s', m) {
      assert CountOK(s, m);
    }
  }

  lemma InsertPlaced(s: Sys, p: Pid, k: int)
    requires Placed(s, p) && Distinct(s) && s.proc[p].pstate == PrReady
    ensures Placed(Insert(s, p, RDY, k), -1) && Distinct(Insert(s, p, RDY, k))
  {
    assert p !in s.lists[RDY];
    InsertAtNoDup(s.lists[RDY], InsPos(s.key, s.lists[RDY], k), p);
  }

  lemma InsertSorted(key: KeyTab, q: seq<Pid>, p: Pid, k: int)
    requires Sorted(key, q) && p !in q
    ensures Sorted(key[p := k], InsertAt(q, InsPos(key, q, k), p))
  {
    var i := InsPos(key, q, k);
    var r := InsertAt(q, i, p);
    assert forall j :: 0 <= j < |q| ==> q[j] != p;
  }

  /** A detached process, marked ready, is inserted in order. */
  lemma InsertCore(s: Sys, p: Pid)
    requires Core(s, p)
    requires s.proc[p].pstate == PrReady && MessageOK(s.proc[p])
    ensures Core(Insert(s, p, RDY, s.proc[p].pprio), -1)
  {
    hide NoDup;
    hide Sorted;
    var k := s.proc[p].pprio;
    var s' := Insert(s, p, RDY, k);
    assert p !in s.lists[RDY] && p !in s.lists[CLK];
    InsertPlaced(s, p, k);
    InsertSorted(s.key, s.lists[RDY], p, k);
    TotalFrame(s.key, s'.key, s.lists[CLK]);
    assert forall y: Pid :: y in s'.lists[RDY] ==> y == p || y in s.lists[RDY];
  }

  // ---- scheduling ------------------------------------------------------

  /** All that resched needs: the running process, still marked so, is on no
      list, or another is ready. */
  ghost predicate CanSwitch(s: Sys) {
    if s.proc[s.currpid].pstate == PrCurr then forall l: ListId :: s.currpid !in s.lists[l]
    else s.lists[RDY] != []
  }

  lemma YieldReady(s: Sys)
    requires CanSwitch(s)
    ensures Yield(s).lists[RDY] != []
  {
  }

  /** The running process, still marked so or already moved elsewhere. */
  ghost predicate Schedulable(s: Sys) {
    && Core(s, -1)
    && (s.proc[s.currpid].pstate == PrCurr || s.lists[RDY] != [])
  }

  lemma YieldCore(s: Sys)
    requires Schedulable(s)
    ensures Core(Yield(s), -1) && Yield(s).lists[RDY] != []
    ensures Yield(s).proc[s.currpid].pstate != PrCurr
  {
    var c := s.currpid;
    if s.proc[c].pstate == PrCurr {
      var s1 := SetState(s, c, PrReady);
      assert Core(s1, c);
      InsertCore(s1, c);
    }
  }

  lemma DispatchRunning(s: Sys)
    requires Core(s, -1) && s.lists[RDY] != []
    requires s.proc[s.currpid].pstate != PrCurr
    ensures Core(Dispatch(s), -1) && Running(Dispatch(s))
  {
    var q := s.lists[RDY];
    var n := q[|q| - 1];
    WithoutAt(q, |q| - 1);
    assert Dequeue(s, n, RDY) == SetList(s, RDY, q[..|q| - 1]) by {
      assert q[..|q| - 1] + q[|q|..] == q[..|q| - 1];
    }
    DetachCore(s, n, RDY);
  }

  /** After resched the running process has the highest priority. */
  lemma ReschedRunning(s: Sys)
    requires Schedulable(s)
    ensures Core(Resched(s), -1) && Running(Resched(s))
  {
    if !KeepsCpu(s) {
      YieldCore(s);
      DispatchRunning(Yield(s));
    } else {
      var q := s.lists[RDY];
      forall p: Pid | p in q ensures s.proc[p].pprio <= s.proc[s.currpid].pprio {
        var i :| 0 <= i < |q| && q[i] == p;
      }
    }
  }

  /** resched leaves every list but the ready list alone, and the rest of the
      tables that no process state is part of. */
  lemma ReschedFrame(s: Sys)
    ensures var r := Resched(s);
      && (forall l: ListId :: l != RDY ==> r.lists[l] == s.lists[l])
      && r.sem == s.sem && r.slnempty == s.slnempty && r.sltop == s.sltop
      && r.clkdiff == s.clkdiff && r.defclk == s.defclk && r.nextproc == s.nextproc
      && r.nextsem == s.nextsem && r.clkruns == s.clkruns
  {
  }
}
