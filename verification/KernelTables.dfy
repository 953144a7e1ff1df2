/** The kernel as it runs: one q table, one process table, one semaphore table,
    updated in place. Each method is tied to the function of KernelSpec that
    says what it computes. */
module KernelTables {
  import opened Ints
  import opened Lists
  import opened KernelSpec
  import opened KernelInv
  import opened KernelSched
  import opened KernelSems
  import opened KernelClock
  import opened KernelProcs
  import opened KernelRun
  import opened QTable

  class Kernel {
    const q: array<QEnt>
    const proctab: array<PEntry>
    const semaph: array<SEntry>
    var nextqueue: int
    var currpid: Pid
    var nextproc: Pid
    var nextsem: SemId
    var preempt: int
    var slnempty: bool
    var sltop: Pid
    var defclk: int
    var clkdiff: int
    var clkruns: bool
    ghost var lists: ListTab

    /** The links spell out `lists`. */
    ghost predicate Valid()
      reads this, q, proctab, semaph
    {
      && q.Length == NQENT && proctab.Length == NPROC && semaph.Length == NSEM
      && Linked(q[..], lists)
    }

    /** The tables as a value. */
    ghost function Abs(): Sys
      requires Valid()
      reads this, q, proctab, semaph
    {
      Sys(lists, Keys(q[..]), proctab[..], semaph[..], currpid, nextproc, nextsem, preempt,
          slnempty, sltop, defclk, clkdiff, clkruns)
    }

    // ---- process and semaphore entries ---------------------------------

    method PutProc(p: Pid, e: PEntry)
      requires Valid()
      modifies proctab
      ensures Valid() && Abs() == SetProc(old(Abs()), p, e)
    {
      proctab[p] := e;
    }

    method PutSem(m: SemId, e: SEntry)
      requires Valid()
      modifies semaph
      ensures Valid() && Abs() == old(Abs()).(sem := old(Abs()).sem[m := e])
    {
      semaph[m] := e;
    }

    // ---- queue.c -------------------------------------------------------

    method Enqueue(item: Pid, tail: int, ghost l: ListId)
      requires Valid() && tail == Tail(l) && forall m: ListId :: item !in lists[m]
      modifies this`lists, q
      ensures Valid() && Abs() == KernelSpec.Enqueue(old(Abs()), item, l)
    {
      hide Linked;
      ghost var list := lists[l];
      LinkAt(q[..], lists, l, |list| - 1);
      LinkInKeeps(q[..], lists, l, |list|, item);
      assert InsertAt(list, |list|, item) == list + [item];
      q[item] := q[item].(qnext := tail);
      q[item] := q[item].(qprev := q[tail].qprev);
      q[q[tail].qprev] := q[q[tail].qprev].(qnext := item);
      q[tail] := q[tail].(qprev := item);
      assert q[..] == LinkIn(old(q[..]), item, Node(l, list, |list| - 1), tail);
      lists := lists[l := list + [item]];
    }

    method Dequeue(item: Pid, ghost l: ListId) returns (r: Pid)
      requires Valid() && item in lists[l]
      modifies this`lists, q
      ensures Valid() && Abs() == KernelSpec.Dequeue(old(Abs()), item, l)
      ensures r == item
    {
      hide Linked;
      ghost var list := lists[l];
      ghost var k :| 0 <= k < |list| && list[k] == item;
      LinkAt(q[..], lists, l, k - 1);
      LinkAt(q[..], lists, l, k);
      LinkOutKeeps(q[..], lists, l, k);
      q[q[item].qprev] := q[q[item].qprev].(qnext := q[item].qnext);
      q[q[item].qnext] := q[q[item].qnext].(qprev := q[item].qprev);
      assert q[..] == LinkOut(old(q[..]), Node(l, list, k - 1), Node(l, list, k + 1));
      lists := lists[l := Without(list, item)];
      r := item;
    }

    // ---- getitem.c -----------------------------------------------------

    method GetFirst(head: int, ghost l: ListId) returns (proc: int)
      requires Valid() && head == Head(l)
      modifies this`lists, q
      ensures Valid() && Abs() == DropFirst(old(Abs()), l)
      ensures proc == First(old(Abs()), l)
    {
      hide Linked;
      LinkAt(q[..], lists, l, -1);
      proc := q[head].qnext;
      if proc < NPROC {
        proc := Dequeue(proc, l);
      } else {
        proc := EMPTY;
      }
    }

    method GetLast(tail: int, ghost l: ListId) returns (proc: int)
      requires Valid() && tail == Tail(l)
      modifies this`lists, q
      ensures Valid()
      ensures var list := old(lists)[l];
        if list == [] then proc == EMPTY && Abs() == old(Abs())
        else proc == list[|list| - 1] && Abs() == SetList(old(Abs()), l, list[..|list| - 1])
    {
      hide Linked;
      ghost var list := lists[l];
      LinkAt(q[..], lists, l, |list| - 1);
      proc := q[tail].qprev;
      if proc < NPROC {
        OnOneList(q[..], lists, l);
        WithoutAt(list, |list| - 1);
        assert list[..|list| - 1] + list[|list|..] == list[..|list| - 1];
        proc := Dequeue(proc, l);
      } else {
        proc := EMPTY;
      }
    }

    // ---- insert.c, insertd.c -------------------------------------------

    /** Link proc in between prev and next: where both searches end. */
    method SpliceIn(proc: Pid, prev: int, next: int, key: int, ghost l: ListId, ghost i: nat)
      requires Valid() && forall m: ListId :: proc !in lists[m]
      requires i <= |lists[l]| && prev == Node(l, lists[l], i - 1) && next == Node(l, lists[l], i)
      modifies this`lists, q
      ensures Valid()
      ensures Abs() == SetList(old(Abs()), l, InsertAt(old(lists)[l], i, proc)).(key := old(Abs()).key[proc := key])
    {
      hide Linked;
      SpliceKeeps(q[..], lists, l, i, proc, key);
      q[proc] := q[proc].(qnext := next);
      q[proc] := q[proc].(qprev := prev);
      q[proc] := q[proc].(qkey := key);
      q[prev] := q[prev].(qnext := proc);
      q[next] := q[next].(qprev := proc);
      assert q[..] == Splice(old(q[..]), proc, prev, next, key);
      lists := lists[l := InsertAt(lists[l], i, proc)];
    }

    /** insert's search for the first key that is not smaller. */
    method Search(head: int, key: int, ghost l: ListId) returns (next: int, ghost i: nat)
      requires Valid() && head == Head(l) && key <= MAXINT
      ensures i == InsPos(Keys(q[..]), lists[l], key) && next == Node(l, lists[l], i)
    {
      hide Linked;
      ghost var list := lists[l];
      ghost var keys := Keys(q[..]);
      LinkAt(q[..], lists, l, -1);
      SentinelKeys(q[..], lists, l);
      next, i := q[head].qnext, 0;
      while q[next].qkey < key
        invariant 0 <= i <= |list| && next == Node(l, list, i)
        invariant InsPos(keys, list, key) == i + InsPos(keys, list[i..], key)
        decreases |list| - i
      {
        LinkAt(q[..], lists, l, i);
        assert list[i..][1..] == list[i + 1..];
        next := q[next].qnext;
        i := i + 1;
      }
      assert InsPos(keys, list[i..], key) == 0;
    }

    method Insert(proc: Pid, head: int, key: int, ghost l: ListId)
      requires Valid() && head == Head(l) && key <= MAXINT && forall m: ListId :: proc !in lists[m]
      modifies this`lists, q
      ensures Valid() && Abs() == KernelSpec.Insert(old(Abs()), proc, l, key)
    {
      hide Linked;
      hide InsPos;
      var next, i := Search(head, key, l);
      LinkAt(q[..], lists, l, i as int - 1);
      SpliceIn(proc, q[next].qprev, next, key, l, i);
    }

    /** insertd's search, using up the key on the way. */
    method SearchD(head: int, key: int, ghost l: ListId)
      returns (prev: int, next: int, k: int, ghost i: nat)
      requires Valid() && head == Head(l) && key <= MAXINT
      requires forall p: Pid :: p in lists[l] ==> Keys(q[..])[p] >= 0
      ensures (i, k) == DPos(Keys(q[..]), lists[l], key)
      ensures prev == Node(l, lists[l], i - 1) && next == Node(l, lists[l], i)
    {
      hide Linked;
      ghost var list := lists[l];
      ghost var keys := Keys(q[..]);
      LinkAt(q[..], lists, l, -1);
      SentinelKeys(q[..], lists, l);
      prev, next, k, i := head, q[head].qnext, key, 0;
      while q[next].qkey < k
        invariant 0 <= i <= |list| && k <= key
        invariant prev == Node(l, list, i - 1) && next == Node(l, list, i)
        invariant var (j, rem) := DPos(keys, list[i..], k); DPos(keys, list, key) == (i + j, rem)
        decreases |list| - i
      {
        LinkAt(q[..], lists, l, i);
        assert list[i..][1..] == list[i + 1..];
        assert list[i] in list;
        k := k - q[next].qkey;
        prev := next;
        next := q[next].qnext;
        i := i + 1;
      }
      assert DPos(keys, list[i..], k) == (0, k);
    }

    method InsertD(pid: Pid, head: int, key: int, ghost l: ListId)
      requires Valid() && head == Head(l) && key <= MAXINT && forall m: ListId :: pid !in lists[m]
      requires forall p: Pid :: p in lists[l] ==> Keys(q[..])[p] >= 0
      modifies this`lists, q
      ensures Valid() && Abs() == KernelSpec.InsertD(old(Abs()), pid, l, key)
    {
      hide Linked;
      hide DPos;
      var prev, next, k, i := SearchD(head, key, l);
      SpliceIn(pid, prev, next, k, l, i);
      if next < NPROC {
        Rekey(next, q[next].qkey - k);
      }
    }

    /** A new key for one process. */
    method Rekey(p: Pid, key: int)
      requires Valid()
      modifies q
      ensures Valid() && Abs() == old(Abs()).(key := old(Abs()).key[p := key])
    {
      hide Linked;
      q[p] := q[p].(qkey := key);
      RekeyKeeps(old(q[..]), q[..], lists);
      assert Keys(q[..]) == Keys(old(q[..]))[p := key];
    }

    // ---- resched.c, ready.c --------------------------------------------

    method LastReadyKey() returns (key: int)
      requires Valid()
      ensures key == LastKey(Abs(), RDY)
    {
      hide Linked;
      LinkAt(q[..], lists, RDY, |lists[RDY]| - 1);
      SentinelKeys(q[..], lists, RDY);
      key := q[q[Tail(RDY)].qprev].qkey;
    }

    /** Put the running process back on the ready list, if it still wants to run. */
    method GiveUp()
      requires Valid() && CanSwitch(Abs())
      modifies this`lists, q, proctab
      ensures Valid() && Abs() == Yield(old(Abs())) && lists[RDY] != []
    {
      hide Linked;
      hide KernelSpec.Insert;
      YieldReady(Abs());
      var optr := proctab[currpid];
      if optr.pstate == PrCurr {
        PutProc(currpid, optr.(pstate := PrReady));
        Insert(currpid, Head(RDY), optr.pprio, RDY);
      }
    }

    /** Remove the highest-priority process from the ready list and run it. */
    method RunLast()
      requires Valid() && lists[RDY] != []
      modifies this, q, proctab
      ensures Valid() && Abs() == Dispatch(old(Abs()))
    {
      hide Linked;
      var n := GetLast(Tail(RDY), RDY);
      currpid := n;
      PutProc(n, proctab[n].(pstate := PrCurr));
      preempt := QUANTUM;
    }

    method Resched()
      requires Valid() && CanSwitch(Abs())
      modifies this, q, proctab
      ensures Valid() && Abs() == KernelSpec.Resched(old(Abs()))
    {
      hide Linked;
      hide CanSwitch;
      hide Yield;
      hide Dispatch;
      var last := LastReadyKey();
      if proctab[currpid].pstate == PrCurr && last < proctab[currpid].pprio {
        return;
      }
      GiveUp();
      RunLast();
    }

    method ReadyNoResch(pid: int)
      requires Valid() && (IsBadPid(pid) || forall m: ListId :: pid !in lists[m])
      modifies this`lists, q, proctab
      ensures Valid() && Abs() == KernelSpec.ReadyNoResch(old(Abs()), pid)
    {
      hide Linked;
      hide KernelSpec.Insert;
      if !IsBadPid(pid) {
        PutProc(pid, proctab[pid].(pstate := PrReady));
        Insert(pid, Head(RDY), proctab[pid].pprio, RDY);
      }
    }

    /** ready(pid, RESCHYES). */
    method Ready(pid: int)
      requires Valid() && (IsBadPid(pid) || Core(KernelSpec.ReadyNoResch(Abs(), pid), -1))
      requires IsBadPid(pid) || forall m: ListId :: pid !in lists[m]
      modifies this, q, proctab
      ensures Valid() && Abs() == KernelSpec.Ready(old(Abs()), pid)
    {
      hide Linked;
      hide Core;
      hide KernelSpec.Resched;
      hide KernelSpec.Insert;
      ReadyNoResch(pid);
      if !IsBadPid(pid) {
        CoreSwitches(Abs());
        Resched();
      }
    }

    // ---- suspend.c, resume.c, chprio.c ---------------------------------

    method Suspend(pid: int) returns (r: Result)
      requires Valid() && Inv(Abs()) && Legal(Abs(), DoSuspend(pid))
      modifies this, q, proctab
      ensures Valid() && (Abs(), r) == KernelSpec.Suspend(old(Abs()), pid)
    {
      hide Linked;
      hide Core;
      hide SemsOK;
      hide KernelSpec.Resched;
      if IsBadPid(pid) || (proctab[pid].pstate != PrCurr && proctab[pid].pstate != PrReady) {
        return Returns(SYSERR);
      }
      if proctab[pid].pstate == PrReady {
        OnReadyList(Abs(), pid);
        PutProc(pid, proctab[pid].(pstate := PrSusp));
        var _ := Dequeue(pid, RDY);
        r := Returns(proctab[pid].pprio);
      } else {
        SuspendSelfCore(Abs(), pid);
        PutProc(pid, proctab[pid].(pstate := PrSusp, pending := InSuspend));
        CoreSwitches(Abs());
        Resched();
        r := Blocks;
      }
    }

    method Resume(pid: int) returns (r: Result)
      requires Valid() && Inv(Abs()) && Legal(Abs(), DoResume(pid))
      modifies this, q, proctab
      ensures Valid() && (Abs(), r) == KernelSpec.Resume(old(Abs()), pid)
    {
      hide Linked;
      hide Core;
      hide SemsOK;
      hide KernelSpec.Resched;
      if IsBadPid(pid) || proctab[pid].pstate != PrSusp {
        return Returns(SYSERR);
      }
      var prio := proctab[pid].pprio;
      ResumeSettled(Abs(), pid);
      Ready(pid);
      r := Returns(prio);
    }

    method ChPrio(pid: int, newprio: Int32) returns (r: Result)
      requires Valid() && Inv(Abs()) && Legal(Abs(), DoChPrio(pid, newprio))
      modifies this, q, proctab
      ensures Valid() && (Abs(), r) == KernelSpec.ChPrio(old(Abs()), pid, newprio)
    {
      hide Linked;
      hide Core;
      hide SemsOK;
      hide KernelSpec.Resched;
      hide KernelSpec.Insert;
      if IsBadPid(pid) || newprio <= 0 || proctab[pid].pstate == PrFree {
        return Returns(SYSERR);
      }
      var oldprio := proctab[pid].pprio;
      if proctab[pid].pstate == PrReady {
        OnReadyList(Abs(), pid);
        ChPrioReady(Abs(), pid, newprio);
        PutProc(pid, proctab[pid].(pprio := newprio));
        OffLists(old(Abs()), pid, RDY);
        var p := Dequeue(pid, RDY);
        Insert(p, Head(RDY), newprio, RDY);
        CoreSwitches(Abs());
        Resched();
      } else {
        ChPrioOther(Abs(), pid, newprio);
        PutProc(pid, proctab[pid].(pprio := newprio));
        if proctab[pid].pstate == PrCurr {
          CoreSwitches(Abs());
          Resched();
        }
      }
      r := Returns(oldprio);
    }

    // ---- wait.c, signal.c, signaln.c -----------------------------------

    method Wait(sem: int) returns (r: Result)
      requires Valid() && Inv(Abs()) && Legal(Abs(), DoWait(sem))
      modifies this, q, proctab, semaph
      ensures Valid() && (Abs(), r) == KernelSpec.Wait(old(Abs()), sem)
    {
      hide Linked;
      hide Core;
      hide SemsOK;
      hide KernelSpec.Resched;
      hide ProcsOK;
      if IsBadSem(sem) || !semaph[sem].used {
        return Returns(SYSERR);
      }
      ghost var s0 := Abs();
      PutSem(sem, semaph[sem].(semcnt := Wrap32(semaph[sem].semcnt - 1)));
      if semaph[sem].semcnt < 0 {
        WaitWraps(s0, sem);
        JoinWaitersSettled(s0, sem);
        OnNoList(s0);
        PutProc(currpid, proctab[currpid].(pstate := PrWait, psem := sem, pwaitret := OK, pending := InWait));
        Enqueue(currpid, Tail(SemList(sem)), SemList(sem));
        CoreSwitches(Abs());
        Resched();
        return Blocks;
      }
      r := Returns(OK);
    }

    /** One more in the count; if it was negative, the oldest waiter is readied. */
    method SignalOne(sem: SemId)
      requires Valid() && Core(Abs(), -1)
      modifies this`lists, q, proctab, semaph
      ensures Valid() && Abs() == KernelSpec.SignalOne(old(Abs()), sem)
    {
      hide Linked;
      hide Core;
      ghost var s0 := Abs();
      var cnt: int := semaph[sem].semcnt;
      PutSem(sem, semaph[sem].(semcnt := Wrap32(cnt + 1)));
      if cnt < 0 {
        SameCore(s0, Abs());
        FirstIsOff(Abs(), SemList(sem));
        var pid := GetFirst(Head(SemList(sem)), SemList(sem));
        ReadyNoResch(pid);
      }
    }

    method Signal(sem: int) returns (r: Result)
      requires Valid() && Inv(Abs())
      modifies this, q, proctab, semaph
      ensures Valid() && (Abs(), r) == KernelSpec.Signal(old(Abs()), sem)
    {
      hide Linked;
      hide Core;
      hide SemsOK;
      hide KernelSpec.Resched;
      hide KernelSpec.SignalOne;
      if IsBadSem(sem) || !semaph[sem].used {
        return Returns(SYSERR);
      }
      var cnt := semaph[sem].semcnt;
      if cnt < 0 {
        WaiterThere(Abs(), sem);
      }
      SignalOneLists(Abs(), sem);
      SignalOne(sem);
      if cnt < 0 {
        CoreSwitches(Abs());
        Resched();
      }
      r := Returns(OK);
    }

    method SignalN(sem: int, count: Int32) returns (r: Result)
      requires Valid() && Inv(Abs())
      modifies this, q, proctab, semaph
      ensures Valid() && (Abs(), r) == KernelSpec.SignalN(old(Abs()), sem, count)
    {
      hide Linked;
      hide Core;
      hide SemsOK;
      hide KernelSpec.Resched;
      hide KernelSpec.SignalOne;
      hide Running;
      hide ClockOK;
      if IsBadSem(sem) || !semaph[sem].used || count <= 0 {
        return Returns(SYSERR);
      }
      ghost var s0 := Abs();
      var n: nat := count;
      while n > 0
        invariant Valid() && Core(Abs(), -1) && SignalLoop(s0, sem, count) == SignalLoop(Abs(), sem, n)
      {
        SignalOneLists(Abs(), sem);
        SignalOne(sem);
        n := n - 1;
      }
      CoreSwitches(Abs());
      Resched();
      r := Returns(OK);
    }

    // ---- sreset.c, sdelete.c, screate.c --------------------------------

    /** Ready everyone on a semaphore's queue; with DELETED as their return
        value when it is being deleted. */
    method Drain(sem: SemId, deleted: bool)
      requires Valid() && Core(Abs(), -1)
      modifies this`lists, q, proctab
      ensures Valid() && Abs() == DrainLoop(old(Abs()), SemList(sem), deleted)
    {
      hide Linked;
      hide Core;
      hide DrainOne;
      ghost var s0 := Abs();
      ghost var l := SemList(sem);
      var more := HasFirst(Head(SemList(sem)), l);
      while more
        invariant Valid() && Core(Abs(), -1)
        invariant DrainLoop(s0, l, deleted) == DrainLoop(Abs(), l, deleted)
        invariant more == (lists[l] != [])
        decreases |lists[l]|
      {
        DrainUnfold(Abs(), sem, deleted);
        DrainOneCore(Abs(), sem, deleted);
        DrainStep(sem, deleted);
        more := HasFirst(Head(SemList(sem)), l);
      }
    }

    method HasFirst(head: int, ghost l: ListId) returns (b: bool)
      requires Valid() && head == Head(l)
      ensures b == (lists[l] != [])
    {
      hide Linked;
      LinkAt(q[..], lists, l, -1);
      b := q[head].qnext < NPROC;
    }

    method DrainStep(sem: SemId, deleted: bool)
      requires Valid() && Core(Abs(), -1) && lists[SemList(sem)] != []
      modifies this`lists, q, proctab
      ensures Valid() && Abs() == DrainOne(old(Abs()), SemList(sem), deleted)
    {
      hide Linked;
      hide Core;
      hide KernelSpec.Insert;
      WaiterPid(Abs(), sem);
      FirstIsOff(Abs(), SemList(sem));
      var pid := GetFirst(Head(SemList(sem)), SemList(sem));
      if deleted {
        PutProc(pid, proctab[pid].(pwaitret := DELETED));
      }
      ReadyNoResch(pid);
    }

    method SReset(sem: int, count: Int32) returns (r: Result)
      requires Valid() && Inv(Abs()) && Legal(Abs(), DoSReset(sem, count))
      modifies this, q, proctab, semaph
      ensures Valid() && (Abs(), r) == KernelSpec.SReset(old(Abs()), sem, count)
    {
      hide Linked;
      hide Core;
      hide SemsOK;
      hide KernelSpec.Resched;
      hide DrainLoop;
      if IsBadSem(sem) || count < 0 || !semaph[sem].used {
        return Returns(SYSERR);
      }
      SResetSettled(Abs(), sem, count);
      Drain(sem, false);
      PutSem(sem, semaph[sem].(semcnt := count));
      CoreSwitches(Abs());
      Resched();
      r := Returns(OK);
    }

    method SDelete(sem: int) returns (r: Result)
      requires Valid() && Inv(Abs()) && Legal(Abs(), DoSDelete(sem))
      modifies this, q, proctab, semaph
      ensures Valid() && (Abs(), r) == KernelSpec.SDelete(old(Abs()), sem)
    {
      hide Linked;
      hide Core;
      hide SemsOK;
      hide KernelSpec.Resched;
      hide DrainLoop;
      if IsBadSem(sem) || !semaph[sem].used {
        return Returns(SYSERR);
      }
      SDeleteSettled(Abs(), sem);
      PutSem(sem, semaph[sem].(used := false));
      var waiting := HasFirst(Head(SemList(sem)), SemList(sem));
      if waiting {
        Drain(sem, true);
        CoreSwitches(Abs());
        Resched();
      }
      r := Returns(OK);
    }

    method NewSem() returns (sem: int)
      requires Valid()
      modifies this`nextsem, semaph
      ensures Valid()
      ensures var s := old(Abs()); var (m, next) := KernelSpec.NewSem(s.sem, s.nextsem, NSEM);
        && sem == m
        && Abs() == if IsBadSem(m) then s.(nextsem := next)
                    else s.(nextsem := next, sem := s.sem[m := s.sem[m].(used := true)])
    {
      hide Linked;
      ghost var s := Abs();
      var i := 0;
      while i < NSEM
        invariant 0 <= i <= NSEM && Valid() && Abs() == s.(nextsem := nextsem)
        invariant KernelSpec.NewSem(s.sem, s.nextsem, NSEM) == KernelSpec.NewSem(s.sem, nextsem, NSEM - i)
      {
        sem := nextsem;
        nextsem := if sem == 0 then NSEM - 1 else sem - 1;
        if !semaph[sem].used {
          PutSem(sem, semaph[sem].(used := true));
          return;
        }
        i := i + 1;
      }
      sem := SYSERR;
    }

    method SCreate(count: Int32) returns (r: Result)
      requires Valid()
      modifies this`nextsem, semaph
      ensures Valid() && (Abs(), r) == KernelSpec.SCreate(old(Abs()), count)
    {
      hide Linked;
      hide KernelSpec.NewSem;
      if count < 0 {
        return Returns(SYSERR);
      }
      var sem := NewSem();
      if sem == SYSERR {
        NewSemRange(old(Abs()));
        return Returns(SYSERR);
      }
      NewSemRange(old(Abs()));
      PutSem(sem, semaph[sem].(semcnt := count));
      assert Abs().sem == old(Abs()).sem[sem := SEntry(true, count)];
      r := Returns(sem);
    }

    // ---- unsleep.c, sleep10.c, wakeup.c --------------------------------

    /** The process behind pid on list l, or the tail. */
    method Successor(pid: Pid, ghost l: ListId) returns (next: int)
      requires Valid() && pid in lists[l]
      ensures 0 <= next < NQENT
      ensures HandOn(Abs().key, lists[l], pid) ==
        if next < NPROC then Abs().key[next := Abs().key[next] + Abs().key[pid]] else Abs().key
    {
      hide Linked;
      ghost var list := lists[l];
      ghost var k :| 0 <= k < |list| && list[k] == pid;
      OnOneList(q[..], lists, l);
      LinkAt(q[..], lists, l, k);
      HandOnAt(Abs().key, list, k);
      next := q[pid].qnext;
    }

    method Unsleep(pid: int)
      requires Valid()
      requires !IsBadPid(pid) && proctab[pid].pstate in {PrSleep, PrTRecv} ==> pid in lists[CLK]
      modifies this, q
      ensures Valid() && Abs() == KernelSpec.Unsleep(old(Abs()), pid)
    {
      hide Linked;
      hide HandOn;
      if IsBadPid(pid) || (proctab[pid].pstate != PrSleep && proctab[pid].pstate != PrTRecv) {
        return;
      }
      var remain := q[pid].qkey;
      var next := Successor(pid, CLK);
      if next < NPROC {
        Rekey(next, q[next].qkey + remain);
      }
      var _ := Dequeue(pid, CLK);
      NoteClock();
    }

    /** sltop and slnempty after a removal. */
    method NoteClock()
      requires Valid()
      modifies this`sltop, this`slnempty
      ensures Valid() && Abs() == NoteTop(old(Abs()))
    {
      hide Linked;
      LinkAt(q[..], lists, CLK, -1);
      var next := q[Head(CLK)].qnext;
      if next < NPROC {
        sltop := next;
      } else {
        slnempty := false;
      }
    }

    /** The body common to sleep10, sleep100, sleep1000 and recvtim. */
    method Doze(key: Int32, e: PEntry)
      requires Valid() && Inv(Abs()) && currpid != NULLPROC
      requires e.pstate in {PrSleep, PrTRecv} && e.pprio == proctab[currpid].pprio && MessageOK(e)
      modifies this, q, proctab
      ensures Valid() && Abs() == KernelSpec.Doze(old(Abs()), key, e)
    {
      hide Linked;
      hide Core;
      hide SemsOK;
      hide KernelSpec.Resched;
      hide KernelSpec.InsertD;
      DozingSwitches(Abs(), key, e);
      OnNoList(Abs());
      DelaysNonNeg(Abs());
      InsertD(currpid, Head(CLK), key, CLK);
      slnempty := true;
      LinkAt(q[..], lists, CLK, -1);
      InsertDFirst(old(Abs()), currpid, key);
      sltop := q[Head(CLK)].qnext;
      PutProc(currpid, e);
      Resched();
    }

    method Sleep(n: Int32, unit: nat) returns (r: Result)
      requires Valid() && Inv(Abs()) && Allowed(Abs(), DoSleep(n, unit))
      modifies this, q, proctab
      ensures Valid() && (Abs(), r) == KernelSpec.Sleep(old(Abs()), n, unit)
    {
      hide Linked;
      hide Core;
      hide SemsOK;
      hide KernelSpec.Resched;
      hide KernelSpec.Doze;
      if n < 0 || !clkruns {
        return Returns(SYSERR);
      }
      if n == 0 {
        CoreSwitches(Abs());
        Resched();
      } else {
        Doze(Wrap32(n * unit), proctab[currpid].(pstate := PrSleep));
      }
      r := Returns(OK);
    }

    method FirstKey() returns (key: int)
      requires Valid() && lists[CLK] != []
      ensures key == Abs().key[lists[CLK][0]]
    {
      hide Linked;
      LinkAt(q[..], lists, CLK, -1);
      key := q[q[Head(CLK)].qnext].qkey;
    }

    method WakeStep()
      requires Valid() && Late(Abs()) && lists[CLK] != []
      modifies this`lists, q, proctab
      ensures Valid()
      ensures Abs() == KernelSpec.ReadyNoResch(DropFirst(old(Abs()), CLK), old(Abs()).lists[CLK][0])
    {
      hide Linked;
      hide Core;
      hide KernelSpec.Insert;
      hide Late;
      LateFirstIsOff(Abs());
      var pid := GetFirst(Head(CLK), CLK);
      ReadyNoResch(pid);
    }

    /** wakeup, also when the first delay has run below zero. */
    method Wakeup()
      requires Valid() && Late(Abs()) && SemsOK(Abs()) && clkdiff >= 0
      modifies this, q, proctab
      ensures Valid() && Abs() == KernelSpec.Wakeup(old(Abs()))
    {
      hide Linked;
      hide Core;
      hide SemsOK;
      hide Late;
      hide KernelSpec.Resched;
      ghost var s0 := Abs();
      LateAwake(s0);
      var more := HasFirst(Head(CLK), CLK);
      var key := 0;
      if more {
        key := FirstKey();
      }
      while more && key <= 0
        invariant Valid() && Late(Abs()) && WakeLoop(s0) == WakeLoop(Abs())
        invariant more == (lists[CLK] != []) && (more ==> key == Abs().key[lists[CLK][0]])
        decreases |lists[CLK]|
      {
        LateUnfold(Abs());
        WakeStep();
        more := HasFirst(Head(CLK), CLK);
        if more {
          key := FirstKey();
        }
      }
      assert WakeLoop(s0) == Abs();
      slnempty := more;
      if slnempty {
        LinkAt(q[..], lists, CLK, -1);
        sltop := q[Head(CLK)].qnext;
      }
      CoreSwitches(Abs());
      Resched();
    }

    // ---- ssclock.c, clkint.S -------------------------------------------

    /** strtclk's loop over the delta list. */
    method CatchUp(ticks: nat)
      requires Valid() && forall p: Pid :: p in lists[CLK] ==> Abs().key[p] >= 0
      modifies q
      ensures Valid()
      ensures Abs() == old(Abs()).(key := MakeUp(old(Abs()).key, old(lists)[CLK], ticks))
    {
      hide Linked;
      ghost var s0 := Abs();
      ghost var list := lists[CLK];
      ghost var i := 0;
      OnOneList(q[..], lists, CLK);
      LinkAt(q[..], lists, CLK, -1);
      var makeup := ticks;
      var next := q[Head(CLK)].qnext;
      while next < NPROC && q[next].qkey < makeup
        invariant 0 <= i <= |list| && next == Node(CLK, list, i) && Valid()
        invariant Abs() == s0.(key := Abs().key) && makeup >= 0
        invariant forall p: Pid :: p in list ==> Abs().key[p] >= 0
        invariant MakeUp(s0.key, list, ticks) == MakeUp(Abs().key, list[i..], makeup)
        decreases |list| - i
      {
        LinkAt(q[..], lists, CLK, i);
        assert list[i..][1..] == list[i + 1..];
        assert list[i] in list;
        var after := q[next].qnext;
        makeup := makeup - q[next].qkey;
        Rekey(next, 0);
        next := after;
        i := i + 1;
      }
      if next < NPROC {
        Rekey(next, q[next].qkey - makeup);
      }
    }

    method StopClk()
      requires Valid()
      modifies this`defclk
      ensures Valid() && Abs() == old(Abs()).(defclk := old(defclk) + 1)
    {
      defclk := defclk + 1;
    }

    method StrtClk()
      requires Valid() && Inv(Abs())
      modifies this, q, proctab
      ensures Valid() && Abs() == KernelSpec.StrtClk(old(Abs()))
    {
      hide Linked;
      hide Core;
      hide SemsOK;
      hide KernelSpec.Resched;
      hide KernelSpec.Wakeup;
      hide MakeUp;
      ghost var s0 := Abs();
      if defclk <= 0 {
        return;
      }
      defclk := defclk - 1;
      if defclk > 0 {
        return;
      }
      var makeup := clkdiff;
      preempt := preempt - makeup;
      clkdiff := 0;
      SameCore(s0, Abs());
      SemsFrame(s0, Abs());
      if slnempty {
        DelaysNonNeg(s0);
        CaughtUpCore(s0);
        CatchUp(makeup);
        assert Abs() == CaughtUp(s0);
        LateCore(Abs());
        Wakeup();
        WakeupInv(CaughtUp(s0));
      }
      if preempt <= 0 {
        CoreSwitches(Abs());
        Resched();
      }
    }

    /** The clock interrupt up to the return from wakeup; Finish is the rest. */
    method ClkInt()
      requires Valid() && Inv(Abs()) && Legal(Abs(), DoTick)
      modifies this, q, proctab
      ensures Valid() && Abs() == KernelSpec.Tick(old(Abs()))
    {
      hide Linked;
      hide Core;
      hide SemsOK;
      hide KernelSpec.Resched;
      hide KernelSpec.Wakeup;
      hide ProcsOK;
      ghost var s0 := Abs();
      PutProc(currpid, proctab[currpid].(pending := InClkInt));
      if slnempty {
        Rekey(sltop, q[sltop].qkey - 1);
        if q[sltop].qkey <= 0 {
          TickLate(s0);
          Wakeup();
        }
      }
    }

    // ---- send.c, receive.c, recvtim.c ----------------------------------

    method Send(pid: int, msg: Int32) returns (r: Result)
      requires Valid() && Inv(Abs())
      modifies this, q, proctab
      ensures Valid() && (Abs(), r) == KernelSpec.Send(old(Abs()), pid, msg)
    {
      hide Linked;
      hide Core;
      hide SemsOK;
      hide KernelSpec.Resched;
      hide KernelSpec.Unsleep;
      hide KernelSpec.ReadyNoResch;
      hide KernelSpec.Ready;
      if IsBadPid(pid) || proctab[pid].pstate == PrFree || proctab[pid].phasmsg {
        return Returns(SYSERR);
      }
      DeliveredReady(Abs(), pid, msg);
      PutProc(pid, proctab[pid].(pmsg := msg, phasmsg := true));
      if proctab[pid].pstate == PrRecv {
        Ready(pid);
      } else if proctab[pid].pstate == PrTRecv {
        Unsleep(pid);
        Ready(pid);
      }
      r := Returns(OK);
    }

    /** receive up to the context switch; Finish returns the message. */
    method Receive() returns (r: Result)
      requires Valid() && Inv(Abs()) && Legal(Abs(), DoReceive)
      modifies this, q, proctab
      ensures Valid() && (Abs(), r) == KernelSpec.Receive(old(Abs()))
    {
      hide Linked;
      hide Core;
      hide SemsOK;
      hide KernelSpec.Resched;
      var pptr := proctab[currpid];
      if !pptr.phasmsg {
        ReceivingSettled(Abs());
        PutProc(currpid, pptr.(pending := InReceive, pstate := PrRecv));
        CoreSwitches(Abs());
        Resched();
      } else {
        PutProc(currpid, pptr.(pending := InReceive));
      }
      r := Blocks;
    }

    method RecvTim(maxwait: Int32) returns (r: Result)
      requires Valid() && Inv(Abs()) && Allowed(Abs(), DoRecvTim(maxwait))
      modifies this, q, proctab
      ensures Valid() && (Abs(), r) == KernelSpec.RecvTim(old(Abs()), maxwait)
    {
      hide Linked;
      hide Core;
      hide SemsOK;
      hide KernelSpec.Doze;
      if maxwait < 0 || !clkruns {
        return Returns(SYSERR);
      }
      var pptr := proctab[currpid];
      if !pptr.phasmsg {
        Doze(Wrap32(maxwait * 1000), pptr.(pending := InRecvTim, pstate := PrTRecv));
      } else {
        PutProc(currpid, pptr.(pending := InRecvTim));
      }
      r := Blocks;
    }

    // ---- create.c, kill.c ----------------------------------------------

    method NewPid() returns (pid: int)
      requires Valid()
      modifies this`nextproc
      ensures Valid()
      ensures var s := old(Abs()); var (p, next) := KernelSpec.NewPid(s.proc, s.nextproc, NPROC);
        pid == p && Abs() == s.(nextproc := next)
    {
      hide Linked;
      ghost var s := Abs();
      var i := 0;
      while i < NPROC
        invariant 0 <= i <= NPROC && Valid() && Abs() == s.(nextproc := nextproc)
        invariant KernelSpec.NewPid(s.proc, s.nextproc, NPROC) == KernelSpec.NewPid(s.proc, nextproc, NPROC - i)
      {
        pid := nextproc;
        nextproc := if pid <= 0 then NPROC - 1 else pid - 1;
        if proctab[pid].pstate == PrFree {
          return;
        }
        i := i + 1;
      }
      pid := SYSERR;
    }

    method Create(stack: bool, priority: Int32) returns (r: Result)
      requires Valid()
      modifies this`nextproc, proctab
      ensures Valid() && (Abs(), r) == KernelSpec.Create(old(Abs()), stack, priority)
    {
      hide Linked;
      hide KernelSpec.NewPid;
      if !stack {
        return Returns(SYSERR);
      }
      NewPidFinds(Abs().proc, Abs().nextproc, NPROC);
      var pid := NewPid();
      if pid == SYSERR || priority < 1 {
        return Returns(SYSERR);
      }
      PutProc(pid, proctab[pid].(pstate := PrSusp, pprio := priority, psem := 0, phasmsg := false,
                                 pnxtkin := BADPID, pending := Nothing));
      r := Returns(pid);
    }

    method SetNok(nok: Int32, pid: int) returns (r: Result)
      requires Valid()
      modifies proctab
      ensures Valid() && (Abs(), r) == KernelSpec.SetNok(old(Abs()), nok, pid)
    {
      hide Linked;
      if IsBadPid(pid) {
        return Returns(SYSERR);
      }
      PutProc(pid, proctab[pid].(pnxtkin := nok));
      r := Returns(OK);
    }

    /** kill up to the notice to the next of kin; Finish does the rest. */
    method Kill(pid: int) returns (r: Result)
      requires Valid() && Inv(Abs()) && Legal(Abs(), DoKill(pid))
      modifies this, q, proctab
      ensures Valid() && (Abs(), r) == KernelSpec.Kill(old(Abs()), pid)
    {
      hide Linked;
      hide Core;
      hide SemsOK;
      hide Running;
      hide ClockOK;
      hide KernelSpec.Send;
      if IsBadPid(pid) || proctab[pid].pstate == PrFree {
        return Returns(SYSERR);
      }
      PendingCore(Abs(), InKill(pid));
      var nok := proctab[pid].pnxtkin;
      PutProc(currpid, proctab[currpid].(pending := InKill(pid)));
      var _ := Send(nok, pid);
      r := Blocks;
    }

    /** The rest of kill. */
    method Remove(pid: Pid)
      requires Valid() && Inv(Abs()) && pid != NULLPROC
      modifies this, q, proctab, semaph
      ensures Valid() && Abs() == KernelSpec.Remove(old(Abs()), pid)
    {
      hide Linked;
      hide Core;
      hide SemsOK;
      hide KernelSpec.Resched;
      hide KernelSpec.Unsleep;
      OnLists(Abs(), pid);
      match proctab[pid].pstate {
        case PrCurr =>
          SuicideSettled(Abs(), pid);
          PutProc(pid, proctab[pid].(pstate := PrFree));
          CoreSwitches(Abs());
          Resched();
        case PrWait =>
          var sem := proctab[pid].psem;
          PutSem(sem, semaph[sem].(semcnt := Wrap32(semaph[sem].semcnt + 1)));
          var _ := Dequeue(pid, SemList(sem));
          PutProc(pid, proctab[pid].(pstate := PrFree));
        case PrReady =>
          var _ := Dequeue(pid, RDY);
          PutProc(pid, proctab[pid].(pstate := PrFree));
        case PrSleep =>
          Unsleep(pid);
          PutProc(pid, proctab[pid].(pstate := PrFree));
        case PrTRecv =>
          Unsleep(pid);
          PutProc(pid, proctab[pid].(pstate := PrFree));
        case _ =>
          PutProc(pid, proctab[pid].(pstate := PrFree));
      }
    }

    /** What the running process has left to do from before it was switched out. */
    method Finish() returns (r: Result)
      requires Valid() && Inv(Abs()) && Legal(Abs(), DoFinish)
      modifies this, q, proctab, semaph
      ensures Valid() && (Abs(), r) == KernelSpec.Finish(old(Abs()))
    {
      hide Linked;
      hide Core;
      hide SemsOK;
      hide KernelSpec.Resched;
      hide Running;
      hide ClockOK;
      hide KernelSpec.Remove;
      PendingCore(Abs(), Nothing);
      VictimOK(Abs());
      var e := proctab[currpid];
      match e.pending {
        case Nothing =>
          r := Blocks;
        case InReceive =>
          PutProc(currpid, e.(pending := Nothing, phasmsg := false));
          r := Returns(e.pmsg);
        case InRecvTim =>
          if e.phasmsg {
            PutProc(currpid, e.(pending := Nothing, phasmsg := false));
            r := Returns(e.pmsg);
          } else {
            PutProc(currpid, e.(pending := Nothing));
            r := Returns(TIMEOUT);
          }
        case InWait =>
          PutProc(currpid, e.(pending := Nothing));
          r := Returns(e.pwaitret);
        case InSuspend =>
          PutProc(currpid, e.(pending := Nothing));
          r := Returns(e.pprio);
        case InClkInt =>
          PutProc(currpid, e.(pending := Nothing));
          ghost var s1 := Abs();
          preempt := preempt - 1;
          SameCore(s1, Abs());
          if preempt <= 0 {
            CoreSwitches(Abs());
            Resched();
          }
          r := Blocks;
        case InKill(pid) =>
          PutProc(currpid, e.(pending := Nothing));
          Remove(pid);
          r := Returns(OK);
      }
    }

    // ---- newqueue.c, sysinit -------------------------------------------

    method NewQueue() returns (hindex: int)
      requires q.Length == NQENT && 0 <= nextqueue <= NQENT - 2
      modifies this`nextqueue, q
      ensures hindex == old(nextqueue) && nextqueue == hindex + 2
      ensures q[..] == old(q[..])[hindex := QEnt(MININT, hindex + 1, EMPTY)][hindex + 1 := QEnt(MAXINT, EMPTY, hindex)]
    {
      hindex := nextqueue;
      var tindex := nextqueue + 1;
      nextqueue := nextqueue + 2;
      q[hindex] := q[hindex].(qnext := tindex);
      q[hindex] := q[hindex].(qprev := EMPTY);
      q[hindex] := q[hindex].(qkey := MININT);
      q[tindex] := q[tindex].(qnext := EMPTY);
      q[tindex] := q[tindex].(qprev := hindex);
      q[tindex] := q[tindex].(qkey := MAXINT);
    }

    /** Head and tail of every list, none with a process on it. */
    method InitQueues()
      requires q.Length == NQENT && nextqueue == NPROC
      requires forall i :: 0 <= i < NPROC ==> q[i].qkey == 0
      modifies this`nextqueue, q
      ensures forall l: ListId :: Chain(q[..], l, [])
      ensures forall i :: 0 <= i < NPROC ==> q[i].qkey == 0
    {
      var l := 0;
      while l < NLIST
        invariant 0 <= l <= NLIST && nextqueue == NPROC + 2 * l
        invariant forall m: ListId :: m < l ==> Chain(q[..], m, [])
        invariant forall i :: 0 <= i < NPROC ==> q[i].qkey == 0
      {
        ghost var t := q[..];
        var _ := NewQueue();
        forall m: ListId | m < l + 1 ensures Chain(q[..], m, []) {
          assert m < l ==> Chain(t, m, []);
        }
        l := l + 1;
      }
    }

    constructor ()
      ensures Valid() && Abs() == Boot()
      ensures fresh(q) && fresh(proctab) && fresh(semaph)
    {
      q := new QEnt[NQENT](i => QEnt(0, 0, 0));
      proctab := new PEntry[NPROC](i => if i == NULLPROC then NULL_PROC else FREE_PROC);
      semaph := new SEntry[NSEM](i => FREE_SEM);
      nextqueue := NPROC;
      currpid, nextproc, nextsem := NULLPROC, NPROC - 1, NSEM - 1;
      preempt, slnempty, sltop := QUANTUM, false, 0;
      defclk, clkdiff, clkruns := 0, 0, true;
      lists := Boot().lists;
      new;
      hide Chain;
      InitQueues();
      assert Keys(q[..]) == Boot().key;
      assert proctab[..] == Boot().proc;
      assert semaph[..] == Boot().sem;
    }
  }
}
