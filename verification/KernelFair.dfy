/** The ready list is a stable priority queue: a ready process waits for those
    ahead of it and for nobody who joins later at its own priority. */
module KernelFair {
  import opened Ints
  import opened Lists
  import opened KernelSpec
  import opened KernelInv
  import opened KernelSched
  import opened KernelSems
  import opened KernelClock
  import opened KernelProcs
  import opened KernelRun

  /** What follows p on q: on the ready list, those dispatched before it. */
  function Tail(q: seq<Pid>, p: Pid): seq<Pid> {
    if q == [] then [] else if q[0] == p then q[1..] else Tail(q[1..], p)
  }

  function Ahead(s: Sys, p: Pid): seq<Pid> { Tail(s.lists[RDY], p) }

  lemma {:induction false} TailAt(q: seq<Pid>, i: nat)
    requires i < |q| && NoDup(q)
    ensures Tail(q, q[i]) == q[i + 1..]
  {
    if i > 0 {
      assert q[0] != q[i];
      TailAt(q[1..], i - 1);
    }
  }

  lemma {:induction false} TailIn(q: seq<Pid>, p: Pid, x: Pid)
    requires x in Tail(q, p)
    ensures x in q
  {
    if q[0] != p {
      TailIn(q[1..], p, x);
    }
  }

  lemma TailNoDup(q: seq<Pid>, p: Pid)
    requires NoDup(q) && p in q
    ensures NoDup(Tail(q, p)) && p !in Tail(q, p)
  {
    var i :| 0 <= i < |q| && q[i] == p;
    TailAt(q, i);
  }

  /** Where the elements of q are once x has been put at j. */
  lemma InsertedAt(q: seq<Pid>, i: nat, j: nat, x: Pid)
    requires i < |q| && j <= |q|
    ensures var r := InsertAt(q, j, x);
      && |r| == |q| + 1
      && (j <= i ==> r[i + 1] == q[i] && r[i + 2..] == q[i + 1..])
      && (j > i ==> r[i] == q[i] && r[i + 1..] == q[i + 1..j] + [x] + q[j..])
  {
    var r := InsertAt(q, j, x);
    if j <= i {
      assert r[i + 2..] == q[i + 1..];
    } else {
      var t := q[i + 1..j] + [x] + q[j..];
      assert r == q[..i + 1] + t;
      assert r[i + 1..] == t;
    }
  }

  lemma TailInsertAt(q: seq<Pid>, i: nat, j: nat, x: Pid)
    requires NoDup(q) && x !in q && i < |q| && j <= |q|
    ensures Tail(InsertAt(q, j, x), q[i]) == if j <= i then q[i + 1..] else q[i + 1..j] + [x] + q[j..]
  {
    var r := InsertAt(q, j, x);
    InsertAtNoDup(q, j, x);
    InsertedAt(q, i, j, x);
    hide NoDup, InsertAt;
    TailAt(r, if j <= i then i + 1 else i);
  }

  lemma BetweenMembers(q: seq<Pid>, i: nat, j: nat, x: Pid, t: seq<Pid>)
    requires i < j <= |q| && t == q[i + 1..j] + [x] + q[j..]
    ensures forall y :: y in t ==> y in q[i + 1..] || y == x
  {
    assert q[i + 1..] == q[i + 1..j] + q[j..];
  }

  /** A newcomer goes behind everybody of its own priority or more. */
  lemma TailInsert(key: KeyTab, q: seq<Pid>, x: Pid, k: int, p: Pid)
    requires NoDup(q) && p in q && x !in q
    ensures var r := InsertAt(q, InsPos(key, q, k), x);
      && (k <= key[p] ==> Tail(r, p) == Tail(q, p))
      && (forall y :: y in Tail(r, p) ==> y in Tail(q, p) || (y == x && k > key[p]))
  {
    var i :| 0 <= i < |q| && q[i] == p;
    var j := InsPos(key, q, k);
    hide InsPos, InsertAt, Tail;
    TailAt(q, i);
    TailInsertAt(q, i, j, x);
    hide NoDup;
    assert k <= key[p] ==> j <= i;
    if j > i {
      BetweenMembers(q, i, j, x, q[i + 1..j] + [x] + q[j..]);
    }
  }

  lemma {:induction false} TailWithout(q: seq<Pid>, x: Pid, p: Pid)
    requires x != p
    ensures forall y :: y in Tail(Without(q, x), p) ==> y in Tail(q, p)
  {
    if q != [] {
      if q[0] == x {
        forall y | y in Tail(q[1..], p) ensures y in Tail(q, p) {
        }
      } else if q[0] == p {
        assert Without(q, x)[1..] == Without(q[1..], x);
        WithoutIn(q[1..], x);
      } else {
        assert Without(q, x)[1..] == Without(q[1..], x);
        TailWithout(q[1..], x, p);
      }
    }
  }

  lemma {:induction false} WithoutIn(q: seq<Pid>, x: Pid)
    ensures forall y :: y in Without(q, x) ==> y in q
  {
    if q != [] && q[0] != x {
      WithoutIn(q[1..], x);
    }
  }

  lemma TailDropLast(q: seq<Pid>, p: Pid)
    requires NoDup(q) && p in q && q[|q| - 1] != p
    ensures Tail(q, p) != [] && Tail(q[..|q| - 1], p) == Tail(q, p)[..|Tail(q, p)| - 1]
  {
    var i :| 0 <= i < |q| && q[i] == p;
    TailAt(q, i);
    TailAt(q[..|q| - 1], i);
  }

  /** Fewer distinct elements, shorter sequence. */
  lemma {:induction false} NoDupSubset(a: seq<Pid>, b: seq<Pid>)
    requires NoDup(a) && NoDup(b) && forall x :: x in a ==> x in b
    ensures |a| <= |b|
    decreases |a|
  {
    if a != [] {
      WithoutNoDup(b, a[0]);
      forall x | x in a[1..] ensures x in Without(b, a[0]) {
        assert x != a[0];
      }
      NoDupSubset(a[1..], Without(b, a[0]));
    }
  }

  // ---- what a call does before it calls resched ---------------------------

  /** p still waits at the same priority, and everyone ahead of it was so
      before or has a higher priority. */
  ghost predicate Handed(s: Sys, s1: Sys, p: Pid) {
    && s1.proc[p].pprio == s.proc[p].pprio && s1.proc[p].pstate == s.proc[p].pstate == PrReady
    && forall q: Pid {:trigger q in Ahead(s1, p)} ::
         q in Ahead(s1, p) ==> q in Ahead(s, p) || s1.proc[q].pprio > s.proc[p].pprio
  }

  lemma HandedSame(s: Sys, s1: Sys, p: Pid)
    requires s1.lists[RDY] == s.lists[RDY]
    requires s1.proc[p].pprio == s.proc[p].pprio && s1.proc[p].pstate == s.proc[p].pstate == PrReady
    ensures Handed(s, s1, p)
  {
  }

  lemma HandedThen(s: Sys, s1: Sys, s2: Sys, p: Pid)
    requires Handed(s, s1, p) && Handed(s1, s2, p)
    requires forall q: Pid :: s2.proc[q].pprio == s1.proc[q].pprio
    ensures Handed(s, s2, p)
  {
    hide Tail;
    forall q: Pid | q in Ahead(s2, p) ensures q in Ahead(s, p) || s2.proc[q].pprio > s.proc[p].pprio {
      assert q in Ahead(s1, p) || s2.proc[q].pprio > s1.proc[p].pprio;
    }
  }

  lemma HandedInsert(s: Sys, q: Pid, p: Pid)
    requires Core(s, q) && q != p && s.proc[p].pstate == PrReady
    ensures Handed(s, Insert(s, q, RDY, s.proc[q].pprio), p)
  {
    hide DeltasOK;
    assert p in s.lists[RDY] && q !in s.lists[RDY];
    TailInsert(s.key, s.lists[RDY], q, s.proc[q].pprio, p);
  }

  lemma HandedReady(s: Sys, q: Pid, p: Pid)
    requires Core(s, q) && q != p && q != NULLPROC && s.proc[p].pstate == PrReady
    ensures Handed(s, ReadyNoResch(s, q), p)
    ensures forall x: Pid :: ReadyNoResch(s, q).proc[x].pprio == s.proc[x].pprio
    ensures ReadyNoResch(s, q).currpid == s.currpid
  {
    var s1 := SetState(s, q, PrReady);
    var k := s.proc[q].pprio;
    hide DeltasOK;
    assert p in s.lists[RDY] && q !in s.lists[RDY];
    TailInsert(s.key, s.lists[RDY], q, k, p);
  }

  lemma HandedDequeue(s: Sys, q: Pid, p: Pid)
    requires q != p && s.proc[p].pstate == PrReady
    ensures Handed(s, Dequeue(s, q, RDY), p)
  {
    TailWithout(s.lists[RDY], q, p);
  }

  // ---- resched ---------------------------------------------------------------

  /** Nobody who runs or is ready has a higher priority than p. */
  ghost predicate Quiet(s: Sys, p: Pid) {
    forall q: Pid :: s.proc[q].pstate in {PrReady, PrCurr} ==> s.proc[q].pprio <= s.proc[p].pprio
  }

  lemma ReschedPrio(s: Sys, q: Pid)
    ensures Resched(s).proc[q].pprio == s.proc[q].pprio
  {
    YieldProc(s);
    hide Insert;
    hide Yield;
  }

  /** Before resched nobody ready has a higher priority either. */
  lemma QuietBefore(s: Sys, p: Pid)
    requires Quiet(Resched(s), p)
    ensures Quiet(s, p)
  {
    hide Resched;
    ReschedPrio(s, p);
    forall q: Pid | s.proc[q].pstate in {PrReady, PrCurr} ensures s.proc[q].pprio <= s.proc[p].pprio {
      ReschedRunnable(s, q);
      ReschedPrio(s, q);
      assert Resched(s).proc[q].pstate in {PrReady, PrCurr};
    }
  }

  lemma DispatchAhead(y: Sys, p: Pid)
    requires Distinct(y) && p in y.lists[RDY] && y.proc[p].pstate == PrReady && Dispatch(y).proc[p].pstate == PrReady
    ensures |Ahead(Dispatch(y), p)| == |Ahead(y, p)| - 1
  {
    var q := y.lists[RDY];
    assert q[|q| - 1] != p;
    TailDropLast(q, p);
  }

  lemma YieldKeepsReady(s: Sys, p: Pid)
    requires s.proc[p].pstate == PrReady
    ensures Yield(s).proc[p].pstate == PrReady
  {
    YieldProc(s);
  }

  /** A switch takes the first of those ahead of p. */
  lemma ReschedAhead(s: Sys, p: Pid)
    requires Core(s, -1) && s.proc[p].pstate == PrReady && Resched(s).proc[p].pstate == PrReady
    requires Quiet(s, p)
    ensures KeepsCpu(s) ==> Resched(s) == s
    ensures !KeepsCpu(s) ==> |Ahead(Resched(s), p)| == |Ahead(s, p)| - 1
  {
    hide Placed, ReadyOK, ProcsOK, DeltasOK, Quiet, Tail;
    if !KeepsCpu(s) {
      NullIsThere(s);
      YieldCore(s);
      YieldAhead(s, p);
      YieldKeepsReady(s, p);
      hide Yield, Dispatch;
      DispatchAhead(Yield(s), p);
    }
  }

  lemma YieldAhead(s: Sys, p: Pid)
    requires Core(s, -1) && s.proc[p].pstate == PrReady && Quiet(s, p)
    ensures Ahead(Yield(s), p) == Ahead(s, p) && p in Yield(s).lists[RDY]
  {
    hide DeltasOK;
    var c := s.currpid;
    assert p in s.lists[RDY];
    if s.proc[c].pstate == PrCurr {
      assert c !in s.lists[RDY];
      TailInsert(s.key, s.lists[RDY], c, s.proc[c].pprio, p);
      InsertAtNoDup(s.lists[RDY], InsPos(s.key, s.lists[RDY], s.proc[c].pprio), c);
    }
  }

  /** One call from s to r: p is no further back, and nearer after a switch. */
  ghost predicate Nearer(s: Sys, r: Sys, p: Pid) {
    && |Ahead(r, p)| <= |Ahead(s, p)|
    && (r.currpid != s.currpid ==> |Ahead(r, p)| < |Ahead(s, p)|)
  }

  lemma HandedShorter(s: Sys, s1: Sys, p: Pid)
    requires Core(s, -1) && Core(s1, -1) && Handed(s, s1, p) && Quiet(s1, p)
    ensures |Ahead(s1, p)| <= |Ahead(s, p)|
  {
    hide DeltasOK, Tail;
    assert p in s.lists[RDY] && p in s1.lists[RDY];
    TailNoDup(s.lists[RDY], p);
    TailNoDup(s1.lists[RDY], p);
    forall x | x in Ahead(s1, p) ensures x in Ahead(s, p) {
      TailIn(s1.lists[RDY], p, x);
      assert Home(s1.proc[x]) == RDY;
    }
    NoDupSubset(Ahead(s1, p), Ahead(s, p));
  }

  lemma NearerPlain(s: Sys, r: Sys, p: Pid)
    requires Core(s, -1) && Core(r, -1) && Handed(s, r, p) && Quiet(r, p) && r.currpid == s.currpid
    ensures Nearer(s, r, p)
  {
    HandedShorter(s, r, p);
  }

  lemma NearerResched(s: Sys, s1: Sys, p: Pid)
    requires Core(s, -1) && Core(s1, -1) && Handed(s, s1, p) && s1.currpid == s.currpid
    requires Quiet(Resched(s1), p) && Resched(s1).proc[p].pstate == PrReady
    ensures Nearer(s, Resched(s1), p)
  {
    hide Core, Resched, Tail;
    QuietBefore(s1, p);
    HandedShorter(s, s1, p);
    ReschedAhead(s1, p);
  }

  /** A call that leaves the ready list alone. */
  lemma PlainSame(s: Sys, r: Sys, p: Pid)
    requires Core(s, -1) && Core(r, -1) && r.lists[RDY] == s.lists[RDY] && r.currpid == s.currpid && Quiet(r, p)
    requires r.proc[p].pprio == s.proc[p].pprio && r.proc[p].pstate == s.proc[p].pstate == PrReady
    ensures Nearer(s, r, p)
  {
    HandedSame(s, r, p);
    NearerPlain(s, r, p);
  }

  /** One that leaves it alone up to resched. */
  lemma ReschedSame(s: Sys, s1: Sys, p: Pid)
    requires Core(s, -1) && Core(s1, -1) && s1.lists[RDY] == s.lists[RDY] && s1.currpid == s.currpid
    requires s1.proc[p].pprio == s.proc[p].pprio && s1.proc[p].pstate == s.proc[p].pstate == PrReady
    requires Quiet(Resched(s1), p) && Resched(s1).proc[p].pstate == PrReady
    ensures Nearer(s, Resched(s1), p)
  {
    HandedSame(s, s1, p);
    NearerResched(s, s1, p);
  }

  // ---- call by call ------------------------------------------------------------

  /** p waits on the ready list before and after the call, nobody of higher
      priority does or runs after it. */
  ghost predicate Waiting(s: Sys, r: Sys, p: Pid) {
    s.proc[p].pstate == r.proc[p].pstate == PrReady && Quiet(r, p)
  }

  lemma SuspendFair(s: Sys, q: int, p: Pid)
    requires Inv(s) && Waiting(s, Suspend(s, q).0, p)
    ensures Nearer(s, Suspend(s, q).0, p)
  {
    hide Placed, Distinct, ReadyOK, DeltasOK, Resched, Quiet, Tail;
    if IsBadPid(q) || !(s.proc[q].pstate in {PrReady, PrCurr}) {
      PlainSame(s, s, p);
    } else if s.proc[q].pstate == PrReady {
      var s1 := SetState(s, q, PrSusp);
      SuspendReadyInv(s, q);
      HandedSame(s, s1, p);
      HandedDequeue(s1, q, p);
      HandedThen(s, s1, Dequeue(s1, q, RDY), p);
      NearerPlain(s, Dequeue(s1, q, RDY), p);
    } else {
      SuspendSelfCore(s, q);
      ReschedSame(s, SetProc(s, q, s.proc[q].(pstate := PrSusp, pending := InSuspend)), p);
    }
  }

  lemma ResumeFair(s: Sys, q: int, p: Pid)
    requires Inv(s) && Waiting(s, Resume(s, q).0, p)
    ensures Nearer(s, Resume(s, q).0, p)
  {
    hide Placed, Distinct, ReadyOK, DeltasOK, Resched, Quiet, Tail, ReadyNoResch;
    if IsBadPid(q) || s.proc[q].pstate != PrSusp {
      PlainSame(s, s, p);
    } else {
      Unlisted(s, q);
      ResumeSettled(s, q);
      HandedReady(s, q, p);
      NearerResched(s, ReadyNoResch(s, q), p);
    }
  }

  lemma ChPrioReadyFair(s: Sys, q: Pid, prio: Int32, p: Pid)
    requires Inv(s) && s.proc[q].pstate == PrReady && q != NULLPROC && prio > 0 && q != p
    requires Waiting(s, ChPrio(s, q, prio).0, p)
    ensures Nearer(s, ChPrio(s, q, prio).0, p)
  {
    var e := s.proc[q].(pprio := prio);
    var s1 := SetProc(s, q, e);
    var d := Dequeue(s1, q, RDY);
    var t := Insert(d, q, RDY, prio);
    AtHome(s, q);
    DetachCore(s, q, RDY);
    hide Placed, Distinct, ReadyOK, DeltasOK, Resched, Quiet, Tail;
    HoldCore(Dequeue(s, q, RDY), q, e);
    assert d == SetProc(Dequeue(s, q, RDY), q, e);
    ChPrioReady(s, q, prio);
    HandedSame(s, s1, p);
    HandedDequeue(s1, q, p);
    HandedThen(s, s1, d, p);
    HandedInsert(d, q, p);
    HandedThen(s, d, t, p);
    NearerResched(s, t, p);
  }

  lemma ChPrioFair(s: Sys, q: int, prio: Int32, p: Pid)
    requires Inv(s) && Waiting(s, ChPrio(s, q, prio).0, p) && q != p
    ensures Nearer(s, ChPrio(s, q, prio).0, p)
  {
    hide Placed, Distinct, ReadyOK, DeltasOK, Resched, Quiet, Tail, Insert, Dequeue;
    if IsBadPid(q) || prio <= 0 || s.proc[q].pstate == PrFree {
      PlainSame(s, s, p);
    } else if s.proc[q].pstate == PrReady {
      ChPrioReadyFair(s, q, prio, p);
    } else {
      var s1 := SetProc(s, q, s.proc[q].(pprio := prio));
      ChPrioOther(s, q, prio);
      if s.proc[q].pstate == PrCurr {
        ReschedSame(s, s1, p);
      } else {
        PlainSame(s, s1, p);
      }
    }
  }

  lemma WaitFair(s: Sys, m: int, p: Pid)
    requires Inv(s) && s.currpid != NULLPROC && Waiting(s, Wait(s, m).0, p)
    ensures Nearer(s, Wait(s, m).0, p)
  {
    hide Placed, Distinct, ReadyOK, DeltasOK, Resched, Quiet, Tail, SemsOK;
    if NoSem(s, m) {
      PlainSame(s, s, p);
    } else {
      WaitWraps(s, m);
      var s1 := SetCount(s, m, Wrap32(s.sem[m].semcnt - 1));
      SameCore(s, s1);
      if s.sem[m].semcnt <= 0 {
        JoinWaitersSettled(s, m);
        ReschedSame(s, JoinWaiters(s1, m), p);
      } else {
        PlainSame(s, s1, p);
      }
    }
  }

  // ---- calls that ready several processes ----------------------------------

  /** Readying steps, and nothing else of priority or processor. */
  ghost predicate HandedOver(s: Sys, s1: Sys, p: Pid) {
    Handed(s, s1, p) && s1.currpid == s.currpid && forall q: Pid :: s1.proc[q].pprio == s.proc[q].pprio
  }

  lemma HandedOverThen(s: Sys, s1: Sys, s2: Sys, p: Pid)
    requires HandedOver(s, s1, p) && HandedOver(s1, s2, p)
    ensures HandedOver(s, s2, p)
  {
    HandedThen(s, s1, s2, p);
  }

  lemma HandedOverSame(s: Sys, s1: Sys, p: Pid)
    requires s1.lists[RDY] == s.lists[RDY] && s1.currpid == s.currpid
    requires s1.proc[p].pstate == s.proc[p].pstate == PrReady
    requires forall q: Pid :: s1.proc[q].pprio == s.proc[q].pprio
    ensures HandedOver(s, s1, p)
  {
    HandedSame(s, s1, p);
  }

  /** The first process of another list readied. */
  lemma FirstHanded(s: Sys, l: ListId, p: Pid)
    requires Core(s, -1) && s.lists[l] != [] && l != RDY && s.proc[p].pstate == PrReady
    ensures var q := s.lists[l][0];
      q != NULLPROC && q != p && HandedOver(s, ReadyNoResch(DropFirst(s, l), q), p)
  {
    var q := s.lists[l][0];
    OnHomeList(s, q, l);
    FirstCore(s, l);
    var s1 := DropFirst(s, l);
    hide Placed, Distinct, ReadyOK, DeltasOK, Tail, ReadyNoResch;
    HandedOverSame(s, s1, p);
    HandedReady(s1, q, p);
    HandedOverThen(s, s1, ReadyNoResch(s1, q), p);
  }

  lemma SignalOneHanded(s: Sys, m: SemId, p: Pid)
    requires Settled(s) && s.sem[m].used && s.sem[m].semcnt < MAXINT && s.proc[p].pstate == PrReady
    ensures HandedOver(s, SignalOne(s, m), p)
  {
    hide Placed, Distinct, ReadyOK, DeltasOK, ProcsOK, Tail, ReadyNoResch;
    var s1 := SetCount(s, m, Wrap32(s.sem[m].semcnt + 1));
    SameCore(s, s1);
    HandedOverSame(s, s1, p);
    if s.sem[m].semcnt < 0 {
      assert CountOK(s, m);
      FirstHanded(s1, SemList(m), p);
      HandedOverThen(s, s1, SignalOne(s, m), p);
    }
  }

  lemma {:induction false} SignalLoopHanded(s: Sys, m: SemId, n: nat, p: Pid)
    requires Settled(s) && s.sem[m].used && s.sem[m].semcnt + n <= MAXINT && s.proc[p].pstate == PrReady
    ensures HandedOver(s, SignalLoop(s, m, n), p)
    decreases n
  {
    hide Settled, SignalOne, Tail;
    if n > 0 {
      SignalOneHanded(s, m, p);
      SignalOneSettled(s, m);
      SignalLoopHanded(SignalOne(s, m), m, n - 1, p);
      HandedOverThen(s, SignalOne(s, m), SignalLoop(s, m, n), p);
    } else {
      HandedOverSame(s, s, p);
    }
  }

  lemma SignalFair(s: Sys, m: int, p: Pid)
    requires Inv(s) && (NoSem(s, m) || s.sem[m].semcnt < MAXINT) && Waiting(s, Signal(s, m).0, p)
    ensures Nearer(s, Signal(s, m).0, p)
  {
    hide Placed, Distinct, ReadyOK, DeltasOK, ProcsOK, Quiet, Tail, Resched, SignalOne;
    if NoSem(s, m) {
      PlainSame(s, s, p);
    } else {
      SignalOneSettled(s, m);
      SignalOneHanded(s, m, p);
      if s.sem[m].semcnt < 0 && !IsBadPid(First(s, SemList(m))) {
        NearerResched(s, SignalOne(s, m), p);
      } else {
        NearerPlain(s, SignalOne(s, m), p);
      }
    }
  }

  lemma SignalNFair(s: Sys, m: int, n: Int32, p: Pid)
    requires Inv(s) && Fits(s, DoSignalN(m, n)) && Waiting(s, SignalN(s, m, n).0, p)
    ensures Nearer(s, SignalN(s, m, n).0, p)
  {
    hide Placed, Distinct, ReadyOK, DeltasOK, ProcsOK, Quiet, Tail, Resched, SignalLoop;
    if NoSem(s, m) || n <= 0 {
      PlainSame(s, s, p);
    } else {
      SignalLoopSettled(s, m, n);
      SignalLoopHanded(s, m, n, p);
      NearerResched(s, SignalLoop(s, m, n), p);
    }
  }

  lemma DrainOneHanded(s: Sys, m: SemId, deleted: bool, p: Pid)
    requires Core(s, -1) && s.lists[SemList(m)] != [] && s.proc[p].pstate == PrReady
    ensures HandedOver(s, DrainOne(s, SemList(m), deleted), p)
  {
    var l := SemList(m);
    var q := s.lists[l][0];
    FirstHanded(s, l, p);
    if deleted {
      OnHomeList(s, q, l);
      FirstCore(s, l);
      var s1 := DropFirst(s, l);
      MarkCore(s1, q);
      hide Placed, Distinct, ReadyOK, DeltasOK, ProcsOK, Tail, ReadyNoResch;
      var s2 := SetProc(s1, q, s1.proc[q].(pwaitret := DELETED));
      HandedOverSame(s, s2, p);
      HandedReady(s2, q, p);
      HandedOverThen(s, s2, ReadyNoResch(s2, q), p);
    }
  }

  lemma {:induction false} DrainHanded(s: Sys, m: SemId, deleted: bool, p: Pid)
    requires Core(s, -1) && s.proc[p].pstate == PrReady
    ensures HandedOver(s, DrainLoop(s, SemList(m), deleted), p)
    decreases |s.lists[SemList(m)]|
  {
    hide Core, Tail;
    if s.lists[SemList(m)] != [] {
      var s1 := DrainOne(s, SemList(m), deleted);
      DrainOneCore(s, m, deleted);
      DrainOneHanded(s, m, deleted, p);
      DrainUnfold(s, m, deleted);
      hide DrainOne, DrainLoop;
      DrainHanded(s1, m, deleted, p);
      HandedOverThen(s, s1, DrainLoop(s1, SemList(m), deleted), p);
    } else {
      HandedOverSame(s, s, p);
    }
  }

  lemma SResetFair(s: Sys, m: int, n: Int32, p: Pid)
    requires Inv(s) && Waiting(s, SReset(s, m, n).0, p)
    ensures Nearer(s, SReset(s, m, n).0, p)
  {
    hide Placed, Distinct, ReadyOK, DeltasOK, ProcsOK, Quiet, Tail, Resched, DrainLoop;
    if NoSem(s, m) || n < 0 {
      PlainSame(s, s, p);
    } else {
      SResetSettled(s, m, n);
      DrainHanded(s, m, false, p);
      var d := DrainLoop(s, SemList(m), false);
      HandedOverSame(d, SetCount(d, m, n), p);
      HandedOverThen(s, d, SetCount(d, m, n), p);
      NearerResched(s, SetCount(d, m, n), p);
    }
  }

  lemma SDeleteFair(s: Sys, m: int, p: Pid)
    requires Inv(s) && Waiting(s, SDelete(s, m).0, p)
    ensures Nearer(s, SDelete(s, m).0, p)
  {
    hide Placed, Distinct, ReadyOK, DeltasOK, ProcsOK, Quiet, Tail, Resched, DrainLoop;
    if NoSem(s, m) {
      PlainSame(s, s, p);
    } else {
      var s1 := Freed(s, m);
      SDeleteSettled(s, m);
      if s1.lists[SemList(m)] == [] {
        PlainSame(s, s1, p);
      } else {
        HandedOverSame(s, s1, p);
        DrainHanded(s1, m, true, p);
        HandedOverThen(s, s1, DrainLoop(s1, SemList(m), true), p);
        NearerResched(s, DrainLoop(s1, SemList(m), true), p);
      }
    }
  }

  // ---- messages, sleeping, waking ---------------------------------------------

  lemma SendFair(s: Sys, q: int, msg: Int32, p: Pid)
    requires Inv(s) && Waiting(s, Send(s, q, msg).0, p)
    ensures Nearer(s, Send(s, q, msg).0, p)
  {
    hide Placed, Distinct, ReadyOK, DeltasOK, ProcsOK, Quiet, Tail, Resched, Unsleep, ReadyNoResch;
    SendInv(s, q, msg);
    if IsBadPid(q) || s.proc[q].pstate == PrFree || s.proc[q].phasmsg || !(s.proc[q].pstate in {PrRecv, PrTRecv}) {
      PlainSame(s, Send(s, q, msg).0, p);
    } else {
      var d := Delivered(s, q, msg);
      DeliveredCore(s, q, msg);
      DeliveredReady(s, q, msg);
      if s.proc[q].pstate == PrTRecv {
        UnsleepShape(SetProc(s, q, s.proc[q].(pmsg := msg, phasmsg := true)), q);
      }
      HandedOverSame(s, d, p);
      HandedReady(d, q, p);
      HandedOverThen(s, d, ReadyNoResch(d, q), p);
      NearerResched(s, ReadyNoResch(d, q), p);
    }
  }

  lemma DozeFair(s: Sys, k: int, e: PEntry, p: Pid)
    requires Inv(s) && s.currpid != NULLPROC && 0 <= k <= MAXINT
    requires e.pstate in {PrSleep, PrTRecv} && e.pprio == s.proc[s.currpid].pprio && MessageOK(e)
    requires Waiting(s, Doze(s, k, e), p)
    ensures Nearer(s, Doze(s, k, e), p)
  {
    DozingSettled(s, k, e);
    hide Core, SemsOK, Quiet, Tail, Resched;
    ReschedSame(s, Dozing(s, k, e), p);
  }

  lemma {:induction false} WakeLoopHanded(s: Sys, p: Pid)
    requires Core(s, -1) && s.proc[p].pstate == PrReady
    ensures HandedOver(s, WakeLoop(s), p)
    decreases |s.lists[CLK]|
  {
    var q := s.lists[CLK];
    if q != [] && s.key[q[0]] <= 0 {
      FirstSleeper(s);
      WakeFirst(DropFirst(s, CLK), q[0]);
      FirstHanded(s, CLK, p);
      var s1 := ReadyNoResch(DropFirst(s, CLK), q[0]);
      hide Core, Tail, ReadyNoResch;
      WakeLoopHanded(s1, p);
      HandedOverThen(s, s1, WakeLoop(s1), p);
    } else {
      HandedOverSame(s, s, p);
    }
  }

  /** wakeup after something that left the ready list alone. */
  lemma WakeupFair(s: Sys, s1: Sys, p: Pid)
    requires Core(s, -1) && HandedOver(s, s1, p) && Core(s1, -1) && SemsOK(s1) && s1.clkdiff >= 0
    requires Waiting(s, Wakeup(s1), p)
    ensures Nearer(s, Wakeup(s1), p)
  {
    hide Core, SemsOK, Quiet, Tail, Resched, WakeLoop;
    AwakeSettled(s1);
    WakeLoopHanded(s1, p);
    HandedOverSame(WakeLoop(s1), Awake(s1), p);
    HandedOverThen(s1, WakeLoop(s1), Awake(s1), p);
    HandedOverThen(s, s1, Awake(s1), p);
    NearerResched(s, Awake(s1), p);
  }

  lemma TickFair(s: Sys, p: Pid)
    requires Inv(s) && Waiting(s, Tick(s), p)
    ensures Nearer(s, Tick(s), p)
  {
    hide Placed, Distinct, ReadyOK, DeltasOK, ProcsOK, Quiet, Tail, Resched, Wakeup;
    PendingCore(s, InClkInt);
    if s.lists[CLK] == [] {
      PlainSame(s, Tick(s), p);
    } else {
      TickIs(s);
      TickedCore(s);
      HandedOverSame(s, Ticked(s), p);
      if s.key[s.lists[CLK][0]] <= 1 {
        WakeupFair(s, Ticked(s), p);
      } else {
        PlainSame(s, Ticked(s), p);
      }
    }
  }

  /** strtclk's own resched finds nothing left to do after wakeup's. */
  lemma ReschedOnce(s: Sys)
    requires Core(s, -1)
    ensures Resched(s).preempt <= 0 ==> Resched(Resched(s)) == Resched(s)
  {
    if !KeepsCpu(s) {
      NullIsThere(s);
      YieldCore(s);
      hide Yield;
    }
  }

  lemma StrtClkFair(s: Sys, p: Pid)
    requires Inv(s) && Waiting(s, StrtClk(s), p)
    ensures Nearer(s, StrtClk(s), p)
  {
    hide Placed, Distinct, ReadyOK, DeltasOK, ProcsOK, Quiet, Tail, Resched, WakeLoop;
    var s1 := s.(defclk := 0, preempt := s.preempt - s.clkdiff, clkdiff := 0);
    SameCore(s, s1);
    if s.defclk != 1 {
      SameCore(s, StrtClk(s));
      PlainSame(s, StrtClk(s), p);
    } else if s.slnempty {
      CaughtUpCore(s);
      AwakeSettled(CaughtUp(s));
      ReschedOnce(Awake(CaughtUp(s)));
      HandedOverSame(s, CaughtUp(s), p);
      WakeupFair(s, CaughtUp(s), p);
    } else if s1.preempt <= 0 {
      ReschedSame(s, s1, p);
    } else {
      PlainSame(s, s1, p);
    }
  }

  /** Kill's second half, on a victim other than p. */
  lemma RemoveFair(s: Sys, v: Pid, p: Pid)
    requires Inv(s) && v != NULLPROC && v != p && Waiting(s, Remove(s, v), p)
    ensures Nearer(s, Remove(s, v), p)
  {
    hide Placed, Distinct, ReadyOK, DeltasOK, ProcsOK, Quiet, Tail, Resched, Unsleep;
    RemoveInv(s, v);
    match s.proc[v].pstate {
      case PrCurr =>
        SuicideSettled(s, v);
        ReschedSame(s, SetState(s, v, PrFree), p);
      case PrReady =>
        var d := Dequeue(s, v, RDY);
        HandedDequeue(s, v, p);
        HandedSame(d, Remove(s, v), p);
        HandedThen(s, d, Remove(s, v), p);
        NearerPlain(s, Remove(s, v), p);
      case PrSleep =>
        UnsleepShape(s, v);
        PlainSame(s, Remove(s, v), p);
      case PrTRecv =>
        UnsleepShape(s, v);
        PlainSame(s, Remove(s, v), p);
      case _ => PlainSame(s, Remove(s, v), p);
    }
  }

  lemma RemovedIsFree(s: Sys, v: Pid)
    requires v != NULLPROC && s.proc[v].pstate != PrCurr
    ensures Remove(s, v).proc[v].pstate == PrFree
  {
    if s.proc[v].pstate in {PrSleep, PrTRecv} {
      UnsleepShape(s, v);
    }
  }

  lemma NearerFrom(s: Sys, s1: Sys, r: Sys, p: Pid)
    requires s1.lists[RDY] == s.lists[RDY] && s1.currpid == s.currpid && Nearer(s1, r, p)
    ensures Nearer(s, r, p)
  {
  }

  lemma FinishFair(s: Sys, p: Pid)
    requires Inv(s) && Waiting(s, Finish(s).0, p)
    ensures Nearer(s, Finish(s).0, p)
  {
    hide Placed, Distinct, ReadyOK, DeltasOK, ProcsOK, Quiet, Tail, Resched, Remove;
    var c := s.currpid;
    PendingCore(s, Nothing);
    FinishInv(s);
    var s1 := SetPending(s, c, Nothing);
    match s.proc[c].pending {
      case InClkInt =>
        var s2 := s1.(preempt := s1.preempt - 1);
        SameCore(s1, s2);
        if s2.preempt <= 0 {
          ReschedSame(s, s2, p);
        } else {
          PlainSame(s, s2, p);
        }
      case InKill(v) =>
        VictimOK(s);
        if s1.proc[v].pstate != PrCurr {
          RemovedIsFree(s1, v);
        }
        RemoveFair(s1, v, p);
        NearerFrom(s, s1, Remove(s1, v), p);
      case _ => PlainSame(s, Finish(s).0, p);
    }
  }

  lemma KillFair(s: Sys, q: int, p: Pid)
    requires Inv(s) && Waiting(s, Kill(s, q).0, p)
    ensures Nearer(s, Kill(s, q).0, p)
  {
    hide Placed, Distinct, ReadyOK, DeltasOK, ProcsOK, Quiet, Tail, Resched, Send;
    if IsBadPid(q) || s.proc[q].pstate == PrFree {
      PlainSame(s, s, p);
    } else {
      var s1 := SetPending(s, s.currpid, InKill(q));
      PendingCore(s, InKill(q));
      SendFair(s1, s.proc[q].pnxtkin, q, p);
      NearerFrom(s, s1, Kill(s, q).0, p);
    }
  }

  lemma ReceiveFair(s: Sys, p: Pid)
    requires Inv(s) && s.currpid != NULLPROC && Waiting(s, Receive(s).0, p)
    ensures Nearer(s, Receive(s).0, p)
  {
    hide Placed, Distinct, ReadyOK, DeltasOK, Quiet, Tail, Resched;
    var c := s.currpid;
    ReceiveInv(s);
    if s.proc[c].phasmsg {
      PlainSame(s, Receive(s).0, p);
    } else {
      ReceivingSettled(s);
      ReschedSame(s, SetProc(s, c, s.proc[c].(pending := InReceive, pstate := PrRecv)), p);
    }
  }

  lemma RecvTimFair(s: Sys, n: Int32, p: Pid)
    requires Inv(s) && s.currpid != NULLPROC && (n > 0 ==> n * 1000 <= MAXINT) && Waiting(s, RecvTim(s, n).0, p)
    ensures Nearer(s, RecvTim(s, n).0, p)
  {
    hide Placed, Distinct, ReadyOK, DeltasOK, Quiet, Tail, Doze;
    RecvTimInv(s, n);
    var e := s.proc[s.currpid].(pending := InRecvTim);
    if n >= 0 && s.clkruns && !e.phasmsg {
      DozeFair(s, n * 1000, e.(pstate := PrTRecv), p);
    } else {
      PlainSame(s, RecvTim(s, n).0, p);
    }
  }

  lemma SleepFair(s: Sys, n: Int32, unit: nat, p: Pid)
    requires Inv(s) && (n > 0 ==> s.currpid != NULLPROC && n * unit <= MAXINT) && Waiting(s, Sleep(s, n, unit).0, p)
    ensures Nearer(s, Sleep(s, n, unit).0, p)
  {
    hide Placed, Distinct, ReadyOK, DeltasOK, Quiet, Tail, Doze, Resched;
    if n < 0 || !s.clkruns {
      PlainSame(s, s, p);
    } else if n == 0 {
      ReschedSame(s, s, p);
    } else {
      assert n * unit >= 0;
      DozeFair(s, n * unit, s.proc[s.currpid].(pstate := PrSleep), p);
    }
  }

  lemma CreateFair(s: Sys, stack: bool, prio: Int32, p: Pid)
    requires Inv(s) && Waiting(s, Create(s, stack, prio).0, p)
    ensures Nearer(s, Create(s, stack, prio).0, p)
  {
    CreateInv(s, stack, prio);
    NewPidFinds(s.proc, s.nextproc, NPROC);
    hide Core, Quiet, Tail, NewPid;
    PlainSame(s, Create(s, stack, prio).0, p);
  }

  lemma QuietCall(s: Sys, r: Sys, p: Pid)
    requires Inv(s) && Inv(r) && Waiting(s, r, p) && r.lists == s.lists && r.currpid == s.currpid
    requires r.proc[p].pprio == s.proc[p].pprio
    ensures Nearer(s, r, p)
  {
    PlainSame(s, r, p);
  }

  lemma SCreateFair(s: Sys, n: Int32, p: Pid)
    requires Inv(s) && Waiting(s, SCreate(s, n).0, p)
    ensures Nearer(s, SCreate(s, n).0, p)
  {
    SCreateInv(s, n);
    hide Inv, Waiting, Nearer, NewSem;
    QuietCall(s, SCreate(s, n).0, p);
  }

  lemma SetNokFair(s: Sys, nok: Int32, q: int, p: Pid)
    requires Inv(s) && Waiting(s, SetNok(s, nok, q).0, p)
    ensures Nearer(s, SetNok(s, nok, q).0, p)
  {
    SetNokInv(s, nok, q);
    hide Inv, Waiting, Nearer;
    QuietCall(s, SetNok(s, nok, q).0, p);
  }

  lemma StopClkFair(s: Sys, p: Pid)
    requires Inv(s) && Waiting(s, s.(defclk := s.defclk + 1), p)
    ensures Nearer(s, s.(defclk := s.defclk + 1), p)
  {
    CountersInv(s, s.defclk + 1, 0);
    hide Inv, Waiting, Nearer;
    QuietCall(s, s.(defclk := s.defclk + 1), p);
  }

  lemma DeferFair(s: Sys, n: nat, p: Pid)
    requires Inv(s) && Waiting(s, s.(clkdiff := s.clkdiff + n), p)
    ensures Nearer(s, s.(clkdiff := s.clkdiff + n), p)
  {
    CountersInv(s, 0, n);
    hide Inv, Waiting, Nearer;
    QuietCall(s, s.(clkdiff := s.clkdiff + n), p);
  }

  predicate OnSemaphores(c: Call) {
    c.DoWait? || c.DoSignal? || c.DoSignalN? || c.DoSReset? || c.DoSDelete? || c.DoSCreate?
  }

  predicate OnClock(c: Call) {
    c.DoTick? || c.DoStopClk? || c.DoStrtClk? || c.DoDefer?
  }

  lemma SemaphoreFair(s: Sys, c: Call, p: Pid)
    requires Inv(s) && Legal(s, c) && Waiting(s, Step(s, c).0, p) && OnSemaphores(c)
    ensures Nearer(s, Step(s, c).0, p)
  {
    hide Inv, Waiting, Nearer, Resched, Tick, StrtClk, Finish, Create, Resume, Suspend, Wait, Signal, SignalN, SReset;
    hide SDelete, SCreate, Send, Receive, RecvTim, Sleep, ChPrio, Kill, SetNok;
    match c
    case DoWait(m) => WaitFair(s, m, p);
    case DoSignal(m) => SignalFair(s, m, p);
    case DoSignalN(m, n) => SignalNFair(s, m, n, p);
    case DoSReset(m, n) => SResetFair(s, m, n, p);
    case DoSDelete(m) => SDeleteFair(s, m, p);
    case DoSCreate(n) => SCreateFair(s, n, p);
  }

  lemma ClockFair(s: Sys, c: Call, p: Pid)
    requires Inv(s) && Legal(s, c) && Waiting(s, Step(s, c).0, p) && OnClock(c)
    ensures Nearer(s, Step(s, c).0, p)
  {
    hide Inv, Waiting, Nearer, Resched, Tick, StrtClk, Finish, Create, Resume, Suspend, Wait, Signal, SignalN, SReset;
    hide SDelete, SCreate, Send, Receive, RecvTim, Sleep, ChPrio, Kill, SetNok;
    match c
    case DoTick => TickFair(s, p);
    case DoStopClk => StopClkFair(s, p);
    case DoStrtClk => StrtClkFair(s, p);
    case DoDefer(n) => DeferFair(s, n, p);
  }

  /** Every call but a chprio of p itself. */
  lemma StepFair(s: Sys, c: Call, p: Pid)
    requires Inv(s) && Legal(s, c) && Waiting(s, Step(s, c).0, p) && !(c.DoChPrio? && c.pid == p)
    ensures Nearer(s, Step(s, c).0, p)
  {
    if OnSemaphores(c) {
      SemaphoreFair(s, c, p);
    } else if OnClock(c) {
      ClockFair(s, c, p);
    } else if c.DoSleep? || c.DoRecvTim? {
      DelayFair(s, c, p);
    } else {
      OtherFair(s, c, p);
    }
  }

  lemma DelayFair(s: Sys, c: Call, p: Pid)
    requires Inv(s) && Legal(s, c) && Waiting(s, Step(s, c).0, p) && (c.DoSleep? || c.DoRecvTim?)
    ensures Nearer(s, Step(s, c).0, p)
  {
    hide Inv, Waiting, Nearer, RecvTim, Sleep;
    match c
    case DoRecvTim(n) => RecvTimFair(s, n, p);
    case DoSleep(n, unit) => SleepFair(s, n, unit, p);
  }

  lemma OtherFair(s: Sys, c: Call, p: Pid)
    requires Inv(s) && Legal(s, c) && Waiting(s, Step(s, c).0, p) && !(c.DoChPrio? && c.pid == p)
    requires !OnSemaphores(c) && !OnClock(c) && !c.DoSleep? && !c.DoRecvTim?
    ensures Nearer(s, Step(s, c).0, p)
  {
    hide Inv, Waiting, Nearer, Resched, Tick, StrtClk, Finish, Create, Resume, Suspend, Wait, Signal, SignalN, SReset;
    hide SDelete, SCreate, Send, Receive, RecvTim, Sleep, ChPrio, Kill, SetNok;
    match c
    case DoCreate(stack, prio) => CreateFair(s, stack, prio, p);
    case DoResume(q) => ResumeFair(s, q, p);
    case DoSuspend(q) => SuspendFair(s, q, p);
    case DoSend(q, msg) => SendFair(s, q, msg, p);
    case DoReceive => ReceiveFair(s, p);
    case DoChPrio(q, prio) => ChPrioFair(s, q, prio, p);
    case DoKill(q) => KillFair(s, q, p);
    case DoSetNok(nok, q) => SetNokFair(s, nok, q, p);
    case DoResched => ReschedCall(s, p);
    case DoFinish => FinishFair(s, p);
  }

  lemma ReschedCall(s: Sys, p: Pid)
    requires Inv(s) && Waiting(s, Resched(s), p)
    ensures Nearer(s, Resched(s), p)
  {
    ReschedSame(s, s, p);
  }

  // ---- bounded waiting ------------------------------------------------------

  /** p waits on the ready list all through the run, its priority unchanged
      and nobody of higher priority ready or running. */
  ghost predicate WaitsThrough(s: Sys, run: seq<Call>, p: Pid)
    decreases |run|
  {
    s.proc[p].pstate == PrReady && (run == [] ||
      (Waiting(s, Step(s, run[0]).0, p) && !(run[0].DoChPrio? && run[0].pid == p)
       && WaitsThrough(Step(s, run[0]).0, run[1..], p)))
  }

  /** Calls of the run that end with another process running. */
  function Switches(s: Sys, run: seq<Call>): nat
    decreases |run|
  {
    if run == [] then 0
    else (if Step(s, run[0]).0.currpid != s.currpid then 1 else 0) + Switches(Step(s, run[0]).0, run[1..])
  }

  /** However long the run, a process still waiting has seen no more switches
      than there were processes ahead of it. */
  lemma {:induction false} BoundedWaiting(s: Sys, run: seq<Call>, p: Pid)
    requires Inv(s) && LegalRun(s, run) && WaitsThrough(s, run, p)
    ensures Switches(s, run) <= |Ahead(s, p)| - |Ahead(Exec(s, run), p)|
    decreases |run|
  {
    hide Inv, Legal, Step, Ahead, Waiting;
    if run != [] {
      StepInv(s, run[0]);
      StepFair(s, run[0], p);
      BoundedWaiting(Step(s, run[0]).0, run[1..], p);
    }
  }

  /** From boot: with k processes ahead of it, p runs before or at the switch
      after the k-th. */
  lemma RunsAfter(before: seq<Call>, run: seq<Call>, p: Pid)
    requires LegalRun(Boot(), before) && LegalRun(Exec(Boot(), before), run)
    requires Switches(Exec(Boot(), before), run) > |Ahead(Exec(Boot(), before), p)|
    ensures !WaitsThrough(Exec(Boot(), before), run, p)
  {
    BootInv();
    RunInv(Boot(), before);
    hide Inv, Switches, LegalRun, Ahead, Exec, Boot;
    var s := Exec(Boot(), before);
    if WaitsThrough(s, run, p) {
      BoundedWaiting(s, run, p);
    }
  }
}
