/** The sleep calls and the clock interrupt, on the kernel's tables. */
module KernelClock {
  import opened Ints
  import opened Lists
  import opened KernelSpec
  import opened KernelInv
  import opened KernelSched
  import opened SleepQueue

  /** When process p, asleep on the clock queue, is due. */
  ghost function Deadline(s: Sys, p: Pid): int
    requires p in s.lists[CLK]
  {
    Due(s.key, s.lists[CLK], p)
  }

  // ---- going to sleep --------------------------------------------------

  lemma InsertDPlaced(s: Sys, p: Pid, k: int, e: PEntry)
    requires Placed(s, p) && Distinct(s) && Home(e) == CLK
    ensures var r := SetProc(InsertD(s, p, CLK, k), p, e);
      Placed(r, -1) && Distinct(r)
  {
    assert p !in s.lists[CLK];
    InsertAtNoDup(s.lists[CLK], DPos(s.key, s.lists[CLK], k).0, p);
  }

  /** insertd changes the keys of sleepers only. */
  lemma {:induction false} DNewKeysFrame(key: KeyTab, q: seq<Pid>, p: Pid, k: int, x: Pid)
    requires x != p && x !in q
    ensures DNewKeys(key, q, p, k)[x] == key[x]
  {
  }

  lemma InsertDReady(s: Sys, p: Pid, k: int, e: PEntry)
    requires Core(s, p)
    ensures ReadyOK(SetProc(InsertD(s, p, CLK, k), p, e))
  {
    var r := SetProc(InsertD(s, p, CLK, k), p, e);
    forall x: Pid | x in s.lists[RDY] ensures r.key[x] == s.key[x] && x != p {
      assert x !in s.lists[CLK];
      DNewKeysFrame(s.key, s.lists[CLK], p, k, x);
    }
  }

  lemma InsertDCore(s: Sys, p: Pid, k: int, e: PEntry)
    requires Core(s, p) && 0 <= k <= MAXINT
    requires EntryOK(s, p, e) && MessageOK(e) && Home(e) == CLK
    ensures Core(SetProc(InsertD(s, p, CLK, k), p, e), -1)
  {
    hide NoDup;
    hide Sorted;
    InsertDPlaced(s, p, k, e);
    InsertDReady(s, p, k, e);
    assert p !in s.lists[CLK];
    InsertDDeltas(s.key, s.lists[CLK], p, k);
  }

  /** Going to sleep for a time that fits in an int. */
  lemma DozingSettled(s: Sys, k: int, e: PEntry)
    requires Inv(s) && s.currpid != NULLPROC && 0 <= k <= MAXINT
    requires e.pstate in {PrSleep, PrTRecv} && e.pprio == s.proc[s.currpid].pprio && MessageOK(e)
    ensures Settled(Dozing(s, k, e))
  {
    hide NoDup;
    hide Sorted;
    var c := s.currpid;
    Unlisted(s, c);
    InsertDCore(s, c, k, e);
    SameCore(SetProc(InsertD(s, c, CLK, k), c, e), Dozing(s, k, e));
    SemsFrame(s, Dozing(s, k, e));
  }

  /** However long the delay, somebody else can run. */
  lemma DozingSwitches(s: Sys, k: int, e: PEntry)
    requires Inv(s) && s.currpid != NULLPROC && e.pstate != PrCurr
    ensures CanSwitch(Dozing(s, k, e))
  {
    assert s.proc[NULLPROC].pstate == PrReady;
    AtHome(s, NULLPROC);
  }

  lemma DozeInv(s: Sys, k: int, e: PEntry)
    requires Inv(s) && s.currpid != NULLPROC && 0 <= k <= MAXINT
    requires e.pstate in {PrSleep, PrTRecv} && e.pprio == s.proc[s.currpid].pprio && MessageOK(e)
    ensures Inv(Doze(s, k, e))
  {
    DozingSettled(s, k, e);
    ReschedInv(Dozing(s, k, e));
  }

  lemma SleepInv(s: Sys, n: Int32, unit: nat)
    requires Inv(s) && (n > 0 ==> s.currpid != NULLPROC && n * unit <= MAXINT)
    ensures Inv(Sleep(s, n, unit).0)
  {
    hide Placed;
    hide Distinct;
    hide ReadyOK;
    hide DeltasOK;
    hide Resched;
    hide Doze;
    if n > 0 && s.clkruns {
      assert n * unit >= 0;
      DozeInv(s, n * unit, s.proc[s.currpid].(pstate := PrSleep));
    } else if n == 0 && s.clkruns {
      ReschedInv(s);
    }
  }

  /** The caller's deadline is the requested time as a register holds it, and
      no other deadline moves. */
  lemma DozeDeadlines(s: Sys, n: Int32, unit: int, e: PEntry)
    requires Inv(s) && Home(e) == CLK
    ensures var c := s.currpid; var d := Dozing(s, Wrap32(n * unit), e);
      && Doze(s, Wrap32(n * unit), e) == Resched(d)
      && c in d.lists[CLK]
      && (Deadline(d, c) == n * unit <==> MININT <= n * unit <= MAXINT)
      && (forall x: Pid :: x in s.lists[CLK] ==>
            x in d.lists[CLK] && Deadline(d, x) == Deadline(s, x))
  {
    hide ReadyOK;
    hide DeltasOK;
    var c := s.currpid;
    var q := s.lists[CLK];
    var k := Wrap32(n * unit);
    assert c !in q;
    InsertDOwn(s.key, q, c, k);
    forall x: Pid | x in q
      ensures x in DQueue(s.key, q, c, k)
      ensures Due(DNewKeys(s.key, q, c, k), DQueue(s.key, q, c, k), x) == Due(s.key, q, x)
    {
      InsertDOthers(s.key, q, c, k, x);
    }
  }

  lemma DozeKeyDeltas(s: Sys, k: Int32, e: PEntry)
    requires Inv(s)
    ensures DeltasOK(Dozing(s, k, e).key, Dozing(s, k, e).lists[CLK]) <==> k >= 0
  {
    hide ReadyOK;
    var c := s.currpid;
    var q := s.lists[CLK];
    assert c !in q;
    if k >= 0 {
      InsertDDeltas(s.key, q, c, k);
    } else {
      assert q != [] ==> q[0] in q;
      assert c in DQueue(s.key, q, c, k) && DNewKeys(s.key, q, c, k)[c] < 0;
    }
  }

  /** The delays on the queue stay non-negative exactly when that register is
      not negative. */
  lemma DozeDeltas(s: Sys, n: Int32, unit: int, e: PEntry)
    requires Inv(s)
    ensures var d := Dozing(s, Wrap32(n * unit), e);
      DeltasOK(d.key, d.lists[CLK]) <==> Wrap32(n * unit) >= 0
  {
    hide Inv, Dozing, DeltasOK;
    DozeKeyDeltas(s, Wrap32(n * unit), e);
  }

  /** The shortest sleep10 that fails is some 25 days long. */
  lemma SleepOverflows()
    ensures Wrap32(21474837 * 100) < 0 <= Wrap32(21474836 * 100)
  {
  }

  // ---- leaving early ---------------------------------------------------

  /** Only the process right behind gets the remaining delay. */
  lemma {:induction false} HandOnAt(key: KeyTab, q: seq<Pid>, k: nat)
    requires NoDup(q) && k < |q|
    ensures HandOn(key, q, q[k]) ==
      if k + 1 < |q| then key[q[k + 1] := key[q[k + 1]] + key[q[k]]] else key
  {
    if k > 0 {
      HandOnAt(key, q[1..], k - 1);
    }
  }

  lemma OnClockQueue(s: Sys, p: Pid)
    requires Core(s, -1)
    ensures s.proc[p].pstate in {PrSleep, PrTRecv} ==> p in s.lists[CLK]
  {
  }

  lemma DelaysNonNeg(s: Sys)
    requires Core(s, -1)
    ensures forall p: Pid :: p in s.lists[CLK] ==> s.key[p] >= 0
  {
  }

  lemma InsertDFirst(s: Sys, p: Pid, k: int)
    ensures InsertD(s, p, CLK, k).lists[CLK] != []
  {
  }

  lemma HandOnFrameAll(key: KeyTab, q: seq<Pid>, p: Pid, x: Pid)
    requires x !in q
    ensures HandOn(key, q, p)[x] == key[x]
  {
    if q != [] {
      HandOnFrame(key, q, p, x);
    }
  }

  lemma HandOnReady(s: Sys, p: Pid)
    requires Core(s, -1)
    ensures ReadyOK(s.(key := HandOn(s.key, s.lists[CLK], p)))
  {
    forall x: Pid | x in s.lists[RDY] ensures HandOn(s.key, s.lists[CLK], p)[x] == s.key[x] {
      assert x !in s.lists[CLK];
      HandOnFrameAll(s.key, s.lists[CLK], p, x);
    }
  }

  lemma UnsleepShape(s: Sys, p: Pid)
    requires s.proc[p].pstate in {PrSleep, PrTRecv} && p != NULLPROC
    ensures var r := Unsleep(s, p);
      && r.lists == s.lists[CLK := Without(s.lists[CLK], p)]
      && r.key == HandOn(s.key, s.lists[CLK], p)
      && r == s.(lists := r.lists, key := r.key, slnempty := r.slnempty, sltop := r.sltop)
      && (ClockOK(s) && s.lists[CLK] != [] ==> ClockOK(r))
  {
  }

  lemma UnsleepCore(s: Sys, p: Pid)
    requires Core(s, -1) && Home(s.proc[p]) == CLK && p != NULLPROC
    ensures Core(Unsleep(s, p), p)
    ensures ClockOK(s) ==> ClockOK(Unsleep(s, p))
  {
    hide NoDup;
    hide Sorted;
    hide Unsleep;
    AtHome(s, p);
    HandOnReady(s, p);
    DetachPlaced(s, p, CLK);
    UnsleepDeltas(s.key, s.lists[CLK], p);
    UnsleepShape(s, p);
  }

  /** Leaving early moves nobody else's deadline. */
  lemma UnsleepDeadlines(s: Sys, p: Pid, x: Pid)
    requires Core(s, -1) && s.proc[p].pstate in {PrSleep, PrTRecv} && p != NULLPROC
    requires x in s.lists[CLK] && x != p
    ensures x in Unsleep(s, p).lists[CLK] && p !in Unsleep(s, p).lists[CLK]
    ensures Deadline(Unsleep(s, p), x) == Deadline(s, x)
  {
    hide ReadyOK;
    AtHome(s, p);
    UnsleepShape(s, p);
    WithoutNoDup(s.lists[CLK], p);
    UnsleepOthers(s.key, s.lists[CLK], p, x);
  }

  // ---- wakeup ----------------------------------------------------------

  /** Make processes ready one after the other. */
  function ReadyAll(s: Sys, ps: seq<Pid>): Sys
    decreases |ps|
  {
    if ps == [] then s else ReadyAll(ReadyNoResch(s, ps[0]), ps[1..])
  }

  /** Readying the first sleeper. */
  lemma WakeFirst(s: Sys, p: Pid)
    requires Core(s, p) && s.proc[p].pstate in {PrSleep, PrTRecv} && p != NULLPROC
    requires MessageOK(s.proc[p].(pstate := PrReady))
    ensures var r := ReadyNoResch(s, p);
      && Core(r, -1) && OnlyReadied(s, r)
      && r.proc == s.proc[p := s.proc[p].(pstate := PrReady)] && r.key == s.key[p := r.key[p]]
  {
    ReadyNoReschCore(s, p);
  }

  lemma FirstSleeper(s: Sys)
    requires Core(s, -1) && s.lists[CLK] != []
    ensures var p := s.lists[CLK][0];
      && p != NULLPROC && s.proc[p].pstate in {PrSleep, PrTRecv}
      && MessageOK(s.proc[p].(pstate := PrReady))
      && Core(DropFirst(s, CLK), p) && p !in s.lists[CLK][1..]
  {
    OnHomeList(s, s.lists[CLK][0], CLK);
    FirstCore(s, CLK);
  }

  /** What wakeup's loop does: the expired front of the queue is readied. */
  ghost predicate Woken(s: Sys, r: Sys, n: nat)
    requires n <= |s.lists[CLK]|
  {
    var q := s.lists[CLK];
    && OnlyReadied(SetList(s, CLK, q[n..]), r)
    && (forall x: Pid :: x !in q[..n] ==> r.key[x] == s.key[x] && r.proc[x] == s.proc[x])
    && (forall x: Pid :: x in q[..n] ==> r.proc[x] == s.proc[x].(pstate := PrReady))
  }

  lemma WokenNone(s: Sys)
    ensures Woken(s, s, 0)
  {
    assert s.lists[CLK][..0] == [] && s.lists[CLK][0..] == s.lists[CLK];
  }

  lemma {:induction false} WakeLoopCore(s: Sys)
    requires Core(s, -1)
    ensures Core(WakeLoop(s), -1)
    ensures Woken(s, WakeLoop(s), Expired(s.key, s.lists[CLK]))
    decreases |s.lists[CLK]|
  {
    hide Core;
    hide Woken;
    hide Insert;
    var q := s.lists[CLK];
    if q != [] && s.key[q[0]] <= 0 {
      var p := q[0];
      FirstSleeper(s);
      WakeFirst(DropFirst(s, CLK), p);
      var s1 := ReadyNoResch(DropFirst(s, CLK), p);
      ExpiredFrame(s.key, s1.key, q[1..]);
      WakeLoopCore(s1);
      WokenCons(s, s1, WakeLoop(s1), Expired(s1.key, q[1..]));
    } else {
      WokenNone(s);
    }
  }

  lemma {:induction false} ExpiredFrame(key: KeyTab, key': KeyTab, q: seq<Pid>)
    requires forall x: Pid :: x in q ==> key'[x] == key[x]
    ensures Expired(key', q) == Expired(key, q)
  {
    if q != [] {
      ExpiredFrame(key, key', q[1..]);
    }
  }

  lemma WokenCons(s: Sys, s1: Sys, r: Sys, m: nat)
    requires s.lists[CLK] != [] && m < |s.lists[CLK]|
    requires var p := s.lists[CLK][0];
      && OnlyReadied(DropFirst(s, CLK), s1)
      && s1.proc == s.proc[p := s.proc[p].(pstate := PrReady)] && s1.key == s.key[p := s1.key[p]]
      && p !in s.lists[CLK][1..]
    requires s1.lists[CLK] == s.lists[CLK][1..]
    requires Woken(s1, r, m)
    ensures Woken(s, r, m + 1)
  {
    var q := s.lists[CLK];
    assert q[..m + 1] == [q[0]] + q[1..][..m];
    assert q[m + 1..] == q[1..][m..];
    assert forall x :: x in q[1..][..m] ==> x in q[1..];
  }

  /** Deadlines of those wakeup leaves asleep, and who they are. */
  lemma WakeLoopDeadlines(s: Sys, x: Pid)
    requires Core(s, -1) && x in s.lists[CLK]
    ensures var r := WakeLoop(s);
      if Deadline(s, x) == 0 then x !in r.lists[CLK] && r.proc[x] == s.proc[x].(pstate := PrReady)
      else x in r.lists[CLK] && Deadline(r, x) == Deadline(s, x) && r.proc[x] == s.proc[x]
  {
    var q := s.lists[CLK];
    var n := Expired(s.key, q);
    WakeLoopCore(s);
    ExpiredDue(s.key, q, x);
    ExpiredTotal(s.key, q);
    SplitDistinct(q, n, x);
    if x in q[n..] {
      DueDrop(s.key, q, n, x);
      var r := WakeLoop(s);
      forall y: Pid | y in q[n..] ensures r.key[y] == s.key[y] {
        SplitDistinct(q, n, y);
      }
      DueFrame(s.key, r.key, q[n..], x);
    }
  }

  lemma SplitDistinct(q: seq<Pid>, n: nat, x: Pid)
    requires NoDup(q) && n <= |q| && x in q
    ensures x in q[n..] <==> x !in q[..n]
  {
    assert q == q[..n] + q[n..];
  }

  /** The expired sleepers are readied one by one, in the order of the queue. */
  lemma {:induction false} WakeLoopOrder(s: Sys)
    requires Core(s, -1)
    ensures var q := s.lists[CLK]; var n := Expired(s.key, q);
      WakeLoop(s) == ReadyAll(SetList(s, CLK, q[n..]), q[..n])
    decreases |s.lists[CLK]|
  {
    hide Core, Insert, ReadyNoResch, WakeLoop, ReadyAll;
    var q := s.lists[CLK];
    if q != [] && s.key[q[0]] <= 0 {
      var s1 := ReadyNoResch(DropFirst(s, CLK), q[0]);
      FirstSleeper(s);
      WakeFirst(DropFirst(s, CLK), q[0]);
      ExpiredFrame(s.key, s1.key, q[1..]);
      WakeLoopOrder(s1);
      WakeUnfold(s);
      ReadyUnfold(s, q, Expired(s1.key, q[1..]));
    } else {
      WakeNothing(s);
    }
  }

  lemma WakeUnfold(s: Sys)
    requires s.lists[CLK] != [] && s.key[s.lists[CLK][0]] <= 0
    requires |ReadyNoResch(DropFirst(s, CLK), s.lists[CLK][0]).lists[CLK]| < |s.lists[CLK]|
    ensures WakeLoop(s) == WakeLoop(ReadyNoResch(DropFirst(s, CLK), s.lists[CLK][0]))
  {
    hide Insert;
  }

  lemma WakeNothing(s: Sys)
    requires s.lists[CLK] == [] || s.key[s.lists[CLK][0]] > 0
    ensures Expired(s.key, s.lists[CLK]) == 0
    ensures WakeLoop(s) == ReadyAll(SetList(s, CLK, s.lists[CLK][0..]), s.lists[CLK][..0])
  {
    var q := s.lists[CLK];
    assert q[0..] == q && s.lists[CLK := q] == s.lists && q[..0] == [];
  }

  /** Readying the first m + 1 of q: the first, then m of the rest. */
  lemma ReadyUnfold(s: Sys, q: seq<Pid>, m: nat)
    requires q == s.lists[CLK] && m < |q|
    ensures var s1 := ReadyNoResch(DropFirst(s, CLK), q[0]);
      ReadyAll(SetList(s, CLK, q[m + 1..]), q[..m + 1]) == ReadyAll(SetList(s1, CLK, q[1..][m..]), q[1..][..m])
  {
    hide Insert;
    assert q[..m + 1][1..] == q[1..][..m] && q[m + 1..] == q[1..][m..];
    ReadyCommutes(s, q[0], q[1..], q[m + 1..]);
    hide ReadyNoResch;
    assert DropFirst(s, CLK) == SetList(s, CLK, q[1..]);
  }

  /** Readying a process and cutting the clock queue touch different lists. */
  lemma ReadyCommutes(s: Sys, p: Pid, q1: seq<Pid>, q2: seq<Pid>)
    ensures SetList(ReadyNoResch(SetList(s, CLK, q1), p), CLK, q2) == ReadyNoResch(SetList(s, CLK, q2), p)
  {
    var a := SetList(ReadyNoResch(SetList(s, CLK, q1), p), CLK, q2);
    var b := ReadyNoResch(SetList(s, CLK, q2), p);
    assert a.lists == b.lists;
  }

  /** wakeup, whatever slnempty and sltop were. */
  lemma AwakeSettled(s: Sys)
    requires Core(s, -1) && SemsOK(s) && s.clkdiff >= 0
    ensures Settled(Awake(s))
  {
    hide Placed;
    hide Distinct;
    hide ReadyOK;
    hide DeltasOK;
    WakeLoopCore(s);
    SameCore(WakeLoop(s), Awake(s));
    SemsFrame(s, Awake(s));
  }

  lemma WakeupInv(s: Sys)
    requires Core(s, -1) && SemsOK(s) && s.clkdiff >= 0
    ensures Inv(Wakeup(s))
  {
    AwakeSettled(s);
    ReschedInv(Awake(s));
  }

  /** resched does nothing to a process on the clock queue. */
  lemma ReschedSleepers(s: Sys, x: Pid)
    requires Core(s, -1) && x in s.lists[CLK]
    ensures Resched(s).key[x] == s.key[x] && Resched(s).proc[x] == s.proc[x]
  {
    hide NoDup;
    hide Sorted;
    hide DeltasOK;
    hide Insert;
    OnHomeList(s, x, CLK);
    if !KeepsCpu(s) {
      NullIsThere(s);
      YieldCore(s);
      YieldOthers(s, x);
      var q := Yield(s).lists[RDY];
      OnHomeList(Yield(s), q[|q| - 1], RDY);
    }
  }

  lemma YieldOthers(s: Sys, x: Pid)
    requires s.proc[s.currpid].pstate == PrCurr ==> x != s.currpid
    ensures Yield(s).key[x] == s.key[x] && Yield(s).proc[x] == s.proc[x]
  {
  }

  /** A process that was ready or running is so afterwards. */
  lemma ReschedRunnable(s: Sys, x: Pid)
    requires s.proc[x].pstate in {PrReady, PrCurr}
    ensures Resched(s).proc[x].pstate in {PrReady, PrCurr}
  {
    hide Insert;
    assert Yield(s).proc[x].pstate in {PrReady, PrCurr} by {
      YieldProc(s);
    }
  }

  lemma YieldProc(s: Sys)
    ensures var c := s.currpid;
      Yield(s).proc == if s.proc[c].pstate == PrCurr then s.proc[c := s.proc[c].(pstate := PrReady)] else s.proc
  {
  }

  lemma ReschedDeadline(s: Sys, x: Pid)
    requires Core(s, -1) && x in s.lists[CLK]
    ensures x in Resched(s).lists[CLK] && Deadline(Resched(s), x) == Deadline(s, x)
  {
    ReschedFrame(s);
    forall y: Pid | y in s.lists[CLK] ensures Resched(s).key[y] == s.key[y] {
      ReschedSleepers(s, y);
    }
    DueFrame(s.key, Resched(s).key, s.lists[CLK], x);
  }

  /** x has left the clock queue and may run, or is still t ticks away. */
  ghost predicate WokenOrDue(r: Sys, x: Pid, t: int) {
    if t <= 0 then x !in r.lists[CLK] && r.proc[x].pstate in {PrReady, PrCurr}
    else x in r.lists[CLK] && Deadline(r, x) == t
  }

  lemma WakeupDeadlines(s: Sys, x: Pid)
    requires Core(s, -1) && x in s.lists[CLK]
    ensures WokenOrDue(Wakeup(s), x, Deadline(s, x))
  {
    hide Placed;
    hide Distinct;
    hide ReadyOK;
    hide Resched;
    DueLowerBound(s.key, s.lists[CLK], x);
    assert s.lists[CLK][0] in s.lists[CLK];
    WakeLoopCore(s);
    WakeLoopDeadlines(s, x);
    var s3 := Awake(s);
    SameCore(WakeLoop(s), s3);
    ReschedFrame(s3);
    if x !in s3.lists[CLK] {
      ReschedRunnable(s3, x);
    }
    if x in s3.lists[CLK] {
      ReschedDeadline(s3, x);
    }
  }

  // ---- strtclk ---------------------------------------------------------

  /** New delays for the sleepers only. */
  lemma NewDelaysCore(s: Sys, key': KeyTab)
    requires Core(s, -1) && DeltasOK(key', s.lists[CLK])
    requires forall x: Pid :: x !in s.lists[CLK] ==> key'[x] == s.key[x]
    ensures Core(s.(key := key'), -1)
  {
    hide NoDup;
    var s' := s.(key := key');
    forall x: Pid | x in s.lists[RDY] ensures key'[x] == s.key[x] {
      assert x !in s.lists[CLK];
    }
    assert Sorted(key', s.lists[RDY]);
  }

  /** The state strtclk hands to wakeup. */
  function CaughtUp(s: Sys): Sys {
    s.(defclk := 0, preempt := s.preempt - s.clkdiff, clkdiff := 0,
       key := MakeUp(s.key, s.lists[CLK], s.clkdiff))
  }

  lemma CaughtUpCore(s: Sys)
    requires Inv(s)
    ensures Core(CaughtUp(s), -1) && SemsOK(CaughtUp(s))
  {
    var q := s.lists[CLK];
    var key' := MakeUp(s.key, q, s.clkdiff);
    MakeUpDeltas(s.key, q, s.clkdiff);
    forall x: Pid | x !in q ensures key'[x] == s.key[x] {
      MakeUpFrame(s.key, q, s.clkdiff, x);
    }
    NewDelaysCore(s, key');
    SameCore(s.(key := key'), CaughtUp(s));
    SemsFrame(s, CaughtUp(s));
  }

  lemma StrtClkInv(s: Sys)
    requires Inv(s)
    ensures Inv(StrtClk(s))
  {
    hide Placed;
    hide Distinct;
    hide ReadyOK;
    hide DeltasOK;
    hide Resched;
    hide Wakeup;
    if s.defclk == 1 {
      if s.slnempty {
        CaughtUpCore(s);
        WakeupInv(CaughtUp(s));
        var s2 := Wakeup(CaughtUp(s));
        if s2.preempt <= 0 {
          ReschedInv(s2);
        }
      } else {
        var s1 := s.(defclk := 0, preempt := s.preempt - s.clkdiff, clkdiff := 0);
        SameCore(s, s1);
        SemsFrame(s, s1);
        if s1.preempt <= 0 {
          ReschedInv(s1);
        }
      }
    } else {
      SameCore(s, StrtClk(s));
      SemsFrame(s, StrtClk(s));
    }
  }

  lemma ClockDistinct(s: Sys)
    requires Core(s, -1)
    ensures NoDup(s.lists[CLK])
  {
  }

  /** Catching up on m deferred ticks wakes exactly the sleepers due within
      them; every other one is m ticks closer. */
  lemma StrtClkDeadlines(s: Sys, x: Pid)
    requires Inv(s) && s.defclk == 1 && x in s.lists[CLK]
    ensures WokenOrDue(StrtClk(s), x, Deadline(s, x) - s.clkdiff)
  {
    hide Placed;
    hide Distinct;
    hide ReadyOK;
    hide Resched;
    hide Wakeup;
    var s1 := CaughtUp(s);
    CaughtUpCore(s);
    ClockDistinct(s);
    MakeUpDue(s.key, s.lists[CLK], s.clkdiff, x);
    WakeupDeadlines(s1, x);
    WakeupInv(s1);
    var s2 := Wakeup(s1);
    if s2.preempt <= 0 {
      ReschedFrame(s2);
      if x !in s2.lists[CLK] {
        ReschedRunnable(s2, x);
      }
      if x in s2.lists[CLK] {
        ReschedDeadline(s2, x);
      }
    }
  }

  /** Catching up readies exactly the sleepers due within the deferred ticks,
      one by one in the order of the deadlines they had. */
  lemma StrtClkOrder(s: Sys)
    requires Inv(s) && s.defclk == 1
    ensures var q := s.lists[CLK]; var k := CaughtUp(s); var n := Expired(k.key, q);
      && WakeLoop(k) == ReadyAll(SetList(k, CLK, q[n..]), q[..n])
      && (forall x: Pid :: x in q ==> (x in q[..n] <==> Deadline(s, x) <= s.clkdiff))
      && (forall i, j :: 0 <= i < j < n ==> Deadline(s, q[i]) <= Deadline(s, q[j]))
  {
    var q := s.lists[CLK];
    var k := CaughtUp(s);
    CaughtUpCore(s);
    ClockDistinct(s);
    WakeLoopOrder(k);
    DelaysNonNeg(s);
    DelaysNonNeg(k);
    hide Core, SemsOK, Running, MakeUp, WakeLoop, ReadyAll;
    forall x: Pid | x in q ensures x in q[..Expired(k.key, q)] <==> Deadline(s, x) <= s.clkdiff {
      MakeUpDue(s.key, q, s.clkdiff, x);
      ExpiredDue(k.key, q, x);
      DueLowerBound(s.key, q, x);
      assert q[0] in q;
    }
    forall i, j | 0 <= i < j < |q| ensures Deadline(s, q[i]) <= Deadline(s, q[j]) {
      DueOrdered(s.key, q, i, j);
    }
  }

  // ---- the clock interrupt ---------------------------------------------

  lemma {:induction false} InsPosFrame(key: KeyTab, key': KeyTab, q: seq<Pid>, k: int)
    requires forall x: Pid :: x in q ==> key'[x] == key[x]
    ensures InsPos(key', q, k) == InsPos(key, q, k)
  {
    if q != [] {
      InsPosFrame(key, key', q[1..], k);
    }
  }

  /** The first delay set to zero. */
  function OnTime(s: Sys): Sys
    requires s.lists[CLK] != []
  {
    s.(key := s.key[s.lists[CLK][0] := 0])
  }

  /** Consistent, but for a first delay that may have run below zero. */
  ghost predicate Late(s: Sys) {
    || Core(s, -1)
    || (s.lists[CLK] != [] && s.key[s.lists[CLK][0]] <= 0 && Core(OnTime(s), -1))
  }

  lemma LateCore(s: Sys)
    requires Core(s, -1)
    ensures Late(s)
  {
  }

  lemma LateFirstIsOff(s: Sys)
    requires Late(s) && s.lists[CLK] != []
    ensures forall m: ListId :: s.lists[CLK][0] !in DropFirst(s, CLK).lists[m]
  {
    hide Core;
    if Core(s, -1) {
      FirstIsOff(s, CLK);
    } else {
      FirstIsOff(OnTime(s), CLK);
    }
  }

  /** A late first process and one just on time are readied alike. */
  lemma LateReady(s: Sys)
    requires s.lists[CLK] != [] && s.key[s.lists[CLK][0]] <= 0 && Core(OnTime(s), -1)
    ensures ReadyNoResch(DropFirst(s, CLK), s.lists[CLK][0]) ==
      ReadyNoResch(DropFirst(OnTime(s), CLK), s.lists[CLK][0])
    ensures !IsBadPid(s.lists[CLK][0])
  {
    var h := s.lists[CLK][0];
    FirstSleeper(OnTime(s));
    assert h !in s.lists[RDY];
    hide Core;
    InsPosFrame(OnTime(s).key, s.key, s.lists[RDY], s.proc[h].pprio);
    assert s.key[h := s.proc[h].pprio] == OnTime(s).key[h := s.proc[h].pprio];
  }

  /** So wakeup's loop comes to the same. */
  lemma LateStep(s: Sys)
    requires s.lists[CLK] != [] && s.key[s.lists[CLK][0]] <= 0 && Core(OnTime(s), -1)
    ensures ReadyNoResch(DropFirst(s, CLK), s.lists[CLK][0]) ==
      ReadyNoResch(DropFirst(OnTime(s), CLK), s.lists[CLK][0])
    ensures WakeLoop(s) == WakeLoop(OnTime(s))
  {
    LateReady(s);
    hide Core, Insert;
    var r := ReadyNoResch(DropFirst(s, CLK), s.lists[CLK][0]);
    assert |r.lists[CLK]| < |s.lists[CLK]| by { ReadyShorter(s); }
    hide ReadyNoResch;
    assert OnTime(s).lists == s.lists && OnTime(s).key[s.lists[CLK][0]] == 0;
  }

  lemma ReadyShorter(s: Sys)
    requires s.lists[CLK] != [] && !IsBadPid(s.lists[CLK][0])
    ensures |ReadyNoResch(DropFirst(s, CLK), s.lists[CLK][0]).lists[CLK]| == |s.lists[CLK]| - 1
  {
    hide InsPos;
  }

  /** One turn of wakeup's loop. */
  lemma LateUnfold(s: Sys)
    requires Late(s) && s.lists[CLK] != [] && s.key[s.lists[CLK][0]] <= 0
    ensures var r := ReadyNoResch(DropFirst(s, CLK), s.lists[CLK][0]);
      Late(r) && WakeLoop(s) == WakeLoop(r) && |r.lists[CLK]| < |s.lists[CLK]|
  {
    hide Core;
    hide Insert;
    var s1 := if Core(s, -1) then s else OnTime(s);
    if !Core(s, -1) {
      LateStep(s);
    }
    FirstSleeper(s1);
    WakeFirst(DropFirst(s1, CLK), s.lists[CLK][0]);
  }

  lemma LateAwake(s: Sys)
    requires Late(s) && SemsOK(s) && s.clkdiff >= 0
    ensures Settled(Awake(s))
  {
    hide Core;
    hide WakeLoop;
    if Core(s, -1) {
      AwakeSettled(s);
    } else {
      LateStep(s);
      SemsFrame(s, OnTime(s));
      AwakeSettled(OnTime(s));
    }
  }

  /** One tick off the first delay, if it has one left. */
  function TickedKeys(s: Sys): KeyTab
    requires s.lists[CLK] != []
  {
    var h := s.lists[CLK][0];
    s.key[h := if s.key[h] > 0 then s.key[h] - 1 else s.key[h]]
  }

  /** What the interrupt hands to wakeup, up to how late the first one is. */
  function Ticked(s: Sys): Sys
    requires s.lists[CLK] != []
  {
    SetPending(s, s.currpid, InClkInt).(key := TickedKeys(s))
  }

  lemma PendingCore(s: Sys, w: Pending)
    requires Inv(s) && w != InReceive && (w.InKill? ==> w.victim != NULLPROC)
    ensures Core(SetPending(s, s.currpid, w), -1) && SemsOK(SetPending(s, s.currpid, w))
    ensures Running(SetPending(s, s.currpid, w)) && ClockOK(SetPending(s, s.currpid, w))
  {
    hide Placed;
    hide Distinct;
    hide ReadyOK;
    hide DeltasOK;
    var c := s.currpid;
    RewriteCore(s, c, s.proc[c].(pending := w));
    SemsFrame(s, SetPending(s, c, w));
  }

  lemma TickedCore(s: Sys)
    requires Inv(s) && s.lists[CLK] != []
    ensures Core(Ticked(s), -1) && SemsOK(Ticked(s))
  {
    hide Sorted;
    hide NoDup;
    var q := s.lists[CLK];
    var key' := TickedKeys(s);
    PendingCore(s, InClkInt);
    TotalFirst(s.key, key', q);
    NewDelaysCore(SetPending(s, s.currpid, InClkInt), key');
    SemsFrame(s, Ticked(s));
  }

  lemma TotalFirst(key: KeyTab, key': KeyTab, q: seq<Pid>)
    requires q != [] && NoDup(q) && key' == key[q[0] := key'[q[0]]]
    ensures Total(key', q) == Total(key, q) + key'[q[0]] - key[q[0]]
  {
    TotalFrame(key, key', q[1..]);
  }

  lemma TickLate(s: Sys)
    requires Inv(s) && s.slnempty && s.key[s.sltop] <= 1
    ensures var s1 := SetPending(s, s.currpid, InClkInt).(key := s.key[s.sltop := s.key[s.sltop] - 1]);
      Late(s1) && SemsOK(s1)
  {
    var s1 := SetPending(s, s.currpid, InClkInt).(key := s.key[s.sltop := s.key[s.sltop] - 1]);
    var h := s.lists[CLK][0];
    assert h in s.lists[CLK];
    TickedCore(s);
    SemsFrame(Ticked(s), s1);
    assert s1.key[h := 0] == TickedKeys(s)[h := 0];
    assert Ticked(s).key[h] == 0;
    assert Ticked(s).key == Ticked(s).key[h := 0];
    assert OnTime(s1) == Ticked(s);
  }

  /** Tick, with the overrun of a first delay of zero removed. */
  lemma TickIs(s: Sys)
    requires Inv(s) && s.lists[CLK] != []
    ensures Tick(s) ==
      if s.key[s.lists[CLK][0]] <= 1 then Wakeup(Ticked(s)) else Ticked(s)
  {
    hide Placed;
    hide Distinct;
    hide ReadyOK;
    hide SemsOK;
    hide Resched;
    hide WakeLoop;
    hide Total;
    var h := s.lists[CLK][0];
    if s.key[h] == 0 {
      TickLateIs(s);
    } else {
      assert h in s.lists[CLK];
    }
  }

  lemma TickLateIs(s: Sys)
    requires Inv(s) && s.lists[CLK] != [] && s.key[s.lists[CLK][0]] == 0
    ensures var s1 := SetPending(s, s.currpid, InClkInt).(key := s.key[s.lists[CLK][0] := -1]);
      Wakeup(s1) == Wakeup(Ticked(s)) && Ticked(s).key == s.key
  {
    TickedCore(s);
    hide Core, SemsOK, Resched, WakeLoop;
    assert TickedKeys(s) == s.key;
    var s1 := SetPending(s, s.currpid, InClkInt).(key := s.key[s.lists[CLK][0] := -1]);
    assert OnTime(s1) == Ticked(s);
    LateStep(s1);
  }

  lemma TickInv(s: Sys)
    requires Inv(s)
    ensures Inv(Tick(s))
  {
    hide Core;
    hide Wakeup;
    hide SemsOK;
    PendingCore(s, InClkInt);
    if s.slnempty {
      TickIs(s);
      TickedCore(s);
      if s.key[s.lists[CLK][0]] <= 1 {
        WakeupInv(Ticked(s));
      }
    }
  }

  /** What one tick takes off every deadline: one, but nothing at all when the
      first sleeper has no delay left. */
  function TickStep(s: Sys): nat
    requires s.lists[CLK] != []
  {
    if s.key[s.lists[CLK][0]] > 0 then 1 else 0
  }

  lemma TickDeadlines(s: Sys, x: Pid)
    requires Inv(s) && x in s.lists[CLK]
    ensures WokenOrDue(Tick(s), x, Deadline(s, x) - TickStep(s))
  {
    hide Placed;
    hide ReadyOK;
    hide Wakeup;
    var q := s.lists[CLK];
    var h := q[0];
    assert h in q;
    ClockDistinct(s);
    TickIs(s);
    TickedCore(s);
    DueShift(s.key, TickedKeys(s), q, x, 0 - TickStep(s));
    if s.key[h] <= 1 {
      WakeupDeadlines(Ticked(s), x);
    } else {
      DueLowerBound(s.key, q, x);
    }
  }

  /** A tick brings every sleeper it leaves one tick closer if and only if the
      first one still had a delay to run, or nobody has. */
  lemma TickExact(s: Sys)
    requires Inv(s) && s.lists[CLK] != []
    ensures var r := Tick(s);
      (forall x: Pid :: x in s.lists[CLK] && x in r.lists[CLK] ==> Deadline(r, x) == Deadline(s, x) - 1)
      <==> s.key[s.lists[CLK][0]] > 0 || (forall x: Pid :: x in s.lists[CLK] ==> Deadline(s, x) == 0)
  {
    DelaysNonNeg(s);
    hide Core;
    hide Tick;
    forall x: Pid | x in s.lists[CLK]
      ensures WokenOrDue(Tick(s), x, Deadline(s, x) - TickStep(s))
      ensures Deadline(s, x) >= 0
    {
      TickDeadlines(s, x);
      DueLowerBound(s.key, s.lists[CLK], x);
      assert s.lists[CLK][0] in s.lists[CLK];
    }
  }

  /** recvtim(0) puts the caller in front with no delay: the tick after it takes
      nothing off anybody's deadline. */
  lemma RecvTimZeroLoses(s: Sys, x: Pid)
    requires Inv(s) && s.currpid != NULLPROC && s.clkruns && !s.proc[s.currpid].phasmsg
    requires x in s.lists[CLK] && Deadline(s, x) > 0
    ensures var r := RecvTim(s, 0).0;
      && x in r.lists[CLK] && Deadline(r, x) == Deadline(s, x)
      && x in Tick(r).lists[CLK] && Deadline(Tick(r), x) == Deadline(s, x)
  {
    var e := s.proc[s.currpid].(pending := InRecvTim, pstate := PrTRecv);
    var d := Dozing(s, 0, e);
    assert RecvTim(s, 0).0 == Resched(d);
    RecvTimZeroSettled(s);
    DozeDeadlines(s, 0, 1000, e);
    ZeroInFront(s, e);
    hide Core, SemsOK, Running, Resched, Tick, Dozing;
    ReschedInv(d);
    ReschedFrame(d);
    ReschedDeadline(d, x);
    ReschedSleepers(d, s.currpid);
    ZeroTick(Resched(d), x);
  }

  lemma ZeroTick(s: Sys, x: Pid)
    requires Inv(s) && x in s.lists[CLK] && s.key[s.lists[CLK][0]] == 0 && Deadline(s, x) > 0
    ensures x in Tick(s).lists[CLK] && Deadline(Tick(s), x) == Deadline(s, x)
  {
    hide Core, SemsOK, Running, Tick;
    TickDeadlines(s, x);
  }

  lemma RecvTimZeroSettled(s: Sys)
    requires Inv(s) && s.currpid != NULLPROC && !s.proc[s.currpid].phasmsg
    ensures Settled(Dozing(s, 0, s.proc[s.currpid].(pending := InRecvTim, pstate := PrTRecv)))
  {
    DozingSettled(s, 0, s.proc[s.currpid].(pending := InRecvTim, pstate := PrTRecv));
  }

  lemma ZeroInFront(s: Sys, e: PEntry)
    requires Inv(s)
    ensures var d := Dozing(s, 0, e);
      d.lists[CLK] != [] && d.lists[CLK][0] == s.currpid && d.key[s.currpid] == 0
  {
    DelaysNonNeg(s);
    var q := s.lists[CLK];
    assert s.currpid !in q;
    assert q != [] ==> q[0] in q;
    assert DPos(s.key, q, 0) == (0, 0);
  }
}
