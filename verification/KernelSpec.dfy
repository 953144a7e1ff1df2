/** The kernel's tables as one value, and every system call as a function on it.
    A call is atomic up to the context switch; what a process still has to do
    when it gets the processor back is kept in its `pending` field. */
module KernelSpec {
  import opened Ints
  import opened Lists

  const NPROC: int := 50
  const NSEM: int := 100
  const NLIST: int := 102
  const CLK: int := 0
  const RDY: int := 101
  const QUANTUM: int := 10
  const EMPTY: int := -1
  const BADPID: int := -1
  const NULLPROC: int := 0

  const OK: int := 1
  const SYSERR: int := -1
  const TIMEOUT: int := -3
  const DELETED: int := -6

  type Pid = p: int | 0 <= p < NPROC
  type SemId = m: int | 0 <= m < NSEM

  /** Lists are numbered in the order the boot code creates them: the clock
      queue, one queue for each semaphore, the ready list. */
  type ListId = l: int | 0 <= l < NLIST

  function SemList(m: SemId): ListId { m + 1 }

  datatype PState = PrCurr | PrFree | PrReady | PrRecv | PrSleep | PrSusp | PrWait | PrTRecv

  /** The code a switched-out process resumes in. */
  datatype Pending =
    | Nothing
    | InReceive
    | InRecvTim
    | InWait
    | InSuspend
    | InClkInt
    | InKill(victim: Pid)

  datatype PEntry = PEntry(pstate: PState, pprio: Int32, psem: SemId, pmsg: Int32, phasmsg: bool,
                           pwaitret: Int32, pnxtkin: Int32, pending: Pending)

  datatype SEntry = SEntry(used: bool, semcnt: Int32)

  const FREE_PROC := PEntry(PrFree, 0, 0, 0, false, 0, 0, Nothing)
  const FREE_SEM := SEntry(false, 0)

  type ListTab = t: seq<seq<Pid>> | |t| == NLIST witness seq(NLIST, _ => [])
  type KeyTab = t: seq<int> | |t| == NPROC witness seq(NPROC, _ => 0)
  type ProcTab = t: seq<PEntry> | |t| == NPROC witness seq(NPROC, _ => FREE_PROC)
  type SemTab = t: seq<SEntry> | |t| == NSEM witness seq(NSEM, _ => FREE_SEM)

  datatype Sys = Sys(
    lists: ListTab,    // process ids on each list, head to tail
    key: KeyTab,       // q[pid].qkey
    proc: ProcTab,
    sem: SemTab,
    currpid: Pid,
    nextproc: Pid,
    nextsem: SemId,
    preempt: int,
    slnempty: bool,
    sltop: Pid,        // the process whose q entry sltop points into
    defclk: int,
    clkdiff: int,
    clkruns: bool)

  /** What a caller sees: a value, or nothing until it runs again. */
  datatype Result = Returns(value: int) | Blocks

  predicate IsBadPid(p: int) { p <= 0 || p >= NPROC }

  predicate IsBadSem(m: int) { m < 0 || m >= NSEM }

  function SetList(s: Sys, l: ListId, q: seq<Pid>): Sys { s.(lists := s.lists[l := q]) }

  function SetProc(s: Sys, p: Pid, e: PEntry): Sys { s.(proc := s.proc[p := e]) }

  function SetState(s: Sys, p: Pid, st: PState): Sys { SetProc(s, p, s.proc[p].(pstate := st)) }

  function SetPending(s: Sys, p: Pid, w: Pending): Sys { SetProc(s, p, s.proc[p].(pending := w)) }

  function SetCount(s: Sys, m: SemId, n: Int32): Sys { s.(sem := s.sem[m := s.sem[m].(semcnt := n)]) }

  // ---- list operations -------------------------------------------------

  /** How far insert's search runs: past every smaller key. */
  function InsPos(key: KeyTab, q: seq<Pid>, k: int): (r: nat)
    ensures r <= |q|
    ensures forall i :: 0 <= i < r ==> key[q[i]] < k
    ensures r < |q| ==> key[q[r]] >= k
  {
    if q == [] || key[q[0]] >= k then 0 else 1 + InsPos(key, q[1..], k)
  }

  function Insert(s: Sys, p: Pid, l: ListId, k: int): Sys {
    SetList(s, l, InsertAt(s.lists[l], InsPos(s.key, s.lists[l], k), p)).(key := s.key[p := k])
  }

  function Enqueue(s: Sys, p: Pid, l: ListId): Sys {
    SetList(s, l, s.lists[l] + [p])
  }

  function Dequeue(s: Sys, p: Pid, l: ListId): Sys {
    SetList(s, l, Without(s.lists[l], p))
  }

  function First(s: Sys, l: ListId): int {
    if s.lists[l] == [] then EMPTY else s.lists[l][0]
  }

  /** getfirst's effect on the table; the process it returns is First. */
  function DropFirst(s: Sys, l: ListId): Sys {
    if s.lists[l] == [] then s else SetList(s, l, s.lists[l][1..])
  }

  function LastKey(s: Sys, l: ListId): int {
    var q := s.lists[l];
    if q == [] then MININT else s.key[q[|q| - 1]]
  }

  // ---- scheduling ------------------------------------------------------

  predicate KeepsCpu(s: Sys) {
    var cur := s.proc[s.currpid];
    cur.pstate == PrCurr && LastKey(s, RDY) < cur.pprio
  }

  /** The ready list once the running process has given up the processor. */
  function Yield(s: Sys): Sys {
    var c := s.currpid;
    if s.proc[c].pstate == PrCurr
    then Insert(SetState(s, c, PrReady), c, RDY, s.proc[c].pprio)
    else s
  }

  /** Run the last process of the ready list. */
  function Dispatch(s: Sys): Sys {
    var q := s.lists[RDY];
    if q == [] then s
    else
      var n := q[|q| - 1];
      SetState(SetList(s, RDY, q[..|q| - 1]), n, PrCurr).(currpid := n, preempt := QUANTUM)
  }

  function Resched(s: Sys): Sys {
    if KeepsCpu(s) then s else Dispatch(Yield(s))
  }

  function ReadyNoResch(s: Sys, p: int): Sys {
    if IsBadPid(p) then s
    else Insert(SetState(s, p, PrReady), p, RDY, s.proc[p].pprio)
  }

  function Ready(s: Sys, p: int): Sys {
    if IsBadPid(p) then s else Resched(ReadyNoResch(s, p))
  }

  function Suspend(s: Sys, p: int): (Sys, Result) {
    if IsBadPid(p) || !(s.proc[p].pstate in {PrCurr, PrReady}) then (s, Returns(SYSERR))
    else if s.proc[p].pstate == PrReady then
      (Dequeue(SetState(s, p, PrSusp), p, RDY), Returns(s.proc[p].pprio))
    else
      (Resched(SetProc(s, p, s.proc[p].(pstate := PrSusp, pending := InSuspend))), Blocks)
  }

  function Resume(s: Sys, p: int): (Sys, Result) {
    if IsBadPid(p) || s.proc[p].pstate != PrSusp then (s, Returns(SYSERR))
    else (Ready(s, p), Returns(s.proc[p].pprio))
  }

  function ChPrio(s: Sys, p: int, prio: Int32): (Sys, Result) {
    if IsBadPid(p) || prio <= 0 || s.proc[p].pstate == PrFree then (s, Returns(SYSERR))
    else
      var s1 := SetProc(s, p, s.proc[p].(pprio := prio));
      var s2 := match s.proc[p].pstate
        case PrReady => Resched(Insert(Dequeue(s1, p, RDY), p, RDY, prio))
        case PrCurr => Resched(s1)
        case _ => s1;
      (s2, Returns(s.proc[p].pprio))
  }

  // ---- semaphores ------------------------------------------------------

  predicate NoSem(s: Sys, m: int) { IsBadSem(m) || !s.sem[m].used }

  function Wait(s: Sys, m: int): (Sys, Result) {
    if NoSem(s, m) then (s, Returns(SYSERR))
    else
      var s1 := SetCount(s, m, Wrap32(s.sem[m].semcnt - 1));
      if s1.sem[m].semcnt < 0 then (Resched(JoinWaiters(s1, m)), Blocks)
      else (s1, Returns(OK))
  }

  /** The running process at the end of the queue of semaphore m. */
  function JoinWaiters(s: Sys, m: SemId): Sys {
    var c := s.currpid;
    var e := s.proc[c].(pstate := PrWait, psem := m, pwaitret := OK, pending := InWait);
    Enqueue(SetProc(s, c, e), c, SemList(m))
  }

  /** One increment, readying the oldest waiter if the count was negative. */
  function SignalOne(s: Sys, m: SemId): Sys {
    var s1 := SetCount(s, m, Wrap32(s.sem[m].semcnt + 1));
    if s.sem[m].semcnt < 0
    then ReadyNoResch(DropFirst(s1, SemList(m)), First(s, SemList(m)))
    else s1
  }

  function Signal(s: Sys, m: int): (Sys, Result) {
    if NoSem(s, m) then (s, Returns(SYSERR))
    else if s.sem[m].semcnt < 0 && !IsBadPid(First(s, SemList(m)))
    then (Resched(SignalOne(s, m)), Returns(OK))
    else (SignalOne(s, m), Returns(OK))
  }

  function SignalLoop(s: Sys, m: SemId, n: nat): Sys
    decreases n
  {
    if n == 0 then s else SignalLoop(SignalOne(s, m), m, n - 1)
  }

  function SignalN(s: Sys, m: int, n: int): (Sys, Result) {
    if NoSem(s, m) || n <= 0 then (s, Returns(SYSERR))
    else (Resched(SignalLoop(s, m, n)), Returns(OK))
  }

  /** Ready every process on list l, first to last, giving each the return
      value DELETED when `deleted`. */
  function DrainLoop(s: Sys, l: ListId, deleted: bool): Sys
    requires l != RDY
    decreases |s.lists[l]|
  {
    if s.lists[l] == [] then s
    else
      var p := s.lists[l][0];
      var s1 := DropFirst(s, l);
      var s2 := if deleted then SetProc(s1, p, s1.proc[p].(pwaitret := DELETED)) else s1;
      DrainLoop(ReadyNoResch(s2, p), l, deleted)
  }

  function SReset(s: Sys, m: int, n: Int32): (Sys, Result) {
    if IsBadSem(m) || n < 0 || !s.sem[m].used then (s, Returns(SYSERR))
    else (Resched(SetCount(DrainLoop(s, SemList(m), false), m, n)), Returns(OK))
  }

  function SDelete(s: Sys, m: int): (Sys, Result) {
    if NoSem(s, m) then (s, Returns(SYSERR))
    else
      var s1 := s.(sem := s.sem[m := s.sem[m].(used := false)]);
      if s1.lists[SemList(m)] == [] then (s1, Returns(OK))
      else (Resched(DrainLoop(s1, SemList(m), true)), Returns(OK))
  }

  function PrevSem(m: SemId): SemId { if m == 0 then NSEM - 1 else m - 1 }

  /** newsem: look at no more than n slots downwards from `from`. */
  function NewSem(sem: SemTab, from: SemId, n: nat): (int, SemId)
    decreases n
  {
    if n == 0 then (SYSERR, from)
    else if !sem[from].used then (from, PrevSem(from))
    else NewSem(sem, PrevSem(from), n - 1)
  }

  function SCreate(s: Sys, n: Int32): (Sys, Result) {
    if n < 0 then (s, Returns(SYSERR))
    else
      var (m, next) := NewSem(s.sem, s.nextsem, NSEM);
      if IsBadSem(m) then (s.(nextsem := next), Returns(SYSERR))
      else (s.(nextsem := next, sem := s.sem[m := SEntry(true, n)]), Returns(m))
  }

  // ---- sleep queue -----------------------------------------------------

  /** insertd's search: the position and what is left of the key there. */
  function DPos(key: KeyTab, q: seq<Pid>, k: int): (r: (nat, int))
    ensures r.0 <= |q|
  {
    if q == [] || key[q[0]] >= k then (0, k)
    else
      var (i, rem) := DPos(key, q[1..], k - key[q[0]]);
      (i + 1, rem)
  }

  /** The keys after p was put in front of q[i] with key rem. */
  function DKeys(key: KeyTab, q: seq<Pid>, p: Pid, i: nat, rem: int): KeyTab
    requires i <= |q|
  {
    var key1 := key[p := rem];
    if i < |q| then key1[q[i] := key1[q[i]] - rem] else key1
  }

  function InsertD(s: Sys, p: Pid, l: ListId, k: int): Sys {
    var q := s.lists[l];
    var (i, rem) := DPos(s.key, q, k);
    SetList(s, l, InsertAt(q, i, p)).(key := DKeys(s.key, q, p, i, rem))
  }

  /** The keys after p hands its remaining delay to its successor in q. */
  function HandOn(key: KeyTab, q: seq<Pid>, p: Pid): KeyTab {
    if q == [] then key
    else if q[0] == p then
      if |q| > 1 then key[q[1] := key[q[1]] + key[p]] else key
    else HandOn(key, q[1..], p)
  }

  /** slnempty and sltop brought up to date, as unsleep does. */
  function NoteTop(s: Sys): Sys {
    if s.lists[CLK] != [] then s.(sltop := s.lists[CLK][0]) else s.(slnempty := false)
  }

  function Unsleep(s: Sys, p: int): Sys {
    if IsBadPid(p) || !(s.proc[p].pstate in {PrSleep, PrTRecv}) then s
    else NoteTop(Dequeue(s.(key := HandOn(s.key, s.lists[CLK], p)), p, CLK))
  }

  /** Put the running process, with new entry e, on the clock queue and switch. */
  function Doze(s: Sys, k: int, e: PEntry): Sys { Resched(Dozing(s, k, e)) }

  function Dozing(s: Sys, k: int, e: PEntry): Sys {
    var s1 := InsertD(s, s.currpid, CLK, k);
    SetProc(s1.(slnempty := true, sltop := s1.lists[CLK][0]), s.currpid, e)
  }

  /** sleep10, sleep100 and sleep1000: `unit` is 100, 10 and 1. */
  function Sleep(s: Sys, n: Int32, unit: nat): (Sys, Result) {
    if n < 0 || !s.clkruns then (s, Returns(SYSERR))
    else if n == 0 then (Resched(s), Returns(OK))
    else (Doze(s, Wrap32(n * unit), s.proc[s.currpid].(pstate := PrSleep)), Returns(OK))
  }

  function WakeLoop(s: Sys): Sys
    decreases |s.lists[CLK]|
  {
    if s.lists[CLK] != [] && s.key[s.lists[CLK][0]] <= 0
    then WakeLoop(ReadyNoResch(DropFirst(s, CLK), First(s, CLK)))
    else s
  }

  function Wakeup(s: Sys): Sys { Resched(Awake(s)) }

  function Awake(s: Sys): Sys {
    var s1 := WakeLoop(s);
    var s2 := s1.(slnempty := s1.lists[CLK] != []);
    if s2.slnempty then s2.(sltop := s2.lists[CLK][0]) else s2
  }

  /** strtclk's loop: take m ticks off the front of the delta list. */
  function MakeUp(key: KeyTab, q: seq<Pid>, m: int): KeyTab
    decreases |q|
  {
    if q == [] then key
    else if key[q[0]] < m then MakeUp(key[q[0] := 0], q[1..], m - key[q[0]])
    else key[q[0] := key[q[0]] - m]
  }

  function StrtClk(s: Sys): Sys {
    if s.defclk <= 0 then s
    else if s.defclk > 1 then s.(defclk := s.defclk - 1)
    else
      var s1 := s.(defclk := 0, preempt := s.preempt - s.clkdiff, clkdiff := 0);
      var s2 := if s.slnempty
        then Wakeup(s1.(key := MakeUp(s.key, s.lists[CLK], s.clkdiff)))
        else s1;
      if s2.preempt <= 0 then Resched(s2) else s2
  }

  /** The clock interrupt up to the return from wakeup. */
  function Tick(s: Sys): Sys {
    var s1 := SetPending(s, s.currpid, InClkInt);
    if !s.slnempty then s1
    else
      var s2 := s1.(key := s.key[s.sltop := s.key[s.sltop] - 1]);
      if s2.key[s.sltop] <= 0 then Wakeup(s2) else s2
  }

  // ---- messages --------------------------------------------------------

  function Send(s: Sys, p: int, msg: Int32): (Sys, Result) {
    if IsBadPid(p) || s.proc[p].pstate == PrFree || s.proc[p].phasmsg then (s, Returns(SYSERR))
    else
      var s1 := SetProc(s, p, s.proc[p].(pmsg := msg, phasmsg := true));
      var s2 := match s.proc[p].pstate
        case PrRecv => Ready(s1, p)
        case PrTRecv => Ready(Unsleep(s1, p), p)
        case _ => s1;
      (s2, Returns(OK))
  }

  function Receive(s: Sys): (Sys, Result) {
    var c := s.currpid;
    var e := s.proc[c].(pending := InReceive);
    (if e.phasmsg then SetProc(s, c, e) else Resched(SetProc(s, c, e.(pstate := PrRecv))), Blocks)
  }

  function RecvTim(s: Sys, maxwait: Int32): (Sys, Result) {
    if maxwait < 0 || !s.clkruns then (s, Returns(SYSERR))
    else
      var c := s.currpid;
      var e := s.proc[c].(pending := InRecvTim);
      (if e.phasmsg then SetProc(s, c, e)
       else Doze(s, Wrap32(maxwait * 1000), e.(pstate := PrTRecv)), Blocks)
  }

  // ---- process creation and death --------------------------------------

  function PrevPid(p: Pid): Pid { if p == 0 then NPROC - 1 else p - 1 }

  function NewPid(proc: ProcTab, from: Pid, n: nat): (int, Pid)
    decreases n
  {
    if n == 0 then (SYSERR, from)
    else if proc[from].pstate == PrFree then (from, PrevPid(from))
    else NewPid(proc, PrevPid(from), n - 1)
  }

  /** `stack`: whether getstk found room for the new stack. */
  function Create(s: Sys, stack: bool, prio: Int32): (Sys, Result) {
    if !stack then (s, Returns(SYSERR))
    else
      var (p, next) := NewPid(s.proc, s.nextproc, NPROC);
      var s1 := s.(nextproc := next);
      if p == SYSERR || prio < 1 || p >= NPROC || p < 0 then (s1, Returns(SYSERR))
      else
        var e := s.proc[p].(pstate := PrSusp, pprio := prio, psem := 0, phasmsg := false,
                            pnxtkin := BADPID, pending := Nothing);
        (SetProc(s1, p, e), Returns(p))
  }

  /** kill up to the notice to the next of kin, which may switch. */
  function Kill(s: Sys, p: int): (Sys, Result) {
    if IsBadPid(p) || s.proc[p].pstate == PrFree then (s, Returns(SYSERR))
    else (Send(SetPending(s, s.currpid, InKill(p)), s.proc[p].pnxtkin, p).0, Blocks)
  }

  /** The rest of kill. */
  function Remove(s: Sys, p: Pid): Sys {
    match s.proc[p].pstate
    case PrCurr => Resched(SetState(s, p, PrFree))
    case PrWait =>
      var m := s.proc[p].psem;
      SetState(Dequeue(SetCount(s, m, Wrap32(s.sem[m].semcnt + 1)), p, SemList(m)), p, PrFree)
    case PrReady => SetState(Dequeue(s, p, RDY), p, PrFree)
    case PrSleep => SetState(Unsleep(s, p), p, PrFree)
    case PrTRecv => SetState(Unsleep(s, p), p, PrFree)
    case _ => SetState(s, p, PrFree)
  }

  /** What the running process does first when it gets the processor back. */
  function Finish(s: Sys): (Sys, Result) {
    var c := s.currpid;
    var e := s.proc[c];
    var s1 := SetPending(s, c, Nothing);
    match e.pending
    case Nothing => (s, Blocks)
    case InReceive => (SetProc(s, c, e.(pending := Nothing, phasmsg := false)), Returns(e.pmsg))
    case InRecvTim =>
      if e.phasmsg then (SetProc(s, c, e.(pending := Nothing, phasmsg := false)), Returns(e.pmsg))
      else (s1, Returns(TIMEOUT))
    case InWait => (s1, Returns(e.pwaitret))
    case InSuspend => (s1, Returns(e.pprio))
    case InClkInt =>
      var s2 := s1.(preempt := s1.preempt - 1);
      (if s2.preempt <= 0 then Resched(s2) else s2, Blocks)
    case InKill(p) => (Remove(s1, p), Returns(OK))
  }

  function SetNok(s: Sys, nok: Int32, p: int): (Sys, Result) {
    if IsBadPid(p) then (s, Returns(SYSERR))
    else (SetProc(s, p, s.proc[p].(pnxtkin := nok)), Returns(OK))
  }

  // ---- boot ------------------------------------------------------------

  const NULL_PROC := PEntry(PrCurr, 0, 0, 0, false, 0, 0, Nothing)

  /** The tables sysinit leaves behind. */
  function Boot(): Sys {
    Sys(seq(NLIST, _ => []), seq(NPROC, _ => 0), seq(NPROC, _ => FREE_PROC)[0 := NULL_PROC],
        seq(NSEM, _ => FREE_SEM), NULLPROC, NPROC - 1, NSEM - 1, QUANTUM, false, 0, 0, 0, true)
  }
}
