/** Buffer pools shared by processes that may be switched at every point where
    getbuf and freebuf run with interrupts enabled. */
module PoolSpec {
  const NBPOOLS: nat := 20
  const BPMINB: int := 2
  const BPMAXB: int := 131072
  const BPMAXN: int := 256
  const WORD: int := 4

  /** A pool: where its buffers are, its free chain, its semaphore. The pool is
      live while the id in bpsem names a semaphore in use; on any other id wait
      and signal return at once. */
  datatype Pool = Pool(where: int, size: int, total: nat, free: seq<int>, live: bool, cnt: int, queue: seq<nat>)

  /** Where a process is between two switches. */
  datatype Pc =
    | Idle
    | Waiting(pool: nat)              // blocked in wait
    | Granted(pool: nat)              // past wait, not yet at the chain
    | Popped(pool: nat, buf: int)     // off the chain, header not yet written
    | Pushed(pool: nat)               // on the chain, not yet signalled

  /** `out` holds the header word of every buffer a caller has; `fault` names
      the pools whose chain was followed through its null end. */
  datatype State = State(pools: seq<Pool>, pcs: seq<Pc>, out: map<int, int>, fault: set<int>)

  /** `sem` is whether screate found a slot. FreeSems is the boot loop that
      marks every semaphore slot free. */
  datatype Event =
    | GetBuf(p: nat, pool: int)
    | NbGetBuf(p: nat, pool: int)
    | Pop(p: nat)
    | SetHeader(p: nat)
    | FreeBuf(p: nat, buf: int)
    | Signal(p: nat)
    | MkPool(bufsiz: int, numbufs: int, where: int, granted: bool, sem: bool)
    | FreeSems

  function SetPool(s: State, i: nat, q: Pool): State
    requires i < |s.pools|
  {
    s.(pools := s.pools[i := q])
  }

  function SetPc(s: State, p: nat, pc: Pc): State
    requires p < |s.pcs|
  {
    s.(pcs := s.pcs[p := pc])
  }

  function Unlink(s: State, p: nat, i: nat): State
    requires p < |s.pcs| && i < |s.pools|
  {
    var q := s.pools[i];
    if q.free == [] then s.(fault := s.fault + {i})
    else SetPc(SetPool(s, i, q.(free := q.free[1..])), p, Popped(i, q.free[0]))
  }

  function WaitOn(s: State, p: nat, i: nat): State
    requires p < |s.pcs| && i < |s.pools|
  {
    var q := s.pools[i].(cnt := s.pools[i].cnt - 1);
    if !s.pools[i].live then SetPc(s, p, Granted(i))
    else if q.cnt < 0 then SetPc(SetPool(s, i, q.(queue := q.queue + [p])), p, Waiting(i))
    else SetPc(SetPool(s, i, q), p, Granted(i))
  }

  /** What scount answers: SYSERR for a semaphore that is not in use. */
  function Scount(q: Pool): int { if q.live then q.cnt else -1 }

  function SignalOn(s: State, i: nat): State
    requires i < |s.pools|
  {
    var q := s.pools[i].(cnt := s.pools[i].cnt + 1);
    if !s.pools[i].live then s
    else if q.cnt <= 0 && q.queue != [] && q.queue[0] < |s.pcs| then
      SetPc(SetPool(s, i, q.(queue := q.queue[1..])), q.queue[0], Granted(i))
    else SetPool(s, i, q)
  }

  /** The buffers mkpool cuts, in order. */
  function Cut(where: int, size: int, n: nat): seq<int> { seq(n, k => where + k * size) }

  function Make(s: State, bufsiz: int, numbufs: int, where: int, granted: bool, sem: bool): State {
    if bufsiz < BPMINB || bufsiz > BPMAXB || numbufs < 1 || numbufs > BPMAXN || |s.pools| >= NBPOOLS || !granted then s
    else s.(pools := s.pools + [Pool(where, bufsiz + WORD, numbufs, Cut(where, bufsiz + WORD, numbufs), sem, numbufs, [])])
  }

  function Dead(q: Pool): Pool { q.(live := false) }

  function FreeAll(s: State): State {
    s.(pools := seq(|s.pools|, i requires 0 <= i < |s.pools| => Dead(s.pools[i])))
  }

  function Step(s: State, e: Event): State {
    match e
    case GetBuf(p, i) =>
      if p >= |s.pcs| || s.pcs[p] != Idle || i < 0 || i >= |s.pools| then s else WaitOn(s, p, i)
    case NbGetBuf(p, i) =>
      if p >= |s.pcs| || s.pcs[p] != Idle || i < 0 || i >= |s.pools| then s
      else if Scount(s.pools[i]) <= 0 then s
      else Unlink(WaitOn(s, p, i), p, i)
    case Pop(p) =>
      if p < |s.pcs| && s.pcs[p].Granted? && s.pcs[p].pool < |s.pools| then Unlink(s, p, s.pcs[p].pool) else s
    case SetHeader(p) =>
      if p < |s.pcs| && s.pcs[p].Popped? then
        SetPc(s, p, Idle).(out := s.out[s.pcs[p].buf := s.pcs[p].pool])
      else s
    case FreeBuf(p, b) =>
      if p >= |s.pcs| || s.pcs[p] != Idle || b !in s.out || s.out[b] < 0 || s.out[b] >= |s.pools| then s
      else
        var i := s.out[b];
        SetPc(SetPool(s, i, s.pools[i].(free := [b] + s.pools[i].free)), p, Pushed(i)).(out := s.out - {b})
    case Signal(p) =>
      if p < |s.pcs| && s.pcs[p].Pushed? && s.pcs[p].pool < |s.pools| then
        SignalOn(SetPc(s, p, Idle), s.pcs[p].pool)
      else s
    case MkPool(bufsiz, numbufs, where, granted, sem) => Make(s, bufsiz, numbufs, where, granted, sem)
    case FreeSems => FreeAll(s)
  }

  /** The addresses of a pool's buffers. */
  predicate Owns(q: Pool, b: int) { b in Cut(q.where, q.size, q.total) }

  /** getmem's promise to mkpool: the block is no other pool's. A caller frees
      only what it was given. The boot loop runs before any process waits. */
  ghost predicate Legal(s: State, e: Event) {
    match e
    case MkPool(bufsiz, numbufs, where, granted, sem) =>
      granted && numbufs >= 0 ==>
        forall i, b :: 0 <= i < |s.pools| && b in Cut(where, bufsiz + WORD, numbufs) ==> !Owns(s.pools[i], b)
    case FreeBuf(p, b) => b in s.out
    case FreeSems => forall p :: 0 <= p < |s.pcs| ==> s.pcs[p] == Idle
    case _ => true
  }

  function Exec(s: State, run: seq<Event>): State
    decreases |run|
  {
    if run == [] then s else Exec(Step(s, run[0]), run[1..])
  }

  ghost predicate LegalRun(s: State, run: seq<Event>)
    decreases |run|
  {
    run == [] || (Legal(s, run[0]) && LegalRun(Step(s, run[0]), run[1..]))
  }

  /** No pool yet, n processes. */
  function Init(n: nat): State { State([], seq(n, _ => Idle), map[], {}) }
}
