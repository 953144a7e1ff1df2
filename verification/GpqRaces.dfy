/** The queue between processes. A call tests the count first and takes the
    queue's mutex, or turns interrupts off, only then; other calls may run in
    between. */
module GpqRaces {
  import opened GpqSpec

  /** The contents, how far q_count has gone below zero, what the first array
      slots hold, and whether an insertion wrote past their end. */
  datatype Queue = Queue(items: seq<Item>, under: nat, first: Item, max: nat, overrun: bool)

  function Count(q: Queue): int { if q.under > 0 then 0 - (q.under as int) else |q.items| }

  // ---- the tests before the lock ------------------------------------------

  function MayEnq(q: Queue): bool { Count(q) < q.max }

  function MayDeq(q: Queue): bool { Count(q) > 0 }

  function MayLook(q: Queue): bool { Count(q) != 0 }

  // ---- what runs under the lock ----------------------------------------------

  function EnqLocked(q: Queue, x: Item): Queue {
    var r := Insert(q.items, x);
    q.(items := r, under := 0, first := r[0], overrun := q.overrun || |q.items| >= q.max)
  }

  /** The element returned is q.first.elt, whatever the count. */
  function DeqLocked(q: Queue): Queue {
    if q.items == [] then q.(under := q.under + 1)
    else q.(items := q.items[1..], first := if |q.items| > 1 then q.items[1] else q.first)
  }

  // ---- processes --------------------------------------------------------------

  datatype Pc = Idle | InEnq(x: Item) | InDeq | InHead

  /** `put` and `got` are what was inserted and returned, `stale` whether headq
      returned what is not on the queue. */
  datatype Shared = Shared(q: Queue, pcs: seq<Pc>, arrived: seq<Item>, put: seq<Item>, got: seq<Item>, stale: bool)

  datatype Event = CallEnq(p: nat, x: Item) | CallDeq(p: nat) | CallHead(p: nat) | Locked(p: nat)

  function Enter(s: Shared, p: nat, pc: Pc, may: bool): Shared {
    if p < |s.pcs| && s.pcs[p] == Idle && may then s.(pcs := s.pcs[p := pc]) else s
  }

  function Run(s: Shared, p: nat): Shared
    requires p < |s.pcs|
  {
    var t := s.(pcs := s.pcs[p := Idle]);
    match s.pcs[p]
    case Idle => s
    case InEnq(x) => t.(q := EnqLocked(s.q, x), arrived := s.arrived + [x], put := s.put + [x])
    case InDeq =>
      t.(q := DeqLocked(s.q), arrived := if s.arrived == [] then [] else Taken(s.arrived), got := s.got + [s.q.first])
    case InHead => t.(stale := s.stale || s.q.items == [])
  }

  function Next(s: Shared, e: Event): Shared {
    match e
    case CallEnq(p, x) => Enter(s, p, InEnq(x), MayEnq(s.q))
    case CallDeq(p) => Enter(s, p, InDeq, MayDeq(s.q))
    case CallHead(p) => Enter(s, p, InHead, MayLook(s.q))
    case Locked(p) => if p < |s.pcs| then Run(s, p) else s
  }

  function After(s: Shared, run: seq<Event>): Shared
    decreases |run|
  {
    if run == [] then s else After(Next(s, run[0]), run[1..])
  }

  /** An empty queue and n processes. */
  function Empty(max: nat, n: nat): Shared {
    Shared(Queue([], 0, Item(0, 0), max, false), seq(n, _ => Idle), [], [], [], false)
  }

  // ---- what the calls promise together ------------------------------------------

  /** The count in range, nothing written past the arrays, the contents sorted
      and stable, every item returned once or still there, no look at an item
      that is gone. */
  ghost predicate Sound(s: Shared) {
    && !s.q.overrun && s.q.under == 0 && !s.stale
    && Stable(State(s.q.items, s.q.max, s.arrived))
    && multiset(s.put) == multiset(s.q.items) + multiset(s.got)
    && (s.q.items != [] ==> s.q.first == s.q.items[0])
  }

  /** The test a process passed still holds. */
  predicate StillHolds(q: Queue, pc: Pc) {
    match pc
    case Idle => true
    case InEnq(_) => MayEnq(q)
    case InDeq => MayDeq(q)
    case InHead => MayLook(q)
  }

  /** It holds when the process gets the lock. */
  predicate LocksInTime(s: Shared, e: Event) {
    e.Locked? && e.p < |s.pcs| ==> StillHolds(s.q, s.pcs[e.p])
  }

  lemma EnqSound(s: Shared, p: nat)
    requires Sound(s) && p < |s.pcs| && s.pcs[p].InEnq? && MayEnq(s.q)
    ensures Sound(Run(s, p))
  {
    var x := s.pcs[p].x;
    EnqStable(State(s.q.items, s.q.max, s.arrived), x.elt, x.key);
    InsertContents(s.q.items, x);
    hide Stable, Insert;
    assert Item(x.elt, x.key) == x;
    assert multiset(s.put + [x]) == multiset(s.put) + multiset{x};
  }

  lemma DeqSound(s: Shared, p: nat)
    requires Sound(s) && p < |s.pcs| && s.pcs[p].InDeq? && MayDeq(s.q)
    ensures Sound(Run(s, p))
  {
    DeqStable(State(s.q.items, s.q.max, s.arrived));
    var x := s.q.items[0];
    assert s.q.items == [x] + s.q.items[1..];
    hide Stable, Taken;
    assert multiset(s.q.items) == multiset{x} + multiset(s.q.items[1..]);
    assert multiset(s.got + [x]) == multiset(s.got) + multiset{x};
  }

  lemma NextSound(s: Shared, e: Event)
    requires Sound(s) && LocksInTime(s, e)
    ensures Sound(Next(s, e))
  {
    if e.Locked? && e.p < |s.pcs| {
      match s.pcs[e.p] {
        case InEnq(_) => EnqSound(s, e.p);
        case InDeq => DeqSound(s, e.p);
        case _ =>
      }
    }
  }

  /** A lock taken after the test has ceased to hold breaks a promise. */
  lemma LateUnsound(s: Shared, e: Event)
    requires Sound(s) && !LocksInTime(s, e)
    ensures !Sound(Next(s, e))
  {
    hide Stable, Insert;
  }

  ghost predicate SoundThroughout(s: Shared, run: seq<Event>)
    decreases |run|
  {
    Sound(s) && (run == [] || SoundThroughout(Next(s, run[0]), run[1..]))
  }

  predicate AllInTime(s: Shared, run: seq<Event>)
    decreases |run|
  {
    run == [] || (LocksInTime(s, run[0]) && AllInTime(Next(s, run[0]), run[1..]))
  }

  /** Over every run the calls keep their promises if and only if every lock is
      taken while the test before it still holds. */
  lemma {:induction false} SoundExactly(s: Shared, run: seq<Event>)
    requires Sound(s)
    ensures SoundThroughout(s, run) <==> AllInTime(s, run)
    decreases |run|
  {
    hide Sound, Next, LocksInTime;
    if run != [] {
      if LocksInTime(s, run[0]) {
        NextSound(s, run[0]);
        SoundExactly(Next(s, run[0]), run[1..]);
      } else {
        LateUnsound(s, run[0]);
      }
    }
  }

  lemma EmptySound(max: nat, n: nat)
    ensures Sound(Empty(max, n))
  {
    assert forall key :: Only([], key) == [];
  }

  // ---- one call at a time --------------------------------------------------------

  /** No process is between test and lock. */
  predicate NobodyIn(s: Shared) { forall p :: 0 <= p < |s.pcs| ==> s.pcs[p] == Idle }

  /** Calls begin only when no other call is under way. */
  predicate OneAtATime(s: Shared, run: seq<Event>)
    decreases |run|
  {
    run == [] || ((run[0].Locked? || NobodyIn(s)) && OneAtATime(Next(s, run[0]), run[1..]))
  }

  /** At most one process is in a call, and its test holds. */
  ghost predicate Alone(s: Shared) {
    && (forall p, p' :: 0 <= p < p' < |s.pcs| ==> s.pcs[p] == Idle || s.pcs[p'] == Idle)
    && (forall p :: 0 <= p < |s.pcs| ==> StillHolds(s.q, s.pcs[p]))
  }

  lemma AloneNext(s: Shared, e: Event)
    requires Alone(s) && (e.Locked? || NobodyIn(s))
    ensures Alone(Next(s, e)) && LocksInTime(s, e)
  {
    hide Insert;
    if e.Locked? && e.p < |s.pcs| && s.pcs[e.p] != Idle {
      var r := Next(s, e);
      assert forall p :: 0 <= p < |r.pcs| ==> r.pcs[p] == Idle;
    }
  }

  lemma {:induction false} AloneInTime(s: Shared, run: seq<Event>)
    requires Alone(s) && OneAtATime(s, run)
    ensures AllInTime(s, run)
    decreases |run|
  {
    hide Alone, Next, NobodyIn, LocksInTime;
    if run != [] {
      AloneNext(s, run[0]);
      AloneInTime(Next(s, run[0]), run[1..]);
    }
  }

  /** With no other call between a test and its lock every promise is kept, in
      every run. */
  lemma OneAtATimeSound(max: nat, n: nat, run: seq<Event>)
    requires OneAtATime(Empty(max, n), run)
    ensures SoundThroughout(Empty(max, n), run)
  {
    EmptySound(max, n);
    hide Sound;
    AloneInTime(Empty(max, n), run);
    SoundExactly(Empty(max, n), run);
  }

  // ---- two at a time ----------------------------------------------------------------

  /** Two processes past the test for the last free slot: the second writes past
      the arrays. */
  lemma TwoEnqsOverrun(s: Shared, p: nat, r: nat, x: Item, y: Item)
    requires Sound(s) && p < |s.pcs| && r < |s.pcs| && p != r && s.pcs[p] == s.pcs[r] == Idle
    requires |s.q.items| + 1 == s.q.max
    ensures Next(Next(Next(Next(s, CallEnq(p, x)), CallEnq(r, y)), Locked(p)), Locked(r)).q.overrun
  {
    hide Stable, Place;
  }

  /** Two past the test for the last item: both return it, and the count is -1. */
  lemma TwoDeqsTakeOne(s: Shared, p: nat, r: nat)
    requires Sound(s) && p < |s.pcs| && r < |s.pcs| && p != r && s.pcs[p] == s.pcs[r] == Idle
    requires |s.q.items| == 1
    ensures var t := Next(Next(Next(Next(s, CallDeq(p)), CallDeq(r)), Locked(p)), Locked(r));
      && t.got == s.got + [s.q.items[0], s.q.items[0]] && Count(t.q) == -1
      && MayLook(t.q)
  {
    hide Stable, Taken;
  }

  /** headq past its test while the last item is taken returns an item that is
      gone. */
  lemma HeadAfterDeq(s: Shared, p: nat, r: nat)
    requires Sound(s) && p < |s.pcs| && r < |s.pcs| && p != r && s.pcs[p] == s.pcs[r] == Idle
    requires |s.q.items| == 1
    ensures Next(Next(Next(Next(s, CallDeq(p)), CallHead(r)), Locked(p)), Locked(r)).stale
  {
    hide Stable, Taken;
  }

  /** seeq under its lock on a queue emptied meanwhile: it starts over and
      returns nothing. */
  function SeeLocked(q: Queue, seen: int): (int, Option<int>) {
    if seen + 1 >= Count(q) then (-1, None)
    else if seen + 1 < 0 then (seen + 1, None)
    else (seen + 1, Some(q.items[seen + 1].elt))
  }

  lemma SeeAfterDeq(q: Queue, seen: int)
    requires q.items == [] && seen >= -1
    ensures SeeLocked(q, seen) == (-1, None)
  {
  }
}
