/** Generic priority queues: highest key first, equal keys in arrival order. */
module GpqSpec {

  datatype Item = Item(elt: int, key: int)

  datatype Option<T> = None | Some(value: T)

  /** The place enq's scan from the tail stops at. */
  function Place(s: seq<Item>, key: int): (i: nat)
    ensures i <= |s|
  {
    if s != [] && key > s[|s| - 1].key then Place(s[..|s| - 1], key) else |s|
  }

  function Insert(s: seq<Item>, x: Item): seq<Item> {
    s[..Place(s, x.key)] + [x] + s[Place(s, x.key)..]
  }

  /** seeq: the next place looked at, and the element there unless done. */
  function See(s: seq<Item>, seen: int): (int, Option<int>) {
    if s == [] then (seen, None)
    else if seen + 1 >= |s| then (-1, None)
    else if seen + 1 < 0 then (seen + 1, None)
    else (seen + 1, Some(s[seen + 1].elt))
  }

  // ---- order -------------------------------------------------------------

  ghost predicate Sorted(s: seq<Item>) {
    forall i, j :: 0 <= i < j < |s| ==> s[i].key >= s[j].key
  }

  /** Items of one key, in order. */
  function Only(s: seq<Item>, key: int): seq<Item> {
    if s == [] then []
    else Only(s[..|s| - 1], key) + if s[|s| - 1].key == key then [s[|s| - 1]] else []
  }

  lemma {:induction false} OnlyAppend(a: seq<Item>, b: seq<Item>, key: int)
    ensures Only(a + b, key) == Only(a, key) + Only(b, key)
    decreases |b|
  {
    if b == [] {
      assert a + b == a;
    } else {
      assert (a + b)[..|a + b| - 1] == a + b[..|b| - 1];
      OnlyAppend(a, b[..|b| - 1], key);
    }
  }

  lemma OnlyOne(x: Item, key: int)
    ensures Only([x], key) == if x.key == key then [x] else []
  {
    assert [x][..0] == [];
  }

  lemma {:induction false} OnlyNone(s: seq<Item>, key: int)
    requires forall i :: 0 <= i < |s| ==> s[i].key != key
    ensures Only(s, key) == []
  {
    if s != [] {
      OnlyNone(s[..|s| - 1], key);
    }
  }

  /** Everything behind the place has a smaller key, everything before it, in a
      sorted queue, one at least as great. */
  lemma {:induction false} PlaceSplits(s: seq<Item>, key: int)
    ensures forall j :: Place(s, key) <= j < |s| ==> s[j].key < key
    ensures Sorted(s) ==> forall j :: 0 <= j < Place(s, key) ==> s[j].key >= key
  {
    if s != [] && key > s[|s| - 1].key {
      PlaceSplits(s[..|s| - 1], key);
    }
  }

  lemma InsertSorted(s: seq<Item>, x: Item)
    requires Sorted(s)
    ensures Sorted(Insert(s, x))
  {
    PlaceSplits(s, x.key);
  }

  /** An insertion joins the end of its own key's items and moves no others. */
  lemma InsertLast(s: seq<Item>, x: Item, key: int)
    ensures Only(Insert(s, x), key) == Only(s, key) + (if x.key == key then [x] else [])
  {
    hide Only;
    var p := Place(s, x.key);
    PlaceSplits(s, x.key);
    hide Place;
    var a, c := s[..p], s[p..];
    assert s == a + c && Insert(s, x) == a + ([x] + c);
    OnlyAppend(a, c, key);
    OnlyAppend(a, [x] + c, key);
    OnlyAppend([x], c, key);
    OnlyOne(x, key);
    if x.key == key {
      OnlyNone(c, key);
      assert Only(a, key) + ([x] + []) == Only(a, key) + [] + [x];
    } else {
      assert Only(a, key) + ([] + Only(c, key)) == Only(a, key) + Only(c, key) + [];
    }
  }

  lemma InsertContents(s: seq<Item>, x: Item)
    ensures multiset(Insert(s, x)) == multiset(s) + multiset{x} && |Insert(s, x)| == |s| + 1
  {
    assert s == s[..Place(s, x.key)] + s[Place(s, x.key)..];
  }

  // ---- every run ------------------------------------------------------------

  datatype Event = Enq(elt: int, key: int) | Deq

  /** The queue, and beside it what was accepted and not yet taken, in order of
      arrival. */
  datatype State = State(q: seq<Item>, max: nat, arrived: seq<Item>)

  /** The earliest of the greatest key. */
  ghost predicate FirstGreatest(a: seq<Item>, m: nat) {
    && m < |a|
    && (forall j :: 0 <= j < |a| ==> a[j].key <= a[m].key)
    && (forall j :: 0 <= j < m ==> a[j].key < a[m].key)
  }

  function Best(a: seq<Item>): (m: nat)
    requires a != []
    ensures FirstGreatest(a, m)
  {
    if |a| == 1 then 0
    else
      var m := Best(a[..|a| - 1]);
      if a[|a| - 1].key > a[m].key then |a| - 1 else m
  }

  /** What the interface promises, without a sorted queue: the earliest of the
      greatest key leaves first. */
  function Taken(a: seq<Item>): seq<Item>
    requires a != []
  {
    a[..Best(a)] + a[Best(a) + 1..]
  }

  function Step(s: State, e: Event): State {
    match e
    case Enq(elt, key) =>
      if |s.q| >= s.max then s
      else s.(q := Insert(s.q, Item(elt, key)), arrived := s.arrived + [Item(elt, key)])
    case Deq =>
      if s.q == [] then s
      else s.(q := s.q[1..], arrived := if s.arrived == [] then [] else Taken(s.arrived))
  }

  function Exec(s: State, run: seq<Event>): State
    decreases |run|
  {
    if run == [] then s else Exec(Step(s, run[0]), run[1..])
  }

  /** Sorted, and every key's items in order of arrival. */
  ghost predicate Stable(s: State) {
    && Sorted(s.q) && |s.q| == |s.arrived| <= s.max && multiset(s.q) == multiset(s.arrived)
    && (forall key :: Only(s.q, key) == Only(s.arrived, key))
  }

  lemma {:induction false} OnlyHas(s: seq<Item>, i: nat)
    requires i < |s|
    ensures Only(s, s[i].key) != []
  {
    if i < |s| - 1 {
      OnlyHas(s[..|s| - 1], i);
    }
  }

  lemma {:induction false} OnlyFrom(s: seq<Item>, key: int)
    requires Only(s, key) != []
    ensures exists i :: 0 <= i < |s| && s[i].key == key
  {
    if forall i :: 0 <= i < |s| ==> s[i].key != key {
      OnlyNone(s, key);
    }
  }

  lemma SameParts(x: Item, s: seq<Item>, y: Item, t: seq<Item>)
    requires [x] + s == [y] + t
    ensures x == y && s == t
  {
    assert ([x] + s)[0] == x && ([y] + t)[0] == y;
    assert ([x] + s)[1..] == s && ([y] + t)[1..] == t;
  }

  lemma OnlyFirst(s: seq<Item>, m: nat)
    requires m < |s| && forall j :: 0 <= j < m ==> s[j].key != s[m].key
    ensures Only(s, s[m].key) == [s[m]] + Only(s[m + 1..], s[m].key)
  {
    hide Only;
    var k := s[m].key;
    OnlyWithout(s, m, k);
    var a, c := s[..m], s[m + 1..];
    OnlyNone(a, k);
    OnlyAppend(a, c, k);
    assert Only(a + c, k) == Only(c, k);
  }

  /** Taking item m out of a sequence changes only its own key's items. */
  lemma OnlyWithout(s: seq<Item>, m: nat, key: int)
    requires m < |s| && forall j :: 0 <= j < m ==> s[j].key != s[m].key
    ensures var r := s[..m] + s[m + 1..];
      Only(s, key) == if key == s[m].key then [s[m]] + Only(r, key) else Only(r, key)
  {
    hide Only;
    var a, x, c := s[..m], s[m], s[m + 1..];
    assert s == a + ([x] + c);
    OnlyAppend(a, [x] + c, key);
    OnlyAppend([x], c, key);
    OnlyAppend(a, c, key);
    OnlyOne(x, key);
    if key == x.key {
      OnlyNone(a, key);
      assert Only(s, key) == [] + ([x] + Only(c, key)) == [x] + Only(c, key);
      assert Only(a + c, key) == [] + Only(c, key) == Only(c, key);
    } else {
      assert Only(s, key) == Only(a, key) + ([] + Only(c, key)) == Only(a, key) + Only(c, key);
    }
  }

  /** deq takes the earliest arrival of the greatest key. */
  lemma HeadIsBest(s: State)
    requires Stable(s) && s.q != []
    ensures s.arrived != [] && s.q[0] == s.arrived[Best(s.arrived)]
  {
    hide Only, Best;
    var a := s.arrived;
    assert |a| == |s.q|;
    var m := Best(a);
    OnlyHas(s.q, 0);
    OnlyFrom(a, s.q[0].key);
    OnlyHas(a, m);
    OnlyFrom(s.q, a[m].key);
    assert s.q[0].key == a[m].key;
    assert Only(s.q, a[m].key) == Only(a, a[m].key);
    OnlyFirst(s.q, 0);
    OnlyFirst(a, m);
    SameParts(s.q[0], Only(s.q[1..], a[m].key), a[m], Only(a[m + 1..], a[m].key));
  }

  lemma TakenContents(s: seq<Item>, m: nat)
    requires m < |s|
    ensures multiset(s[..m] + s[m + 1..]) == multiset(s) - multiset{s[m]}
  {
    assert s == s[..m] + [s[m]] + s[m + 1..];
  }

  lemma DeqKeeps(s: State, key: int)
    requires Stable(s) && s.q != []
    ensures Only(s.q[1..], key) == Only(Taken(s.arrived), key)
  {
    hide Only, Best;
    HeadIsBest(s);
    var m := Best(s.arrived);
    assert s.q[..0] + s.q[1..] == s.q[1..];
    assert Only(s.q, key) == Only(s.arrived, key);
    OnlyWithout(s.q, 0, key);
    OnlyWithout(s.arrived, m, key);
    if key == s.q[0].key {
      SameParts(s.q[0], Only(s.q[1..], key), s.q[0], Only(Taken(s.arrived), key));
    }
  }

  lemma DeqContents(q: seq<Item>, a: seq<Item>)
    requires q != [] && a != [] && multiset(q) == multiset(a) && a[Best(a)] == q[0]
    ensures multiset(q[1..]) == multiset(Taken(a))
  {
    hide Best;
    var m := Best(a);
    TakenContents(q, 0);
    TakenContents(a, m);
    assert q[..0] + q[1..] == q[1..];
  }

  lemma TailSorted(q: seq<Item>)
    requires Sorted(q) && q != []
    ensures Sorted(q[1..])
  {
  }

  lemma DeqStable(s: State)
    requires Stable(s)
    ensures Stable(Step(s, Deq))
  {
    if s.q != [] {
      HeadIsBest(s);
      TailSorted(s.q);
      DeqContents(s.q, s.arrived);
      forall key ensures Only(s.q[1..], key) == Only(Taken(s.arrived), key) {
        DeqKeeps(s, key);
      }
      assert |s.q[1..]| == |Taken(s.arrived)| <= s.max;
      hide Only, Best, Sorted, Taken;
    }
  }

  lemma EnqStable(s: State, elt: int, key: int)
    requires Stable(s)
    ensures Stable(Step(s, Enq(elt, key)))
  {
    if |s.q| < s.max {
      var x := Item(elt, key);
      var r := Step(s, Enq(elt, key));
      InsertSorted(s.q, x);
      InsertContents(s.q, x);
      forall k ensures Only(r.q, k) == Only(r.arrived, k) {
        InsertLast(s.q, x, k);
        OnlyAppend(s.arrived, [x], k);
        OnlyOne(x, k);
      }
    }
  }

  /** Over every run the queue is the arrivals not yet taken, sorted by key and
      within a key by arrival. */
  lemma {:induction false} RunStable(s: State, run: seq<Event>)
    requires Stable(s)
    ensures Stable(Exec(s, run))
    decreases |run|
  {
    hide Stable, Step;
    if run != [] {
      match run[0] {
        case Enq(elt, key) => EnqStable(s, elt, key);
        case Deq => DeqStable(s);
      }
      RunStable(Step(s, run[0]), run[1..]);
    }
  }

  /** That description leaves no choice: sortedness and the order within each
      key determine the queue. */
  lemma {:induction false} StableUnique(a: seq<Item>, b: seq<Item>)
    requires Sorted(a) && Sorted(b) && forall key :: Only(a, key) == Only(b, key)
    ensures a == b
    decreases |a|
  {
    hide Only;
    if a == [] || b == [] {
      if b != [] {
        OnlyHas(b, 0);
        OnlyFrom(a, b[0].key);
      }
      if a != [] {
        OnlyHas(a, 0);
        OnlyFrom(b, a[0].key);
      }
    } else {
      SameHead(a, b);
      SameTail(a, b);
      StableUnique(a[1..], b[1..]);
      assert a == [a[0]] + a[1..] && b == [b[0]] + b[1..];
    }
  }

  lemma SameTail(a: seq<Item>, b: seq<Item>)
    requires a != [] && b != [] && a[0] == b[0] && forall key :: Only(a, key) == Only(b, key)
    ensures forall key :: Only(a[1..], key) == Only(b[1..], key)
  {
    hide Only;
    assert a[..0] + a[1..] == a[1..] && b[..0] + b[1..] == b[1..];
    forall key ensures Only(a[1..], key) == Only(b[1..], key) {
      assert Only(a, key) == Only(b, key);
      OnlyWithout(a, 0, key);
      OnlyWithout(b, 0, key);
      if key == a[0].key {
        SameParts(a[0], Only(a[1..], key), b[0], Only(b[1..], key));
      }
    }
  }

  lemma SameHead(a: seq<Item>, b: seq<Item>)
    requires Sorted(a) && Sorted(b) && a != [] && b != [] && forall key :: Only(a, key) == Only(b, key)
    ensures a[0] == b[0]
  {
    hide Only;
    OnlyHas(a, 0);
    OnlyFrom(b, a[0].key);
    OnlyHas(b, 0);
    OnlyFrom(a, b[0].key);
    assert a[0].key == b[0].key;
    OnlyFirst(a, 0);
    OnlyFirst(b, 0);
    assert Only(a, a[0].key) == Only(b, a[0].key);
    SameParts(a[0], Only(a[1..], a[0].key), b[0], Only(b[1..], a[0].key));
  }

  /** n calls of seeq: the last place, and what they returned. */
  function Sees(s: seq<Item>, seen: int, n: nat): (int, seq<Option<int>>) {
    if n == 0 then (seen, [])
    else
      var (p, out) := Sees(s, seen, n - 1);
      var (p1, o) := See(s, p);
      (p1, out + [o])
  }

  function Seen(s: seq<Item>, n: nat): seq<Option<int>>
    requires n <= |s|
  {
    seq(n, i requires 0 <= i < n => Some(s[i].elt))
  }

  lemma SeenMore(s: seq<Item>, n: nat)
    requires 0 < n <= |s|
    ensures Seen(s, n) == Seen(s, n - 1) + [Some(s[n - 1].elt)]
  {
  }

  /** From -1, as many calls as there are elements list the queue in order; one
      more returns nothing and starts over. */
  lemma {:induction false} SeesAll(s: seq<Item>, n: nat)
    requires n <= |s|
    ensures Sees(s, -1, n) == (n - 1, Seen(s, n))
    ensures s != [] && n == |s| ==> See(s, Sees(s, -1, n).0) == (-1, None)
  {
    if n == 0 {
      assert Seen(s, 0) == [];
    } else {
      SeesAll(s, n - 1);
      SeenMore(s, n);
    }
  }
}
