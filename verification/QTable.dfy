/** The q table: all lists share one array of links and keys. */
module QTable {
  import opened Ints
  import opened Lists
  import opened KernelSpec

  const NQENT: int := NPROC + NSEM + NSEM + 4

  datatype QEnt = QEnt(qkey: int, qnext: int, qprev: int)

  type QTab = t: seq<QEnt> | |t| == NQENT witness seq(NQENT, _ => QEnt(0, 0, 0))

  function Head(l: ListId): int { NPROC + 2 * l }

  function Tail(l: ListId): int { NPROC + 2 * l + 1 }

  /** Element i of list l, with the head before and the tail after. */
  ghost function Node(l: ListId, q: seq<Pid>, i: int): (n: int)
    ensures 0 <= n < NQENT
  {
    if i < 0 then Head(l) else if i < |q| then q[i] else Tail(l)
  }

  /** Links run from head to tail through q, and back. */
  ghost predicate Chain(t: QTab, l: ListId, q: seq<Pid>) {
    && (forall i :: -1 <= i < |q| ==> t[Node(l, q, i)].qnext == Node(l, q, i + 1))
    && (forall i :: 0 <= i <= |q| ==> t[Node(l, q, i)].qprev == Node(l, q, i - 1))
    && t[Head(l)].qkey == MININT && t[Tail(l)].qkey == MAXINT
    && t[Head(l)].qprev == EMPTY && t[Tail(l)].qnext == EMPTY
  }

  ghost predicate Apart(lists: ListTab) {
    && (forall l: ListId :: NoDup(lists[l]))
    && (forall l: ListId, m: ListId, p: Pid {:trigger p in lists[l], p in lists[m]} ::
          p in lists[l] && p in lists[m] ==> l == m)
  }

  ghost predicate Linked(t: QTab, lists: ListTab) {
    Apart(lists) && forall l: ListId :: Chain(t, l, lists[l])
  }

  function Keys(t: QTab): KeyTab { seq(NPROC, i requires 0 <= i < NPROC => t[i].qkey) }

  // ---- linking in and out ----------------------------------------------

  function LinkIn(t: QTab, p: Pid, prev: int, next: int): QTab
    requires 0 <= prev < NQENT && 0 <= next < NQENT
  {
    var t1 := t[p := t[p].(qnext := next, qprev := prev)];
    var t2 := t1[prev := t1[prev].(qnext := p)];
    t2[next := t2[next].(qprev := p)]
  }

  function LinkOut(t: QTab, prev: int, next: int): QTab
    requires 0 <= prev < NQENT && 0 <= next < NQENT
  {
    var t1 := t[prev := t[prev].(qnext := next)];
    t1[next := t1[next].(qprev := prev)]
  }

  lemma NodeInserted(l: ListId, q: seq<Pid>, k: nat, p: Pid, i: int)
    requires k <= |q|
    ensures Node(l, InsertAt(q, k, p), i) ==
      if i < k then Node(l, q, i) else if i == k then p else Node(l, q, i - 1)
  {
  }

  /** Distinct positions are distinct nodes. */
  lemma NodeInjective(l: ListId, q: seq<Pid>, i: int, j: int)
    requires NoDup(q) && -1 <= i <= |q| && -1 <= j <= |q| && i != j
    ensures Node(l, q, i) != Node(l, q, j)
  {
  }

  lemma NextIn(t: QTab, l: ListId, q: seq<Pid>, k: nat, p: Pid, i: int)
    requires Chain(t, l, q) && NoDup(q) && p !in q && k <= |q| && -1 <= i <= |q|
    ensures var q' := InsertAt(q, k, p);
      LinkIn(t, p, Node(l, q, k - 1), Node(l, q, k))[Node(l, q', i)].qnext == Node(l, q', i + 1)
  {
    NodeInserted(l, q, k, p, i);
    NodeInserted(l, q, k, p, i + 1);
    hide InsertAt;
    if i < k - 1 {
      NodeInjective(l, q, i, k - 1);
    } else if i > k {
      NodeInjective(l, q, i - 1, k - 1);
    }
  }

  lemma PrevIn(t: QTab, l: ListId, q: seq<Pid>, k: nat, p: Pid, i: int)
    requires Chain(t, l, q) && NoDup(q) && p !in q && k <= |q| && 0 <= i <= |q| + 1
    ensures var q' := InsertAt(q, k, p);
      LinkIn(t, p, Node(l, q, k - 1), Node(l, q, k))[Node(l, q', i)].qprev == Node(l, q', i - 1)
  {
    NodeInserted(l, q, k, p, i);
    NodeInserted(l, q, k, p, i - 1);
    hide InsertAt;
    if i < k {
      NodeInjective(l, q, i, k);
    } else if i > k + 1 {
      NodeInjective(l, q, i - 1, k);
    }
  }

  lemma ChainIn(t: QTab, l: ListId, q: seq<Pid>, k: nat, p: Pid)
    requires Chain(t, l, q) && NoDup(q) && p !in q && k <= |q|
    ensures Chain(LinkIn(t, p, Node(l, q, k - 1), Node(l, q, k)), l, InsertAt(q, k, p))
  {
    var q' := InsertAt(q, k, p);
    var t' := LinkIn(t, p, Node(l, q, k - 1), Node(l, q, k));
    assert |q'| == |q| + 1;
    hide NoDup, InsertAt;
    forall i | -1 <= i < |q'| ensures t'[Node(l, q', i)].qnext == Node(l, q', i + 1) {
      NextIn(t, l, q, k, p, i);
    }
    forall i | 0 <= i <= |q'| ensures t'[Node(l, q', i)].qprev == Node(l, q', i - 1) {
      PrevIn(t, l, q, k, p, i);
    }
  }

  ghost predicate SameLinks(t: QTab, t': QTab, n: int)
    requires 0 <= n < NQENT
  {
    t'[n].qnext == t[n].qnext && t'[n].qprev == t[n].qprev
  }

  /** A list none of whose links were touched is still linked. */
  lemma ChainFrame(t: QTab, t': QTab, l: ListId, q: seq<Pid>)
    requires Chain(t, l, q)
    requires forall i :: -1 <= i <= |q| ==> SameLinks(t, t', Node(l, q, i))
    requires t'[Head(l)].qkey == t[Head(l)].qkey && t'[Tail(l)].qkey == t[Tail(l)].qkey
    ensures Chain(t', l, q)
  {
    assert Head(l) == Node(l, q, -1) && Tail(l) == Node(l, q, |q|);
    forall i | -1 <= i < |q| ensures t'[Node(l, q, i)].qnext == Node(l, q, i + 1) {
      assert SameLinks(t, t', Node(l, q, i));
    }
    forall i | 0 <= i <= |q| ensures t'[Node(l, q, i)].qprev == Node(l, q, i - 1) {
      assert SameLinks(t, t', Node(l, q, i));
    }
  }

  /** Nodes of different lists are different. */
  lemma NodesApart(lists: ListTab, l: ListId, m: ListId, i: int, j: int)
    requires Apart(lists) && l != m && -1 <= i <= |lists[l]| && -1 <= j <= |lists[m]|
    ensures Node(l, lists[l], i) != Node(m, lists[m], j)
  {
    if 0 <= i < |lists[l]| && 0 <= j < |lists[m]| {
      assert lists[l][i] in lists[l] && lists[m][j] in lists[m];
    }
  }

  lemma LinkInKeeps(t: QTab, lists: ListTab, l: ListId, k: nat, p: Pid)
    requires Linked(t, lists) && k <= |lists[l]|
    requires forall m: ListId :: p !in lists[m]
    ensures Linked(LinkIn(t, p, Node(l, lists[l], k - 1), Node(l, lists[l], k)),
                   lists[l := InsertAt(lists[l], k, p)])
  {
    hide Chain;
    hide NoDup;
    var q := lists[l];
    var t' := LinkIn(t, p, Node(l, q, k - 1), Node(l, q, k));
    ApartIn(lists, l, k, p);
    var lists' := lists[l := InsertAt(q, k, p)];
    forall m: ListId ensures Chain(t', m, lists'[m]) {
      if m == l {
        ChainIn(t, l, q, k, p);
      } else {
        forall i | -1 <= i <= |lists[m]|
          ensures SameLinks(t, t', Node(m, lists[m], i))
        {
          NodesApart(lists, m, l, i, k - 1);
          NodesApart(lists, m, l, i, k);
        }
        ChainFrame(t, t', m, lists[m]);
      }
    }
  }

  lemma ApartIn(lists: ListTab, l: ListId, k: nat, p: Pid)
    requires Apart(lists) && k <= |lists[l]|
    requires forall m: ListId :: p !in lists[m]
    ensures Apart(lists[l := InsertAt(lists[l], k, p)])
  {
    InsertAtNoDup(lists[l], k, p);
  }

  lemma NodeDropped(l: ListId, q: seq<Pid>, k: nat, i: int)
    requires k < |q|
    ensures Node(l, q[..k] + q[k + 1..], i) == if i < k then Node(l, q, i) else Node(l, q, i + 1)
  {
  }

  lemma ChainOut(t: QTab, l: ListId, q: seq<Pid>, k: nat)
    requires Chain(t, l, q) && NoDup(q) && k < |q|
    ensures Chain(LinkOut(t, Node(l, q, k - 1), Node(l, q, k + 1)), l, q[..k] + q[k + 1..])
  {
    var q' := q[..k] + q[k + 1..];
    var t' := LinkOut(t, Node(l, q, k - 1), Node(l, q, k + 1));
    forall i | -1 <= i < |q'| ensures t'[Node(l, q', i)].qnext == Node(l, q', i + 1) {
      NodeDropped(l, q, k, i);
      NodeDropped(l, q, k, i + 1);
      if i < k - 1 {
        NodeInjective(l, q, i, k - 1);
      } else if i >= k {
        NodeInjective(l, q, i + 1, k - 1);
      }
    }
    forall i | 0 <= i <= |q'| ensures t'[Node(l, q', i)].qprev == Node(l, q', i - 1) {
      NodeDropped(l, q, k, i);
      NodeDropped(l, q, k, i - 1);
      if i < k {
        NodeInjective(l, q, i, k + 1);
      } else if i > k {
        NodeInjective(l, q, i + 1, k + 1);
      }
    }
  }

  lemma LinkOutKeeps(t: QTab, lists: ListTab, l: ListId, k: nat)
    requires Linked(t, lists) && k < |lists[l]|
    ensures Linked(LinkOut(t, Node(l, lists[l], k - 1), Node(l, lists[l], k + 1)),
                   lists[l := Without(lists[l], lists[l][k])])
  {
    hide Chain;
    hide NoDup;
    var q := lists[l];
    var t' := LinkOut(t, Node(l, q, k - 1), Node(l, q, k + 1));
    ApartOut(lists, l, q[k]);
    WithoutAt(q, k);
    var lists' := lists[l := Without(q, q[k])];
    forall m: ListId ensures Chain(t', m, lists'[m]) {
      if m == l {
        ChainOut(t, l, q, k);
      } else {
        forall i | -1 <= i <= |lists[m]|
          ensures SameLinks(t, t', Node(m, lists[m], i))
        {
          NodesApart(lists, m, l, i, k - 1);
          NodesApart(lists, m, l, i, k + 1);
        }
        ChainFrame(t, t', m, lists[m]);
      }
    }
  }

  lemma ApartOut(lists: ListTab, l: ListId, p: Pid)
    requires Apart(lists) && p in lists[l]
    ensures Apart(lists[l := Without(lists[l], p)])
  {
    WithoutNoDup(lists[l], p);
  }

  /** New keys for processes do not disturb the links. */
  lemma RekeyKeeps(t: QTab, t': QTab, lists: ListTab)
    requires Linked(t, lists)
    requires forall i :: 0 <= i < NQENT ==> SameLinks(t, t', i)
    requires forall i :: NPROC <= i < NQENT ==> t'[i] == t[i]
    ensures Linked(t', lists)
  {
    hide Apart;
    hide Chain;
    forall m: ListId ensures Chain(t', m, lists[m]) {
      ChainFrame(t, t', m, lists[m]);
    }
  }

  /** The five assignments at the end of insert and insertd. */
  function Splice(t: QTab, p: Pid, prev: int, next: int, key: int): QTab
    requires 0 <= prev < NQENT && 0 <= next < NQENT
  {
    var t1 := t[p := QEnt(key, next, prev)];
    var t2 := t1[prev := t1[prev].(qnext := p)];
    t2[next := t2[next].(qprev := p)]
  }

  lemma SpliceKeeps(t: QTab, lists: ListTab, l: ListId, k: nat, p: Pid, key: int)
    requires Linked(t, lists) && k <= |lists[l]|
    requires forall m: ListId :: p !in lists[m]
    ensures var t' := Splice(t, p, Node(l, lists[l], k - 1), Node(l, lists[l], k), key);
      && Linked(t', lists[l := InsertAt(lists[l], k, p)])
      && Keys(t') == Keys(t)[p := key]
  {
    hide Linked;
    var prev, next := Node(l, lists[l], k - 1), Node(l, lists[l], k);
    LinkInKeeps(t, lists, l, k, p);
    RekeyKeeps(LinkIn(t, p, prev, next), Splice(t, p, prev, next, key), lists[l := InsertAt(lists[l], k, p)]);
  }

  /** One link, both ways. */
  lemma LinkAt(t: QTab, lists: ListTab, l: ListId, i: int)
    requires Linked(t, lists) && -1 <= i < |lists[l]|
    ensures t[Node(l, lists[l], i)].qnext == Node(l, lists[l], i + 1)
    ensures t[Node(l, lists[l], i + 1)].qprev == Node(l, lists[l], i)
  {
    assert Chain(t, l, lists[l]);
  }

  lemma SentinelKeys(t: QTab, lists: ListTab, l: ListId)
    requires Linked(t, lists)
    ensures t[Head(l)].qkey == MININT && t[Tail(l)].qkey == MAXINT
  {
    assert Chain(t, l, lists[l]);
  }

  lemma OnOneList(t: QTab, lists: ListTab, l: ListId)
    requires Linked(t, lists)
    ensures NoDup(lists[l])
  {
  }

  /** qnext and qprev are inverse to each other along every list. */
  lemma LinksInverse(t: QTab, lists: ListTab, l: ListId, i: int)
    requires Linked(t, lists) && 0 <= i < |lists[l]|
    ensures var p := lists[l][i];
      && 0 <= t[p].qnext < NQENT && t[t[p].qnext].qprev == p
      && 0 <= t[p].qprev < NQENT && t[t[p].qprev].qnext == p
  {
    LinkAt(t, lists, l, i);
    LinkAt(t, lists, l, i - 1);
  }
}
