/** The clock queue keeps delays relative to the process in front. What each
    operation on it does to absolute deadlines. */
module SleepQueue {
  import opened Ints
  import opened Lists
  import opened KernelSpec
  import opened KernelInv

  /** Ticks until p's delay on queue q has run out. */
  ghost function Due(key: KeyTab, q: seq<Pid>, p: Pid): int
    requires p in q
  {
    if q[0] == p then key[p] else key[q[0]] + Due(key, q[1..], p)
  }

  lemma {:induction false} DueFrame(key: KeyTab, key': KeyTab, q: seq<Pid>, p: Pid)
    requires p in q && forall x: Pid :: x in q ==> key'[x] == key[x]
    ensures Due(key', q, p) == Due(key, q, p)
  {
    if q[0] != p {
      DueFrame(key, key', q[1..], p);
    }
  }

  /** Changing the first delay by d moves every deadline by d. */
  lemma DueShift(key: KeyTab, key': KeyTab, q: seq<Pid>, p: Pid, d: int)
    requires p in q && NoDup(q)
    requires key' == key[q[0] := key[q[0]] + d]
    ensures Due(key', q, p) == Due(key, q, p) + d
  {
    if q[0] != p {
      DueFrame(key, key', q[1..], p);
    }
  }

  lemma {:induction false} DueLowerBound(key: KeyTab, q: seq<Pid>, p: Pid)
    requires p in q && forall x: Pid :: x in q ==> key[x] >= 0
    ensures Due(key, q, p) >= key[q[0]]
  {
    if q[0] != p {
      DueLowerBound(key, q[1..], p);
    }
  }

  /** Putting a process in front leaves those behind later by its delay. */
  lemma DueCons(key: KeyTab, p: Pid, q: seq<Pid>, x: Pid)
    requires x in q && x != p
    ensures x in [p] + q && Due(key, [p] + q, x) == key[p] + Due(key, q, x)
  {
    assert ([p] + q)[1..] == q;
  }

  /** The clock queue is in the order of its deadlines. */
  lemma {:induction false} DueOrdered(key: KeyTab, q: seq<Pid>, i: nat, j: nat)
    requires NoDup(q) && i < j < |q| && forall x: Pid :: x in q ==> key[x] >= 0
    ensures Due(key, q, q[i]) <= Due(key, q, q[j])
  {
    assert q[j] in q && q[i] in q && q[0] in q;
    if i == 0 {
      DueLowerBound(key, q, q[j]);
    } else {
      assert q[0] != q[i] && q[0] != q[j];
      assert q[1..][i - 1] == q[i] && q[1..][j - 1] == q[j];
      DueOrdered(key, q[1..], i - 1, j - 1);
    }
  }

  // ---- insertd ---------------------------------------------------------

  function DQueue(key: KeyTab, q: seq<Pid>, p: Pid, k: int): seq<Pid> {
    InsertAt(q, DPos(key, q, k).0, p)
  }

  function DNewKeys(key: KeyTab, q: seq<Pid>, p: Pid, k: int): KeyTab {
    var (i, rem) := DPos(key, q, k);
    DKeys(key, q, p, i, rem)
  }

  /** insertd past its first element is insertd on the rest with what is left
      of the key. */
  lemma DUnfold(key: KeyTab, q: seq<Pid>, p: Pid, k: int)
    requires q != [] && key[q[0]] < k && p !in q && NoDup(q)
    ensures DQueue(key, q, p, k) == [q[0]] + DQueue(key, q[1..], p, k - key[q[0]])
    ensures DNewKeys(key, q, p, k) == DNewKeys(key, q[1..], p, k - key[q[0]])
    ensures DNewKeys(key, q, p, k)[q[0]] == key[q[0]]
  {
    var (i, rem) := DPos(key, q[1..], k - key[q[0]]);
    assert q[..i + 1] == [q[0]] + q[1..][..i];
    assert q[i + 1..] == q[1..][i..];
  }

  /** The sleeper gets exactly the deadline asked for. */
  lemma {:induction false} InsertDOwn(key: KeyTab, q: seq<Pid>, p: Pid, k: int)
    requires NoDup(q) && p !in q
    ensures p in DQueue(key, q, p, k)
    ensures Due(DNewKeys(key, q, p, k), DQueue(key, q, p, k), p) == k
  {
    if q != [] && key[q[0]] < k {
      DUnfold(key, q, p, k);
      InsertDOwn(key, q[1..], p, k - key[q[0]]);
      DueCons(DNewKeys(key, q, p, k), q[0], DQueue(key, q[1..], p, k - key[q[0]]), p);
    } else {
      assert DQueue(key, q, p, k)[0] == p;
    }
  }

  /** No other sleeper's deadline moves. */
  lemma {:induction false} InsertDOthers(key: KeyTab, q: seq<Pid>, p: Pid, k: int, x: Pid)
    requires NoDup(q) && p !in q && x in q
    ensures x in DQueue(key, q, p, k)
    ensures Due(DNewKeys(key, q, p, k), DQueue(key, q, p, k), x) == Due(key, q, x)
  {
    var key' := DNewKeys(key, q, p, k);
    if key[q[0]] < k {
      DUnfold(key, q, p, k);
      if x != q[0] {
        InsertDOthers(key, q[1..], p, k - key[q[0]], x);
        DueCons(key', q[0], DQueue(key, q[1..], p, k - key[q[0]]), x);
      }
    } else {
      assert DQueue(key, q, p, k) == [p] + q;
      DueCons(key', p, q, x);
      DueShift(key[p := k], key', q, x, -k);
      DueFrame(key, key[p := k], q, x);
    }
  }

  /** The newcomer goes in front of exactly those due no earlier than it. */
  lemma {:induction false} InsertDPlace(key: KeyTab, q: seq<Pid>, k: int, j: nat)
    requires NoDup(q) && j < |q| && forall x: Pid :: x in q ==> key[x] >= 0
    ensures j < DPos(key, q, k).0 <==> Due(key, q, q[j]) < k
  {
    assert q[j] in q && q[0] in q;
    if key[q[0]] >= k {
      DueLowerBound(key, q, q[j]);
    } else if j > 0 {
      assert q[0] != q[j] && q[1..][j - 1] == q[j];
      InsertDPlace(key, q[1..], k - key[q[0]], j - 1);
    }
  }

  lemma InsertDFront(key: KeyTab, q: seq<Pid>, p: Pid, k: int)
    requires p !in q && NoDup(q) && DeltasOK(key, q) && 0 <= k <= MAXINT
    requires q == [] || key[q[0]] >= k
    ensures DeltasOK(DNewKeys(key, q, p, k), DQueue(key, q, p, k))
    ensures Total(DNewKeys(key, q, p, k), DQueue(key, q, p, k)) == if q != [] then Total(key, q) else k
  {
    var key' := DNewKeys(key, q, p, k);
    assert DQueue(key, q, p, k) == [p] + q && ([p] + q)[1..] == q;
    if q != [] {
      TotalFrame(key, key', q[1..]);
    }
  }

  /** Delays stay non-negative and their sum within an int. */
  lemma {:induction false} InsertDDeltas(key: KeyTab, q: seq<Pid>, p: Pid, k: int)
    requires NoDup(q) && p !in q && DeltasOK(key, q) && 0 <= k <= MAXINT
    ensures DeltasOK(DNewKeys(key, q, p, k), DQueue(key, q, p, k))
    ensures Total(DNewKeys(key, q, p, k), DQueue(key, q, p, k)) ==
      if DPos(key, q, k).0 < |q| then Total(key, q) else k
  {
    if q != [] && key[q[0]] < k {
      var key' := DNewKeys(key, q, p, k);
      var r := DQueue(key, q[1..], p, k - key[q[0]]);
      DUnfold(key, q, p, k);
      TotalNonNeg(key, q[1..]);
      InsertDDeltas(key, q[1..], p, k - key[q[0]]);
      assert ([q[0]] + r)[1..] == r;
      forall y: Pid | y in [q[0]] + r ensures key'[y] >= 0 {
        assert y == q[0] || y in r;
      }
    } else {
      InsertDFront(key, q, p, k);
    }
  }

  // ---- unsleep ---------------------------------------------------------

  lemma {:induction false} HandOnFrame(key: KeyTab, q: seq<Pid>, p: Pid, x: Pid)
    requires q != [] && x !in q[1..]
    ensures HandOn(key, q, p)[x] == key[x]
  {
    if q[0] != p && |q| > 1 {
      HandOnFrame(key, q[1..], p, x);
    }
  }

  /** No other sleeper's deadline moves when p leaves early. */
  lemma {:induction false} UnsleepOthers(key: KeyTab, q: seq<Pid>, p: Pid, x: Pid)
    requires NoDup(q) && p in q && x in q && x != p
    ensures x in Without(q, p)
    ensures Due(HandOn(key, q, p), Without(q, p), x) == Due(key, q, x)
  {
    var key' := HandOn(key, q, p);
    if q[0] == p {
      DueShift(key, key', q[1..], x, key[p]);
    } else {
      HandOnFrame(key, q, p, q[0]);
      assert Without(q, p) == [q[0]] + Without(q[1..], p);
      if x != q[0] {
        UnsleepOthers(key, q[1..], p, x);
        DueCons(key', q[0], Without(q[1..], p), x);
      }
    }
  }

  lemma {:induction false} UnsleepDeltas(key: KeyTab, q: seq<Pid>, p: Pid)
    requires NoDup(q) && p in q && DeltasOK(key, q)
    ensures DeltasOK(HandOn(key, q, p), Without(q, p))
    ensures Total(HandOn(key, q, p), Without(q, p)) <= Total(key, q)
  {
    var key' := HandOn(key, q, p);
    WithoutNoDup(q, p);
    if q[0] == p {
      if |q| > 1 {
        TotalFrame(key, key', q[2..]);
        assert q[1..][1..] == q[2..];
        assert Total(key, q) == key[p] + key[q[1]] + Total(key, q[2..]);
        assert q[1] != p && Total(key', q[1..]) == key'[q[1]] + Total(key', q[2..]);
      }
      forall y: Pid | y in Without(q, p) ensures key'[y] >= 0 {
        assert y in q && q[0] in q;
      }
    } else {
      HandOnFrame(key, q, p, q[0]);
      assert Without(q, p)[1..] == Without(q[1..], p);
      UnsleepDeltas(key, q[1..], p);
      forall y: Pid | y in Without(q, p) ensures key'[y] >= 0 {
        assert y == q[0] || y in Without(q[1..], p);
      }
    }
  }

  // ---- strtclk ---------------------------------------------------------

  lemma {:induction false} MakeUpFrame(key: KeyTab, q: seq<Pid>, m: int, x: Pid)
    requires x !in q
    ensures MakeUp(key, q, m)[x] == key[x]
    decreases |q|
  {
    if q != [] && key[q[0]] < m {
      MakeUpFrame(key[q[0] := 0], q[1..], m - key[q[0]], x);
    }
  }

  /** m deferred ticks bring every deadline m closer, but not below now. */
  lemma {:induction false} MakeUpDue(key: KeyTab, q: seq<Pid>, m: nat, x: Pid)
    requires NoDup(q) && x in q && forall y: Pid :: y in q ==> key[y] >= 0
    ensures Due(MakeUp(key, q, m), q, x) ==
      if Due(key, q, x) <= m then 0 else Due(key, q, x) - m
    decreases |q|
  {
    DueLowerBound(key, q, x);
    if key[q[0]] < m {
      var key1 := key[q[0] := 0];
      MakeUpFrame(key1, q[1..], m - key[q[0]], q[0]);
      if x != q[0] {
        MakeUpDue(key1, q[1..], m - key[q[0]], x);
        DueFrame(key, key1, q[1..], x);
      }
    } else {
      DueShift(key, MakeUp(key, q, m), q, x, 0 - m);
    }
  }

  lemma {:induction false} MakeUpDeltas(key: KeyTab, q: seq<Pid>, m: nat)
    requires NoDup(q) && DeltasOK(key, q)
    ensures DeltasOK(MakeUp(key, q, m), q) && Total(MakeUp(key, q, m), q) <= Total(key, q)
    decreases |q|
  {
    var key' := MakeUp(key, q, m);
    if q != [] && key[q[0]] < m {
      var key1 := key[q[0] := 0];
      TotalFrame(key, key1, q[1..]);
      MakeUpFrame(key1, q[1..], m - key[q[0]], q[0]);
      MakeUpDeltas(key1, q[1..], m - key[q[0]]);
      forall y: Pid | y in q ensures key'[y] >= 0 {
        assert y == q[0] || y in q[1..];
      }
    } else if q != [] {
      TotalFrame(key, key', q[1..]);
    }
  }

  // ---- wakeup ----------------------------------------------------------

  /** How many processes wakeup takes off the front. */
  ghost function Expired(key: KeyTab, q: seq<Pid>): (n: nat)
    ensures n <= |q|
    ensures n < |q| ==> key[q[n]] > 0
  {
    if q == [] || key[q[0]] > 0 then 0 else 1 + Expired(key, q[1..])
  }

  /** With no negative delay, those are the ones whose deadline is now. */
  lemma {:induction false} ExpiredDue(key: KeyTab, q: seq<Pid>, x: Pid)
    requires x in q && NoDup(q) && forall y: Pid :: y in q ==> key[y] >= 0
    ensures x in q[..Expired(key, q)] <==> Due(key, q, x) == 0
  {
    var n := Expired(key, q);
    DueLowerBound(key, q, x);
    if key[q[0]] == 0 {
      assert q[..n] == [q[0]] + q[1..][..n - 1];
      if x != q[0] {
        ExpiredDue(key, q[1..], x);
      }
    }
  }

  /** Dropping the first n sleepers makes the rest due sooner by their delays. */
  lemma {:induction false} DueDrop(key: KeyTab, q: seq<Pid>, n: nat, x: Pid)
    requires n <= |q| && x in q[n..] && NoDup(q)
    ensures Due(key, q, x) == Total(key, q[..n]) + Due(key, q[n..], x)
    decreases n
  {
    if n > 0 {
      assert q[n..] == q[1..][n - 1..];
      assert q[..n][1..] == q[1..][..n - 1];
      assert x in q[1..][n - 1..] && q[0] != x;
      DueDrop(key, q[1..], n - 1, x);
    } else {
      assert q[0..] == q;
    }
  }

  /** The sleepers wakeup leaves keep their deadlines. */
  lemma {:induction false} ExpiredTotal(key: KeyTab, q: seq<Pid>)
    requires forall y: Pid :: y in q ==> key[y] >= 0
    ensures Total(key, q[..Expired(key, q)]) == 0
  {
    var n := Expired(key, q);
    if q != [] && key[q[0]] <= 0 {
      assert q[..n][1..] == q[1..][..n - 1];
      ExpiredTotal(key, q[1..]);
    }
  }
}
