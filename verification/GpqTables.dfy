/** The queue in its two arrays. Each call is its test, made before the queue is
    locked, and the part that runs under the lock. */
module GpqTables {
  import opened GpqSpec
  import R = GpqRaces

  class Gpq {
    const q_max: nat
    const q_key: array<int>
    const q_elt: array<int>
    var q_count: int
    var q_seen: int

    ghost predicate Valid()
      reads this
    {
      q_key.Length == q_elt.Length == q_max && q_key != q_elt && q_count <= q_max && (q_count < 0 ==> q_max > 0)
    }

    ghost function Items(): (s: seq<Item>)
      reads this, q_key, q_elt
      requires Valid()
    {
      if q_count <= 0 then [] else Zip(q_elt[..q_count], q_key[..q_count])
    }

    ghost function First(): Item
      reads this, q_key, q_elt
      requires Valid()
    {
      if q_max == 0 then Item(0, 0) else Item(q_elt[0], q_key[0])
    }

    ghost function Abs(): R.Queue
      reads this, q_key, q_elt
      requires Valid()
    {
      R.Queue(Items(), if q_count < 0 then -q_count else 0, First(), q_max, false)
    }

    constructor (size: nat)
      ensures Valid() && fresh(q_key) && fresh(q_elt)
      ensures q_max == size && q_seen == -1 && Items() == [] && q_count == 0
    {
      q_max := size;
      q_key := new int[size];
      q_elt := new int[size];
      q_count, q_seen := 0, -1;
    }

    // ---- whole calls, nothing in between -----------------------------------

    /** Slots left, or -1 and no change when full. */
    method Enq(elt: int, key: int) returns (left: int)
      requires Valid()
      modifies this`q_count, q_key, q_elt
      ensures Valid()
      ensures old(q_count) >= q_max ==> left == -1 && Abs() == old(Abs())
      ensures old(q_count) < q_max ==> Items() == Insert(old(Items()), Item(elt, key)) && left == q_max - |Items()|
    {
      var may := MayEnq();
      if !may {
        return -1;
      }
      left := EnqLocked(elt, key);
    }

    /** The element of the first item, or nothing and no change when empty. */
    method Deq() returns (r: Option<int>)
      requires Valid()
      modifies this`q_count, q_key, q_elt
      ensures Valid()
      ensures if old(Items()) == [] then r == None && Abs() == old(Abs())
        else r == Some(old(Items())[0].elt) && Items() == old(Items())[1..]
    {
      var may := MayDeq();
      if !may {
        return None;
      }
      var elt := DeqLocked();
      r := Some(elt);
    }

    /** The head, or nothing when the count is 0; below 0, whatever is left in
        the first slot. */
    method Headq() returns (r: Option<int>)
      requires Valid()
      ensures q_count >= 0 ==> r == if Items() == [] then None else Some(Items()[0].elt)
      ensures q_count < 0 ==> r == Some(First().elt)
    {
      var may := MayLook();
      if !may {
        return None;
      }
      var elt := HeadLocked();
      r := Some(elt);
    }

    /** The next element in order; below 0 the count ends every such round at
        its start. */
    method Seeq() returns (r: Option<int>)
      requires Valid() && q_seen >= -1
      modifies this`q_seen
      ensures q_count >= 0 ==> (q_seen, r) == See(Items(), old(q_seen)) && q_seen >= -1
      ensures q_count < 0 ==> q_seen == -1 && r == None
    {
      var may := MayLook();
      if !may {
        return None;
      }
      r := SeeLocked();
    }

    // ---- the tests -----------------------------------------------------------

    method MayEnq() returns (may: bool)
      requires Valid()
      ensures may == R.MayEnq(Abs())
    {
      may := !(q_count >= q_max);
    }

    method MayDeq() returns (may: bool)
      requires Valid()
      ensures may == R.MayDeq(Abs())
    {
      may := !(q_count <= 0);
    }

    method MayLook() returns (may: bool)
      requires Valid()
      ensures may == R.MayLook(Abs())
    {
      may := !(q_count == 0);
    }

    // ---- under the lock ---------------------------------------------------------

    method EnqLocked(elt: int, key: int) returns (left: int)
      requires Valid() && R.MayEnq(Abs())
      modifies this`q_count, q_key, q_elt
      ensures Valid() && Abs() == R.EnqLocked(old(Abs()), Item(elt, key))
      ensures left == q_max - |Items()|
    {
      hide Insert, Place;
      ghost var s := Items();
      if q_count < 0 {
        q_count := 0;
      }
      var i := Scan(key);
      Shift(i);
      q_key[i + 1] := key;
      q_elt[i + 1] := elt;
      q_count := q_count + 1;
      Shifted(s, Items(), i + 1, Item(elt, key));
      left := q_max - q_count;
    }

    /** Whatever the count is by now. */
    method DeqLocked() returns (elt: int)
      requires Valid() && q_max > 0
      modifies this`q_count, q_key, q_elt
      ensures Valid() && elt == old(Abs()).first.elt && Abs() == R.DeqLocked(old(Abs()))
    {
      ghost var k0, e0, n, s := q_key[..], q_elt[..], q_count, Items();
      elt := q_elt[0];
      var i := 1;
      while i < q_count
        invariant n == q_count && 1 <= i && (n > 0 ==> i <= n) && (n <= 0 ==> i == 1)
        invariant forall k :: 0 <= k < i - 1 ==> q_key[k] == k0[k + 1] && q_elt[k] == e0[k + 1]
        invariant q_key[i - 1..] == k0[i - 1..] && q_elt[i - 1..] == e0[i - 1..]
      {
        assert k0[i - 1..][1] == k0[i] && e0[i - 1..][1] == e0[i];
        q_elt[i - 1] := q_elt[i];
        q_key[i - 1] := q_key[i];
        i := i + 1;
      }
      q_count := q_count - 1;
      if n > 0 {
        assert Items() == s[1..];
      }
      assert n <= 1 ==> q_key[0..][0] == k0[0..][0] && q_elt[0..][0] == e0[0..][0];
    }

    method HeadLocked() returns (elt: int)
      requires Valid() && q_max > 0
      ensures elt == Abs().first.elt
    {
      elt := q_elt[0];
    }

    method SeeLocked() returns (r: Option<int>)
      requires Valid() && q_seen >= -1
      modifies this`q_seen
      ensures (q_seen, r) == R.SeeLocked(old(Abs()), old(q_seen)) && q_seen >= -1
    {
      q_seen := q_seen + 1;
      if q_seen >= q_count {
        q_seen := -1;
        return None;
      }
      r := Some(q_elt[q_seen]);
    }

    /** Everything behind place i moves one place back. */
    method Shift(i: int)
      requires Valid() && -1 <= i < q_count < q_max
      modifies q_key, q_elt
      ensures forall k :: 0 <= k <= i ==> q_key[k] == old(q_key[k]) && q_elt[k] == old(q_elt[k])
      ensures forall k :: i + 1 < k <= q_count ==> q_key[k] == old(q_key[k - 1]) && q_elt[k] == old(q_elt[k - 1])
    {
      var j := q_count - 1;
      while j > i
        invariant i <= j < q_count
        invariant forall k :: 0 <= k <= j ==> q_key[k] == old(q_key[k]) && q_elt[k] == old(q_elt[k])
        invariant forall k :: j + 1 < k <= q_count ==> q_key[k] == old(q_key[k - 1]) && q_elt[k] == old(q_elt[k - 1])
      {
        q_key[j + 1] := q_key[j];
        q_elt[j + 1] := q_elt[j];
        j := j - 1;
      }
    }

    /** The scan from the tail. */
    method Scan(key: int) returns (i: int)
      requires Valid() && q_count >= 0
      ensures -1 <= i < q_count && i + 1 == Place(Items(), key)
    {
      i := q_count - 1;
      ghost var s := Items();
      assert s[..i + 1] == s;
      while i >= 0 && key > q_key[i]
        invariant -1 <= i < q_count
        invariant Place(s, key) == Place(s[..i + 1], key)
      {
        assert s[..i + 1][..i] == s[..i];
        i := i - 1;
      }
    }
  }

  function Zip(elts: seq<int>, keys: seq<int>): (s: seq<Item>)
    requires |elts| == |keys|
    ensures |s| == |elts| && forall i :: 0 <= i < |s| ==> s[i] == Item(elts[i], keys[i])
  {
    seq(|elts|, i requires 0 <= i < |elts| => Item(elts[i], keys[i]))
  }

  /** Shifting by one from p on and writing x there is an insertion at p. */
  lemma Shifted(s: seq<Item>, r: seq<Item>, p: nat, x: Item)
    requires p == Place(s, x.key) && |r| == |s| + 1 && r[p] == x
    requires forall k {:trigger r[k]} :: 0 <= k < p ==> r[k] == s[k]
    requires forall k {:trigger r[k]} :: p < k < |r| ==> r[k] == s[k - 1]
    ensures r == Insert(s, x)
  {
    var t := Insert(s, x);
    hide Place, Insert;
    assert t == s[..p] + [x] + s[p..] by { InsertIs(s, x); }
    forall k | 0 <= k < |r| ensures r[k] == t[k] {
    }
  }

  lemma InsertIs(s: seq<Item>, x: Item)
    ensures Insert(s, x) == s[..Place(s, x.key)] + [x] + s[Place(s, x.key)..]
  {
  }
}
