/** The same code over the frames' words and frm_tab. */
module PageTables {
  import P = PageSpec
  import opened PageSpec

  /** A row of which the first i entries have been written. */
  function Written(goal: seq<Entry>, was: seq<Entry>, i: nat): (r: seq<Entry>)
    requires |goal| == |was| && i <= |was|
    ensures |r| == |was|
  {
    goal[..i] + was[i..]
  }

  lemma WrittenNone(goal: seq<Entry>, words: seq<seq<Entry>>, f: int)
    requires 0 <= f < |words| && |goal| == |words[f]|
    ensures words[f := Written(goal, words[f], 0)] == words
  {
    assert Written(goal, words[f], 0) == words[f];
  }

  lemma WrittenMore(goal: seq<Entry>, was: seq<Entry>, i: nat)
    requires |goal| == |was| && i < |was|
    ensures Written(goal, was, i)[i := goal[i]] == Written(goal, was, i + 1)
  {
  }

  lemma WrittenAll(goal: seq<Entry>, was: seq<Entry>)
    requires |goal| == |was|
    ensures Written(goal, was, |was|) == goal
  {
  }

  lemma RestKept(w: seq<Entry>)
    requires |w| == ENTRIES
    ensures Written(Cleared(w), w, NFRAMES) == Cleared(w)
  {
  }

  class Paging {
    const mem: array2<Entry>
    const frm_tab: array<Frm>
    var pdbr: map<int, int>
    ghost var words: seq<seq<Entry>>

    ghost predicate Valid()
      reads this, mem, frm_tab
    {
      && mem.Length0 == NFRAMES && mem.Length1 == ENTRIES && frm_tab.Length == NFRAMES
      && Shaped(Abs())
      && forall f, j {:trigger mem[f, j]} :: 0 <= f < NFRAMES && 0 <= j < ENTRIES ==> mem[f, j] == words[f][j]
    }

    ghost function Abs(): Vm
      reads this, frm_tab
    {
      Vm(words, frm_tab[..], pdbr)
    }

    /** The machine's frames, whatever is in them, and init_frm. */
    constructor (memory: array2<Entry>, ghost contents: seq<seq<Entry>>)
      requires memory.Length0 == NFRAMES && memory.Length1 == ENTRIES && |contents| == NFRAMES
      requires forall f :: 0 <= f < NFRAMES ==> |contents[f]| == ENTRIES
      requires forall f, j :: 0 <= f < NFRAMES && 0 <= j < ENTRIES ==> memory[f, j] == contents[f][j]
      ensures Valid() && mem == memory && fresh(frm_tab)
      ensures Abs() == Vm(contents, seq(NFRAMES, _ => FREE_FRM), map[])
    {
      mem := memory;
      frm_tab := new Frm[NFRAMES](_ => FREE_FRM);
      pdbr := map[];
      words := contents;
      new;
      for i := 0 to NFRAMES
        invariant forall k :: 0 <= k < i ==> frm_tab[k] == FREE_FRM
        invariant words == contents && pdbr == map[]
      {
        frm_tab[i] := FREE_FRM;
      }
      assert frm_tab[..] == seq(NFRAMES, _ => FREE_FRM);
    }

    /** get_frm up to the end of its scan. */
    method GetFrm() returns (avail: nat)
      requires Valid()
      ensures avail == Scan(frm_tab[..], 0)
    {
      avail := 0;
      while avail < NFRAMES && frm_tab[avail].mapped
        invariant avail <= NFRAMES && Scan(frm_tab[..], 0) == Scan(frm_tab[..], avail)
      {
        avail := avail + 1;
      }
    }

    /** One entry written. */
    method SetEntry(f: int, j: int, e: Entry)
      requires Valid() && 0 <= f < NFRAMES && 0 <= j < ENTRIES
      modifies this`words, mem
      ensures Valid() && words == old(words)[f := old(words)[f][j := e]]
    {
      mem[f, j] := e;
      words := words[f := words[f][j := e]];
    }

    /** The inner loop of sysinit. */
    method FillIdentity(f: int, i: int)
      requires Valid() && 0 <= f < NFRAMES
      modifies this`words, mem
      ensures Valid() && words == old(words)[f := IdTable(i)]
    {
      ghost var all, w := words, words[f];
      hide Written;
      WrittenNone(IdTable(i), words, f);
      for j := 0 to ENTRIES
        invariant Valid() && words == all[f := Written(IdTable(i), w, j)]
      {
        WrittenMore(IdTable(i), w, j);
        SetEntry(f, j, Entry(true, true, i * FRAME0 + j));
      }
      WrittenAll(IdTable(i), w);
    }

    /** The loop of allocate_pd. */
    method FillDirectory(f: int)
      requires Valid() && 0 <= f < NFRAMES
      modifies this`words, mem
      ensures Valid() && words == old(words)[f := DirEntries()]
    {
      ghost var all, w := words, words[f];
      hide Written;
      WrittenNone(DirEntries(), words, f);
      for i := 0 to ENTRIES
        invariant Valid() && words == all[f := Written(DirEntries(), w, i)]
      {
        WrittenMore(DirEntries(), w, i);
        ghost var row := Written(DirEntries(), w, i);
        assert row[i := Entry(false, true, 0)][i := DirEntries()[i]] == row[i := DirEntries()[i]];
        SetEntry(f, i, Entry(false, true, 0));
        if 0 <= i < GLOBAL {
          SetEntry(f, i, Entry(true, true, FRAME0 + i));
        }
      }
      WrittenAll(DirEntries(), w);
    }

    method InitializePt(f: int)
      requires Valid() && 0 <= f < NFRAMES
      modifies this`words, mem
      ensures Valid() && words == old(words)[f := Cleared(old(words)[f])]
    {
      ghost var all, w := words, words[f];
      hide Written;
      WrittenNone(Cleared(w), words, f);
      for i := 0 to NFRAMES
        invariant Valid() && words == all[f := Written(Cleared(w), w, i)]
      {
        WrittenMore(Cleared(w), w, i);
        SetEntry(f, i, NO_ENTRY);
      }
      assert Written(Cleared(w), w, NFRAMES) == Cleared(w) by { RestKept(w); }
    }

    method SetFrm(f: int, x: Frm)
      requires Valid() && 0 <= f < NFRAMES
      modifies frm_tab
      ensures Valid() && frm_tab[..] == old(frm_tab[..])[f := x]
    {
      frm_tab[f] := x;
    }

    method MapGlobal(i: int)
      requires Valid()
      modifies this`words, mem, frm_tab
      ensures Valid() && Abs() == P.MapGlobal(old(Abs()), i)
    {
      var frmno := GetFrm();
      if frmno < NFRAMES {
        SetFrm(frmno, frm_tab[frmno].(mapped := true, kind := Table, pid := NULLPROC));
        FillIdentity(frmno, i);
      }
    }

    method AllocatePd(pid: int)
      requires Valid()
      modifies this, mem, frm_tab
      ensures Valid() && Abs() == P.AllocatePd(old(Abs()), pid)
    {
      var frno := GetFrm();
      if frno == NFRAMES {
        return;
      }
      pdbr := pdbr[pid := frno];
      SetFrm(frno, frm_tab[frno].(pid := pid, kind := Dir, mapped := true, vpno := 0, refcnt := GLOBAL));
      FillDirectory(frno);
    }

    /** The tail of sysinit. */
    method SysInit(ghost contents: seq<seq<Entry>>)
      requires Valid() && Abs() == Vm(contents, seq(NFRAMES, _ => FREE_FRM), map[])
      modifies this, mem, frm_tab
      ensures Valid() && Abs() == Boot(contents)
    {
      hide P.MapGlobal, P.AllocatePd;
      ghost var s0 := Abs();
      for i := 0 to GLOBAL
        invariant Valid() && Abs() == Turns(s0, i)
      {
        MapGlobal(i);
      }
      AllocatePd(NULLPROC);
      FourTurns(s0);
    }

    method NeedTable(pid: int, d: int, i: int) returns (ok: bool)
      requires Valid() && 0 <= d < NFRAMES && 0 <= i < ENTRIES
      modifies this`words, mem, frm_tab
      ensures Valid() && (Abs(), ok) == P.NeedTable(old(Abs()), pid, d, i)
    {
      ok := true;
      if !mem[d, i].pres {
        var newpt := GetFrm();
        if newpt == NFRAMES {
          return false;
        }
        InitializePt(newpt);
        SetEntry(d, i, Entry(true, true, FRAME0 + newpt));
        SetFrm(newpt, frm_tab[newpt].(mapped := true, pid := pid, kind := Table, owner := Slot(d, i)));
      }
    }

    method ReadBs(f: int, data: seq<Entry>)
      requires Valid() && 0 <= f < NFRAMES && |data| == ENTRIES
      modifies this`words, mem
      ensures Valid() && words == old(words)[f := data]
    {
      ghost var all, w := words, words[f];
      hide Written;
      WrittenNone(data, words, f);
      for j := 0 to ENTRIES
        invariant Valid() && words == all[f := Written(data, w, j)]
      {
        WrittenMore(data, w, j);
        SetEntry(f, j, data[j]);
      }
      WrittenAll(data, w);
    }

    method NeedPage(pid: int, t: int, j: int, vaddr: Address, backed: bool, data: seq<Entry>) returns (r: Result)
      requires Valid() && 0 <= t < NFRAMES && 0 <= j < ENTRIES && |data| == ENTRIES
      modifies this`words, mem, frm_tab
      ensures Valid() && (Abs(), r) == P.NeedPage(old(Abs()), pid, t, j, vaddr, backed, data)
    {
      if mem[t, j].pres {
        return Present;
      }
      var newfr := GetFrm();
      if newfr == NFRAMES {
        return NoFrame;
      }
      SetEntry(t, j, Entry(true, true, FRAME0 + newfr));
      SetFrm(newfr, frm_tab[newfr].(mapped := true, pid := pid, vpno := VpnoOf(vaddr), owner := Slot(t, j)));
      SetFrm(t, frm_tab[t].(refcnt := frm_tab[t].refcnt + 1));
      SetFrm(newfr, frm_tab[newfr].(kind := Page));
      if !backed {
        return NoBacking;
      }
      ReadBs(newfr, data);
      r := Mapped;
    }

    method Pfint(pid: int, vaddr: Address, backed: bool, data: seq<Entry>) returns (r: Result)
      requires Valid() && |data| == ENTRIES && pid in pdbr && 0 <= pdbr[pid] < NFRAMES
      modifies this`words, mem, frm_tab
      ensures Valid() && (Abs(), r) == P.Pfint(old(Abs()), pid, vaddr, backed, data)
    {
      hide P.NeedTable, P.NeedPage;
      var d := pdbr[pid];
      var ok := NeedTable(pid, d, PdOffset(vaddr));
      if !ok {
        return NoFrame;
      }
      var t := mem[d, PdOffset(vaddr)].base - FRAME0;
      if 0 <= t < NFRAMES {
        r := NeedPage(pid, t, PtOffset(vaddr), vaddr, backed, data);
      } else {
        r := NoFrame;
      }
    }
  }

  /** sysinit's loop after n turns. */
  ghost function Turns(s: Vm, n: nat): (r: Vm)
    requires Shaped(s)
    ensures Shaped(r)
  {
    if n == 0 then s else P.MapGlobal(Turns(s, n - 1), n - 1)
  }

  lemma FourTurns(s: Vm)
    requires Shaped(s)
    ensures Turns(s, 4) == P.MapGlobal(P.MapGlobal(P.MapGlobal(P.MapGlobal(s, 0), 1), 2), 3)
  {
    hide P.MapGlobal;
    assert Turns(s, 1) == P.MapGlobal(s, 0);
    assert Turns(s, 2) == P.MapGlobal(Turns(s, 1), 1);
    assert Turns(s, 3) == P.MapGlobal(Turns(s, 2), 2);
  }
}
