/** Every directory maps the first 16 MB to itself, and frames are used once,
    over every run of process creations and page faults. */
module PageRuns {
  import opened PageSpec

  ghost predicate IsKind(s: Vm, f: int, k: Kind) {
    0 <= f < |s.frm| && s.frm[f].mapped && s.frm[f].kind == k
  }

  /** The four global tables map page p to frame p. */
  ghost predicate GlobalsOK(s: Vm)
    requires Shaped(s)
  {
    forall i :: 0 <= i < GLOBAL ==> IsKind(s, i, Table) && s.mem[i] == IdTable(i)
  }

  /** A directory's first entries are the global tables; each other entry in
      use is a table mapped through it. */
  ghost predicate DirOK(s: Vm, d: int)
    requires Shaped(s) && 0 <= d < NFRAMES
  {
    && (forall i {:trigger s.mem[d][i]} :: 0 <= i < GLOBAL ==> s.mem[d][i] == Entry(true, true, FRAME0 + i))
    && (forall i {:trigger s.mem[d][i]} ::
          GLOBAL <= i < ENTRIES && s.mem[d][i].pres ==> Refers(s, s.mem[d][i], Slot(d, i), Table))
  }

  /** An entry names a frame of the kind that was mapped through that entry. */
  ghost predicate Refers(s: Vm, e: Entry, at: Slot, k: Kind) {
    var f := e.base - FRAME0;
    GLOBAL <= f && IsKind(s, f, k) && s.frm[f].owner == at
  }

  ghost predicate DirsOK(s: Vm)
    requires Shaped(s)
  {
    forall d {:trigger IsKind(s, d, Dir)} :: IsKind(s, d, Dir) ==> d >= GLOBAL && DirOK(s, d)
  }

  ghost predicate PdbrOK(s: Vm) {
    && (forall p {:trigger s.pdbr[p]} :: p in s.pdbr ==> IsKind(s, s.pdbr[p], Dir))
    && (forall p, q {:trigger s.pdbr[p], s.pdbr[q]} :: p in s.pdbr && q in s.pdbr && s.pdbr[p] == s.pdbr[q] ==> p == q)
  }

  ghost predicate Inv(s: Vm) {
    Shaped(s) && GlobalsOK(s) && DirsOK(s) && PdbrOK(s)
  }

  lemma {:induction false} ScanFinds(frm: seq<Frm>, i: nat)
    requires i <= |frm|
    ensures var r := Scan(frm, i); r < |frm| ==> !frm[r].mapped
    ensures forall j :: i <= j < Scan(frm, i) ==> frm[j].mapped
    decreases |frm| - i
  {
    if i < |frm| && frm[i].mapped {
      ScanFinds(frm, i + 1);
    }
  }

  /** Nothing changes but one frame that was unmapped, or held a page. */
  ghost predicate OneFrame(s: Vm, r: Vm, f: int) {
    && Shaped(s) && Shaped(r) && 0 <= f < NFRAMES
    && (!s.frm[f].mapped || s.frm[f].kind == Page)
    && (forall g {:trigger r.mem[g]} :: 0 <= g < NFRAMES && g != f ==> r.mem[g] == s.mem[g])
    && (forall g {:trigger r.frm[g]} :: 0 <= g < NFRAMES && g != f ==> r.frm[g] == s.frm[g])
  }

  lemma OneFrameKind(s: Vm, r: Vm, f: int, g: int, k: Kind)
    requires OneFrame(s, r, f) && g != f
    ensures IsKind(r, g, k) <==> IsKind(s, g, k)
  {
  }

  lemma OneFrameDir(s: Vm, r: Vm, f: int, d: int)
    requires OneFrame(s, r, f) && 0 <= d < NFRAMES && d != f && DirOK(s, d)
    ensures DirOK(r, d)
  {
    forall i | GLOBAL <= i < ENTRIES && r.mem[d][i].pres ensures Refers(r, r.mem[d][i], Slot(d, i), Table) {
      assert Refers(s, s.mem[d][i], Slot(d, i), Table);
    }
  }

  /** A frame put to use as anything but a directory. */
  lemma OneFrameInv(s: Vm, r: Vm, f: int)
    requires Inv(s) && OneFrame(s, r, f) && r.pdbr == s.pdbr && !IsKind(r, f, Dir)
    ensures Inv(r)
  {
    assert !IsKind(s, f, Table) && !IsKind(s, f, Dir);
    forall i | 0 <= i < GLOBAL ensures IsKind(r, i, Table) && r.mem[i] == IdTable(i) {
      assert IsKind(s, i, Table);
      OneFrameKind(s, r, f, i, Table);
    }
    forall d | IsKind(r, d, Dir) ensures d >= GLOBAL && DirOK(r, d) {
      OneFrameKind(s, r, f, d, Dir);
      assert IsKind(s, d, Dir);
      OneFrameDir(s, r, f, d);
    }
    forall p | p in r.pdbr ensures IsKind(r, r.pdbr[p], Dir) {
      assert IsKind(s, s.pdbr[p], Dir);
      OneFrameKind(s, r, f, s.pdbr[p], Dir);
    }
  }

  lemma AllocateInv(s: Vm, pid: int)
    requires Inv(s)
    ensures Inv(AllocatePd(s, pid))
  {
    var f := Scan(s.frm, 0);
    ScanFinds(s.frm, 0);
    var r := AllocatePd(s, pid);
    if f < NFRAMES {
      assert OneFrame(s, r, f);
      assert !IsKind(s, f, Table) && !IsKind(s, f, Dir);
      forall i | 0 <= i < GLOBAL ensures IsKind(r, i, Table) && r.mem[i] == IdTable(i) {
        assert IsKind(s, i, Table);
      }
      assert IsKind(s, 0, Table) && IsKind(s, 1, Table) && IsKind(s, 2, Table) && IsKind(s, 3, Table);
      forall d | IsKind(r, d, Dir) ensures d >= GLOBAL && DirOK(r, d) {
        if d != f {
          OneFrameKind(s, r, f, d, Dir);
          assert IsKind(s, d, Dir);
          OneFrameDir(s, r, f, d);
        }
      }
      forall p | p in r.pdbr ensures IsKind(r, r.pdbr[p], Dir) && (p != pid ==> r.pdbr[p] != f) {
        if p != pid {
          assert IsKind(s, s.pdbr[p], Dir);
        }
      }
    }
  }

  lemma StoreInv(s: Vm, f: int, data: seq<Entry>)
    requires Inv(s) && Legal(s, Store(f, data))
    ensures Inv(Step(s, Store(f, data)))
  {
    OneFrameInv(s, Step(s, Store(f, data)), f);
  }

  /** pfint's two halves. */
  lemma NeedTableInv(s: Vm, pid: int, d: int, i: int)
    requires Inv(s) && IsKind(s, d, Dir) && 0 <= i < ENTRIES
    ensures var (r, ok) := NeedTable(s, pid, d, i);
      && Inv(r) && r.pdbr == s.pdbr && IsKind(r, d, Dir)
      && (ok ==> r.mem[d][i].pres && IsKind(r, r.mem[d][i].base - FRAME0, Table))
      && (ok && i < GLOBAL ==> r.mem[d][i].base - FRAME0 == i)
      && (ok && i >= GLOBAL ==> Refers(r, r.mem[d][i], Slot(d, i), Table))
  {
    var t := Scan(s.frm, 0);
    ScanFinds(s.frm, 0);
    var (r, ok) := NeedTable(s, pid, d, i);
    assert DirOK(s, d);
    if s.mem[d][i].pres {
      assert i < GLOBAL ==> s.mem[d][i] == Entry(true, true, FRAME0 + i);
      assert i < GLOBAL ==> IsKind(s, i, Table);
      assert i >= GLOBAL ==> Refers(s, s.mem[d][i], Slot(d, i), Table);
    } else if t < NFRAMES {
      assert s.mem[d][i].pres || i >= GLOBAL;
      NewTableInv(s, pid, d, i);
    }
  }

  lemma NewTableInv(s: Vm, pid: int, d: int, i: int)
    requires Inv(s) && IsKind(s, d, Dir) && GLOBAL <= i < ENTRIES && !s.mem[d][i].pres && Scan(s.frm, 0) < NFRAMES
    ensures var r := NeedTable(s, pid, d, i).0;
      Inv(r) && r.pdbr == s.pdbr && IsKind(r, d, Dir) && Refers(r, r.mem[d][i], Slot(d, i), Table)
  {
    var t := Scan(s.frm, 0);
    ScanFinds(s.frm, 0);
    var frm := s.frm[t := s.frm[t].(mapped := true, pid := pid, kind := Table, owner := Slot(d, i))];
    var s1 := s.(mem := s.mem[t := Cleared(s.mem[t])], frm := frm);
    var r := NeedTable(s, pid, d, i).0;
    GlobalKinds(s);
    OneFrameInv(s, s1, t);
    assert r == s1.(mem := s1.mem[d := s1.mem[d][i := Entry(true, true, FRAME0 + t)]]);
    DirEntryInv(s1, d, i, t);
  }

  lemma GlobalKinds(s: Vm)
    requires Inv(s)
    ensures IsKind(s, 0, Table) && IsKind(s, 1, Table) && IsKind(s, 2, Table) && IsKind(s, 3, Table)
  {
  }

  lemma DirEntryInv(s: Vm, d: int, i: int, t: int)
    requires Inv(s) && IsKind(s, d, Dir) && GLOBAL <= i < ENTRIES
    requires t >= GLOBAL && IsKind(s, t, Table) && s.frm[t].owner == Slot(d, i)
    ensures Inv(s.(mem := s.mem[d := s.mem[d][i := Entry(true, true, FRAME0 + t)]]))
  {
    var r := s.(mem := s.mem[d := s.mem[d][i := Entry(true, true, FRAME0 + t)]]);
    assert DirOK(s, d);
    forall d' | IsKind(r, d', Dir) ensures d' >= GLOBAL && DirOK(r, d') {
      assert IsKind(s, d', Dir);
      assert DirOK(s, d');
      forall i' | GLOBAL <= i' < ENTRIES && r.mem[d'][i'].pres ensures Refers(r, r.mem[d'][i'], Slot(d', i'), Table) {
        if d' != d || i' != i {
          assert Refers(s, s.mem[d'][i'], Slot(d', i'), Table);
        }
      }
      forall i' | 0 <= i' < GLOBAL ensures r.mem[d'][i'] == Entry(true, true, FRAME0 + i') {
        assert s.mem[d'][i'] == Entry(true, true, FRAME0 + i');
      }
    }
    forall i' | 0 <= i' < GLOBAL ensures IsKind(r, i', Table) && r.mem[i'] == IdTable(i') {
      assert IsKind(s, i', Table);
    }
    forall p | p in r.pdbr ensures IsKind(r, r.pdbr[p], Dir) {
      assert IsKind(s, s.pdbr[p], Dir);
    }
  }

  /** A page entered in a table of a process. */
  lemma NeedPageInv(s: Vm, pid: int, t: int, j: int, vaddr: Address, backed: bool, data: seq<Entry>)
    requires Inv(s) && IsKind(s, t, Table) && 0 <= j < ENTRIES && |data| == ENTRIES
    ensures var r := NeedPage(s, pid, t, j, vaddr, backed, data).0; Inv(r) && r.pdbr == s.pdbr
  {
    var f := Scan(s.frm, 0);
    ScanFinds(s.frm, 0);
    GlobalKinds(s);
    if t < GLOBAL {
      assert s.mem[t] == IdTable(t);
      assert s.mem[t][j].pres;
    } else if !s.mem[t][j].pres && f < NFRAMES {
      var s1 := TableEntry(s, t, j, Entry(true, true, FRAME0 + f));
      TableEntryInv(s, t, j, Entry(true, true, FRAME0 + f));
      var r := NeedPage(s, pid, t, j, vaddr, backed, data).0;
      hide Inv;
      assert OneFrame(s1, r, f);
      OneFrameInv(s1, r, f);
    }
  }

  function TableEntry(s: Vm, t: int, j: int, e: Entry): Vm
    requires Shaped(s) && 0 <= t < NFRAMES && 0 <= j < ENTRIES
  {
    s.(mem := s.mem[t := s.mem[t][j := e]], frm := s.frm[t := s.frm[t].(refcnt := s.frm[t].refcnt + 1)])
  }

  lemma TableEntryInv(s: Vm, t: int, j: int, e: Entry)
    requires Inv(s) && IsKind(s, t, Table) && GLOBAL <= t && 0 <= j < ENTRIES
    ensures Inv(TableEntry(s, t, j, e))
  {
    var r := TableEntry(s, t, j, e);
    assert forall g, k {:trigger IsKind(r, g, k)} :: IsKind(r, g, k) <==> IsKind(s, g, k);
    forall d | IsKind(r, d, Dir) ensures d >= GLOBAL && DirOK(r, d) {
      assert IsKind(s, d, Dir);
      assert DirOK(s, d);
      forall i | GLOBAL <= i < ENTRIES && r.mem[d][i].pres ensures Refers(r, r.mem[d][i], Slot(d, i), Table) {
        assert Refers(s, s.mem[d][i], Slot(d, i), Table);
      }
    }
    forall i | 0 <= i < GLOBAL ensures IsKind(r, i, Table) && r.mem[i] == IdTable(i) {
      assert IsKind(s, i, Table);
    }
    forall p | p in r.pdbr ensures IsKind(r, r.pdbr[p], Dir) {
      assert IsKind(s, s.pdbr[p], Dir);
    }
  }

  lemma PfintInv(s: Vm, pid: int, vaddr: Address, backed: bool, data: seq<Entry>)
    requires Inv(s) && pid in s.pdbr && 0 <= s.pdbr[pid] < NFRAMES && |data| == ENTRIES
    ensures var r := Pfint(s, pid, vaddr, backed, data).0; Inv(r) && r.pdbr == s.pdbr
  {
    var d, i := s.pdbr[pid], PdOffset(vaddr);
    assert IsKind(s, s.pdbr[pid], Dir);
    NeedTableInv(s, pid, d, i);
    hide NeedTable, NeedPage;
    var (s1, ok) := NeedTable(s, pid, d, i);
    if ok {
      NeedPageInv(s1, pid, s1.mem[d][i].base - FRAME0, PtOffset(vaddr), vaddr, backed, data);
    }
  }

  lemma StepInv(s: Vm, e: Event)
    requires Inv(s) && Legal(s, e)
    ensures Inv(Step(s, e))
  {
    match e
    case Create(pid) => AllocateInv(s, pid);
    case Fault(pid, vaddr, backed, data) =>
      assert IsKind(s, s.pdbr[pid], Dir);
      PfintInv(s, pid, vaddr, backed, data);
    case Store(f, data) => StoreInv(s, f, data);
  }

  // ---- boot ------------------------------------------------------------------

  ghost predicate Memory(mem: seq<seq<Entry>>) {
    |mem| == NFRAMES && forall f :: 0 <= f < NFRAMES ==> |mem[f]| == ENTRIES
  }

  /** sysinit after n of its four turns. */
  ghost predicate Globals(s: Vm, mem: seq<seq<Entry>>, n: nat) {
    && Shaped(s) && Memory(mem) && n <= GLOBAL && s.pdbr == map[]
    && (forall i :: 0 <= i < n ==> s.frm[i].mapped && IsKind(s, i, Table) && s.mem[i] == IdTable(i))
    && (forall f :: n <= f < NFRAMES ==> s.frm[f] == FREE_FRM && s.mem[f] == mem[f])
  }

  /** get_frm hands sysinit the frames 0 to 3, which allocate_pd relies on. */
  lemma GlobalNext(s: Vm, mem: seq<seq<Entry>>, n: nat)
    requires Globals(s, mem, n) && n < GLOBAL
    ensures Scan(s.frm, 0) == n && Globals(MapGlobal(s, n), mem, n + 1)
  {
    ScanFinds(s.frm, 0);
    ScanFirst(s.frm, 0, n);
  }

  lemma {:induction false} ScanFirst(frm: seq<Frm>, i: nat, n: nat)
    requires i <= n < |frm| && !frm[n].mapped && forall j :: i <= j < n ==> frm[j].mapped
    ensures Scan(frm, i) == n
    decreases n - i
  {
    if i < n {
      ScanFirst(frm, i + 1, n);
    }
  }

  lemma BootInv(mem: seq<seq<Entry>>)
    requires Memory(mem)
    ensures var s := Boot(mem);
      && Inv(s) && s.pdbr == map[NULLPROC := GLOBAL]
      && (forall f :: GLOBAL < f < NFRAMES ==> s.frm[f] == FREE_FRM && s.mem[f] == mem[f])
      && (forall f :: 0 <= f <= GLOBAL ==> s.frm[f].mapped)
  {
    var s0 := Vm(mem, seq(NFRAMES, _ => FREE_FRM), map[]);
    hide MapGlobal;
    GlobalNext(s0, mem, 0);
    var s1 := MapGlobal(s0, 0);
    GlobalNext(s1, mem, 1);
    var s2 := MapGlobal(s1, 1);
    GlobalNext(s2, mem, 2);
    var s3 := MapGlobal(s2, 2);
    GlobalNext(s3, mem, 3);
    BootDirectory(MapGlobal(s3, 3), mem);
  }

  lemma BootDirectory(s: Vm, mem: seq<seq<Entry>>)
    requires Globals(s, mem, GLOBAL)
    ensures var r := AllocatePd(s, NULLPROC);
      && Inv(r) && r.pdbr == map[NULLPROC := GLOBAL]
      && (forall f :: GLOBAL < f < NFRAMES ==> r.frm[f] == FREE_FRM && r.mem[f] == mem[f])
      && (forall f :: 0 <= f <= GLOBAL ==> r.frm[f].mapped)
  {
    ScanFirst(s.frm, 0, GLOBAL);
    var r := AllocatePd(s, NULLPROC);
    forall i | 0 <= i < GLOBAL ensures IsKind(r, i, Table) && r.mem[i] == IdTable(i) {
      assert IsKind(s, i, Table);
    }
    assert DirOK(r, GLOBAL);
    assert IsKind(r, r.pdbr[NULLPROC], Dir);
    forall d | IsKind(r, d, Dir) ensures d == GLOBAL {
      assert d < GLOBAL ==> IsKind(s, d, Table);
    }
  }

  // ---- every run ---------------------------------------------------------------

  ghost predicate LegalRun(s: Vm, run: seq<Event>)
    decreases |run|
  {
    run == [] || (Shaped(s) && Legal(s, run[0]) && LegalRun(Step(s, run[0]), run[1..]))
  }

  ghost function Exec(s: Vm, run: seq<Event>): Vm
    requires LegalRun(s, run)
    decreases |run|
  {
    if run == [] then s else Exec(Step(s, run[0]), run[1..])
  }

  lemma {:induction false} RunInv(s: Vm, run: seq<Event>)
    requires Inv(s) && LegalRun(s, run)
    ensures Inv(Exec(s, run))
    decreases |run|
  {
    hide Legal, Step;
    if run != [] {
      StepInv(s, run[0]);
      hide Inv;
      RunInv(Step(s, run[0]), run[1..]);
    }
  }

  lemma TranslateGlobal(s: Vm, pid: int, vpn: int)
    requires Inv(s) && pid in s.pdbr && 0 <= vpn < GLOBAL * ENTRIES
    ensures 0 <= s.pdbr[pid] < NFRAMES && Translate(s, pid, vpn) == Some(vpn)
  {
    var d := s.pdbr[pid];
    assert IsKind(s, s.pdbr[pid], Dir);
    assert DirOK(s, d);
    var i, j := vpn / ENTRIES, vpn % ENTRIES;
    assert s.mem[d][i] == Entry(true, true, FRAME0 + i);
    assert IsKind(s, i, Table) && s.mem[i] == IdTable(i);
    assert s.mem[i][j] == Entry(true, true, i * FRAME0 + j);
  }

  /** From boot, after any run, every process sees the first 16 MB of memory at
      their own addresses. */
  lemma IdentityAlways(mem: seq<seq<Entry>>, run: seq<Event>, pid: int, vpn: int)
    requires Memory(mem) && LegalRun(Boot(mem), run) && pid in Exec(Boot(mem), run).pdbr
    requires 0 <= vpn < GLOBAL * ENTRIES
    ensures Shaped(Exec(Boot(mem), run)) && 0 <= Exec(Boot(mem), run).pdbr[pid] < NFRAMES
    ensures Translate(Exec(Boot(mem), run), pid, vpn) == Some(vpn)
  {
    hide Boot, LegalRun, Exec;
    BootInv(mem);
    RunInv(Boot(mem), run);
    TranslateGlobal(Exec(Boot(mem), run), pid, vpn);
  }

  /** A frame the scan finds is no process's directory, and no directory refers
      to it. */
  lemma ScanIsUnused(s: Vm, d: int, i: int)
    requires Inv(s) && Scan(s.frm, 0) < NFRAMES && IsKind(s, d, Dir) && 0 <= i < ENTRIES
    ensures var f := Scan(s.frm, 0);
      && f != d && (s.mem[d][i].pres ==> s.mem[d][i].base != FRAME0 + f)
      && (forall p :: p in s.pdbr ==> s.pdbr[p] != f)
  {
    ScanFinds(s.frm, 0);
    assert DirOK(s, d);
    GlobalKinds(s);
    assert i >= GLOBAL && s.mem[d][i].pres ==> Refers(s, s.mem[d][i], Slot(d, i), Table);
    forall p | p in s.pdbr ensures s.pdbr[p] != Scan(s.frm, 0) {
      assert IsKind(s, s.pdbr[p], Dir);
    }
  }
}
