/** Which frames the pages of processes are in. A new page table is cleared for
    as many entries as there are frames, 255 of 1024. */
module PageSharing {
  import opened PageSpec
  import opened PageRuns

  /** Every entry in use is a page entered through it. */
  ghost predicate TableOK(s: Vm, t: int)
    requires Shaped(s) && 0 <= t < NFRAMES
  {
    forall j {:trigger s.mem[t][j]} :: 0 <= j < ENTRIES && s.mem[t][j].pres ==> Refers(s, s.mem[t][j], Slot(t, j), Page)
  }

  ghost predicate TablesOK(s: Vm)
    requires Shaped(s)
  {
    forall t {:trigger IsKind(s, t, Table)} :: IsKind(s, t, Table) && t >= GLOBAL ==> TableOK(s, t)
  }

  /** What initialize_pt does not clear is clear already in free frames. */
  ghost predicate CleanTail(s: Vm)
    requires Shaped(s)
  {
    forall f, j {:trigger s.mem[f][j]} :: 0 <= f < NFRAMES && !s.frm[f].mapped && NFRAMES <= j < ENTRIES ==> !s.mem[f][j].pres
  }

  ghost predicate Own(s: Vm) { Inv(s) && TablesOK(s) && CleanTail(s) }

  lemma RefersKept(s: Vm, r: Vm, f: int, e: Entry, at: Slot)
    requires OneFrame(s, r, f) && Refers(s, e, at, Page)
    requires !s.frm[f].mapped || r.frm[f] == s.frm[f]
    ensures Refers(r, e, at, Page)
  {
  }

  /** A frame put to use, or a page stored into. */
  lemma OneFrameOwn(s: Vm, r: Vm, f: int)
    requires Own(s) && Inv(r) && OneFrame(s, r, f)
    requires !s.frm[f].mapped || r.frm[f] == s.frm[f]
    requires r.frm[f].mapped
    requires IsKind(r, f, Table) ==> TableOK(r, f)
    ensures Own(r)
  {
    forall t | IsKind(r, t, Table) && t >= GLOBAL ensures TableOK(r, t) {
      if t != f {
        assert IsKind(s, t, Table);
        forall j | 0 <= j < ENTRIES && r.mem[t][j].pres ensures Refers(r, r.mem[t][j], Slot(t, j), Page) {
          assert Refers(s, s.mem[t][j], Slot(t, j), Page);
          RefersKept(s, r, f, s.mem[t][j], Slot(t, j));
        }
      }
    }
    forall g, j | 0 <= g < NFRAMES && !r.frm[g].mapped && NFRAMES <= j < ENTRIES ensures !r.mem[g][j].pres {
      assert s.mem[g][j] == r.mem[g][j] && !s.frm[g].mapped;
    }
  }

  lemma AllocateOwn(s: Vm, pid: int)
    requires Own(s)
    ensures Own(AllocatePd(s, pid))
  {
    ScanFinds(s.frm, 0);
    AllocateInv(s, pid);
    if Scan(s.frm, 0) < NFRAMES {
      OneFrameOwn(s, AllocatePd(s, pid), Scan(s.frm, 0));
    }
  }

  /** The new table: cleared where initialize_pt clears, clear elsewhere. */
  lemma NewTableOwn(s: Vm, pid: int, d: int, i: int)
    requires Own(s) && IsKind(s, d, Dir) && GLOBAL <= i < ENTRIES && !s.mem[d][i].pres && Scan(s.frm, 0) < NFRAMES
    ensures Own(NeedTable(s, pid, d, i).0)
  {
    var t := Scan(s.frm, 0);
    ScanFinds(s.frm, 0);
    var frm := s.frm[t := s.frm[t].(mapped := true, pid := pid, kind := Table, owner := Slot(d, i))];
    var s1 := s.(mem := s.mem[t := Cleared(s.mem[t])], frm := frm);
    var r := NeedTable(s, pid, d, i).0;
    OneFrameInv(s, s1, t);
    assert TableOK(s1, t);
    OneFrameOwn(s, s1, t);
    NewTableInv(s, pid, d, i);
    assert r == s1.(mem := s1.mem[d := s1.mem[d][i := Entry(true, true, FRAME0 + t)]]);
    DirectoryOwn(s1, r, d);
  }

  lemma DirectoryOwn(s: Vm, r: Vm, d: int)
    requires Own(s) && Inv(r) && IsKind(s, d, Dir) && r.frm == s.frm
    requires forall g {:trigger r.mem[g]} :: 0 <= g < NFRAMES && g != d ==> r.mem[g] == s.mem[g]
    ensures Own(r)
  {
    forall t | IsKind(r, t, Table) && t >= GLOBAL ensures TableOK(r, t) {
      assert IsKind(s, t, Table);
      forall j | 0 <= j < ENTRIES && r.mem[t][j].pres ensures Refers(r, r.mem[t][j], Slot(t, j), Page) {
        assert Refers(s, s.mem[t][j], Slot(t, j), Page);
      }
    }
    forall g, j | 0 <= g < NFRAMES && !r.frm[g].mapped && NFRAMES <= j < ENTRIES ensures !r.mem[g][j].pres {
      assert s.mem[g][j] == r.mem[g][j];
    }
  }

  lemma NeedPageOwn(s: Vm, pid: int, t: int, j: int, vaddr: Address, backed: bool, data: seq<Entry>)
    requires Own(s) && IsKind(s, t, Table) && 0 <= j < ENTRIES && |data| == ENTRIES
    ensures Own(NeedPage(s, pid, t, j, vaddr, backed, data).0)
  {
    var f := Scan(s.frm, 0);
    ScanFinds(s.frm, 0);
    GlobalKinds(s);
    var r := NeedPage(s, pid, t, j, vaddr, backed, data).0;
    NeedPageInv(s, pid, t, j, vaddr, backed, data);
    if t < GLOBAL {
      assert s.mem[t] == IdTable(t);
      assert s.mem[t][j].pres;
    } else if !s.mem[t][j].pres && f < NFRAMES {
      forall t' | IsKind(r, t', Table) && t' >= GLOBAL ensures TableOK(r, t') {
        assert IsKind(s, t', Table);
        forall j' | 0 <= j' < ENTRIES && r.mem[t'][j'].pres ensures Refers(r, r.mem[t'][j'], Slot(t', j'), Page) {
          if t' != t || j' != j {
            assert Refers(s, s.mem[t'][j'], Slot(t', j'), Page);
          }
        }
      }
      forall g, j' | 0 <= g < NFRAMES && !r.frm[g].mapped && NFRAMES <= j' < ENTRIES ensures !r.mem[g][j'].pres {
        assert s.mem[g][j'] == r.mem[g][j'];
      }
    }
  }

  lemma NeedTableOwn(s: Vm, pid: int, d: int, i: int)
    requires Own(s) && IsKind(s, d, Dir) && 0 <= i < ENTRIES
    ensures Own(NeedTable(s, pid, d, i).0)
  {
    assert DirOK(s, d);
    assert s.mem[d][i].pres || i >= GLOBAL;
    if !s.mem[d][i].pres && Scan(s.frm, 0) < NFRAMES {
      NewTableOwn(s, pid, d, i);
    }
  }

  lemma PfintOwn(s: Vm, pid: int, vaddr: Address, backed: bool, data: seq<Entry>)
    requires Own(s) && pid in s.pdbr && 0 <= s.pdbr[pid] < NFRAMES && |data| == ENTRIES
    ensures Own(Pfint(s, pid, vaddr, backed, data).0)
  {
    var d, i := s.pdbr[pid], PdOffset(vaddr);
    assert IsKind(s, s.pdbr[pid], Dir);
    hide NeedTable, NeedPage, GlobalsOK, DirsOK, TablesOK, CleanTail, PdbrOK;
    NeedTableInv(s, pid, d, i);
    NeedTableOwn(s, pid, d, i);
    var (s1, ok) := NeedTable(s, pid, d, i);
    if ok {
      NeedPageOwn(s1, pid, s1.mem[d][i].base - FRAME0, PtOffset(vaddr), vaddr, backed, data);
    }
  }

  lemma StepOwn(s: Vm, e: Event)
    requires Own(s) && Legal(s, e)
    ensures Own(Step(s, e))
  {
    match e
    case Create(pid) => AllocateOwn(s, pid);
    case Fault(pid, vaddr, backed, data) =>
      assert IsKind(s, s.pdbr[pid], Dir);
      PfintOwn(s, pid, vaddr, backed, data);
    case Store(f, data) =>
      StoreInv(s, f, data);
      OneFrameOwn(s, Step(s, e), f);
  }

  lemma {:induction false} RunOwn(s: Vm, run: seq<Event>)
    requires Own(s) && LegalRun(s, run)
    ensures Own(Exec(s, run))
    decreases |run|
  {
    hide Legal, Step;
    if run != [] {
      StepOwn(s, run[0]);
      hide Own;
      RunOwn(Step(s, run[0]), run[1..]);
    }
  }

  /** What memory must hold at boot beyond the 255th word of each frame. */
  ghost predicate CleanMemory(mem: seq<seq<Entry>>)
    requires Memory(mem)
  {
    forall f, j {:trigger mem[f][j]} :: GLOBAL < f < NFRAMES && NFRAMES <= j < ENTRIES ==> !mem[f][j].pres
  }

  lemma BootOwn(mem: seq<seq<Entry>>)
    requires Memory(mem) && CleanMemory(mem)
    ensures Own(Boot(mem))
  {
    BootInv(mem);
    hide Boot;
    var s := Boot(mem);
    assert IsKind(s, s.pdbr[NULLPROC], Dir);
    assert forall t :: GLOBAL <= t < NFRAMES ==> s.frm[t].kind != Table;
    forall f, j | 0 <= f < NFRAMES && !s.frm[f].mapped && NFRAMES <= j < ENTRIES ensures !s.mem[f][j].pres {
      assert s.mem[f] == mem[f];
      assert !mem[f][j].pres;
    }
  }

  /** A page above 16 MB is in a frame mapped as a page, through this entry. */
  lemma PageWhere(s: Vm, pid: int, vpn: int)
    requires Own(s) && pid in s.pdbr && GLOBAL * ENTRIES <= vpn < ENTRIES * ENTRIES && 0 <= s.pdbr[pid] < NFRAMES
    requires Translate(s, pid, vpn).Some?
    ensures var d, i := s.pdbr[pid], vpn / ENTRIES; var t := s.mem[d][i].base - FRAME0;
      && Refers(s, s.mem[d][i], Slot(d, i), Table)
      && 0 <= t < NFRAMES && Translate(s, pid, vpn).value == s.mem[t][vpn % ENTRIES].base
      && Refers(s, s.mem[t][vpn % ENTRIES], Slot(t, vpn % ENTRIES), Page)
  {
    var d, i := s.pdbr[pid], vpn / ENTRIES;
    assert IsKind(s, s.pdbr[pid], Dir);
    assert DirOK(s, d);
    assert Refers(s, s.mem[d][i], Slot(d, i), Table);
    var t := s.mem[d][i].base - FRAME0;
    assert TableOK(s, t);
  }

  /** Different pages above 16 MB, of one process or of two, are in different
      frames. */
  lemma NoSharing(s: Vm, p: int, v: int, q: int, w: int)
    requires Own(s) && p in s.pdbr && q in s.pdbr && 0 <= s.pdbr[p] < NFRAMES && 0 <= s.pdbr[q] < NFRAMES
    requires GLOBAL * ENTRIES <= v < ENTRIES * ENTRIES && GLOBAL * ENTRIES <= w < ENTRIES * ENTRIES
    requires Translate(s, p, v).Some? && Translate(s, p, v) == Translate(s, q, w)
    ensures p == q && v == w
  {
    PageWhere(s, p, v);
    PageWhere(s, q, w);
  }

  /** From boot with clean memory, after any run. */
  lemma NoSharingEver(mem: seq<seq<Entry>>, run: seq<Event>, p: int, v: int, q: int, w: int)
    requires Memory(mem) && CleanMemory(mem) && LegalRun(Boot(mem), run)
    requires var s := Exec(Boot(mem), run);
      && p in s.pdbr && q in s.pdbr && Shaped(s) && 0 <= s.pdbr[p] < NFRAMES && 0 <= s.pdbr[q] < NFRAMES
      && GLOBAL * ENTRIES <= v < ENTRIES * ENTRIES && GLOBAL * ENTRIES <= w < ENTRIES * ENTRIES
      && Translate(s, p, v).Some? && Translate(s, p, v) == Translate(s, q, w)
    ensures p == q && v == w
  {
    hide Boot, LegalRun, Exec, Translate;
    BootOwn(mem);
    RunOwn(Boot(mem), run);
    NoSharing(Exec(Boot(mem), run), p, v, q, w);
  }

  lemma SecondScan(frm: seq<Frm>, x: Frm)
    requires Scan(frm, 0) < |frm| && x.mapped && Scan(frm, Scan(frm, 0) + 1) < |frm|
    ensures Scan(frm[Scan(frm, 0) := x], 0) == Scan(frm, Scan(frm, 0) + 1)
  {
    var t := Scan(frm, 0);
    ScanFinds(frm, 0);
    ScanFinds(frm, t + 1);
    hide Scan;
    ScanFirst(frm[t := x], 0, Scan(frm, t + 1));
  }

  /** The first fault through an empty directory entry gets a frame of its own
      exactly when the table entry was cleared or happened to be clear. */
  lemma FirstFaultExactly(s: Vm, pid: int, vaddr: Address, backed: bool, data: seq<Entry>)
    requires Inv(s) && pid in s.pdbr && 0 <= s.pdbr[pid] < NFRAMES && |data| == ENTRIES
    requires !s.mem[s.pdbr[pid]][PdOffset(vaddr)].pres
    requires Scan(s.frm, 0) < NFRAMES && Scan(s.frm, Scan(s.frm, 0) + 1) < NFRAMES
    ensures var t, j := Scan(s.frm, 0), PtOffset(vaddr);
      Pfint(s, pid, vaddr, backed, data).1 != Present <==> j < NFRAMES || !s.mem[t][j].pres
    ensures var (r, how) := Pfint(s, pid, vaddr, backed, data);
      how != Present ==>
        && Inv(r) && r.pdbr == s.pdbr
        && Translate(r, pid, vaddr / 4096) == Some(FRAME0 + Scan(s.frm, Scan(s.frm, 0) + 1))
  {
    var d, i, t := s.pdbr[pid], PdOffset(vaddr), Scan(s.frm, 0);
    assert IsKind(s, s.pdbr[pid], Dir);
    ScanFinds(s.frm, 0);
    SecondScan(s.frm, s.frm[t].(mapped := true, pid := pid, kind := Table, owner := Slot(d, i)));
    PfintInv(s, pid, vaddr, backed, data);
    hide DirsOK, GlobalsOK, PdbrOK, Scan;
    var (s1, ok) := NeedTable(s, pid, d, i);
    assert s1.mem[t] == Cleared(s.mem[t]);
    assert vaddr / 4096 / ENTRIES == i && vaddr / 4096 % ENTRIES == PtOffset(vaddr);
  }

  /** Otherwise the page is wherever memory said before it was a table. */
  lemma LeftoverMapped(s: Vm, pid: int, vaddr: Address, backed: bool, data: seq<Entry>)
    requires Inv(s) && pid in s.pdbr && 0 <= s.pdbr[pid] < NFRAMES && |data| == ENTRIES
    requires !s.mem[s.pdbr[pid]][PdOffset(vaddr)].pres
    requires Scan(s.frm, 0) < NFRAMES && PtOffset(vaddr) >= NFRAMES && s.mem[Scan(s.frm, 0)][PtOffset(vaddr)].pres
    ensures var r := Pfint(s, pid, vaddr, backed, data).0;
      Inv(r) && r.pdbr == s.pdbr && Translate(r, pid, vaddr / 4096) == Some(s.mem[Scan(s.frm, 0)][PtOffset(vaddr)].base)
  {
    var d, i, t := s.pdbr[pid], PdOffset(vaddr), Scan(s.frm, 0);
    assert IsKind(s, s.pdbr[pid], Dir);
    ScanFinds(s.frm, 0);
    PfintInv(s, pid, vaddr, backed, data);
    var (s1, ok) := NeedTable(s, pid, d, i);
    assert s1.mem[t] == Cleared(s.mem[t]);
    assert vaddr / 4096 / ENTRIES == i && vaddr / 4096 % ENTRIES == PtOffset(vaddr);
  }

  /** A frame the scan finds is in no table of a process either. */
  lemma ScanIsUnmapped(s: Vm, t: int, j: int)
    requires Own(s) && Scan(s.frm, 0) < NFRAMES && IsKind(s, t, Table) && t >= GLOBAL && 0 <= j < ENTRIES
    ensures s.mem[t][j].pres ==> s.mem[t][j].base != FRAME0 + Scan(s.frm, 0)
  {
    ScanFinds(s.frm, 0);
    assert TableOK(s, t);
    assert s.mem[t][j].pres ==> Refers(s, s.mem[t][j], Slot(t, j), Page);
  }

  // ---- clear memory is needed ----------------------------------------------

  /** Every page above 16 MB is in a frame mapped as a page through its own
      table entry. */
  ghost predicate PagesOwned(s: Vm)
    requires Shaped(s)
  {
    forall p, v ::
      (p in s.pdbr && 0 <= s.pdbr[p] < NFRAMES && GLOBAL * ENTRIES <= v < ENTRIES * ENTRIES && Translate(s, p, v).Some?)
        ==> PageOwned(s, p, v)
  }

  ghost predicate PageOwned(s: Vm, p: int, v: int)
    requires Shaped(s) && p in s.pdbr && 0 <= s.pdbr[p] < NFRAMES && 0 <= v < ENTRIES * ENTRIES
  {
    var t := s.mem[s.pdbr[p]][v / ENTRIES].base - FRAME0;
    0 <= t < NFRAMES && Refers(s, s.mem[t][v % ENTRIES], Slot(t, v % ENTRIES), Page)
  }

  ghost predicate AlwaysOwned(mem: seq<seq<Entry>>)
    requires Memory(mem)
  {
    forall run :: LegalRun(Boot(mem), run) ==> Shaped(Exec(Boot(mem), run)) && PagesOwned(Exec(Boot(mem), run))
  }

  lemma OwnOwned(s: Vm)
    requires Own(s)
    ensures PagesOwned(s)
  {
    forall p, v | p in s.pdbr && 0 <= s.pdbr[p] < NFRAMES && GLOBAL * ENTRIES <= v < ENTRIES * ENTRIES && Translate(s, p, v).Some?
      ensures PageOwned(s, p, v)
    {
      PageWhere(s, p, v);
    }
  }

  lemma CleanOwned(mem: seq<seq<Entry>>)
    requires Memory(mem) && CleanMemory(mem)
    ensures AlwaysOwned(mem)
  {
    BootOwn(mem);
    hide Boot, Own, LegalRun, Exec;
    forall run | LegalRun(Boot(mem), run) ensures Shaped(Exec(Boot(mem), run)) && PagesOwned(Exec(Boot(mem), run)) {
      RunOwn(Boot(mem), run);
      OwnShaped(Exec(Boot(mem), run));
      OwnOwned(Exec(Boot(mem), run));
    }
  }

  lemma OwnShaped(s: Vm)
    requires Own(s)
    ensures Shaped(s)
  {
  }

  /** k processes created after boot, all with the same number. */
  function Creates(k: nat): seq<Event> { if k == 0 then [] else Creates(k - 1) + [Create(1)] }

  ghost predicate NoOwners(s: Vm) { forall g :: 0 <= g < |s.frm| ==> s.frm[g].owner == NO_SLOT }

  /** The next k frames are directories, the rest as memory was. */
  ghost predicate Filled(s: Vm, mem: seq<seq<Entry>>, k: nat) {
    && Inv(s) && Memory(mem) && k <= NFRAMES - 5 && NoOwners(s)
    && NULLPROC in s.pdbr && s.pdbr[NULLPROC] == GLOBAL && s.mem[GLOBAL] == DirEntries()
    && (forall f :: 0 <= f < 5 + k ==> s.frm[f].mapped)
    && (forall f :: 5 + k <= f < NFRAMES ==> s.frm[f] == FREE_FRM && s.mem[f] == mem[f])
  }

  lemma MapGlobalOwners(s: Vm, i: int)
    requires Shaped(s) && NoOwners(s)
    ensures NoOwners(MapGlobal(s, i)) && Shaped(MapGlobal(s, i)) && MapGlobal(s, i).pdbr == s.pdbr
  {
  }

  lemma BootFilled(mem: seq<seq<Entry>>)
    requires Memory(mem)
    ensures Filled(Boot(mem), mem, 0)
  {
    BootInv(mem);
    var s0 := Vm(mem, seq(NFRAMES, _ => FREE_FRM), map[]);
    hide MapGlobal, Inv;
    MapGlobalOwners(s0, 0);
    MapGlobalOwners(MapGlobal(s0, 0), 1);
    MapGlobalOwners(MapGlobal(MapGlobal(s0, 0), 1), 2);
    MapGlobalOwners(MapGlobal(MapGlobal(MapGlobal(s0, 0), 1), 2), 3);
    var s4 := MapGlobal(MapGlobal(MapGlobal(MapGlobal(s0, 0), 1), 2), 3);
    assert Boot(mem) == AllocatePd(s4, NULLPROC);
    assert NULLPROC !in s4.pdbr;
    assert Boot(mem).pdbr[NULLPROC] == GLOBAL;
    assert Scan(s4.frm, 0) == GLOBAL;
  }

  lemma CreateFilled(s: Vm, mem: seq<seq<Entry>>, k: nat)
    requires Filled(s, mem, k) && k < NFRAMES - 5
    ensures Filled(AllocatePd(s, 1), mem, k + 1)
  {
    ScanFirst(s.frm, 0, 5 + k);
    AllocateInv(s, 1);
    hide Inv;
  }

  lemma {:induction false} LegalSnoc(s: Vm, run: seq<Event>, e: Event)
    requires LegalRun(s, run) && Shaped(Exec(s, run)) && Legal(Exec(s, run), e)
    ensures LegalRun(s, run + [e]) && Exec(s, run + [e]) == Step(Exec(s, run), e)
    decreases |run|
  {
    hide Step, Legal, Shaped;
    if run == [] {
      assert run + [e] == [e] && [e][1..] == [];
    } else {
      assert (run + [e])[1..] == run[1..] + [e];
      LegalSnoc(Step(s, run[0]), run[1..], e);
    }
  }

  lemma {:induction false} CreatesFill(mem: seq<seq<Entry>>, k: nat)
    requires Memory(mem) && k <= NFRAMES - 5
    ensures LegalRun(Boot(mem), Creates(k)) && Filled(Exec(Boot(mem), Creates(k)), mem, k)
    decreases k
  {
    hide Boot, Filled;
    BootFilled(mem);
    if k > 0 {
      CreatesFill(mem, k - 1);
      var s := Exec(Boot(mem), Creates(k - 1));
      FilledShaped(s, mem, k - 1);
      CreateFilled(s, mem, k - 1);
      LegalSnoc(Boot(mem), Creates(k - 1), Create(1));
    }
  }

  lemma FilledShaped(s: Vm, mem: seq<seq<Entry>>, k: nat)
    requires Filled(s, mem, k)
    ensures Shaped(s)
  {
  }

  /** The fault that makes the next frame a table and looks at its entry j. */
  function FaultAt(j: int, data: seq<Entry>): Event
    requires 0 <= j < ENTRIES
  {
    Fault(NULLPROC, GLOBAL * 0x40_0000 + j * 4096, false, data)
  }

  lemma FaultIsPfint(s: Vm, j: int, data: seq<Entry>)
    requires Shaped(s) && NULLPROC in s.pdbr && s.pdbr[NULLPROC] == GLOBAL && 0 <= j < ENTRIES && |data| == ENTRIES
    ensures Legal(s, FaultAt(j, data))
    ensures Step(s, FaultAt(j, data)) == Pfint(s, NULLPROC, GLOBAL * 0x40_0000 + j * 4096, false, data).0
  {
    hide Pfint;
  }

  lemma LeftoverUnowned(s: Vm, mem: seq<seq<Entry>>, k: nat, j: int, data: seq<Entry>)
    requires Filled(s, mem, k) && 5 + k < NFRAMES && NFRAMES <= j < ENTRIES && |data| == ENTRIES && mem[5 + k][j].pres
    ensures Legal(s, FaultAt(j, data)) && Shaped(Step(s, FaultAt(j, data)))
    ensures !PagesOwned(Step(s, FaultAt(j, data)))
  {
    var vaddr: Address := GLOBAL * 0x40_0000 + j * 4096;
    var v := GLOBAL * ENTRIES + j;
    FaultAddress(j);
    ScanFirst(s.frm, 0, 5 + k);
    assert !s.mem[GLOBAL][GLOBAL].pres;
    FaultIsPfint(s, j, data);
    hide Step, Legal, FaultAt, DirEntries, NoOwners;
    assert NoOwners(s) && s.mem[GLOBAL] == DirEntries();
    hide Filled;
    hide Scan, PdOffset, PtOffset, DirsOK, GlobalsOK, PdbrOK, Refers, Cleared;
    LeftoverMapped(s, NULLPROC, vaddr, false, data);
    var r := Pfint(s, NULLPROC, vaddr, false, data).0;
    LeftoverResult(s, vaddr, data, 5 + k);
    InvShaped(r);
    hide Inv, Pfint, Filled, Translate, PagesOwned;
    NotOwned(r, 5 + k, j);
  }

  lemma InvShaped(s: Vm)
    requires Inv(s)
    ensures Shaped(s)
  {
  }

  /** A page looked up through an entry that owns nothing. */
  lemma NotOwned(r: Vm, f: int, j: int)
    requires Shaped(r) && NULLPROC in r.pdbr && r.pdbr[NULLPROC] == GLOBAL && 0 <= j < ENTRIES
    requires r.mem[GLOBAL][GLOBAL].base - FRAME0 == f && Translate(r, NULLPROC, GLOBAL * ENTRIES + j).Some?
    requires forall g :: 0 <= g < |r.frm| ==> r.frm[g].owner != Slot(f, j)
    ensures !PagesOwned(r)
  {
    FaultAddress(j);
    hide Translate;
    assert !PageOwned(r, NULLPROC, GLOBAL * ENTRIES + j);
  }

  lemma FaultAddress(j: int)
    requires 0 <= j < ENTRIES
    ensures var vaddr: Address := GLOBAL * 0x40_0000 + j * 4096; var v := GLOBAL * ENTRIES + j;
      && PdOffset(vaddr) == GLOBAL && PtOffset(vaddr) == j && vaddr / 4096 == v
      && v / ENTRIES == GLOBAL && v % ENTRIES == j
  {
  }

  lemma LeftoverResult(s: Vm, vaddr: Address, data: seq<Entry>, f: nat)
    requires Inv(s) && NoOwners(s) && NULLPROC in s.pdbr && s.pdbr[NULLPROC] == GLOBAL && s.mem[GLOBAL] == DirEntries()
    requires Scan(s.frm, 0) == f && GLOBAL < f < NFRAMES && |data| == ENTRIES
    requires PdOffset(vaddr) == GLOBAL && PtOffset(vaddr) >= NFRAMES && s.mem[f][PtOffset(vaddr)].pres
    ensures var r := Pfint(s, NULLPROC, vaddr, false, data).0;
      && |r.mem| == NFRAMES && |r.mem[GLOBAL]| == ENTRIES && r.mem[GLOBAL][GLOBAL].base - FRAME0 == f
      && (forall g :: 0 <= g < |r.frm| ==> r.frm[g].owner != Slot(f, PtOffset(vaddr)))
  {
    var (s1, ok) := NeedTable(s, NULLPROC, GLOBAL, GLOBAL);
    hide Inv;
    assert s1.mem[f] == Cleared(s.mem[f]);
    assert s1.mem[f][PtOffset(vaddr)].pres;
    assert Pfint(s, NULLPROC, vaddr, false, data).0 == s1;
  }

  /** Every page above 16 MB is always in a frame of its own if and only if the
      words initialize_pt leaves were clear in memory at boot. */
  lemma CleanExactly(mem: seq<seq<Entry>>)
    requires Memory(mem)
    ensures AlwaysOwned(mem) <==> CleanMemory(mem)
  {
    if CleanMemory(mem) {
      CleanOwned(mem);
    } else {
      var f, j :| GLOBAL < f < NFRAMES && NFRAMES <= j < ENTRIES && mem[f][j].pres;
      var data := seq(ENTRIES, _ => NO_ENTRY);
      var run := Creates(f - 5);
      CreatesFill(mem, f - 5);
      hide Boot, LegalRun, Exec, Filled, Step, Legal, PagesOwned, CleanMemory, Creates;
      var s := Exec(Boot(mem), run);
      FilledShaped(s, mem, f - 5);
      LeftoverUnowned(s, mem, f - 5, j, data);
      LegalSnoc(Boot(mem), run, FaultAt(j, data));
      assert !AlwaysOwned(mem);
    }
  }
}
