/** What is in the pages: what a fault brings in, and what keeps it there. */
module PageContents {
  import opened PageSpec
  import opened PageRuns
  import opened PageSharing

  // ---- one fault --------------------------------------------------------------

  /** From s to r the page of vaddr was put into frame f, unmapped till then. */
  ghost predicate PutInto(s: Vm, r: Vm, pid: int, vaddr: Address, f: int) {
    && Shaped(s) && Shaped(r) && 0 <= f < NFRAMES && !s.frm[f].mapped
    && pid in r.pdbr && 0 <= r.pdbr[pid] < NFRAMES
    && Translate(r, pid, vaddr / 4096) == Some(FRAME0 + f)
    && r.frm[f].mapped && r.frm[f].kind == Page && r.frm[f].pid == pid && r.frm[f].vpno == VpnoOf(vaddr)
  }

  /** Between s and r: mapped frames stay mapped, pages keep their words, tables
      and directories the entries in use. */
  ghost predicate Kept(s: Vm, r: Vm) {
    && Shaped(s) && Shaped(r)
    && forall g {:trigger r.frm[g]} :: 0 <= g < NFRAMES && s.frm[g].mapped ==> FrameKept(s, r, g)
  }

  ghost predicate FrameKept(s: Vm, r: Vm, g: int)
    requires Shaped(s) && Shaped(r) && 0 <= g < NFRAMES
  {
    && r.frm[g].mapped && r.frm[g].kind == s.frm[g].kind && r.frm[g].owner == s.frm[g].owner
    && (s.frm[g].kind == Page ==> r.mem[g] == s.mem[g])
    && (forall k {:trigger r.mem[g][k]} :: 0 <= k < ENTRIES && s.mem[g][k].pres ==> r.mem[g][k] == s.mem[g][k])
  }

  lemma KeptThen(s: Vm, t: Vm, r: Vm)
    requires Kept(s, t) && Kept(t, r)
    ensures Kept(s, r)
  {
    forall g | 0 <= g < NFRAMES && s.frm[g].mapped ensures FrameKept(s, r, g) {
      assert FrameKept(s, t, g) && FrameKept(t, r, g);
      forall k | 0 <= k < ENTRIES && s.mem[g][k].pres ensures r.mem[g][k] == s.mem[g][k] {
        assert t.mem[g][k] == s.mem[g][k];
      }
    }
  }

  lemma TableKept(s: Vm, pid: int, d: int, i: int)
    requires Inv(s) && IsKind(s, d, Dir) && 0 <= i < ENTRIES
    ensures Kept(s, NeedTable(s, pid, d, i).0)
  {
    var t := Scan(s.frm, 0);
    ScanFinds(s.frm, 0);
    var r := NeedTable(s, pid, d, i).0;
    forall g | 0 <= g < NFRAMES && s.frm[g].mapped ensures FrameKept(s, r, g) {
    }
  }

  lemma PageEntered(s: Vm, pid: int, t: int, j: int, vaddr: Address, backed: bool, data: seq<Entry>)
    requires Inv(s) && IsKind(s, t, Table) && 0 <= j < ENTRIES && |data| == ENTRIES
    ensures var (r, how) := NeedPage(s, pid, t, j, vaddr, backed, data);
      && Kept(s, r) && r.pdbr == s.pdbr
      && (how == Present <==> s.mem[t][j].pres)
      && (how in {Present, NoFrame} ==> r == s)
      && (how == NoFrame <==> !s.mem[t][j].pres && Scan(s.frm, 0) == NFRAMES)
      && (how in {Mapped, NoBacking} ==>
            var f := Scan(s.frm, 0);
            && (how == Mapped <==> backed)
            && f < NFRAMES && !s.frm[f].mapped && f != t
            && r.mem[t] == s.mem[t][j := Entry(true, true, FRAME0 + f)]
            && r.mem[f] == (if backed then data else s.mem[f])
            && (forall g :: 0 <= g < NFRAMES && g != f && g != t ==> r.mem[g] == s.mem[g])
            && r.frm[f].mapped && r.frm[f].kind == Page && r.frm[f].pid == pid && r.frm[f].vpno == VpnoOf(vaddr))
  {
    var f := Scan(s.frm, 0);
    ScanFinds(s.frm, 0);
    var r := NeedPage(s, pid, t, j, vaddr, backed, data).0;
    hide Inv;
    forall g | 0 <= g < NFRAMES && s.frm[g].mapped ensures FrameKept(s, r, g) {
    }
  }

  lemma DirOf(s: Vm, pid: int)
    requires Inv(s) && pid in s.pdbr
    ensures Shaped(s) && 0 <= s.pdbr[pid] < NFRAMES && IsKind(s, s.pdbr[pid], Dir)
  {
    assert IsKind(s, s.pdbr[pid], Dir);
  }

  /** A fault leaves everything else in use as it was. */
  lemma FaultKeeps(s: Vm, pid: int, vaddr: Address, backed: bool, data: seq<Entry>)
    requires Inv(s) && pid in s.pdbr && |data| == ENTRIES
    ensures Shaped(s) && 0 <= s.pdbr[pid] < NFRAMES && Kept(s, Pfint(s, pid, vaddr, backed, data).0)
  {
    DirOf(s, pid);
    var d, i := s.pdbr[pid], PdOffset(vaddr);
    TableKept(s, pid, d, i);
    NeedTableInv(s, pid, d, i);
    var (s1, ok) := NeedTable(s, pid, d, i);
    hide NeedTable, NeedPage, Kept;
    if ok {
      var t := s1.mem[d][i].base - FRAME0;
      PageEntered(s1, pid, t, PtOffset(vaddr), vaddr, backed, data);
      KeptThen(s, s1, Pfint(s, pid, vaddr, backed, data).0);
    }
  }

  /** The two halves of a fault and the table between them. */
  lemma FaultShape(s: Vm, pid: int, vaddr: Address, backed: bool, data: seq<Entry>)
    requires Inv(s) && pid in s.pdbr && |data| == ENTRIES
    ensures Shaped(s) && 0 <= s.pdbr[pid] < NFRAMES && IsKind(s, s.pdbr[pid], Dir)
    ensures var d := s.pdbr[pid]; var (s1, ok) := NeedTable(s, pid, d, PdOffset(vaddr));
      && Inv(s1) && Shaped(s1) && s1.pdbr == s.pdbr
      && (!ok ==> Pfint(s, pid, vaddr, backed, data) == (s1, NoFrame))
      && (ok ==>
            var t := s1.mem[d][PdOffset(vaddr)].base - FRAME0;
            && s1.mem[d][PdOffset(vaddr)].pres && 0 <= t < NFRAMES && t != d && IsKind(s1, t, Table) && IsKind(s1, d, Dir)
            && Pfint(s, pid, vaddr, backed, data) == NeedPage(s1, pid, t, PtOffset(vaddr), vaddr, backed, data))
  {
    DirOf(s, pid);
    NeedTableInv(s, pid, s.pdbr[pid], PdOffset(vaddr));
    hide NeedTable, NeedPage;
  }

  /** The translation goes through this directory entry and this table entry. */
  lemma TranslateVia(s: Vm, pid: int, vaddr: Address, t: int, f: int)
    requires Shaped(s) && pid in s.pdbr && 0 <= s.pdbr[pid] < NFRAMES && 0 <= t < NFRAMES
    requires s.mem[s.pdbr[pid]][PdOffset(vaddr)].pres && s.mem[s.pdbr[pid]][PdOffset(vaddr)].base == FRAME0 + t
    requires s.mem[t][PtOffset(vaddr)] == Entry(true, true, FRAME0 + f)
    ensures Translate(s, pid, vaddr / 4096) == Some(FRAME0 + f)
  {
    assert vaddr / 4096 / ENTRIES == PdOffset(vaddr) && vaddr / 4096 % ENTRIES == PtOffset(vaddr);
  }

  lemma TableFree(s: Vm, pid: int, d: int, i: int, g: int)
    requires Inv(s) && IsKind(s, d, Dir) && 0 <= i < ENTRIES && 0 <= g < NFRAMES
    ensures var r := NeedTable(s, pid, d, i).0; !r.frm[g].mapped ==> !s.frm[g].mapped && r.mem[g] == s.mem[g]
  {
    ScanFinds(s.frm, 0);
    hide DirsOK, GlobalsOK, PdbrOK;
  }

  /** The second half, as the whole walk sees it. */
  lemma PagePut(s: Vm, pid: int, t: int, vaddr: Address, backed: bool, data: seq<Entry>)
    requires Inv(s) && pid in s.pdbr && 0 <= s.pdbr[pid] < NFRAMES && |data| == ENTRIES
    requires IsKind(s, t, Table) && t != s.pdbr[pid] && IsKind(s, s.pdbr[pid], Dir)
    requires s.mem[s.pdbr[pid]][PdOffset(vaddr)].pres && s.mem[s.pdbr[pid]][PdOffset(vaddr)].base == FRAME0 + t
    ensures var (r, how) := NeedPage(s, pid, t, PtOffset(vaddr), vaddr, backed, data);
      how in {Mapped, NoBacking} ==>
        var f := Scan(s.frm, 0);
        (how == Mapped <==> backed) && PutInto(s, r, pid, vaddr, f) && r.mem[f] == if backed then data else s.mem[f]
  {
    var (r, how) := NeedPage(s, pid, t, PtOffset(vaddr), vaddr, backed, data);
    PageEntered(s, pid, t, PtOffset(vaddr), vaddr, backed, data);
    hide NeedPage, Translate, Inv, Scan, Kept;
    if how in {Mapped, NoBacking} {
      TranslateVia(r, pid, vaddr, t, Scan(s.frm, 0));
    }
  }

  /** Where a fault puts the page: the frame the second scan finds. */
  function PutAt(s: Vm, pid: int, vaddr: Address): int
    requires Shaped(s) && pid in s.pdbr && 0 <= s.pdbr[pid] < NFRAMES
  {
    Scan(NeedTable(s, pid, s.pdbr[pid], PdOffset(vaddr)).0.frm, 0)
  }

  lemma FaultPuts(s: Vm, pid: int, vaddr: Address, backed: bool, data: seq<Entry>)
    requires Inv(s) && pid in s.pdbr && |data| == ENTRIES
    ensures Shaped(s) && 0 <= s.pdbr[pid] < NFRAMES
    ensures var (r, how) := Pfint(s, pid, vaddr, backed, data); var f := PutAt(s, pid, vaddr);
      how in {Mapped, NoBacking} ==>
        (how == Mapped <==> backed) && PutInto(s, r, pid, vaddr, f) && r.mem[f] == if backed then data else s.mem[f]
  {
    FaultShape(s, pid, vaddr, backed, data);
    var d, i := s.pdbr[pid], PdOffset(vaddr);
    var (s1, ok) := NeedTable(s, pid, d, i);
    hide NeedTable, NeedPage, Translate, Inv, Pfint, Scan;
    if ok {
      PagePut(s1, pid, s1.mem[d][i].base - FRAME0, vaddr, backed, data);
      var f := PutAt(s, pid, vaddr);
      if 0 <= f < NFRAMES {
        TableFree(s, pid, d, i, f);
      }
    }
  }

  /** A fault that says the page is mapped has put it, as read from the backing
      store, into a frame that was unmapped. One that finds no backing store has
      mapped it too, on whatever words the frame held. */
  lemma FaultLoads(s: Vm, pid: int, vaddr: Address, backed: bool, data: seq<Entry>)
    requires Inv(s) && pid in s.pdbr && |data| == ENTRIES
    ensures Shaped(s) && 0 <= s.pdbr[pid] < NFRAMES
    ensures var (r, how) := Pfint(s, pid, vaddr, backed, data);
      how in {Mapped, NoBacking} ==>
        && (how == Mapped <==> backed)
        && exists f :: PutInto(s, r, pid, vaddr, f) && r.mem[f] == if backed then data else s.mem[f]
  {
    FaultPuts(s, pid, vaddr, backed, data);
    hide Pfint, PutAt, PutInto, Inv;
  }

  /** What the first half does to the words and to the frame table. */
  lemma TableWords(s: Vm, pid: int, d: int, i: int)
    requires Inv(s) && IsKind(s, d, Dir) && 0 <= i < ENTRIES
    ensures var (r, ok) := NeedTable(s, pid, d, i);
      && (s.mem[d][i].pres ==> ok && r == s)
      && (!s.mem[d][i].pres ==> (ok <==> Scan(s.frm, 0) < NFRAMES) && (!ok ==> r == s))
      && (!s.mem[d][i].pres && ok ==>
            var t := Scan(s.frm, 0);
            && !s.frm[t].mapped && t != d
            && r.mem[d] == s.mem[d][i := Entry(true, true, FRAME0 + t)] && r.mem[t] == Cleared(s.mem[t])
            && r.frm[t].mapped && r.frm[t].kind == Table && r.frm[t].pid == pid && r.frm[t].refcnt == s.frm[t].refcnt)
      && (forall g :: 0 <= g < NFRAMES && !r.frm[g].mapped ==> !s.frm[g].mapped && r.mem[g] == s.mem[g])
      && (forall g :: 0 <= g < NFRAMES && g != d && s.frm[g].mapped ==> r.mem[g] == s.mem[g])
  {
    ScanFinds(s.frm, 0);
    hide DirsOK, GlobalsOK, PdbrOK;
  }

  /** No word of memory changes but in the directory entry and the table entry
      made, in the table cleared and in the page brought in. */
  lemma NothingElse(s: Vm, pid: int, vaddr: Address, backed: bool, data: seq<Entry>, g: int, k: int)
    requires Inv(s) && pid in s.pdbr && |data| == ENTRIES && 0 <= g < NFRAMES && 0 <= k < ENTRIES
    ensures Shaped(s) && 0 <= s.pdbr[pid] < NFRAMES && Shaped(Pfint(s, pid, vaddr, backed, data).0)
    ensures var d, i, j := s.pdbr[pid], PdOffset(vaddr), PtOffset(vaddr); var r := Pfint(s, pid, vaddr, backed, data).0;
      r.mem[g][k] != s.mem[g][k] ==>
        || (g == d && k == i && !s.mem[d][i].pres)
        || (g == r.mem[d][i].base - FRAME0 && k == j)
        || (g == r.mem[d][i].base - FRAME0 && k < NFRAMES && !s.mem[d][i].pres)
        || (backed && PutInto(s, r, pid, vaddr, g))
  {
    FaultShape(s, pid, vaddr, backed, data);
    FaultPuts(s, pid, vaddr, backed, data);
    FaultKeeps(s, pid, vaddr, backed, data);
    var d, i, j := s.pdbr[pid], PdOffset(vaddr), PtOffset(vaddr);
    TableWords(s, pid, d, i);
    var (s1, ok) := NeedTable(s, pid, d, i);
    hide NeedTable, NeedPage, Inv, Pfint, Scan, PutInto;
    assert Shaped(Pfint(s, pid, vaddr, backed, data).0);
    hide Kept;
    if ok {
      PageEntered(s1, pid, s1.mem[d][i].base - FRAME0, j, vaddr, backed, data);
    }
  }

  /** The page number recorded is the page's own below 2^31; above, the address is
      negative and the number recorded is minus the pages up to 2^32. */
  lemma VpnoExactly(vaddr: Address)
    ensures VpnoOf(vaddr) == vaddr / 4096 <==> vaddr < 0x8000_0000
    ensures vaddr >= 0x8000_0000 && vaddr % 4096 == 0 ==> VpnoOf(vaddr) == vaddr / 4096 - 0x10_0000
  {
  }

  /** A new process gets the first unmapped frame as its directory, with the four
      global tables in it and nothing else; without a frame nothing happens. */
  lemma AllocateExactly(s: Vm, pid: int)
    requires Inv(s)
    ensures var r := AllocatePd(s, pid); var f := Scan(s.frm, 0);
      if f == NFRAMES then r == s
      else
        && !s.frm[f].mapped && r.pdbr == s.pdbr[pid := f]
        && r.frm[f].mapped && r.frm[f].kind == Dir && r.frm[f].pid == pid && r.frm[f].refcnt == 4 && r.frm[f].vpno == 0
        && (forall i :: 0 <= i < 4 ==> r.mem[f][i] == Entry(true, true, 1024 + i))
        && (forall i :: 4 <= i < ENTRIES ==> !r.mem[f][i].pres)
        && (forall g :: 0 <= g < NFRAMES && g != f ==> r.mem[g] == s.mem[g] && r.frm[g] == s.frm[g])
  {
    ScanFinds(s.frm, 0);
    hide Inv, Scan;
  }

  // ---- when a fault is served -----------------------------------------------------

  /** With two unmapped frames every fault is served: the page was there, is
      brought in, or has no backing store. */
  lemma TwoFramesDo(s: Vm, pid: int, vaddr: Address, backed: bool, data: seq<Entry>, a: int, b: int)
    requires Inv(s) && pid in s.pdbr && |data| == ENTRIES
    requires 0 <= a < b < |s.frm| && !s.frm[a].mapped && !s.frm[b].mapped
    ensures Shaped(s) && 0 <= s.pdbr[pid] < NFRAMES && Pfint(s, pid, vaddr, backed, data).1 != NoFrame
  {
    FaultShape(s, pid, vaddr, backed, data);
    var d, i, j := s.pdbr[pid], PdOffset(vaddr), PtOffset(vaddr);
    TableWords(s, pid, d, i);
    ScanFinds(s.frm, 0);
    var (s1, ok) := NeedTable(s, pid, d, i);
    ScanFinds(s1.frm, 0);
    assert !s1.frm[a].mapped || !s1.frm[b].mapped;
    hide NeedTable, NeedPage, Kept, Inv, Pfint;
    if ok {
      PageEntered(s1, pid, s1.mem[d][i].base - FRAME0, j, vaddr, backed, data);
    }
  }

  /** A fault finds the page present if and only if it can be translated, or its
      new table's leftover words say so. */
  lemma PresentExactly(s: Vm, pid: int, vaddr: Address, backed: bool, data: seq<Entry>)
    requires Inv(s) && pid in s.pdbr && |data| == ENTRIES
    ensures Shaped(s) && 0 <= s.pdbr[pid] < NFRAMES
    ensures var d, i, j := s.pdbr[pid], PdOffset(vaddr), PtOffset(vaddr); var t := Scan(s.frm, 0);
      Pfint(s, pid, vaddr, backed, data).1 == Present <==>
        || Translate(s, pid, vaddr / 4096).Some?
        || (!s.mem[d][i].pres && t < NFRAMES && j >= NFRAMES && s.mem[t][j].pres)
  {
    FaultShape(s, pid, vaddr, backed, data);
    var d, i, j := s.pdbr[pid], PdOffset(vaddr), PtOffset(vaddr);
    TableWords(s, pid, d, i);
    var (s1, ok) := NeedTable(s, pid, d, i);
    assert vaddr / 4096 / ENTRIES == i && vaddr / 4096 % ENTRIES == j;
    hide Inv, NeedTable, NeedPage, Kept, Scan, Pfint;
    if ok {
      PageEntered(s1, pid, s1.mem[d][i].base - FRAME0, j, vaddr, backed, data);
    }
  }

  // ---- over a run ----------------------------------------------------------------

  lemma AllocateKept(s: Vm, pid: int)
    requires Inv(s)
    ensures Kept(s, AllocatePd(s, pid))
  {
    ScanFinds(s.frm, 0);
    var r := AllocatePd(s, pid);
    forall g | 0 <= g < NFRAMES && s.frm[g].mapped ensures FrameKept(s, r, g) {
    }
  }

  /** A page of a process, and the frame it is in. */
  ghost predicate InFrame(s: Vm, pid: int, vpn: int, f: int)
    requires 0 <= vpn < ENTRIES * ENTRIES
  {
    && Shaped(s) && pid in s.pdbr && 0 <= s.pdbr[pid] < NFRAMES
    && Translate(s, pid, vpn) == Some(FRAME0 + f)
  }

  lemma TranslationKept(s: Vm, r: Vm, pid: int, vpn: int, f: int)
    requires Own(s) && Kept(s, r) && pid in r.pdbr && pid in s.pdbr && r.pdbr[pid] == s.pdbr[pid]
    requires GLOBAL * ENTRIES <= vpn < ENTRIES * ENTRIES && InFrame(s, pid, vpn, f)
    ensures InFrame(r, pid, vpn, f) && 0 <= f < NFRAMES && r.mem[f] == s.mem[f] && IsKind(s, f, Page)
  {
    PageWhere(s, pid, vpn);
    var d, i, j := s.pdbr[pid], vpn / ENTRIES, vpn % ENTRIES;
    DirOf(s, pid);
    var t := s.mem[d][i].base - FRAME0;
    assert FrameKept(s, r, d) && FrameKept(s, r, t) && FrameKept(s, r, f);
    hide Own, Kept;
    assert r.mem[d][i] == s.mem[d][i] && r.mem[t][j] == s.mem[t][j];
  }

  /** Neither writes frame f nor makes the process anew. */
  predicate Spares(e: Event, pid: int, f: int) { !(e.Store? && e.frame == f) && !(e.Create? && e.pid == pid) }

  lemma StepKept(s: Vm, e: Event, pid: int, vpn: int, f: int)
    requires Own(s) && Legal(s, e) && Spares(e, pid, f)
    requires GLOBAL * ENTRIES <= vpn < ENTRIES * ENTRIES && InFrame(s, pid, vpn, f)
    ensures var r := Step(s, e); InFrame(r, pid, vpn, f) && 0 <= f < NFRAMES && r.mem[f] == s.mem[f]
  {
    match e
    case Create(q) =>
      AllocateKept(s, q);
      TranslationKept(s, Step(s, e), pid, vpn, f);
    case Fault(q, vaddr, backed, data) =>
      PfintInv(s, q, vaddr, backed, data);
      FaultKeeps(s, q, vaddr, backed, data);
      hide Own, Kept, Pfint;
      TranslationKept(s, Step(s, e), pid, vpn, f);
    case Store(g, data) => StoreKept(s, e, pid, vpn, f);
  }

  lemma StoreKept(s: Vm, e: Event, pid: int, vpn: int, f: int)
    requires Own(s) && Legal(s, e) && e.Store? && Spares(e, pid, f)
    requires GLOBAL * ENTRIES <= vpn < ENTRIES * ENTRIES && InFrame(s, pid, vpn, f)
    ensures var r := Step(s, e); InFrame(r, pid, vpn, f) && 0 <= f < NFRAMES && r.mem[f] == s.mem[f]
  {
    PageWhere(s, pid, vpn);
    DirOf(s, pid);
    hide Own;
  }

  /** Once a page is in, it stays in its frame with the same words over every run
      of creations, faults of any process and stores to other frames. */
  lemma {:induction false} PageStays(s: Vm, run: seq<Event>, pid: int, vpn: int, f: int)
    requires Own(s) && LegalRun(s, run) && forall i :: 0 <= i < |run| ==> Spares(run[i], pid, f)
    requires GLOBAL * ENTRIES <= vpn < ENTRIES * ENTRIES && InFrame(s, pid, vpn, f)
    ensures var r := Exec(s, run); InFrame(r, pid, vpn, f) && 0 <= f < NFRAMES && r.mem[f] == s.mem[f]
    decreases |run|
  {
    if run == [] {
      PageWhere(s, pid, vpn);
    } else {
      assert Spares(run[0], pid, f);
      StepKept(s, run[0], pid, vpn, f);
      StepOwn(s, run[0]);
      hide Own, InFrame, Step, Legal, Spares;
      assert forall i :: 0 <= i < |run[1..]| ==> run[1..][i] == run[i + 1];
      PageStays(Step(s, run[0]), run[1..], pid, vpn, f);
    }
  }

  /** From boot with clean memory: a page brought in from its backing store still
      holds those words after any such run. */
  lemma LoadedStays(mem: seq<seq<Entry>>, before: seq<Event>, pid: int, vaddr: Address, data: seq<Entry>,
                    run: seq<Event>, f: int)
    requires Memory(mem) && CleanMemory(mem) && LegalRun(Boot(mem), before)
    requires var s := Exec(Boot(mem), before);
      && Shaped(s) && pid in s.pdbr && 0 <= s.pdbr[pid] < NFRAMES && |data| == ENTRIES
      && vaddr >= GLOBAL * ENTRIES * 4096 && Pfint(s, pid, vaddr, true, data).1 == Mapped
      && LegalRun(Step(s, Fault(pid, vaddr, true, data)), run)
      && PutInto(s, Step(s, Fault(pid, vaddr, true, data)), pid, vaddr, f)
    requires forall i :: 0 <= i < |run| ==> Spares(run[i], pid, f)
    ensures var s1 := Step(Exec(Boot(mem), before), Fault(pid, vaddr, true, data)); var r := Exec(s1, run);
      InFrame(r, pid, vaddr / 4096, f) && 0 <= f < NFRAMES && Shaped(r) && r.mem[f] == data
  {
    hide Boot, LegalRun, Exec, Translate, Pfint, CleanMemory;
    BootOwn(mem);
    RunOwn(Boot(mem), before);
    var s := Exec(Boot(mem), before);
    var e := Fault(pid, vaddr, true, data);
    OwnInv(s);
    FaultLoads(s, pid, vaddr, true, data);
    StepOwn(s, e);
    PageStays(Step(s, e), run, pid, vaddr / 4096, f);
  }

  lemma OwnInv(s: Vm)
    requires Own(s)
    ensures Inv(s)
  {
  }

  // ---- reference counts ---------------------------------------------------------

  function PageOf(x: Frm, t: int): nat { if x.mapped && x.kind == Page && x.owner.frame == t then 1 else 0 }

  /** Pages entered through frame t. */
  function Entered(frm: seq<Frm>, t: int): nat {
    if frm == [] then 0 else Entered(frm[..|frm| - 1], t) + PageOf(frm[|frm| - 1], t)
  }

  lemma {:induction false} EnteredSet(frm: seq<Frm>, g: nat, x: Frm, t: int)
    requires g < |frm|
    ensures Entered(frm[g := x], t) == Entered(frm, t) - PageOf(frm[g], t) + PageOf(x, t)
    decreases |frm|
  {
    var n := |frm| - 1;
    if g == n {
      assert frm[g := x][..n] == frm[..n];
    } else {
      assert frm[g := x][..n] == frm[..n][g := x];
      EnteredSet(frm[..n], g, x, t);
    }
  }

  /** Every count of a frame that is no directory is the number of pages entered
      through it, and pages are entered through tables. */
  ghost predicate Counted(s: Vm) {
    && |s.frm| == NFRAMES
    && (forall t :: 0 <= t < NFRAMES && !IsKind(s, t, Dir) ==> s.frm[t].refcnt == Entered(s.frm, t))
    && (forall g :: 0 <= g < NFRAMES && IsKind(s, g, Page) ==> IsKind(s, s.frm[g].owner.frame, Table))
  }

  lemma AllocateCounted(s: Vm, pid: int)
    requires Inv(s) && Counted(s)
    ensures Counted(AllocatePd(s, pid))
  {
    var f := Scan(s.frm, 0);
    ScanFinds(s.frm, 0);
    var r := AllocatePd(s, pid);
    if f < NFRAMES {
      forall t ensures Entered(r.frm, t) == Entered(s.frm, t) {
        EnteredSet(s.frm, f, r.frm[f], t);
      }
      hide Inv;
    }
  }

  lemma TableCounted(s: Vm, pid: int, d: int, i: int)
    requires Inv(s) && Counted(s) && IsKind(s, d, Dir) && 0 <= i < ENTRIES
    ensures Counted(NeedTable(s, pid, d, i).0)
  {
    var f := Scan(s.frm, 0);
    ScanFinds(s.frm, 0);
    var r := NeedTable(s, pid, d, i).0;
    if r != s {
      forall t ensures Entered(r.frm, t) == Entered(s.frm, t) {
        EnteredSet(s.frm, f, r.frm[f], t);
      }
      hide Inv;
    }
  }

  /** The frame table after a page was entered. */
  lemma PageFrames(s: Vm, pid: int, t: int, j: int, vaddr: Address, backed: bool, data: seq<Entry>)
    requires Inv(s) && IsKind(s, t, Table) && 0 <= j < ENTRIES && |data| == ENTRIES
    ensures var r := NeedPage(s, pid, t, j, vaddr, backed, data).0; var f := Scan(s.frm, 0);
      r.frm == s.frm || (f < NFRAMES && f != t && !s.frm[f].mapped
        && r.frm == s.frm[f := r.frm[f]][t := s.frm[t].(refcnt := s.frm[t].refcnt + 1)]
        && r.frm[f].mapped && r.frm[f].kind == Page && r.frm[f].owner == Slot(t, j) && r.frm[f].refcnt == s.frm[f].refcnt)
  {
    ScanFinds(s.frm, 0);
    hide Inv, Scan;
  }

  lemma PageCounted(s: Vm, pid: int, t: int, j: int, vaddr: Address, backed: bool, data: seq<Entry>)
    requires Inv(s) && Counted(s) && IsKind(s, t, Table) && 0 <= j < ENTRIES && |data| == ENTRIES
    ensures Counted(NeedPage(s, pid, t, j, vaddr, backed, data).0)
  {
    var f := Scan(s.frm, 0);
    PageFrames(s, pid, t, j, vaddr, backed, data);
    var r := NeedPage(s, pid, t, j, vaddr, backed, data).0;
    hide Inv, Scan, NeedPage;
    if r.frm != s.frm {
      var frm := s.frm[f := r.frm[f]];
      forall u ensures Entered(r.frm, u) == Entered(s.frm, u) + if u == t then 1 else 0 {
        EnteredSet(s.frm, f, r.frm[f], u);
        EnteredSet(frm, t, r.frm[t], u);
      }
    }
  }

  lemma FaultCounted(s: Vm, pid: int, vaddr: Address, backed: bool, data: seq<Entry>)
    requires Inv(s) && Counted(s) && pid in s.pdbr && |data| == ENTRIES
    ensures Shaped(s) && 0 <= s.pdbr[pid] < NFRAMES && Counted(Pfint(s, pid, vaddr, backed, data).0)
  {
    hide NeedTable, NeedPage, Pfint, Counted, Inv;
    FaultShape(s, pid, vaddr, backed, data);
    var d, i := s.pdbr[pid], PdOffset(vaddr);
    TableCounted(s, pid, d, i);
    var (s1, ok) := NeedTable(s, pid, d, i);
    if ok {
      PageCounted(s1, pid, s1.mem[d][i].base - FRAME0, PtOffset(vaddr), vaddr, backed, data);
    }
  }

  lemma StoreCounted(s: Vm, f: int, data: seq<Entry>)
    requires Shaped(s) && Counted(s)
    ensures Counted(Step(s, Store(f, data)))
  {
  }

  lemma StepCounted(s: Vm, e: Event)
    requires Inv(s) && Counted(s) && Legal(s, e)
    ensures Counted(Step(s, e))
  {
    hide Counted, Inv, AllocatePd, Pfint;
    match e
    case Create(pid) => AllocateCounted(s, pid);
    case Fault(pid, vaddr, backed, data) => FaultCounted(s, pid, vaddr, backed, data);
    case Store(f, data) =>
      ShapeOf(s);
      StoreCounted(s, f, data);
  }

  lemma ShapeOf(s: Vm)
    requires Inv(s)
    ensures Shaped(s)
  {
  }

  lemma {:induction false} RunCounted(s: Vm, run: seq<Event>)
    requires Inv(s) && Counted(s) && LegalRun(s, run)
    ensures Counted(Exec(s, run))
    decreases |run|
  {
    hide Inv, Counted, Legal, Step;
    if run != [] {
      StepCounted(s, run[0]);
      StepInv(s, run[0]);
      RunCounted(Step(s, run[0]), run[1..]);
    }
  }

  lemma {:induction false} EnteredNone(frm: seq<Frm>, t: int)
    requires forall g :: 0 <= g < |frm| ==> !(frm[g].mapped && frm[g].kind == Page)
    ensures Entered(frm, t) == 0
  {
    if frm != [] {
      EnteredNone(frm[..|frm| - 1], t);
    }
  }

  lemma BootCounted(mem: seq<seq<Entry>>)
    requires Memory(mem)
    ensures Counted(Boot(mem))
  {
    BootFilled(mem);
    BootRefs(mem);
    var s := Boot(mem);
    forall t ensures Entered(s.frm, t) == 0 {
      EnteredNone(s.frm, t);
    }
    hide Boot, Filled;
  }

  lemma MapRefs(s: Vm, i: int)
    requires Shaped(s) && forall g :: 0 <= g < NFRAMES ==> s.frm[g].refcnt == 0 && !IsKind(s, g, Page)
    ensures var r := MapGlobal(s, i);
      Shaped(r) && forall g :: 0 <= g < NFRAMES ==> r.frm[g].refcnt == 0 && !IsKind(r, g, Page)
  {
    hide Scan;
  }

  lemma BootRefs(mem: seq<seq<Entry>>)
    requires Memory(mem)
    ensures var s := Boot(mem);
      |s.frm| == NFRAMES && forall g :: 0 <= g < NFRAMES ==> !IsKind(s, g, Page) && (IsKind(s, g, Dir) || s.frm[g].refcnt == 0)
  {
    var s := Vm(mem, seq(NFRAMES, _ => FREE_FRM), map[]);
    assert forall g :: 0 <= g < NFRAMES ==> s.frm[g].refcnt == 0 && !IsKind(s, g, Page);
    hide MapGlobal, Scan;
    MapRefs(s, 0);
    var s0 := MapGlobal(s, 0);
    MapRefs(s0, 1);
    var s1 := MapGlobal(s0, 1);
    MapRefs(s1, 2);
    var s2 := MapGlobal(s1, 2);
    MapRefs(s2, 3);
  }

  /** From boot, after any run, the reference count of every page table is the
      number of pages brought in through it. */
  lemma RefCounts(mem: seq<seq<Entry>>, run: seq<Event>, t: int)
    requires Memory(mem) && LegalRun(Boot(mem), run) && IsKind(Exec(Boot(mem), run), t, Table)
    ensures var s := Exec(Boot(mem), run); s.frm[t].refcnt == Entered(s.frm, t)
  {
    BootInv(mem);
    BootCounted(mem);
    RunCounted(Boot(mem), run);
    hide Boot, LegalRun, Exec;
  }
}
