/** Boot page tables, page directories and the page-fault handler, as long as
    the scan of the frame table finds a free frame. */
module PageSpec {

  const FRAME0: int := 1024
  const NFRAMES: int := 255
  const ENTRIES: int := 1024
  const GLOBAL: int := 4
  const NULLPROC: int := 0

  /** The fields of a directory or table entry that decide a translation. */
  datatype Entry = Entry(pres: bool, write: bool, base: int)

  datatype Kind = Page | Table | Dir

  /** Where an entry is: its frame and its index there. */
  datatype Slot = Slot(frame: int, index: int)

  /** A line of frm_tab, and the entry through which the frame was mapped. */
  datatype Frm = Frm(mapped: bool, pid: int, vpno: int, refcnt: int, kind: Kind, owner: Slot)

  /** The words of the frames, frm_tab, and each process's directory frame. */
  datatype Vm = Vm(mem: seq<seq<Entry>>, frm: seq<Frm>, pdbr: map<int, int>)

  datatype Result = Present | Mapped | NoBacking | NoFrame

  predicate Shaped(s: Vm) {
    |s.mem| == NFRAMES && |s.frm| == NFRAMES && forall f :: 0 <= f < NFRAMES ==> |s.mem[f]| == ENTRIES
  }

  const NO_ENTRY: Entry := Entry(false, false, 0)
  const NO_SLOT: Slot := Slot(-1, -1)
  const FREE_FRM: Frm := Frm(false, -1, 0, 0, Page, NO_SLOT)

  /** get_frm's scan: the first unmapped frame, or NFRAMES. */
  function Scan(frm: seq<Frm>, i: nat): (r: nat)
    requires i <= |frm|
    ensures i <= r <= |frm|
    decreases |frm| - i
  {
    if i == |frm| || !frm[i].mapped then i else Scan(frm, i + 1)
  }

  function IdTable(i: int): seq<Entry> {
    seq(ENTRIES, j requires 0 <= j => Entry(true, true, i * FRAME0 + j))
  }

  function DirEntries(): seq<Entry> {
    seq(ENTRIES, i requires 0 <= i => if i < GLOBAL then Entry(true, true, FRAME0 + i) else Entry(false, true, 0))
  }

  /** initialize_pt: as many entries as there are frames, not as there are
      entries. */
  function Cleared(e: seq<Entry>): seq<Entry>
    requires |e| == ENTRIES
  {
    seq(ENTRIES, j requires 0 <= j < ENTRIES => if j < NFRAMES then NO_ENTRY else e[j])
  }

  /** sysinit's loop for table i. */
  function MapGlobal(s: Vm, i: int): Vm
    requires Shaped(s)
  {
    var f := Scan(s.frm, 0);
    if f == NFRAMES then s
    else s.(frm := s.frm[f := s.frm[f].(mapped := true, kind := Table, pid := NULLPROC)], mem := s.mem[f := IdTable(i)])
  }

  function AllocatePd(s: Vm, pid: int): Vm
    requires Shaped(s)
  {
    var f := Scan(s.frm, 0);
    if f == NFRAMES then s
    else
      s.(frm := s.frm[f := s.frm[f].(pid := pid, kind := Dir, mapped := true, vpno := 0, refcnt := GLOBAL)],
         mem := s.mem[f := DirEntries()], pdbr := s.pdbr[pid := f])
  }

  /** The boot: frm_tab cleared, four global tables, the null process's
      directory. The frames hold whatever memory held. */
  function Boot(mem: seq<seq<Entry>>): Vm
    requires |mem| == NFRAMES && forall f :: 0 <= f < NFRAMES ==> |mem[f]| == ENTRIES
  {
    var s := Vm(mem, seq(NFRAMES, _ => FREE_FRM), map[]);
    AllocatePd(MapGlobal(MapGlobal(MapGlobal(MapGlobal(s, 0), 1), 2), 3), NULLPROC)
  }

  /** fr_vpno is computed from a signed address, rounding towards zero. */
  function VpnoOf(vaddr: int): int {
    if vaddr < 0x8000_0000 then vaddr / 4096 else -((0x1_0000_0000 - vaddr) / 4096)
  }

  type Address = x: int | 0 <= x < 0x1_0000_0000

  function PdOffset(vaddr: Address): (r: int)
    ensures 0 <= r < ENTRIES
  {
    vaddr / 0x40_0000
  }

  function PtOffset(vaddr: Address): (r: int)
    ensures 0 <= r < ENTRIES
  {
    vaddr / 4096 % 1024
  }

  /** The first half of pfint: a table where the directory has none. */
  function NeedTable(s: Vm, pid: int, d: int, i: int): (Vm, bool)
    requires Shaped(s) && 0 <= d < NFRAMES && 0 <= i < ENTRIES
  {
    if s.mem[d][i].pres then (s, true)
    else
      var t := Scan(s.frm, 0);
      if t == NFRAMES then (s, false)
      else
        var mem := s.mem[t := Cleared(s.mem[t])];
        (s.(mem := mem[d := mem[d][i := Entry(true, true, FRAME0 + t)]],
            frm := s.frm[t := s.frm[t].(mapped := true, pid := pid, kind := Table, owner := Slot(d, i))]), true)
  }

  /** The second half: a page where table t has none. */
  function NeedPage(s: Vm, pid: int, t: int, j: int, vaddr: Address, backed: bool, data: seq<Entry>): (Vm, Result)
    requires Shaped(s) && 0 <= t < NFRAMES && 0 <= j < ENTRIES && |data| == ENTRIES
  {
    if s.mem[t][j].pres then (s, Present)
    else
      var f := Scan(s.frm, 0);
      if f == NFRAMES then (s, NoFrame)
      else
        var mem := s.mem[t := s.mem[t][j := Entry(true, true, FRAME0 + f)]];
        var frm := s.frm[f := s.frm[f].(mapped := true, pid := pid, vpno := VpnoOf(vaddr), owner := Slot(t, j))];
        var frm1 := frm[t := frm[t].(refcnt := frm[t].refcnt + 1)];
        var s1 := s.(mem := if backed then mem[f := data] else mem, frm := frm1[f := frm1[f].(kind := Page)]);
        (s1, if backed then Mapped else NoBacking)
  }

  /** pfint for process pid; backed says whether bsm_lookup finds a backing
      store, data is the page read from it. */
  function Pfint(s: Vm, pid: int, vaddr: Address, backed: bool, data: seq<Entry>): (Vm, Result)
    requires Shaped(s) && |data| == ENTRIES
    requires pid in s.pdbr && 0 <= s.pdbr[pid] < NFRAMES
  {
    var d := s.pdbr[pid];
    var (s1, ok) := NeedTable(s, pid, d, PdOffset(vaddr));
    if !ok then (s1, NoFrame)
    else
      var t := s1.mem[d][PdOffset(vaddr)].base - FRAME0;
      if 0 <= t < NFRAMES && Shaped(s1) then NeedPage(s1, pid, t, PtOffset(vaddr), vaddr, backed, data) else (s1, NoFrame)
  }

  datatype Event =
    | Create(pid: int)
    | Fault(pid: int, vaddr: Address, backed: bool, data: seq<Entry>)
    | Store(frame: int, data: seq<Entry>)

  /** Programs store into mapped pages; the tables are the kernel's. */
  ghost predicate Legal(s: Vm, e: Event) {
    match e
    case Create(pid) => true
    case Fault(pid, vaddr, backed, data) => pid in s.pdbr && |data| == ENTRIES
    case Store(f, data) => 0 <= f < |s.frm| && s.frm[f].mapped && s.frm[f].kind == Page && |data| == ENTRIES
  }

  function Step(s: Vm, e: Event): Vm
    requires Shaped(s)
  {
    match e
    case Create(pid) => AllocatePd(s, pid)
    case Fault(pid, vaddr, backed, data) =>
      if pid in s.pdbr && 0 <= s.pdbr[pid] < NFRAMES && |data| == ENTRIES then Pfint(s, pid, vaddr, backed, data).0 else s
    case Store(f, data) => if 0 <= f < NFRAMES && |data| == ENTRIES then s.(mem := s.mem[f := data]) else s
  }

  datatype Option<T> = None | Some(value: T)

  /** The processor's walk: the physical page of virtual page vpn. */
  function Translate(s: Vm, pid: int, vpn: int): Option<int>
    requires Shaped(s) && pid in s.pdbr && 0 <= s.pdbr[pid] < NFRAMES && 0 <= vpn < ENTRIES * ENTRIES
  {
    var pde := s.mem[s.pdbr[pid]][vpn / ENTRIES];
    if !pde.pres || !(0 <= pde.base - FRAME0 < NFRAMES) then None
    else
      var pte := s.mem[pde.base - FRAME0][vpn % ENTRIES];
      if pte.pres then Some(pte.base) else None
  }
}
