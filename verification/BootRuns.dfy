/** What a boot has in memory when it is done, over every network. */
module BootRuns {
  import opened BootSpec

  /** The file's first n bytes are in memory. */
  ghost predicate Stored(c: Client, file: seq<Byte>, n: nat) {
    n <= |file| && n <= |c.mem| && c.mem[..n] == file[..n]
  }

  ghost predicate Receiving(c: Client) {
    c.phase == TftpReqSent && c.pc in {SetBytes, SetRetx, AtSwitch}
  }

  /** Bytes counted and bytes cleared make up the bytes stored. */
  ghost predicate Counted(c: Client) {
    c.bytes + (if c.pc == SetBytes then 0 else c.wiped) == c.memloc
  }

  /** The transfer state at every statement of the main loop. */
  ghost predicate Inv(c: Client, file: seq<Byte>) {
    && |file| <= |c.mem|
    && (c.phase == TftpReqSent ==> c.pc in {SetTftpTimer, SetBlock, SetBytes, SetRetx, AtSwitch})
    && (c.pc in {SetMemloc, SendTftp, SetPhase} ==> c.phase in {BeginTftp, TftpRetx})
    && (c.pc == SetBootpPhase ==> c.phase in {BeginBootp, BootpRetx})
    && (c.pc in {SendTftp, SetPhase} ==> c.memloc == 0)
    && (c.pc == SetPhase ==> c.block == 0 && c.bytes == 0)
    && (c.phase == TftpReqSent && c.pc in {SetTftpTimer, SetBlock} ==> c.block == 0 && c.bytes == 0 && c.memloc == 0)
    && (Receiving(c) ==>
          c.block >= 1 && c.memloc == TFTP_BLOCK_SIZE * (c.block - 1) && Stored(c, file, c.memloc) && Counted(c))
    && (c.phase == BootDone ==>
          c.pc in {SetBytes, SetRetx, AtSwitch, Jumped} && c.memloc == |file| && Stored(c, file, |file|)
          && Counted(c) && Blocks(file) < 0x8000)
    && (c.pc == Jumped ==> c.phase == BootDone)
  }

  lemma FreshInv(c: Client, file: seq<Byte>)
    requires Fresh(c) && |file| <= |c.mem|
    ensures Inv(c, file)
  {
  }

  lemma MainInv(c: Client, file: seq<Byte>)
    requires Inv(c, file)
    ensures Inv(Main(c), file)
  {
  }

  lemma TickInv(c: Client, file: seq<Byte>)
    requires Inv(c, file)
    ensures Inv(Timer(c), file)
  {
  }

  /** In a file of fewer than 2^16 blocks, the block whose number a client
      expects is the only one that carries it. */
  lemma NumberUnique(k: nat, b: int)
    requires 1 <= k < 0x1_0000 && ToShort(k % 0x1_0000) == b && b >= 0
    ensures k == b && b < 0x8000
  {
  }

  lemma BlockDataLength(file: seq<Byte>, k: nat)
    requires 1 <= k <= Blocks(file)
    ensures |BlockData(file, k)| < TFTP_BLOCK_SIZE <==> k == Blocks(file)
    ensures TFTP_BLOCK_SIZE * (k - 1) + |BlockData(file, k)| == Min(TFTP_BLOCK_SIZE * k, |file|)
  {
  }

  /** Storing the next block extends the stored prefix by it. */
  lemma CopyExtends(c: Client, file: seq<Byte>, k: nat)
    requires 1 <= k <= Blocks(file) && c.memloc == TFTP_BLOCK_SIZE * (k - 1)
    requires Stored(c, file, c.memloc) && |file| <= |c.mem|
    ensures var d := BlockData(file, k);
      Stored(c.(mem := Copy(c.mem, c.memloc, d)), file, c.memloc + |d|)
  {
    var d := BlockData(file, k);
    BlockDataLength(file, k);
    var mem := Copy(c.mem, c.memloc, d);
    assert mem[..c.memloc + |d|] == c.mem[..c.memloc] + d;
    assert file[..c.memloc] + d == file[..c.memloc + |d|];
  }

  /** A block of the file, whichever it is and whenever it comes. */
  lemma DataInv(c: Client, file: seq<Byte>, k: nat)
    requires Inv(c, file) && 1 <= k <= Blocks(file) < 0x1_0000 && c.pc != Jumped && c.pc != Failed
    ensures Inv(Step(c, Data(file, k)), file)
  {
    if c.phase == TftpReqSent && ToShort(k % 0x1_0000) == c.block {
      NumberUnique(k, c.block);
      BlockDataLength(file, k);
      CopyExtends(c, file, k);
    }
  }

  lemma StepInv(c: Client, file: seq<Byte>, e: Event)
    requires Inv(c, file) && FromServer(file, e) && Blocks(file) < 0x1_0000
    ensures Inv(Step(c, e), file)
  {
    if c.pc != Jumped && c.pc != Failed {
      match e
      case MainStep => MainInv(c, file);
      case Tick => TickInv(c, file);
      case BootpReply(ok) =>
      case Datagram(error, wire, data) =>
        if !error {
          var k: nat :| 1 <= k <= Blocks(file) && e == Data(file, k);
          DataInv(c, file, k);
        }
    }
  }

  lemma {:induction false} RunInv(c: Client, file: seq<Byte>, run: seq<Event>)
    requires Inv(c, file) && ServerRun(file, run) && Blocks(file) < 0x1_0000
    ensures Inv(Exec(c, run), file)
    decreases |run|
  {
    if run != [] {
      assert FromServer(file, run[0]);
      StepInv(c, file, run[0]);
      assert forall i :: 0 <= i < |run[1..]| ==> run[1..][i] == run[i + 1];
      RunInv(Step(c, run[0]), file, run[1..]);
    }
  }

  // ---- what the byte count misses ------------------------------------------

  /** Event i of the run delivers a nonempty first block after boot_xinu has set
      the block number and before it clears the byte count. */
  ghost predicate EarlyAt(c: Client, run: seq<Event>, i: nat) {
    && i < |run| && Exec(c, run[..i]).pc == SetBytes && Exec(c, run[..i]).phase == TftpReqSent
    && run[i].Datagram? && !run[i].error && ToShort(run[i].wire) == 1 && run[i].data != []
  }

  /** Event i of the run sends a read request. */
  ghost predicate RequestAt(c: Client, run: seq<Event>, i: nat) {
    i < |run| && Exec(c, run[..i]).pc == SendTftp && run[i] == MainStep
  }

  /** That happened to the last request. */
  ghost predicate EarlyBlockIn(c: Client, run: seq<Event>) {
    exists i: nat :: EarlyAt(c, run, i) && forall j: nat :: i < j ==> !RequestAt(c, run, j)
  }

  lemma PrefixSame(c: Client, run: seq<Event>, e: Event, i: nat)
    requires i < |run|
    ensures EarlyAt(c, run + [e], i) <==> EarlyAt(c, run, i)
    ensures RequestAt(c, run + [e], i) <==> RequestAt(c, run, i)
  {
    assert (run + [e])[..i] == run[..i];
  }

  lemma EarlySnoc(c: Client, run: seq<Event>, e: Event)
    ensures var n := |run|;
      EarlyBlockIn(c, run + [e]) <==> EarlyAt(c, run + [e], n) || (EarlyBlockIn(c, run) && !RequestAt(c, run + [e], n))
  {
    var all, n := run + [e], |run|;
    forall i: nat | i < n
      ensures EarlyAt(c, all, i) <==> EarlyAt(c, run, i)
      ensures RequestAt(c, all, i) <==> RequestAt(c, run, i)
    {
      PrefixSame(c, run, e, i);
    }
    assert forall i: nat :: n <= i ==> !EarlyAt(c, run, i) && !RequestAt(c, run, i);
    assert forall i: nat :: n < i ==> !EarlyAt(c, all, i) && !RequestAt(c, all, i);
    hide EarlyAt, RequestAt;
    if EarlyBlockIn(c, all) {
      var i: nat :| EarlyAt(c, all, i) && forall j: nat :: i < j ==> !RequestAt(c, all, j);
      assert i < n ==> EarlyAt(c, run, i) && forall j: nat :: i < j ==> !RequestAt(c, run, j);
    }
    if EarlyBlockIn(c, run) && !RequestAt(c, all, n) {
      var i: nat :| EarlyAt(c, run, i) && forall j: nat :: i < j ==> !RequestAt(c, run, j);
      assert i < n && EarlyAt(c, all, i) && forall j: nat :: i < j ==> !RequestAt(c, all, j);
    }
  }

  /** How the counters show it: in bytes until they are cleared, then in what
      was cleared. */
  ghost predicate Shown(s: Client, early: bool) {
    && (s.pc in {SetPhase, SetTftpTimer, SetBlock} ==> !early)
    && (s.phase in {TftpReqSent, BootDone} && s.pc == SetBytes ==> (early <==> s.bytes > 0))
    && (s.phase in {TftpReqSent, BootDone} && s.pc in {SetRetx, AtSwitch, Jumped} ==> (early <==> s.wiped > 0))
  }

  /** What the next event does to that. */
  function EarlyNext(s: Client, e: Event, early: bool): bool {
    || (s.pc == SetBytes && s.phase == TftpReqSent && e.Datagram? && !e.error && ToShort(e.wire) == 1 && e.data != [])
    || (early && !(s.pc == SendTftp && e == MainStep))
  }

  lemma ShownData(s: Client, file: seq<Byte>, k: nat, early: bool)
    requires Inv(s, file) && 1 <= k <= Blocks(file) < 0x1_0000 && Shown(s, early)
    ensures Shown(Step(s, Data(file, k)), EarlyNext(s, Data(file, k), early))
  {
    BlockDataLength(file, k);
    if ToShort(k % 0x1_0000) == s.block >= 0 {
      NumberUnique(k, s.block);
    }
    if ToShort(k % 0x1_0000) == 1 {
      NumberUnique(k, 1);
    }
    hide BlockData, Copy, Stored;
  }

  lemma ShownStep(s: Client, file: seq<Byte>, e: Event, early: bool)
    requires Inv(s, file) && FromServer(file, e) && Blocks(file) < 0x1_0000 && Shown(s, early)
    ensures Shown(Step(s, e), EarlyNext(s, e, early))
  {
    if e.Datagram? && !e.error {
      hide Inv, Shown, Step, EarlyNext;
      var k: nat :| 1 <= k <= Blocks(file) && e == Data(file, k);
      ShownData(s, file, k, early);
    } else {
      hide Stored;
    }
  }

  lemma ExecSnoc(c: Client, run: seq<Event>, e: Event)
    ensures Exec(c, run + [e]) == Step(Exec(c, run), e)
  {
    hide Step;
    ExecAppend(c, run, [e]);
    assert [e][1..] == [];
  }

  lemma ServerPrefix(file: seq<Byte>, run: seq<Event>, e: Event)
    requires ServerRun(file, run + [e])
    ensures ServerRun(file, run) && FromServer(file, e)
  {
    hide FromServer;
    assert forall i :: 0 <= i < |run| ==> (run + [e])[i] == run[i];
    assert (run + [e])[|run|] == e;
  }

  lemma {:induction false} ShownAlways(c: Client, file: seq<Byte>, run: seq<Event>)
    requires Fresh(c) && |file| <= |c.mem| && ServerRun(file, run) && Blocks(file) < 0x1_0000
    ensures Shown(Exec(c, run), EarlyBlockIn(c, run))
    decreases |run|
  {
    if run == [] {
      assert !EarlyBlockIn(c, run);
    } else {
      var n := |run| - 1;
      var u, e := run[..n], run[n];
      assert run == u + [e];
      ServerPrefix(file, u, e);
      ShownAlways(c, file, u);
      FreshInv(c, file);
      RunInv(c, file, u);
      var s := Exec(c, u);
      assert run[..n] == u;
      hide Inv, Shown, Step, Exec, FromServer, ServerRun, Blocks, Fresh;
      EarlySnoc(c, u, e);
      ExecSnoc(c, u, e);
      ShownStep(s, file, e, EarlyBlockIn(c, u));
      hide EarlyBlockIn;
      assert EarlyAt(c, run, n) || (EarlyBlockIn(c, u) && !RequestAt(c, run, n)) <==> EarlyNext(s, e, EarlyBlockIn(c, u));
    }
  }

  // ---- block numbers that come twice ----------------------------------------

  /** The last block carries the number of an earlier one that a client may
      expect: the numbers have 16 bits and the client's own are not negative. */
  predicate Ambiguous(file: seq<Byte>) {
    Blocks(file) >= 0x1_0000 && Blocks(file) % 0x1_0000 < 0x8000
  }

  /** A transfer still going on, or none. */
  ghost predicate Undone(c: Client) {
    && (c.phase == TftpReqSent ==> c.pc in {SetTftpTimer, SetBlock, SetBytes, SetRetx, AtSwitch} && c.block >= 0)
    && (c.pc in {SetMemloc, SendTftp, SetPhase} ==> c.phase in {BeginTftp, TftpRetx})
    && (c.pc == SetPhase ==> c.block == 0)
    && c.phase != BootDone
  }

  lemma UndoneData(c: Client, file: seq<Byte>, k: nat)
    requires Undone(c) && 1 <= k <= Blocks(file) && Blocks(file) % 0x1_0000 >= 0x8000
    ensures Undone(Step(c, Data(file, k)))
  {
    BlockDataLength(file, k);
    hide BlockData;
  }

  lemma UndoneStep(c: Client, file: seq<Byte>, e: Event)
    requires Undone(c) && FromServer(file, e) && Blocks(file) % 0x1_0000 >= 0x8000
    ensures Undone(Step(c, e))
  {
    if e.Datagram? && !e.error {
      hide Undone, Step;
      var k: nat :| 1 <= k <= Blocks(file) && e == Data(file, k);
      UndoneData(c, file, k);
    }
  }

  /** A file whose last block number reads as negative is never finished. */
  lemma {:induction false} NeverDone(c: Client, file: seq<Byte>, run: seq<Event>)
    requires Undone(c) && ServerRun(file, run) && Blocks(file) % 0x1_0000 >= 0x8000
    ensures Undone(Exec(c, run))
    decreases |run|
  {
    hide Undone, FromServer, Step;
    if run != [] {
      assert FromServer(file, run[0]);
      UndoneStep(c, file, run[0]);
      assert forall i :: 0 <= i < |run[1..]| ==> run[1..][i] == run[i + 1];
      NeverDone(Step(c, run[0]), file, run[1..]);
    }
  }

  lemma DoneIsShort(c: Client, file: seq<Byte>, run: seq<Event>)
    requires Fresh(c) && ServerRun(file, run) && !Ambiguous(file) && Exec(c, run).phase == BootDone
    ensures Blocks(file) < 0x1_0000
  {
    hide Exec, ServerRun;
    if Blocks(file) >= 0x1_0000 {
      NeverDone(c, file, run);
      assert false;
    }
  }

  /** Whatever is lost, repeated or reordered, and whenever the interrupts come:
      the image jumped to is the file. Its length is counted right if and only
      if no nonempty first block of the last request was delivered between the
      statements that set the block number and clear the byte count. */
  lemma BootsTheFile(c: Client, file: seq<Byte>, run: seq<Event>)
    requires Fresh(c) && |file| <= |c.mem| && ServerRun(file, run) && !Ambiguous(file)
    requires Exec(c, run).phase == BootDone && Exec(c, run).pc in {AtSwitch, Jumped}
    ensures var r := Exec(c, run);
      && |r.mem| >= |file| && r.mem[..|file|] == file
      && (r.bytes == |file| <==> !EarlyBlockIn(c, run))
  {
    DoneIsShort(c, file, run);
    FreshInv(c, file);
    RunInv(c, file, run);
    ShownAlways(c, file, run);
    hide EarlyBlockIn, Exec;
    assert file[..|file|] == file;
  }

  // ---- which files can be booted ---------------------------------------

  /** n turns of the main loop. */
  function Mains(n: nat): seq<Event> { seq(n, _ => MainStep) }

  lemma {:induction false} ExecAppend(c: Client, r1: seq<Event>, r2: seq<Event>)
    ensures Exec(c, r1 + r2) == Exec(Exec(c, r1), r2)
    decreases |r1|
  {
    if r1 == [] {
      assert r1 + r2 == r2;
    } else {
      assert (r1 + r2)[1..] == r1[1..] + r2;
      ExecAppend(Step(c, r1[0]), r1[1..], r2);
    }
  }

  /** The blocks of the file in order, from block k on. */
  function InOrder(file: seq<Byte>, k: nat): seq<Event>
    requires 1 <= k <= Blocks(file) + 1
    decreases Blocks(file) + 1 - k
  {
    if k > Blocks(file) then [] else [Data(file, k)] + InOrder(file, k + 1)
  }

  lemma NextBlock(c: Client, file: seq<Byte>, k: nat)
    requires 1 <= k <= Blocks(file) && k < 0x8000
    requires c.pc == AtSwitch && c.phase == TftpReqSent && c.block == k
    ensures var d := Step(c, Data(file, k));
      && d.pc == AtSwitch && d.wiped == c.wiped
      && (if k == Blocks(file) then d.phase == BootDone else d.phase == TftpReqSent && d.block == k + 1)
  {
    BlockDataLength(file, k);
    hide BlockData;
  }

  lemma InOrderNext(file: seq<Byte>, k: nat)
    requires 1 <= k <= Blocks(file)
    ensures InOrder(file, k) == [Data(file, k)] + InOrder(file, k + 1)
  {
    hide Data;
  }

  lemma InOrderDone(c: Client, file: seq<Byte>)
    ensures Exec(c, InOrder(file, Blocks(file) + 1)) == c
  {
  }

  lemma ExecCons(c: Client, e: Event, run: seq<Event>)
    ensures Exec(c, [e] + run) == Exec(Step(c, e), run)
  {
    assert ([e] + run)[1..] == run;
  }

  lemma {:induction false} InOrderBoots(c: Client, file: seq<Byte>, k: nat)
    requires 1 <= k <= Blocks(file) < 0x8000
    requires c.pc == AtSwitch && c.phase == TftpReqSent && c.block == k
    ensures Exec(c, InOrder(file, k)).phase == BootDone && Exec(c, InOrder(file, k)).pc == AtSwitch
    ensures Exec(c, InOrder(file, k)).wiped == c.wiped
    decreases Blocks(file) - k
  {
    hide Step, Data, Blocks, Exec, InOrder;
    NextBlock(c, file, k);
    InOrderNext(file, k);
    var d := Step(c, Data(file, k));
    ExecCons(c, Data(file, k), InOrder(file, k + 1));
    if k < Blocks(file) {
      InOrderBoots(d, file, k + 1);
    } else {
      InOrderDone(d, file);
    }
  }

  lemma {:induction false} InOrderServer(file: seq<Byte>, k: nat)
    requires 1 <= k <= Blocks(file) + 1
    ensures ServerRun(file, InOrder(file, k))
    decreases Blocks(file) + 1 - k
  {
    if k <= Blocks(file) {
      assert FromServer(file, Data(file, k));
      InOrderServer(file, k + 1);
      hide FromServer, Data, Blocks;
      ServerAppend(file, [Data(file, k)], InOrder(file, k + 1));
    }
  }

  /** The shortest preamble: one BOOTP exchange, one read request. */
  function Preamble(): seq<Event> { Mains(4) + [BootpReply(true)] + Mains(8) }

  /** After the BOOTP exchange, which both preambles start with. */
  lemma Answered(c: Client, rest: seq<Event>)
    requires Fresh(c)
    ensures var r := Exec(c, Mains(4) + [BootpReply(true)]);
      && r.pc == AtSwitch && r.phase == BeginTftp
      && Exec(c, Mains(4) + [BootpReply(true)] + rest) == Exec(r, rest)
  {
    hide Mains;
    var c1 := Step(Step(Step(Step(c, MainStep), MainStep), MainStep), MainStep);
    assert c1.pc == AtSwitch && c1.phase == BootpReqSent;
    FourMains(c, 4);
    NoMains(c1);
    hide Fresh;
    ExecSnoc(c, Mains(4), BootpReply(true));
    hide Exec;
    ExecAppend(c, Mains(4) + [BootpReply(true)], rest);
  }

  lemma PreambleReady(c: Client)
    requires Fresh(c)
    ensures var r := Exec(c, Preamble()); r.pc == AtSwitch && r.phase == TftpReqSent && r.block == 1
  {
    hide Exec, Mains, Fresh;
    Answered(c, Mains(8));
    EightMains(Exec(c, Mains(4) + [BootpReply(true)]));
  }

  lemma {:induction false} MainsUnfold(c: Client, n: nat)
    requires n > 0
    ensures Exec(c, Mains(n)) == Exec(Step(c, MainStep), Mains(n - 1))
  {
    assert Mains(n)[1..] == Mains(n - 1);
  }

  lemma NoMains(c: Client)
    ensures Exec(c, Mains(0)) == c
  {
  }

  lemma FourMains(c: Client, n: nat)
    requires n >= 4
    ensures var m := MainStep; Exec(c, Mains(n)) == Exec(Step(Step(Step(Step(c, m), m), m), m), Mains(n - 4))
  {
    hide Exec, Mains, Step;
    var m := MainStep;
    MainsUnfold(c, n);
    MainsUnfold(Step(c, m), n - 1);
    MainsUnfold(Step(Step(c, m), m), n - 2);
    MainsUnfold(Step(Step(Step(c, m), m), m), n - 3);
  }

  lemma EightMains(c: Client)
    requires c.pc == AtSwitch && c.phase == BeginTftp
    ensures var r := Exec(c, Mains(8)); r.pc == AtSwitch && r.phase == TftpReqSent && r.block == 1
  {
    hide Exec, Mains;
    var m := MainStep;
    FourMains(c, 8);
    var c4 := Step(Step(Step(Step(c, m), m), m), m);
    assert c4.pc == SetTftpTimer && c4.phase == TftpReqSent;
    FourMains(c4, 4);
    NoMains(Step(Step(Step(Step(c4, m), m), m), m));
  }

  /** Some run ends with exactly the file stored. */
  ghost predicate CanBoot(c: Client, file: seq<Byte>) {
    exists run :: ServerRun(file, run) && Exec(c, run).phase == BootDone && Exec(c, run).memloc == |file|
  }

  /** How much can have been stored, whatever the size of the file: up to
      block 32767 from 0 before the block number is set, and again from 1. */
  ghost predicate SizeInv(c: Client) {
    && (c.phase == TftpReqSent ==> c.pc in {SetTftpTimer, SetBlock, SetBytes, SetRetx, AtSwitch})
    && (c.pc in {SetMemloc, SendTftp, SetPhase} ==> c.phase in {BeginTftp, TftpRetx})
    && (c.pc in {SendTftp, SetPhase} ==> c.memloc == 0)
    && (c.pc == SetPhase ==> c.block == 0)
    && (c.phase == TftpReqSent ==> 0 <= c.block <= 0x8000 && c.memloc <= TFTP_BLOCK_SIZE * MostBlocks(c))
    && (c.phase == BootDone ==> c.memloc < TFTP_BLOCK_SIZE * 0xffff)
  }

  function MostBlocks(c: Client): int {
    if c.pc in {SetTftpTimer, SetBlock} then c.block else c.block - 1 + 0x8000
  }

  lemma SizeData(c: Client, file: seq<Byte>, k: nat)
    requires SizeInv(c) && 1 <= k <= Blocks(file)
    ensures SizeInv(Step(c, Data(file, k)))
  {
    BlockDataLength(file, k);
    hide BlockData;
  }

  lemma SizeStep(c: Client, file: seq<Byte>, e: Event)
    requires SizeInv(c) && FromServer(file, e)
    ensures SizeInv(Step(c, e))
  {
    if e.Datagram? && !e.error {
      hide SizeInv, Step;
      var k: nat :| 1 <= k <= Blocks(file) && e == Data(file, k);
      SizeData(c, file, k);
    }
  }

  lemma {:induction false} SizeRun(c: Client, file: seq<Byte>, run: seq<Event>)
    requires SizeInv(c) && ServerRun(file, run)
    ensures SizeInv(Exec(c, run))
    decreases |run|
  {
    hide SizeInv, FromServer, Step;
    if run != [] {
      assert FromServer(file, run[0]);
      SizeStep(c, file, run[0]);
      assert forall i :: 0 <= i < |run[1..]| ==> run[1..][i] == run[i + 1];
      SizeRun(Step(c, run[0]), file, run[1..]);
    }
  }

  lemma ServerAppend(file: seq<Byte>, r1: seq<Event>, r2: seq<Event>)
    requires ServerRun(file, r1) && ServerRun(file, r2)
    ensures ServerRun(file, r1 + r2)
  {
    hide FromServer;
    forall i | 0 <= i < |r1 + r2| ensures FromServer(file, (r1 + r2)[i]) {
      assert i >= |r1| ==> (r1 + r2)[i] == r2[i - |r1|];
    }
  }

  lemma PreambleServer(file: seq<Byte>)
    ensures ServerRun(file, Preamble())
  {
  }

  lemma ShortBoots(c: Client, file: seq<Byte>)
    requires Fresh(c) && |file| <= |c.mem| && Blocks(file) < 0x8000
    ensures CanBoot(c, file)
  {
    hide Exec, InOrder, Preamble, Fresh, ServerRun;
    var r := Exec(c, Preamble());
    PreambleReady(c);
    PreambleServer(file);
    var run := InOrder(file, 1);
    InOrderBoots(r, file, 1);
    InOrderServer(file, 1);
    ExecAppend(c, Preamble(), run);
    ServerAppend(file, Preamble(), run);
    FreshInv(c, file);
    RunInv(c, file, Preamble() + run);
  }

  lemma BootNeedsShort(c: Client, file: seq<Byte>)
    requires Fresh(c) && |file| <= |c.mem| && CanBoot(c, file)
    ensures Blocks(file) < 0x8000
  {
    var run :| ServerRun(file, run) && Exec(c, run).phase == BootDone && Exec(c, run).memloc == |file|;
    FreshInv(c, file);
    hide Exec, ServerRun;
    SizeRun(c, file, run);
    assert Blocks(file) < 0x1_0000;
    RunInv(c, file, run);
  }

  /** A file can be booted if and only if its blocks can be numbered in a
      signed short. */
  lemma BootableExactly(c: Client, file: seq<Byte>)
    requires Fresh(c) && |file| <= |c.mem|
    ensures CanBoot(c, file) <==> Blocks(file) < 0x8000
  {
    hide Fresh, Blocks, CanBoot;
    if Blocks(file) < 0x8000 {
      ShortBoots(c, file);
    }
    if CanBoot(c, file) {
      BootNeedsShort(c, file);
    }
  }

  // ---- files whose last block is taken for an earlier one -------------------

  /** Blocks k up to m, then the last, which carries the number m. */
  function CutShort(file: seq<Byte>, k: nat, m: nat): seq<Event>
    requires 1 <= k && m <= Blocks(file)
    decreases m - k
  {
    if k >= m then [Data(file, Blocks(file))] else [Data(file, k)] + CutShort(file, k + 1, m)
  }

  lemma LastTaken(c: Client, file: seq<Byte>)
    requires c.phase == TftpReqSent && c.block == Blocks(file) % 0x1_0000 < 0x8000 && c.pc != Jumped && c.pc != Failed
    ensures var d := Step(c, Data(file, Blocks(file))); d.phase == BootDone && d.pc == c.pc
  {
    BlockDataLength(file, Blocks(file));
    hide BlockData;
  }

  lemma ExecOne(c: Client, e: Event)
    ensures Exec(c, [e]) == Step(c, e)
  {
    hide Step;
    assert [e][1..] == [];
  }

  lemma {:induction false} CutShortDone(c: Client, file: seq<Byte>, k: nat)
    requires Ambiguous(file) && 1 <= k <= Blocks(file) % 0x1_0000
    requires c.pc == AtSwitch && c.phase == TftpReqSent && c.block == k
    ensures var r := Exec(c, CutShort(file, k, Blocks(file) % 0x1_0000)); r.phase == BootDone && r.pc == AtSwitch
    decreases Blocks(file) - k
  {
    var m := Blocks(file) % 0x1_0000;
    if k == m {
      LastTaken(c, file);
      hide Step, Data, Blocks, Ambiguous;
      ExecOne(c, Data(file, Blocks(file)));
    } else {
      NextBlock(c, file, k);
      hide Step, Data, Blocks;
      assert CutShort(file, k, m)[1..] == CutShort(file, k + 1, m);
      CutShortDone(Step(c, Data(file, k)), file, k + 1);
    }
  }

  lemma {:induction false} CutShortServer(file: seq<Byte>, k: nat, m: nat)
    requires 1 <= k && m <= Blocks(file)
    ensures ServerRun(file, CutShort(file, k, m))
    decreases m - k
  {
    if k < m {
      assert FromServer(file, Data(file, k));
      CutShortServer(file, k + 1, m);
      hide FromServer, Data, Blocks;
      ServerAppend(file, [Data(file, k)], CutShort(file, k + 1, m));
    } else {
      assert FromServer(file, Data(file, Blocks(file)));
    }
  }

  /** Before the block number is set the client takes a block numbered 0. */
  function TakenAsZero(file: seq<Byte>): seq<Event> { Mains(4) + ([Data(file, Blocks(file))] + Mains(4)) }

  lemma ZeroDone(c: Client, file: seq<Byte>)
    requires Blocks(file) % 0x1_0000 == 0 && c.pc == AtSwitch && c.phase == BeginTftp
    ensures var r := Exec(c, TakenAsZero(file)); r.phase == BootDone && r.pc == AtSwitch
  {
    var m, e := MainStep, Data(file, Blocks(file));
    var c4 := Step(Step(Step(Step(c, m), m), m), m);
    assert c4.pc == SetTftpTimer && c4.phase == TftpReqSent && c4.block == 0;
    LastTaken(c4, file);
    var d := Step(c4, e);
    var d4 := Step(Step(Step(Step(d, m), m), m), m);
    assert d4.pc == AtSwitch && d4.phase == BootDone;
    hide Exec, Mains, Step, Data, Blocks;
    FourMains(c, 4);
    NoMains(c4);
    ExecAppend(c, Mains(4), [e] + Mains(4));
    ExecAppend(c4, [e], Mains(4));
    ExecOne(c4, e);
    FourMains(d, 4);
    NoMains(d4);
  }

  lemma QuietServer(file: seq<Byte>)
    ensures ServerRun(file, Mains(4)) && ServerRun(file, [BootpReply(true)])
  {
  }

  lemma ZeroServer(file: seq<Byte>)
    ensures ServerRun(file, (Mains(4) + [BootpReply(true)]) + TakenAsZero(file))
  {
    QuietServer(file);
    var last := [Data(file, Blocks(file))];
    assert ServerRun(file, last) by {
      assert FromServer(file, Data(file, Blocks(file)));
    }
    hide ServerRun, Mains, Data;
    ServerAppend(file, Mains(4), [BootpReply(true)]);
    ServerAppend(file, last, Mains(4));
    ServerAppend(file, Mains(4), last + Mains(4));
    ServerAppend(file, Mains(4) + [BootpReply(true)], TakenAsZero(file));
  }

  /** Some run finishes the transfer of such a file. */
  lemma AmbiguousDone(c: Client, file: seq<Byte>) returns (run: seq<Event>)
    requires Fresh(c) && Ambiguous(file)
    ensures ServerRun(file, run) && Exec(c, run).phase == BootDone && Exec(c, run).pc == AtSwitch
  {
    var m := Blocks(file) % 0x1_0000;
    if m == 0 {
      ZeroServer(file);
      var u := Mains(4) + [BootpReply(true)];
      run := u + TakenAsZero(file);
      hide Exec, Mains, Fresh, TakenAsZero, ServerRun;
      Answered(c, TakenAsZero(file));
      ZeroDone(Exec(c, u), file);
    } else {
      hide Exec, Preamble, CutShort, Fresh, ServerRun;
      PreambleReady(c);
      PreambleServer(file);
      CutShortDone(Exec(c, Preamble()), file, 1);
      CutShortServer(file, 1, m);
      run := Preamble() + CutShort(file, 1, m);
      ExecAppend(c, Preamble(), CutShort(file, 1, m));
      ServerAppend(file, Preamble(), CutShort(file, 1, m));
    }
  }

  /** Every boot of the file that gets done has all of it, in place. */
  ghost predicate BootsWhole(c: Client, file: seq<Byte>) {
    forall run :: ServerRun(file, run) && Exec(c, run).phase == BootDone && Exec(c, run).pc in {AtSwitch, Jumped} ==>
      Exec(c, run).memloc == |file| && |Exec(c, run).mem| >= |file| && Exec(c, run).mem[..|file|] == file
  }

  /** It does if and only if no earlier block carries the last one's number. */
  lemma BootsWholeExactly(c: Client, file: seq<Byte>)
    requires Fresh(c) && |file| <= |c.mem|
    ensures BootsWhole(c, file) <==> !Ambiguous(file)
  {
    hide Exec, ServerRun;
    if Ambiguous(file) {
      var run := AmbiguousDone(c, file);
      SizeRun(c, file, run);
      assert Exec(c, run).memloc < TFTP_BLOCK_SIZE * 0xffff <= |file|;
    } else {
      hide Fresh, Ambiguous;
      forall run | ServerRun(file, run) && Exec(c, run).phase == BootDone && Exec(c, run).pc in {AtSwitch, Jumped}
        ensures Exec(c, run).memloc == |file| && |Exec(c, run).mem| >= |file| && Exec(c, run).mem[..|file|] == file
      {
        DoneIsShort(c, file, run);
        FreshInv(c, file);
        RunInv(c, file, run);
        BootsTheFile(c, file, run);
      }
    }
  }

  /** Up to the statement that clears the byte count. */
  function Opening(): seq<Event> { Mains(4) + [BootpReply(true)] + Mains(6) }

  lemma SixMains(c: Client)
    requires c.pc == AtSwitch && c.phase == BeginTftp
    ensures var r := Exec(c, Mains(6)); r.pc == SetBytes && r.phase == TftpReqSent && r.block == 1 && r.bytes == 0
  {
    hide Exec, Mains;
    var m := MainStep;
    FourMains(c, 6);
    var c4 := Step(Step(Step(Step(c, m), m), m), m);
    assert c4.pc == SetTftpTimer && c4.phase == TftpReqSent && c4.bytes == 0;
    MainsUnfold(c4, 2);
    MainsUnfold(Step(c4, m), 1);
    NoMains(Step(Step(c4, m), m));
  }

  lemma OpeningReady(c: Client)
    requires Fresh(c)
    ensures var r := Exec(c, Opening()); r.pc == SetBytes && r.phase == TftpReqSent && r.block == 1 && r.bytes == 0
  {
    hide Exec, Mains, Fresh;
    Answered(c, Mains(6));
    SixMains(Exec(c, Mains(4) + [BootpReply(true)]));
  }

  /** The first block arriving just before the byte count is cleared. */
  function EarlyBlock(file: seq<Byte>): seq<Event> { [Data(file, 1)] + Mains(2) }

  lemma EarlyBlockWiped(c: Client, file: seq<Byte>)
    requires c.pc == SetBytes && c.phase == TftpReqSent && c.block == 1 && c.bytes == 0
    ensures var r := Exec(c, EarlyBlock(file));
      && r.pc == AtSwitch && r.wiped == |BlockData(file, 1)|
      && (if Blocks(file) == 1 then r.phase == BootDone else r.phase == TftpReqSent && r.block == 2)
  {
    BlockDataLength(file, 1);
    var c1 := Step(c, Data(file, 1));
    assert c1.pc == SetBytes && c1.bytes == |BlockData(file, 1)|;
    EarlyBlockUnfold(c, file);
  }

  lemma EarlyBlockUnfold(c: Client, file: seq<Byte>)
    ensures Exec(c, EarlyBlock(file)) == Step(Step(Step(c, Data(file, 1)), MainStep), MainStep)
  {
    hide Step, Mains;
    var c1 := Step(c, Data(file, 1));
    assert EarlyBlock(file)[1..] == Mains(2);
    MainsUnfold(c1, 2);
    MainsUnfold(Step(c1, MainStep), 1);
    NoMains(Step(Step(c1, MainStep), MainStep));
  }

  lemma OpeningServer(file: seq<Byte>)
    ensures ServerRun(file, Opening() + EarlyBlock(file))
  {
    assert FromServer(file, Data(file, 1));
    assert ServerRun(file, EarlyBlock(file));
    assert ServerRun(file, Opening());
    ServerAppend(file, Opening(), EarlyBlock(file));
  }

  /** Every file but the empty one can be booted with its length counted wrong. */
  lemma MiscountsAnyFile(c: Client, file: seq<Byte>)
    requires Fresh(c) && 0 < |file| <= |c.mem| && Blocks(file) < 0x8000
    ensures exists run ::
      ServerRun(file, run) && Exec(c, run).phase == BootDone && Exec(c, run).pc == AtSwitch && Exec(c, run).bytes < |file|
  {
    hide Exec, InOrder, Opening, EarlyBlock, Fresh, ServerRun;
    OpeningReady(c);
    OpeningServer(file);
    var r1 := Exec(c, Opening());
    EarlyBlockWiped(r1, file);
    var r2 := Exec(r1, EarlyBlock(file));
    BlockDataLength(file, 1);
    var run := Opening() + EarlyBlock(file);
    ExecAppend(c, Opening(), EarlyBlock(file));
    if Blocks(file) > 1 {
      InOrderBoots(r2, file, 2);
      InOrderServer(file, 2);
      ExecAppend(c, run, InOrder(file, 2));
      ServerAppend(file, run, InOrder(file, 2));
      WipedMiscounts(c, file, run + InOrder(file, 2));
    } else {
      WipedMiscounts(c, file, run);
    }
  }

  lemma WipedMiscounts(c: Client, file: seq<Byte>, run: seq<Event>)
    requires Fresh(c) && |file| <= |c.mem| && ServerRun(file, run) && Blocks(file) < 0x1_0000
    requires Exec(c, run).phase == BootDone && Exec(c, run).pc == AtSwitch && Exec(c, run).wiped > 0
    ensures Exec(c, run).bytes < |file|
  {
    FreshInv(c, file);
    RunInv(c, file, run);
    hide Exec;
  }

  // ---- giving up -------------------------------------------------------

  function Count(s: seq<Packet>, p: Packet): nat {
    if s == [] then 0 else Count(s[..|s| - 1], p) + if s[|s| - 1] == p then 1 else 0
  }

  lemma CountSend(s: seq<Packet>, q: Packet, p: Packet)
    ensures Count(s + [q], p) == Count(s, p) + if q == p then 1 else 0
  {
    assert (s + [q])[..|s|] == s;
  }

  /** The requests sent so far, against the tries used. */
  ghost predicate Tried(c: Client) {
    var b, t := Count(c.sent, BootpRequest), Count(c.sent, ReadRequest);
    && b <= MON_MAX_TRY + 1 && t <= MON_MAX_TRY + 1
    && (c.phase in {BeginBootp, BootpReqSent, BootpRetx} ==>
          t == 0 && (c.pc == Failed || c.tries <= MON_MAX_TRY)
          && b <= c.tries + (if c.pc in {SetBootpPhase, SendBootp} || c.phase == BeginBootp then 0 else 1))
    && (c.phase == BeginTftp ==> t <= (if c.pc == SetPhase then 1 else 0) && c.tries == 0)
    && (c.phase in {TftpReqSent, TftpRetx} ==>
          (c.pc == Failed || c.tries <= MON_MAX_TRY)
          && t <= c.tries + (if c.pc in {SetMemloc, SendTftp} then 0 else 1))
    && (c.pc in {SetMemloc, SendTftp, SetPhase} ==> c.phase in {BeginTftp, TftpRetx})
    && (c.pc == SetBootpPhase ==> c.phase in {BeginBootp, BootpRetx})
    && (c.pc in {SetBootpPhase, SendBootp} ==> b <= MON_MAX_TRY)
    && (c.phase == BeginBootp ==> c.pc in {AtSwitch, SetBootpPhase})
  }

  /** What a step sends, by the phase it is taken in. */
  lemma StepSends(c: Client, e: Event)
    ensures var d := Step(c, e);
      || d.sent == c.sent
      || (exists n :: d.sent == c.sent + [Ack(n)])
      || (d.sent == c.sent + [BootpRequest] && c.pc == SendBootp && e == MainStep)
      || (d.sent == c.sent + [ReadRequest] && c.pc == SendTftp && e == MainStep)
  {
  }

  lemma StepCounts(c: Client, e: Event)
    ensures var d := Step(c, e);
      && Count(d.sent, BootpRequest) == Count(c.sent, BootpRequest) + (if c.pc == SendBootp && e == MainStep then 1 else 0)
      && Count(d.sent, ReadRequest) == Count(c.sent, ReadRequest) + (if c.pc == SendTftp && e == MainStep then 1 else 0)
  {
    var d := Step(c, e);
    StepSends(c, e);
    if c.pc == SendBootp && e == MainStep { assert d.sent == c.sent + [BootpRequest]; }
    if c.pc == SendTftp && e == MainStep { assert d.sent == c.sent + [ReadRequest]; }
    hide Step, Count;
    if d.sent != c.sent {
      var q := d.sent[|c.sent|];
      CountSend(c.sent, q, BootpRequest);
      CountSend(c.sent, q, ReadRequest);
    }
  }

  lemma TriedStep(c: Client, e: Event)
    requires Tried(c)
    ensures Tried(Step(c, e))
  {
    hide Count;
    StepCounts(c, e);
  }

  lemma {:induction false} TriedRun(c: Client, run: seq<Event>)
    requires Tried(c)
    ensures Tried(Exec(c, run))
    decreases |run|
  {
    hide Tried, Step;
    if run != [] {
      TriedStep(c, run[0]);
      TriedRun(Step(c, run[0]), run[1..]);
    }
  }

  /** However long the network stays silent or sends nonsense, a boot sends at
      most four BOOTP and four TFTP read requests. */
  lemma BoundedTries(c: Client, run: seq<Event>)
    requires Fresh(c)
    ensures Count(Exec(c, run).sent, BootpRequest) <= MON_MAX_TRY + 1
    ensures Count(Exec(c, run).sent, ReadRequest) <= MON_MAX_TRY + 1
  {
    assert Tried(c);
    hide Exec, Fresh;
    TriedRun(c, run);
  }
}
