/** One request served by the lock-step sender of section 2 of RFC 1350: it
    repeats a block until that block is acknowledged, then turns to the next. */
module BootLockstep {
  import opened BootSpec
  import opened BootRuns

  /** The client, the server's current block, and how many packets the client
      had sent when this request went out. */
  datatype Net = Net(c: Client, cur: nat, base: nat)

  datatype Move =
    | Local(tick: bool)    // the client runs a statement or takes a clock interrupt
    | Deliver(k: nat)      // block k, sent some time ago, reaches the client
    | AckBack(n: int)      // an acknowledgement reaches the server

  /** What this network can do: deliver anything ever sent, in any order, any
      number of times, or not at all. */
  ghost predicate Possible(file: seq<Byte>, n: Net, m: Move) {
    match m
    case Local(_) => true
    case Deliver(k) => 1 <= k <= n.cur && k <= Blocks(file)
    case AckBack(a) => Logged(n, a)
  }

  ghost predicate Logged(n: Net, a: int) {
    exists i :: n.base <= i < |n.c.sent| && n.c.sent[i] == Ack(a)
  }

  function ClientEvent(file: seq<Byte>, m: Move): Event
    requires m.Deliver? ==> 1 <= m.k <= Blocks(file)
    requires !m.AckBack?
  {
    match m
    case Local(tick) => if tick then Tick else MainStep
    case Deliver(k) => Data(file, k)
  }

  function Next(file: seq<Byte>, n: Net, m: Move): Net
    requires m.Deliver? ==> 1 <= m.k <= Blocks(file)
  {
    if m.AckBack? then
      if m.n == n.cur && n.cur < Blocks(file) then n.(cur := n.cur + 1) else n
    else n.(c := Step(n.c, ClientEvent(file, m)))
  }

  /** The request is still the one being served. */
  ghost predicate Live(c: Client) {
    c.pc == SetPhase || c.phase in {TftpReqSent, BootDone}
  }

  /** Blocks of this request in memory. */
  function Kept(c: Client): int {
    if c.phase == BootDone || c.block == 0 then c.block else c.block - 1
  }

  ghost predicate Window(c: Client) { c.pc in {SetTftpTimer, SetBlock} }

  /** Client and server are never more than one block apart, and nothing is
      acknowledged that is not in memory. */
  ghost predicate InStep(file: seq<Byte>, n: Net) {
    && Live(n.c) && n.base <= |n.c.sent|
    && 1 <= n.cur <= Blocks(file) < 0x8000
    && (n.c.pc == SetPhase ==> n.c.phase in {BeginTftp, TftpRetx} && n.c.block == 0 && n.c.bytes == 0)
    && (n.c.phase == TftpReqSent ==> n.c.pc in {SetTftpTimer, SetBlock, SetBytes, SetRetx, AtSwitch})
    && (n.c.phase == TftpReqSent && Window(n.c) ==> n.c.block == 0 && n.c.bytes == 0)
    && (n.c.phase == TftpReqSent && !Window(n.c) ==> 1 <= n.c.block <= Blocks(file))
    && (n.c.phase == TftpReqSent && n.c.block <= 1 ==> n.c.bytes == 0)
    && (n.c.phase == BootDone ==> n.c.pc in {SetBytes, SetRetx, AtSwitch, Jumped} && n.c.block == Blocks(file))
    && Kept(n.c) <= n.cur <= Kept(n.c) + 1
  }

  ghost predicate AcksKept(n: Net) {
    forall i {:trigger n.c.sent[i]} :: n.base <= i < |n.c.sent| && n.c.sent[i].Ack? ==> 0 <= n.c.sent[i].block <= Kept(n.c)
  }

  lemma Started(file: seq<Byte>, c: Client)
    requires c.pc == SetPhase && c.phase in {BeginTftp, TftpRetx}
    requires c.block == 0 && c.bytes == 0 && Blocks(file) < 0x8000
    ensures InStep(file, Net(c, 1, |c.sent|)) && AcksKept(Net(c, 1, |c.sent|))
  {
  }

  /** One step of the client: no packet goes out, or one acknowledgement of a
      block that is in memory afterwards. */
  ghost predicate Answers(c: Client, d: Client) {
    && Kept(c) <= Kept(d)
    && |c.sent| <= |d.sent| <= |c.sent| + 1 && d.sent[..|c.sent|] == c.sent
    && (|d.sent| > |c.sent| ==> d.sent[|c.sent|].Ack? && 0 <= d.sent[|c.sent|].block <= Kept(d))
  }

  lemma LocalInStep(file: seq<Byte>, n: Net, tick: bool)
    requires InStep(file, n) && Live(Next(file, n, Local(tick)).c)
    ensures var d := Next(file, n, Local(tick)); InStep(file, d) && Answers(n.c, d.c)
  {
  }

  lemma ExpectedInStep(file: seq<Byte>, n: Net, k: nat)
    requires InStep(file, n) && 1 <= k <= n.cur && n.c.phase == TftpReqSent && k == n.c.block
    ensures var d := Next(file, n, Deliver(k)); InStep(file, d) && Answers(n.c, d.c)
  {
    BlockDataLength(file, k);
    hide BlockData, Copy;
  }

  lemma OtherInStep(file: seq<Byte>, n: Net, k: nat)
    requires InStep(file, n) && 1 <= k <= n.cur && (n.c.phase != TftpReqSent || k != n.c.block)
    ensures var d := Next(file, n, Deliver(k)); InStep(file, d) && Answers(n.c, d.c)
  {
    hide BlockData, Copy;
  }

  lemma AnswersKept(n: Net, d: Client)
    requires AcksKept(n) && n.base <= |n.c.sent| && Answers(n.c, d)
    ensures AcksKept(n.(c := d))
  {
    hide Kept;
    forall i | n.base <= i < |d.sent| && d.sent[i].Ack? ensures 0 <= d.sent[i].block <= Kept(d) {
      if i < |n.c.sent| {
        assert d.sent[i] == d.sent[..|n.c.sent|][i];
      }
    }
  }

  lemma NextInStep(file: seq<Byte>, n: Net, m: Move)
    requires InStep(file, n) && AcksKept(n) && Possible(file, n, m)
    requires Live(Next(file, n, m).c)
    ensures InStep(file, Next(file, n, m)) && AcksKept(Next(file, n, m))
  {
    hide Step, Blocks;
    match m
    case AckBack(a) =>
      var i :| n.base <= i < |n.c.sent| && n.c.sent[i] == Ack(a);
      assert n.c.sent[i].block <= Kept(n.c);
    case Local(tick) =>
      LocalInStep(file, n, tick);
      AnswersKept(n, Next(file, n, m).c);
    case Deliver(k) =>
      if n.c.phase == TftpReqSent && k == n.c.block {
        ExpectedInStep(file, n, k);
      } else {
        OtherInStep(file, n, k);
      }
      AnswersKept(n, Next(file, n, m).c);
  }

  /** Every move possible when it is made, and no new request sent. */
  ghost predicate Served(file: seq<Byte>, n: Net, run: seq<Move>)
    decreases |run|
  {
    run == [] || (Possible(file, n, run[0]) && Live(Next(file, n, run[0]).c) && Served(file, Next(file, n, run[0]), run[1..]))
  }

  ghost function After(file: seq<Byte>, n: Net, run: seq<Move>): Net
    requires Served(file, n, run)
    decreases |run|
  {
    if run == [] then n else After(file, Next(file, n, run[0]), run[1..])
  }

  /** Over every run of one request the block numbers differ by at most one,
      and every acknowledgement, repeated ones included, is of a block kept. */
  lemma {:induction false} LockStep(file: seq<Byte>, n: Net, run: seq<Move>)
    requires InStep(file, n) && AcksKept(n) && Served(file, n, run)
    ensures var r := After(file, n, run);
      && InStep(file, r) && AcksKept(r)
      && Kept(r.c) <= r.cur <= Kept(r.c) + 1
    decreases |run|
  {
    hide InStep, AcksKept, Next, Live, Kept;
    if run != [] {
      NextInStep(file, n, run[0]);
      LockStep(file, Next(file, n, run[0]), run[1..]);
    } else {
      assert Kept(n.c) <= n.cur <= Kept(n.c) + 1 by { InStepKept(file, n); }
    }
  }

  lemma InStepKept(file: seq<Byte>, n: Net)
    requires InStep(file, n)
    ensures Kept(n.c) <= n.cur <= Kept(n.c) + 1
  {
  }

  /** mon_tftp_in's answer to a block one ahead of the one expected. */
  ghost predicate LostData(file: seq<Byte>, n: Net, k: nat) {
    1 <= k <= Blocks(file) && n.c.phase == TftpReqSent && n.c.block - ToShort(k % 0x1_0000) == -1
  }

  /** The branch for lost data is taken when the first block arrives before
      boot_xinu has set the block number, and never otherwise. */
  lemma LostDataExactly(file: seq<Byte>, n: Net, k: nat)
    requires InStep(file, n) && Possible(file, n, Deliver(k))
    ensures LostData(file, n, k) <==> n.c.phase == TftpReqSent && Window(n.c) && k == 1
  {
  }

  lemma LostDataHappens(file: seq<Byte>, c: Client)
    requires c.pc == SetPhase && c.phase in {BeginTftp, TftpRetx}
    requires c.block == 0 && c.bytes == 0 && Blocks(file) < 0x8000
    ensures var n := Next(file, Net(c, 1, |c.sent|), Local(false));
      InStep(file, n) && Possible(file, n, Deliver(1)) && LostData(file, n, 1)
  {
    Started(file, c);
    LocalInStep(file, Net(c, 1, |c.sent|), false);
  }

  /** Once the request is set up, the server's current block is always answered
      with its own number: the server can go on. */
  lemma CurrentAnswered(file: seq<Byte>, n: Net)
    requires InStep(file, n) && n.c.phase == TftpReqSent && !Window(n.c)
    ensures var r := Next(file, n, Deliver(n.cur));
      && r.c.sent == n.c.sent + [Ack(n.cur)]
      && Live(r.c) && Kept(r.c) == n.cur
  {
    BlockDataLength(file, n.cur);
    hide BlockData;
  }

  // ---- the server can always finish -------------------------------------

  /** Deliver the current block, then its acknowledgement. */
  function Round(n: Net): seq<Move> { [Deliver(n.cur), AckBack(n.cur)] }

  lemma {:induction false} ServedAppend(file: seq<Byte>, n: Net, r1: seq<Move>, r2: seq<Move>)
    requires Served(file, n, r1) && Served(file, After(file, n, r1), r2)
    ensures Served(file, n, r1 + r2) && After(file, n, r1 + r2) == After(file, After(file, n, r1), r2)
    decreases |r1|
  {
    hide Next, Live;
    if r1 == [] {
      assert r1 + r2 == r2;
    } else {
      assert (r1 + r2)[1..] == r1[1..] + r2;
      ServedAppend(file, Next(file, n, r1[0]), r1[1..], r2);
    }
  }

  lemma RoundServed(file: seq<Byte>, n: Net)
    requires InStep(file, n) && n.c.phase == TftpReqSent && n.c.pc == AtSwitch
    ensures Served(file, n, Round(n))
    ensures var r := After(file, n, Round(n));
      && r.c.pc == AtSwitch && Live(r.c) && Kept(r.c) == n.cur
      && r.cur == (if n.cur < Blocks(file) then n.cur + 1 else n.cur)
  {
    CurrentAnswered(file, n);
    var n1 := Next(file, n, Deliver(n.cur));
    assert n1.c.sent[|n.c.sent|] == Ack(n.cur);
    assert Logged(n1, n.cur);
    hide Step, Blocks, BlockData;
    var n2 := Next(file, n1, AckBack(n.cur));
    var run := Round(n);
    assert run[1..] == [AckBack(n.cur)] && run[1..][1..] == [];
    assert Served(file, n1, run[1..]);
    assert After(file, n1, run[1..]) == n2;
  }

  /** From the switch some run completes the request. */
  lemma {:induction false} SwitchCompletes(file: seq<Byte>, n: Net)
    requires InStep(file, n) && AcksKept(n) && n.c.phase == TftpReqSent && n.c.pc == AtSwitch
    ensures exists run :: Served(file, n, run) && After(file, n, run).c.phase == BootDone
    decreases Blocks(file) - Kept(n.c), Blocks(file) - n.cur
  {
    RoundServed(file, n);
    LockStep(file, n, Round(n));
    var r := After(file, n, Round(n));
    hide After, Served, Round;
    if r.c.phase != BootDone {
      SwitchCompletes(file, r);
      var rest :| Served(file, r, rest) && After(file, r, rest).c.phase == BootDone;
      ServedAppend(file, n, Round(n), rest);
    }
  }

  /** Statements of mon_tftp_req left before the switch. */
  function Left(c: Client): nat {
    match c.pc
    case SetPhase => 5
    case SetTftpTimer => 4
    case SetBlock => 3
    case SetBytes => 2
    case SetRetx => 1
    case _ => 0
  }

  lemma StatementNext(file: seq<Byte>, n: Net)
    requires InStep(file, n) && n.c.phase != BootDone && n.c.pc != AtSwitch
    ensures var r := Next(file, n, Local(false)); Live(r.c) && r.c.phase == TftpReqSent && Left(r.c) < Left(n.c)
  {
  }

  lemma NextServed(file: seq<Byte>, n: Net, m: Move, rest: seq<Move>)
    requires Possible(file, n, m) && Live(Next(file, n, m).c) && Served(file, Next(file, n, m), rest)
    ensures Served(file, n, [m] + rest) && After(file, n, [m] + rest) == After(file, Next(file, n, m), rest)
  {
    assert ([m] + rest)[1..] == rest;
  }

  /** From every state of a served request, the statements that set it up
      included, some run completes it. */
  lemma {:induction false} NeverStuck(file: seq<Byte>, n: Net)
    requires InStep(file, n) && AcksKept(n)
    ensures exists run :: Served(file, n, run) && After(file, n, run).c.phase == BootDone
    decreases Left(n.c)
  {
    if n.c.phase == BootDone {
      assert Served(file, n, []) && After(file, n, []) == n;
    } else if n.c.pc == AtSwitch {
      SwitchCompletes(file, n);
    } else {
      StatementNext(file, n);
      NextInStep(file, n, Local(false));
      var r := Next(file, n, Local(false));
      hide InStep, AcksKept, Next, After, Served, Left;
      NeverStuck(file, r);
      var rest :| Served(file, r, rest) && After(file, r, rest).c.phase == BootDone;
      NextServed(file, n, Local(false), rest);
    }
  }
}
