/** What the client answers, what its timer does, and how it ends. */
module BootTimers {
  import opened BootSpec
  import opened BootRuns

  predicate Ended(c: Client) { c.pc == Jumped || c.pc == Failed }

  // ---- packets -----------------------------------------------------------------

  /** The number a data packet is answered with, if it is the block expected or
      one of its neighbours. */
  function Answered(c: Client, got: int): seq<Packet> {
    if got == c.block then [Ack(got)]
    else if got == c.block - 1 then [Ack(got)]
    else if got == c.block + 1 then [Ack(c.block)]
    else []
  }

  /** A data packet while a request is out: only the block expected is kept, only
      its neighbours are answered too, and any other stops the timer. */
  lemma DataExactly(c: Client, wire: U16, data: seq<Byte>)
    requires c.phase == TftpReqSent && !Ended(c)
    ensures var r := Step(c, Datagram(false, wire, data)); var got := if wire < 32768 then wire else wire - 65536;
      && r.sent == c.sent + Answered(c, got)
      && r.timeout == (if Answered(c, got) != [] then c.clktime + 2 else 0)
      && r.phase == (if got == c.block && |data| < 512 then BootDone else TftpReqSent)
      && r.block == (if got == c.block && |data| >= 512 then c.block + 1 else c.block)
      && r.bytes == c.bytes + (if got == c.block then |data| else 0)
      && r.memloc == c.memloc + (if got == c.block then |data| else 0)
      && (got != c.block ==> r.mem == c.mem)
      && (got == c.block && c.memloc + |data| <= |c.mem| ==>
            r.mem == c.mem[..c.memloc] + data + c.mem[c.memloc + |data|..])
      && r.pc == c.pc && r.tries == c.tries && r.retx == c.retx && r.clktime == c.clktime
  {
  }

  /** A refusal turns the timer off and asks for a new try; what comes outside its
      phase is not looked at. */
  lemma RepliesExactly(c: Client, e: Event)
    requires !Ended(c) && (e.BootpReply? || (e.Datagram? && (e.error || c.phase != TftpReqSent)))
    ensures Step(c, e) ==
      if e.BootpReply? && c.phase == BootpReqSent && e.ok then c.(timeout := 0, phase := BeginTftp, tries := 0)
      else if e.BootpReply? && c.phase == BootpReqSent then c.(timeout := 0, phase := BootpRetx)
      else if e.Datagram? && c.phase == TftpReqSent then c.(timeout := 0, phase := TftpRetx)
      else c
  {
  }

  // ---- the timer ------------------------------------------------------------------

  predicate Fires(c: Client) { c.timeout > 0 && c.clktime + 1 >= c.timeout }

  /** A clock interrupt counts a second. When the timeout is reached a request is
      tried again, or the last acknowledgement sent again up to five times, and
      after that the boot fails. */
  lemma TimerExactly(c: Client)
    requires !Ended(c)
    ensures var r := Step(c, Tick);
      && r.clktime == c.clktime + 1
      && (!Fires(c) || !(c.phase in {BootpReqSent, TftpReqSent}) ==> r == c.(clktime := c.clktime + 1))
      && (Fires(c) && c.phase == BootpReqSent ==> r == c.(clktime := c.clktime + 1, phase := BootpRetx))
      && (Fires(c) && c.phase == TftpReqSent && c.bytes == 0 ==> r == c.(clktime := c.clktime + 1, phase := TftpRetx))
      && (Fires(c) && c.phase == TftpReqSent && c.bytes > 0 && c.retx < 5 ==>
            r == c.(clktime := c.clktime + 1, sent := c.sent + [Ack(c.block - 1)], timeout := c.clktime + 3, retx := c.retx + 1))
      && (Fires(c) && c.phase == TftpReqSent && c.bytes > 0 && c.retx >= 5 ==>
            r == c.(clktime := c.clktime + 1, phase := BootError, timeout := 0))
  {
  }

  // ---- silence ----------------------------------------------------------------------

  /** The main loop and the clock, and nothing from the network. */
  predicate Silent(run: seq<Event>) { forall i :: 0 <= i < |run| ==> run[i] == MainStep || run[i] == Tick }

  function TicksIn(run: seq<Event>): nat {
    if run == [] then 0 else (if run[0] == Tick then 1 else 0) + TicksIn(run[1..])
  }

  predicate AwaitsReply(c: Client) { c.pc == AtSwitch && c.phase in {BootpReqSent, TftpReqSent} }

  /** Waiting for a reply, nothing happens before the timeout. */
  lemma {:induction false} QuietUntil(c: Client, run: seq<Event>)
    requires AwaitsReply(c) && Silent(run) && (c.timeout == 0 || TicksIn(run) < c.timeout - c.clktime)
    ensures Exec(c, run) == c.(clktime := c.clktime + TicksIn(run))
    decreases |run|
  {
    if run != [] {
      assert forall i :: 0 <= i < |run[1..]| ==> run[1..][i] == run[i + 1];
      QuietUntil(Step(c, run[0]), run[1..]);
    }
  }

  /** A data packet that is neither the block expected nor its neighbour leaves
      the client waiting: in silence it never sends again and never gives up. */
  lemma StrayStalls(c: Client, wire: U16, data: seq<Byte>, run: seq<Event>)
    requires c.pc == AtSwitch && c.phase == TftpReqSent && Silent(run)
    requires var got := if wire < 32768 then wire else wire - 65536; got < c.block - 1 || got > c.block + 1
    ensures var r := Exec(Step(c, Datagram(false, wire, data)), run);
      r.phase == TftpReqSent && r.pc == AtSwitch && r.sent == c.sent && r.tries == c.tries
  {
    DataExactly(c, wire, data);
    var d := Step(c, Datagram(false, wire, data));
    hide Step, Exec;
    QuietUntil(d, run);
  }

  function TicksOf(n: nat): seq<Event> { seq(n, _ => Tick) }

  lemma {:induction false} TicksAre(n: nat)
    ensures Silent(TicksOf(n)) && TicksIn(TicksOf(n)) == n
    decreases n
  {
    if n > 0 {
      assert TicksOf(n)[1..] == TicksOf(n - 1);
      TicksAre(n - 1);
    }
  }

  lemma TicksSnoc(n: nat)
    requires n > 0
    ensures TicksOf(n) == TicksOf(n - 1) + [Tick]
  {
  }

  /** The tick that reaches the timeout, after the ones before it. */
  lemma TicksFire(c: Client, n: nat)
    requires AwaitsReply(c) && n > 0 && c.timeout == c.clktime + n
    ensures Exec(c, TicksOf(n)) == Step(c.(clktime := c.clktime + n - 1), Tick)
  {
    hide Step, Exec, TicksOf, TicksIn, Silent, AwaitsReply;
    TicksAre(n - 1);
    QuietUntil(c, TicksOf(n - 1));
    TicksSnoc(n);
    ExecSnoc(c, TicksOf(n - 1), Tick);
  }

  /** From a try at the switch: the BOOTP request goes out and its timer is set. */
  lemma AskBootp(c: Client)
    requires c.pc == AtSwitch && (c.phase == BeginBootp || (c.phase == BootpRetx && c.tries < MON_MAX_TRY))
    ensures var t := if c.phase == BeginBootp then c.tries else c.tries + 1; var r := Exec(c, Mains(4));
      AwaitsReply(r) && r.phase == BootpReqSent && r.tries == t && r.clktime == c.clktime
      && r.timeout == c.clktime + t + 2 && r.sent == c.sent + [BootpRequest]
  {
    hide Exec, Mains;
    var m := MainStep;
    FourMains(c, 4);
    NoMains(Step(Step(Step(Step(c, m), m), m), m));
  }

  lemma AskTftpFirst(c: Client)
    requires c.pc == AtSwitch && (c.phase == BeginTftp || (c.phase == TftpRetx && c.tries < MON_MAX_TRY))
    ensures var m := MainStep; var r := Step(Step(Step(Step(c, m), m), m), m);
      r.pc == SetTftpTimer && r.phase == TftpReqSent && r.tries == (if c.phase == BeginTftp then c.tries else c.tries + 1)
      && r.clktime == c.clktime && r.sent == c.sent + [ReadRequest]
  {
  }

  lemma AskTftpRest(c: Client)
    requires c.pc == SetTftpTimer && c.phase == TftpReqSent
    ensures var m := MainStep;
      Step(Step(Step(Step(c, m), m), m), m)
        == c.(pc := AtSwitch, timeout := c.clktime + c.tries + 2, block := 1, wiped := c.bytes, bytes := 0, retx := 0)
  {
  }

  /** The read request. */
  lemma AskTftp(c: Client)
    requires c.pc == AtSwitch && (c.phase == BeginTftp || (c.phase == TftpRetx && c.tries < MON_MAX_TRY))
    ensures var t := if c.phase == BeginTftp then c.tries else c.tries + 1; var r := Exec(c, Mains(8));
      AwaitsReply(r) && r.phase == TftpReqSent && r.tries == t && r.clktime == c.clktime && r.block == 1 && r.bytes == 0
      && r.retx == 0 && r.timeout == c.clktime + t + 2 && r.sent == c.sent + [ReadRequest]
  {
    hide Exec, Mains, Step;
    var m := MainStep;
    FourMains(c, 8);
    var c4 := Step(Step(Step(Step(c, m), m), m), m);
    AskTftpFirst(c);
    FourMains(c4, 4);
    AskTftpRest(c4);
    NoMains(Step(Step(Step(Step(c4, m), m), m), m));
  }

  /** One unanswered BOOTP request: sent, and given up after t + 2 seconds. */
  function BootpTry(t: nat): seq<Event> { Mains(4) + TicksOf(t + 2) }

  lemma BootpTryFails(c: Client)
    requires c.pc == AtSwitch && (c.phase == BeginBootp || (c.phase == BootpRetx && c.tries < MON_MAX_TRY))
    ensures var t := if c.phase == BeginBootp then c.tries else c.tries + 1; var r := Exec(c, BootpTry(t));
      r.pc == AtSwitch && r.phase == BootpRetx && r.tries == t && r.clktime == c.clktime + t + 2
      && r.sent == c.sent + [BootpRequest]
  {
    var t := if c.phase == BeginBootp then c.tries else c.tries + 1;
    hide Exec, Mains, TicksOf, Step;
    AskBootp(c);
    var r := Exec(c, Mains(4));
    ExecAppend(c, Mains(4), TicksOf(t + 2));
    TicksFire(r, t + 2);
    BootpTimeout(r.(clktime := r.clktime + t + 1));
  }

  lemma BootpTimeout(c: Client)
    requires AwaitsReply(c) && c.phase == BootpReqSent && c.timeout == c.clktime + 1
    ensures Step(c, Tick) == c.(clktime := c.clktime + 1, phase := BootpRetx)
  {
  }

  function TftpTry(t: nat): seq<Event> { Mains(8) + TicksOf(t + 2) }

  lemma TftpTryFails(c: Client)
    requires c.pc == AtSwitch && (c.phase == BeginTftp || (c.phase == TftpRetx && c.tries < MON_MAX_TRY))
    ensures var t := if c.phase == BeginTftp then c.tries else c.tries + 1; var r := Exec(c, TftpTry(t));
      r.pc == AtSwitch && r.phase == TftpRetx && r.tries == t && r.clktime == c.clktime + t + 2
      && r.sent == c.sent + [ReadRequest]
  {
    var t := if c.phase == BeginTftp then c.tries else c.tries + 1;
    hide Exec, Mains, TicksOf, Step;
    AskTftp(c);
    var r := Exec(c, Mains(8));
    ExecAppend(c, Mains(8), TicksOf(t + 2));
    TicksFire(r, t + 2);
    TftpTimeout(r.(clktime := r.clktime + t + 1));
  }

  lemma TftpTimeout(c: Client)
    requires AwaitsReply(c) && c.phase == TftpReqSent && c.bytes == 0 && c.timeout == c.clktime + 1
    ensures Step(c, Tick) == c.(clktime := c.clktime + 1, phase := TftpRetx)
  {
  }

  lemma LastTry(c: Client)
    requires c.pc == AtSwitch && c.phase in {BootpRetx, TftpRetx} && c.tries >= MON_MAX_TRY
    ensures Exec(c, [MainStep]) == c.(tries := c.tries + 1, pc := Failed)
  {
    ExecOne(c, MainStep);
  }

  function Repeated(p: Packet, n: nat): seq<Packet> { seq(n, _ => p) }

  lemma RepeatedCons(p: Packet, n: nat)
    requires n > 0
    ensures Repeated(p, n) == [p] + Repeated(p, n - 1)
  {
  }

  /** The tries from t on, and how long they take. */
  function BootpTries(t: nat): seq<Event>
    decreases 4 - t
  {
    if t > 3 then [MainStep] else BootpTry(t) + BootpTries(t + 1)
  }

  function TftpTries(t: nat): seq<Event>
    decreases 4 - t
  {
    if t > 3 then [MainStep] else TftpTry(t) + TftpTries(t + 1)
  }

  function Seconds(t: nat): nat
    decreases 4 - t
  {
    if t > 3 then 0 else t + 2 + Seconds(t + 1)
  }

  lemma {:induction false} BootpTriesFail(c: Client, t: nat)
    requires c.pc == AtSwitch && t <= 4
    requires (c.phase == BeginBootp && t == c.tries == 0) || (c.phase == BootpRetx && t == c.tries + 1)
    ensures var r := Exec(c, BootpTries(t));
      r.pc == Failed && r.clktime == c.clktime + Seconds(t) && r.sent == c.sent + Repeated(BootpRequest, 4 - t)
    decreases 4 - t
  {
    hide Exec, BootpTry;
    if t > 3 {
      LastTry(c);
    } else {
      BootpTryFails(c);
      var d := Exec(c, BootpTry(t));
      ExecAppend(c, BootpTry(t), BootpTries(t + 1));
      BootpTriesFail(d, t + 1);
      RepeatedCons(BootpRequest, 4 - t);
      hide Repeated, BootpTries;
    }
  }

  lemma {:induction false} TftpTriesFail(c: Client, t: nat)
    requires c.pc == AtSwitch && t <= 4
    requires (c.phase == BeginTftp && t == c.tries == 0) || (c.phase == TftpRetx && t == c.tries + 1)
    ensures var r := Exec(c, TftpTries(t));
      r.pc == Failed && r.clktime == c.clktime + Seconds(t) && r.sent == c.sent + Repeated(ReadRequest, 4 - t)
    decreases 4 - t
  {
    hide Exec, TftpTry;
    if t > 3 {
      LastTry(c);
    } else {
      TftpTryFails(c);
      var d := Exec(c, TftpTry(t));
      ExecAppend(c, TftpTry(t), TftpTries(t + 1));
      TftpTriesFail(d, t + 1);
      RepeatedCons(ReadRequest, 4 - t);
      hide Repeated, TftpTries;
    }
  }

  /** In silence boot_xinu sends BOOTP requests at seconds 0, 2, 5 and 9 and
      returns at second 14. */
  lemma SilentBootpFails(c: Client)
    requires Fresh(c)
    ensures var r := Exec(c, BootpTries(0));
      r.pc == Failed && r.clktime == c.clktime + 14 && r.sent == Repeated(BootpRequest, 4)
  {
    BootpTriesFail(c, 0);
    hide Exec, BootpTries, Repeated;
    assert Seconds(0) == 14;
  }

  /** Once a BOOTP reply is in, so do read requests that nobody answers. */
  lemma SilentTftpFails(c: Client)
    requires c.pc == AtSwitch && c.phase == BeginTftp && c.tries == 0
    ensures var r := Exec(c, TftpTries(0));
      r.pc == Failed && r.clktime == c.clktime + 14 && r.sent == c.sent + Repeated(ReadRequest, 4)
  {
    TftpTriesFail(c, 0);
    hide Exec, TftpTries, Repeated;
    assert Seconds(0) == 14;
  }

  // ---- a server that falls silent -----------------------------------------------

  predicate Underway(c: Client) {
    c.pc == AtSwitch && c.phase == TftpReqSent && c.bytes > 0 && c.timeout == c.clktime + 2
  }

  /** n times two seconds. */
  function Pauses(n: nat): seq<Event> { if n == 0 then [] else TicksOf(2) + Pauses(n - 1) }

  lemma PauseResends(c: Client)
    requires Underway(c) && c.retx < 5
    ensures var d := Exec(c, TicksOf(2));
      Underway(d) && d.retx == c.retx + 1 && d.block == c.block && d.sent == c.sent + [Ack(c.block - 1)]
  {
    hide Exec, TicksOf;
    TicksFire(c, 2);
  }

  lemma PauseFails(c: Client)
    requires Underway(c) && c.retx == 5
    ensures var e := Exec(c, TicksOf(2)); e.pc == AtSwitch && e.phase == BootError && e.sent == c.sent
  {
    hide Exec, TicksOf;
    TicksFire(c, 2);
  }

  lemma NoPause(c: Client, p: Packet)
    ensures Exec(c, Pauses(0)) == c && c.sent + Repeated(p, 0) == c.sent
  {
  }

  lemma MorePauses(n: nat)
    requires n > 0
    ensures Pauses(n) == TicksOf(2) + Pauses(n - 1)
  {
  }

  lemma SentOn(sent: seq<Packet>, p: Packet, n: nat)
    requires n > 0
    ensures sent + [p] + Repeated(p, n - 1) == sent + Repeated(p, n)
  {
    RepeatedCons(p, n);
  }

  /** Every two seconds of silence the last acknowledgement is sent again, as long
      as the request has repeats left. */
  lemma {:induction false} Resends(c: Client, n: nat)
    requires Underway(c) && c.retx + n <= 5
    ensures var r := Exec(c, Pauses(n));
      Underway(r) && r.retx == c.retx + n && r.block == c.block && r.sent == c.sent + Repeated(Ack(c.block - 1), n)
    decreases n
  {
    hide Exec, TicksOf, Underway, Repeated, Pauses;
    if n > 0 {
      PauseResends(c);
      MorePauses(n);
      ExecAppend(c, TicksOf(2), Pauses(n - 1));
      Resends(Exec(c, TicksOf(2)), n - 1);
      SentOn(c.sent, Ack(c.block - 1), n);
    } else {
      NoPause(c, Ack(c.block - 1));
    }
  }

  /** The repeats of a request are not renewed by progress: with r of five used up
      the boot fails after 5 - r more and two seconds. */
  lemma SilentServerFails(c: Client)
    requires Underway(c) && c.retx <= 5
    ensures var r := Exec(c, Pauses(5 - c.retx) + (TicksOf(2) + [MainStep]));
      r.pc == Failed && r.phase == BootError && r.sent == c.sent + Repeated(Ack(c.block - 1), 5 - c.retx)
  {
    var n := 5 - c.retx;
    hide Exec, Pauses, TicksOf, Underway, Repeated;
    Resends(c, n);
    var d := Exec(c, Pauses(n));
    PauseFails(d);
    var e := Exec(d, TicksOf(2));
    ExecAppend(c, Pauses(n), TicksOf(2) + [MainStep]);
    ExecAppend(d, TicksOf(2), [MainStep]);
    ExecOne(e, MainStep);
  }

  // ---- the end ------------------------------------------------------------------------

  /** At the switch a finished transfer jumps to the image, a failed one returns,
      and nothing happens any more. */
  lemma EndsExactly(c: Client, run: seq<Event>)
    requires c.pc == AtSwitch && c.phase in {BootDone, BootError}
    ensures var d := Step(c, MainStep);
      d == c.(pc := if c.phase == BootDone then Jumped else Failed) && Exec(d, run) == d
  {
    EndedStays(Step(c, MainStep), run);
  }

  lemma {:induction false} EndedStays(c: Client, run: seq<Event>)
    requires Ended(c)
    ensures Exec(c, run) == c
    decreases |run|
  {
    if run != [] {
      EndedStays(c, run[1..]);
    }
  }
}
