/** The boot code over the monitor's own variables. The main loop is one
    method per statement, so that interrupt handlers may run in between. */
module BootTables {
  import B = BootSpec
  import opened BootSpec

  class MonBoot {
    var state: Phase
    var tries: nat
    var clktime: nat
    var timeout: nat
    var block: int
    var bytes: nat
    var retx: nat
    var memloc: nat
    const mem: array<Byte>
    var sent: seq<Packet>
    ghost var pc: Pc
    ghost var wiped: nat

    ghost function Abs(): Client
      reads this, mem
    {
      Client(pc, state, tries, clktime, timeout, block, bytes, retx, memloc, mem[..], sent, wiped)
    }

    /** boot_xinu entered with the memory the image goes to. */
    constructor (memory: array<Byte>)
      ensures mem == memory && Abs().mem == memory[..] && Fresh(Abs())
    {
      mem := memory;
      state, tries, timeout := BeginBootp, 0, 0;
      clktime, block, bytes, retx, memloc := 0, 0, 0, 0, 0;
      sent := [];
      pc, wiped := AtSwitch, 0;
    }

    /** mon_netwrite. */
    method Write(p: Packet)
      modifies this`sent
      ensures Abs() == SendPacket(old(Abs()), p)
    {
      sent := sent + [p];
    }

    /** mon_tftp_ack. */
    method TftpAck(n: int)
      modifies this`sent, this`timeout
      ensures Abs() == SendAck(old(Abs()), n)
    {
      timeout := clktime + 2;
      Write(Ack(n));
    }

    /** blkcopy to memloc. */
    method BlkCopy(data: seq<Byte>)
      modifies mem
      ensures mem[..] == Copy(old(mem[..]), memloc, data)
    {
      if memloc + |data| <= mem.Length {
        ghost var was := mem[..];
        for i := 0 to |data|
          invariant mem[..memloc + i] == was[..memloc] + data[..i]
          invariant mem[memloc + i..] == was[memloc + i..]
        {
          mem[memloc + i] := data[i];
        }
      }
    }

    method TftpIn(error: bool, wire: U16, data: seq<Byte>) returns (v: Verdict)
      modifies this, mem
      ensures (Abs(), v) == B.TftpIn(old(Abs()), error, wire, data)
    {
      if error {
        return Refused;
      }
      var got := ToShort(wire);
      if got != block {
        var diff := block - got;
        if diff == 1 {
          TftpAck(got);
        } else if diff == -1 {
          TftpAck(block);
        }
        return Continue;
      }
      BlkCopy(data);
      memloc := memloc + |data|;
      bytes := bytes + |data|;
      TftpAck(block);
      if |data| < TFTP_BLOCK_SIZE {
        return Finished;
      }
      block := block + 1;
      return Continue;
    }

    /** mon_udp_in for the BOOTP port; ok is what mon_bootp_in made of it. */
    method BootpIn(ok: bool)
      modifies this
      ensures Abs() == UdpBootp(old(Abs()), ok)
    {
      if state != BootpReqSent {
        return;
      }
      if timeout != 0 {
        timeout := 0;
      }
      if ok {
        state := BeginTftp;
        tries := 0;
      } else {
        state := BootpRetx;
      }
    }

    /** mon_udp_in for the TFTP port. */
    method UdpIn(error: bool, wire: U16, data: seq<Byte>)
      modifies this, mem
      ensures Abs() == UdpTftp(old(Abs()), error, wire, data)
    {
      if state == TftpReqSent {
        timeout := 0;
        var ret := TftpIn(error, wire, data);
        match ret {
          case Finished => state := BootDone;
          case Refused => state := TftpRetx;
          case Continue =>
        }
      }
    }

    /** The once-a-second interrupt with mon_timer. */
    method TimerTick()
      modifies this
      ensures Abs() == Timer(old(Abs()))
    {
      clktime := clktime + 1;
      if timeout != 0 && clktime >= timeout {
        match state {
          case BootpReqSent => state := BootpRetx;
          case TftpReqSent =>
            if bytes == 0 {
              state := TftpRetx;
            } else if retx < MAX_RETX {
              TftpAck(block - 1);
              retx := retx + 1;
            } else {
              state := BootError;
              timeout := 0;
            }
          case _ =>
        }
      }
    }

    /** The head of the main loop's switch. */
    method SwitchStatement()
      requires pc == AtSwitch
      modifies this
      ensures Abs() == Main(old(Abs()))
    {
      if state == BootpRetx || state == TftpRetx {
        tries := tries + 1;
        if tries > MON_MAX_TRY {
          pc := Failed;
          return;
        }
      }
      match state {
        case BeginBootp => pc := SetBootpPhase;
        case BootpRetx => pc := SetBootpPhase;
        case BeginTftp => pc := SetMemloc;
        case TftpRetx => pc := SetMemloc;
        case BootDone => pc := Jumped;
        case BootError => pc := Failed;
        case BootpReqSent =>
        case TftpReqSent =>
      }
    }

    /** The statement at pc, for the rest of the loop body. */
    method BodyStatement(at: Pc)
      requires pc == at && at !in {AtSwitch, Jumped, Failed}
      modifies this
      ensures Abs() == Main(old(Abs()))
    {
      match at {
        case SetBootpPhase =>
          state := BootpReqSent;
          pc := SendBootp;
        case SendBootp =>
          Write(BootpRequest);
          pc := SetBootpTimer;
        case SetBootpTimer =>
          timeout := clktime + tries + 2;
          pc := AtSwitch;
        case SetMemloc =>
          memloc := 0;
          pc := SendTftp;
        case SendTftp =>
          block, bytes := 0, 0;
          wiped := 0;
          Write(ReadRequest);
          pc := SetPhase;
        case SetPhase =>
          state := TftpReqSent;
          pc := SetTftpTimer;
        case SetTftpTimer =>
          timeout := clktime + tries + 2;
          pc := SetBlock;
        case SetBlock =>
          block := 1;
          pc := SetBytes;
        case SetBytes =>
          wiped := bytes;
          bytes := 0;
          pc := SetRetx;
        case SetRetx =>
          retx := 0;
          pc := AtSwitch;
      }
    }
  }
}
