/** The network boot: the monitor's main loop, one statement at a time, with
    the network and clock interrupts that may come between any two of them. */
module BootSpec {

  type Byte = bv8
  type U16 = x: int | 0 <= x < 0x1_0000

  const MON_MAX_TRY: int := 3
  const MAX_RETX: int := 5
  const TFTP_BLOCK_SIZE: int := 512

  datatype Phase = BeginBootp | BootpReqSent | BeginTftp | TftpReqSent | BootDone | BootError | BootpRetx | TftpRetx

  /** Where the main loop is. Send* are the calls that emit a request; the rest
      are the single assignments of boot_xinu and mon_tftp_req. */
  datatype Pc =
    | AtSwitch
    | SetBootpPhase | SendBootp | SetBootpTimer
    | SetMemloc | SendTftp | SetPhase | SetTftpTimer | SetBlock | SetBytes | SetRetx
    | Jumped | Failed

  datatype Packet = BootpRequest | ReadRequest | Ack(block: int)

  datatype Client = Client(
    pc: Pc,
    phase: Phase,       // mon_boot_state
    tries: nat,         // mon_boot_try
    clktime: nat,       // mon_clktime
    timeout: nat,       // mon_timeout
    block: int,         // mon_tftp_block
    bytes: nat,         // mon_tftp_bytes
    retx: nat,          // mon_tftp_retx
    memloc: nat,        // mon_tftp_memloc - BOOTPLOC
    mem: seq<Byte>,     // memory from BOOTPLOC on
    sent: seq<Packet>,  // what went out, oldest first
    wiped: nat)         // bytes counted for this request that SetBytes cleared

  datatype Event =
    | MainStep
    | BootpReply(ok: bool)
    | Datagram(error: bool, wire: U16, data: seq<Byte>)
    | Tick

  /** The block number as the signed short the client reads it into. */
  function ToShort(w: U16): int { if w < 0x8000 then w else w - 0x1_0000 }

  function SendPacket(c: Client, p: Packet): Client { c.(sent := c.sent + [p]) }

  /** mon_tftp_ack. */
  function SendAck(c: Client, n: int): Client {
    SendPacket(c, Ack(n)).(timeout := c.clktime + 2)
  }

  /** blkcopy; nothing is stored past the end of memory. */
  function Copy(mem: seq<Byte>, at: nat, data: seq<Byte>): (r: seq<Byte>)
    ensures |r| == |mem|
  {
    if at + |data| <= |mem| then mem[..at] + data + mem[at + |data|..] else mem
  }

  datatype Verdict = Finished | Continue | Refused

  /** mon_tftp_in: keep the block expected, acknowledge it or its neighbours. */
  function TftpIn(c: Client, error: bool, wire: U16, data: seq<Byte>): (Client, Verdict) {
    var got := ToShort(wire);
    if error then (c, Refused)
    else if got != c.block then
      var diff := c.block - got;
      (if diff == 1 then SendAck(c, got) else if diff == -1 then SendAck(c, c.block) else c, Continue)
    else
      var c1 := c.(mem := Copy(c.mem, c.memloc, data), memloc := c.memloc + |data|, bytes := c.bytes + |data|);
      var c2 := SendAck(c1, c.block);
      if |data| < TFTP_BLOCK_SIZE then (c2, Finished) else (c2.(block := c.block + 1), Continue)
  }

  /** mon_udp_in, for a datagram to either port with a good checksum. */
  function UdpBootp(c: Client, ok: bool): Client {
    if c.phase != BootpReqSent then c
    else if ok then c.(timeout := 0, phase := BeginTftp, tries := 0)
    else c.(timeout := 0, phase := BootpRetx)
  }

  function UdpTftp(c: Client, error: bool, wire: U16, data: seq<Byte>): Client {
    if c.phase != TftpReqSent then c
    else
      var (c1, v) := TftpIn(c.(timeout := 0), error, wire, data);
      match v
      case Finished => c1.(phase := BootDone)
      case Refused => c1.(phase := TftpRetx)
      case Continue => c1
  }

  /** The clock interrupt, once a second, and mon_timer. */
  function Timer(c0: Client): Client {
    var c := c0.(clktime := c0.clktime + 1);
    if c.timeout == 0 || c.clktime < c.timeout then c
    else match c.phase
      case BootpReqSent => c.(phase := BootpRetx)
      case TftpReqSent =>
        if c.bytes == 0 then c.(phase := TftpRetx)
        else if c.retx < MAX_RETX then SendAck(c, c.block - 1).(retx := c.retx + 1)
        else c.(phase := BootError, timeout := 0)
      case _ => c
  }

  /** One statement of boot_xinu or mon_tftp_req. */
  function Main(c: Client): Client {
    match c.pc
    case AtSwitch => Switch(c)
    case SetBootpPhase => c.(phase := BootpReqSent, pc := SendBootp)
    case SendBootp => SendPacket(c, BootpRequest).(pc := SetBootpTimer)
    case SetBootpTimer => c.(timeout := c.clktime + c.tries + 2, pc := AtSwitch)
    case SetMemloc => c.(memloc := 0, pc := SendTftp)
    case SendTftp => SendPacket(c, ReadRequest).(block := 0, bytes := 0, wiped := 0, pc := SetPhase)
    case SetPhase => c.(phase := TftpReqSent, pc := SetTftpTimer)
    case SetTftpTimer => c.(timeout := c.clktime + c.tries + 2, pc := SetBlock)
    case SetBlock => c.(block := 1, pc := SetBytes)
    case SetBytes => c.(bytes := 0, wiped := c.bytes, pc := SetRetx)
    case SetRetx => c.(retx := 0, pc := AtSwitch)
    case Jumped => c
    case Failed => c
  }

  function Switch(c: Client): Client {
    match c.phase
    case BeginBootp => c.(pc := SetBootpPhase)
    case BootpRetx => Retry(c, SetBootpPhase)
    case BeginTftp => c.(pc := SetMemloc)
    case TftpRetx => Retry(c, SetMemloc)
    case BootDone => c.(pc := Jumped)
    case BootError => c.(pc := Failed)
    case BootpReqSent => c
    case TftpReqSent => c
  }

  function Retry(c: Client, next: Pc): Client {
    if c.tries + 1 > MON_MAX_TRY then c.(tries := c.tries + 1, pc := Failed)
    else c.(tries := c.tries + 1, pc := next)
  }

  /** Interrupts are off once the image is jumped to, and of no interest once
      boot_xinu has returned. */
  function Step(c: Client, e: Event): Client {
    if c.pc == Jumped || c.pc == Failed then c
    else match e
      case MainStep => Main(c)
      case BootpReply(ok) => UdpBootp(c, ok)
      case Datagram(error, wire, data) => UdpTftp(c, error, wire, data)
      case Tick => Timer(c)
  }

  function Exec(c: Client, run: seq<Event>): Client
    decreases |run|
  {
    if run == [] then c else Exec(Step(c, run[0]), run[1..])
  }

  /** boot_xinu entered, whatever an earlier attempt left behind. */
  predicate Fresh(c: Client) {
    c.pc == AtSwitch && c.phase == BeginBootp && c.tries == 0 && c.timeout == 0 && c.sent == []
  }

  // ---- the file and what a server sends of it --------------------------

  /** Blocks of a transfer: the last is short, empty if need be. */
  function Blocks(file: seq<Byte>): nat { |file| / TFTP_BLOCK_SIZE + 1 }

  function Min(x: int, y: int): int { if x < y then x else y }

  function BlockData(file: seq<Byte>, k: nat): seq<Byte>
    requires 1 <= k <= Blocks(file)
  {
    file[TFTP_BLOCK_SIZE * (k - 1)..Min(TFTP_BLOCK_SIZE * k, |file|)]
  }

  /** Block k of the file, its number in 16 bits. */
  function Data(file: seq<Byte>, k: nat): Event
    requires 1 <= k <= Blocks(file)
  {
    Datagram(false, k % 0x1_0000, BlockData(file, k))
  }

  /** An event a network may produce whose server has only this file to send:
      any block at any time, any number of times, or an error. */
  ghost predicate FromServer(file: seq<Byte>, e: Event) {
    e.Datagram? && !e.error ==> exists k: nat :: 1 <= k <= Blocks(file) && e == Data(file, k)
  }

  ghost predicate ServerRun(file: seq<Byte>, run: seq<Event>) {
    forall i :: 0 <= i < |run| ==> FromServer(file, run[i])
  }
}
