/**
 * The interrupt-driven Two-Wire Interface (I2C) controller of the Cosa
 * AVR library.
 *
 * The controller is a single global object.  Foreground calls (`begin`,
 * `end`, `request` and its wrappers, the device buffer setters) prime its
 * state; the TWI interrupt then advances the transfer one bus event at a
 * time.  Here the state is an immutable record, every foreground call is a
 * pure function returning the new state together with what it wrote to the
 * control register, and the interrupt routine is the total transition
 * function `Step`.
 *
 * Hardware registers are not modelled as memory: a write to the control
 * register TWCR is returned as a `Command`, a write to the data register
 * TWDR as the transmitted byte, and the slave address register TWAR is a
 * field of the state because the interrupt and `on_event` both change it.
 *
 * The iovec segments are held by value (`vec`), and the cursor pointers
 * `m_next`/`m_last` become the offsets `next`/`last` into segment `seg`.
 * Where the C code would dereference a pointer outside its buffer or index
 * the iovec past its end, `Step` yields `Overrun` instead of a state.
 */
module TwoWire {
  import opened Options

  /** Number of iovec entries the controller holds. */
  const VecMax: nat := 4
  /** iovec entry a slave device's write buffer occupies. */
  const WriteIx: nat := 0
  /** iovec entry a slave device's read buffer occupies. */
  const ReadIx: nat := 1
  /** The R/W bit of the address byte: 0 requests a write, 1 a read (section 3.1.10 of the I2C-bus specification, UM10204). */
  const WriteOp: bv8 := 0x00
  const ReadOp: bv8 := 0x01

  /** An event handler, identified abstractly; `None` plays the null pointer. */
  type HandlerId = nat

  /** The lifecycle state of the controller, in the order the busy test relies on. */
  datatype Role = ErrorState | IdleState | MasterTransmit | MasterReceive | SlaveTransmit | SlaveReceive

  /** The position of a role in the state enumeration, ERROR first. */
  function Ordinal(r: Role): nat {
    match r
    case ErrorState => 0
    case IdleState => 1
    case MasterTransmit => 2
    case MasterReceive => 3
    case SlaveTransmit => 4
    case SlaveReceive => 5
  }

  /** A transfer is in progress: the state is above IDLE. */
  function Busy(r: Role): (b: bool)
    ensures b <==> Ordinal(r) > Ordinal(IdleState)
  {
    !r.ErrorState? && !r.IdleState?
  }

  /** The bus status reported by the hardware when the interrupt fires; `Other` stands for every code the switch does not name. */
  datatype Status =
    | Start | RepStart | ArbLost
    | MtSlaAck | MtSlaNack | MtDataAck | MtDataNack
    | MrSlaAck | MrSlaNack | MrDataAck | MrDataNack
    | StSlaAck | StArbLostSlaAck | StDataAck | StDataNack | StLastData
    | SrSlaAck | SrGcallAck | SrArbLostSlaAck | SrArbLostGcallAck
    | SrDataAck | SrGcallDataAck | SrStop | SrDataNack | SrGcallDataNack
    | NoInfo | BusError | Other

  /** A value written to the control register: `Disabled` is the plain 0 written by `end`. */
  datatype Command = Disabled | IdleCmd | StartCmd | DataCmd | AckCmd | NackCmd | StopCmd

  /** The iovec: exactly `VecMax` segments; an empty segment ends it. */
  type Vec = v: seq<seq<bv8>> | |v| == VecMax witness [[], [], [], []]

  /** The controller's state. */
  datatype Twi = Twi(
    target: Option<HandlerId>,  // m_target
    addr: bv8,                  // m_addr: own slave address, or the address byte of the current request
    role: Role,                 // m_state
    status: Status,             // m_status: the last status seen by the interrupt
    vec: Vec,                   // m_vec
    ix: nat,                    // m_ix: the segment a master transmit is sending from
    seg: nat,                   // the segment m_next and m_last point into
    next: nat,                  // m_next as an offset into vec[seg]
    last: nat,                  // m_last as an offset into vec[seg]
    count: int,                 // m_count: bytes transferred, or -1 after an error
    twar: bv8                   // the slave address register TWAR
  )

  /** What one interrupt wrote to the hardware: the control register and the data register, each at most once. */
  datatype Io = Io(cmd: Option<Command>, tx: Option<bv8>)

  /** An event pushed to the event queue; `value` is the 16-bit event value. */
  datatype Event = WriteCompleted(target: Option<HandlerId>, value: nat) | OtherEvent(value: nat)

  /** The result of one interrupt. */
  datatype Outcome = Next(twi: Twi, io: Io, event: Option<Event>) | Overrun

  /** The result of a foreground call: the new state, the control register write if any, and the return value. */
  datatype Call<T> = Call(twi: Twi, cmd: Option<Command>, ret: T)

  /** The 16-bit event value a signed count is pushed as (conversion of int to uint16_t). */
  function EventValue(count: int): (v: nat)
    ensures v < 0x1_0000
    ensures 0 <= count < 0x1_0000 ==> v == count
    ensures count == -1 ==> v == 0xFFFF
  {
    count % 0x1_0000
  }

  // ---------------------------------------------------------------------
  // Foreground calls
  // ---------------------------------------------------------------------

  /**
   * begin(target, addr): record the handler and the address, then, for a
   * slave (addr != 0), refuse without a handler or load the slave address
   * register; enable the interface with IDLE_CMD and succeed.
   */
  function Begin(s: Twi, target: Option<HandlerId>, addr: bv8): (c: Call<bool>)
    ensures c.twi.target == target && c.twi.addr == addr
    ensures !c.ret <==> addr != 0 && target.None?
    ensures c.ret <==> c.cmd == Some(IdleCmd)
    ensures !c.ret ==> c.cmd.None? && c.twi.twar == s.twar
    ensures c.ret ==> c.twi.twar == (if addr != 0 then addr else s.twar)
    ensures c.twi.role == s.role && c.twi.vec == s.vec && c.twi.count == s.count
  {
    var t := s.(target := target, addr := addr);
    if addr != 0 && target.None? then Call(t, None, false)
    else if addr != 0 then Call(t.(twar := addr), Some(IdleCmd), true)
    else Call(t, Some(IdleCmd), true)
  }

  /** end(): drop the handler, disable the interface and clear the slave address; always succeeds. */
  function End(s: Twi): (c: Call<bool>)
    ensures c.ret && c.cmd == Some(Disabled)
    ensures c.twi.target.None? && c.twi.twar == 0
    ensures c.twi.(target := s.target, twar := s.twar) == s
  {
    Call(s.(target := None, twar := 0), Some(Disabled), true)
  }

  /** Ending twice is ending once. */
  lemma EndIdempotent(s: Twi)
    ensures End(End(s).twi) == End(s)
  {
  }

  /**
   * request(addr): start a master transaction on the iovec as it stands.
   * There is no busy check; whatever transfer was in progress is
   * overwritten.
   */
  function Request(s: Twi, addr: bv8): (c: Call<bool>)
    ensures c.ret && c.cmd == Some(StartCmd)
    ensures c.twi.addr == addr && c.twi.status == NoInfo
    ensures c.twi.role == MasterTransmit <==> addr & WriteOp != 0
    ensures c.twi.role == MasterReceive <==> addr & WriteOp == 0
    ensures c.twi.ix == 0 && c.twi.seg == 0 && c.twi.count == 0
    ensures c.twi.next == 0 && c.twi.last == |s.vec[0]|
    ensures c.twi.vec == s.vec && c.twi.target == s.target && c.twi.twar == s.twar
  {
    var role := if addr & WriteOp != 0 then MasterTransmit else MasterReceive;
    Call(s.(addr := addr, role := role, status := NoInfo, seg := 0, next := 0,
            last := |s.vec[0]|, ix := 0, count := 0),
         Some(StartCmd), true)
  }

  /** The iovec with the given leading segments followed by the end marker; later entries keep their old contents. */
  function Iovec(prev: Vec, segs: seq<seq<bv8>>): (v: Vec)
    requires |segs| < VecMax
    ensures v[..|segs|] == segs && v[|segs|] == []
    ensures v[|segs| + 1..] == prev[|segs| + 1..]
  {
    segs + [[]] + prev[|segs| + 1..]
  }

  /** write_request(addr, buf, size): send buf to the slave at addr. */
  function WriteRequest(s: Twi, addr: bv8, buf: seq<bv8>): (c: Call<bool>)
    ensures c.twi.vec[0] == buf && c.twi.vec[1] == []
    ensures c.twi.ix == 0 && c.twi.seg == 0 && c.twi.next == 0 && c.twi.last == |buf|
    ensures c.twi.addr == addr | WriteOp && c.twi.count == 0 && c.ret
  {
    Request(s.(vec := Iovec(s.vec, [buf])), addr | WriteOp)
  }

  /** write_request(addr, header, buf, size) with an 8-bit header: the header byte, then buf. */
  function WriteRequest8(s: Twi, addr: bv8, header: bv8, buf: seq<bv8>): (c: Call<bool>)
    ensures c.twi.vec[0] == [header] && c.twi.vec[1] == buf && c.twi.vec[2] == []
    ensures c.twi.addr == addr | WriteOp && c.twi.count == 0 && c.ret
  {
    Request(s.(vec := Iovec(s.vec, [[header], buf])), addr | WriteOp)
  }

  /** The 16-bit header as it is stored for sending: most significant byte first. */
  function HeaderBytes(header: bv16): (h: seq<bv8>)
    ensures |h| == 2
    ensures (((h[0] as bv16) << 8) | (h[1] as bv16)) == header
  {
    [(header >> 8) as bv8, (header & 0xFF) as bv8]
  }

  /** write_request(addr, header, buf, size) with a 16-bit header: its two bytes MSB first, then buf. */
  function WriteRequest16(s: Twi, addr: bv8, header: bv16, buf: seq<bv8>): (c: Call<bool>)
    ensures c.twi.vec[0] == HeaderBytes(header) && c.twi.vec[1] == buf && c.twi.vec[2] == []
    ensures c.twi.addr == addr | WriteOp && c.twi.count == 0 && c.ret
  {
    Request(s.(vec := Iovec(s.vec, [HeaderBytes(header), buf])), addr | WriteOp)
  }

  /** read_request(addr, buf, size): read size bytes from the slave at addr into buf. */
  function ReadRequest(s: Twi, addr: bv8, buf: seq<bv8>): (c: Call<bool>)
    ensures c.twi.vec[0] == buf && c.twi.vec[1] == []
    ensures c.twi.addr == addr | ReadOp && c.twi.count == 0 && c.ret
    ensures c.twi.seg == 0 && c.twi.next == 0 && c.twi.last == |buf|
  {
    Request(s.(vec := Iovec(s.vec, [buf])), addr | ReadOp)
  }

  /**
   * await_completed(): the foreground sleeps while the controller is busy
   * and then returns the count.  Sleeping is not modelled: `None` means
   * "still waiting" in state s.
   */
  function AwaitCompleted(s: Twi): (r: Option<int>)
    ensures r.Some? <==> !Busy(s.role)
    ensures r.Some? ==> r.value == s.count
    ensures s.role.ErrorState? ==> r == Some(s.count)
  {
    if Busy(s.role) then None else Some(s.count)
  }

  /** Device::set_write_buf(buf, size): the buffer a slave device hands to on_request. */
  function SetWriteBuf(s: Twi, buf: seq<bv8>): (t: Twi)
    ensures t.vec[WriteIx] == buf
    ensures forall i | 0 <= i < VecMax && i != WriteIx :: t.vec[i] == s.vec[i]
    ensures t.(vec := s.vec) == s
  {
    s.(vec := s.vec[WriteIx := buf])
  }

  /** Device::set_read_buf(buf, size): the buffer a slave device answers reads from. */
  function SetReadBuf(s: Twi, buf: seq<bv8>): (t: Twi)
    ensures t.vec[ReadIx] == buf
    ensures forall i | 0 <= i < VecMax && i != ReadIx :: t.vec[i] == s.vec[i]
    ensures t.(vec := s.vec) == s
  {
    s.(vec := s.vec[ReadIx := buf])
  }

  /** What on_event hands to the device's on_request: a buffer and a size. */
  datatype Handoff = Handoff(buf: seq<bv8>, size: nat)

  /**
   * Device::on_event(type, value): ignore everything but a write-completed
   * event; otherwise hand the write buffer and the event value to
   * on_request, then restore the slave address register.
   */
  function OnEvent(s: Twi, e: Event): (r: (Twi, Option<Handoff>))
    ensures e.OtherEvent? ==> r == (s, None)
    ensures e.WriteCompleted? ==> r.1 == Some(Handoff(s.vec[WriteIx], e.value))
    ensures e.WriteCompleted? ==> r.0 == s.(twar := s.addr)
  {
    match e
    case OtherEvent(_) => (s, None)
    case WriteCompleted(_, value) => (s.(twar := s.addr), Some(Handoff(s.vec[WriteIx], value)))
  }

  // ---------------------------------------------------------------------
  // The interrupt routine
  // ---------------------------------------------------------------------

  /** Nothing written to the data register. */
  function Cmd(c: Command): Io {
    Io(Some(c), None)
  }

  /** The byte at the cursor, if the cursor is inside its segment. */
  function Peek(s: Twi): (r: Option<bv8>)
    ensures r.Some? <==> s.seg < VecMax && s.next < |s.vec[s.seg]|
    ensures r.Some? ==> r.value == s.vec[s.seg][s.next]
  {
    if s.seg < VecMax && s.next < |s.vec[s.seg]| then Some(s.vec[s.seg][s.next]) else None
  }

  /** `*m_next++ = data`: store at the cursor and advance it; `None` when the cursor is outside its segment. */
  function Store(s: Twi, data: bv8): (r: Option<Twi>)
    ensures r.Some? <==> s.seg < VecMax && s.next < |s.vec[s.seg]|
    ensures r.Some? ==> r.value.vec[s.seg] == s.vec[s.seg][s.next := data]
    ensures r.Some? ==> r.value.next == s.next + 1
    ensures r.Some? ==> r.value == s.(vec := r.value.vec, next := s.next + 1)
    ensures r.Some? ==> forall i | 0 <= i < VecMax && i != s.seg :: r.value.vec[i] == s.vec[i]
  {
    if s.seg < VecMax && s.next < |s.vec[s.seg]| then
      Some(s.(vec := s.vec[s.seg := s.vec[s.seg][s.next := data]], next := s.next + 1))
    else None
  }

  /** STOP, then IDLE: the transfer ended normally. */
  function StopIdle(s: Twi): (o: Outcome)
    ensures o.Next? && o.io == Cmd(StopCmd) && o.event.None?
    ensures o.twi.role == IdleState && AwaitCompleted(o.twi) == Some(s.count)
    ensures o.twi.(role := s.role) == s
  {
    Next(s.(role := IdleState), Cmd(StopCmd), None)
  }

  /** STOP, then ERROR with count -1. */
  function StopError(s: Twi): (o: Outcome)
    ensures o.Next? && o.io == Cmd(StopCmd) && o.event.None?
    ensures o.twi.role == ErrorState && AwaitCompleted(o.twi) == Some(-1)
    ensures o.twi.(role := s.role, count := s.count) == s
  {
    Next(s.(role := ErrorState, count := -1), Cmd(StopCmd), None)
  }

  /**
   * MT_SLA_ACK / MT_DATA_ACK: when the current segment is used up, move to
   * the next one (once); then send the next byte, or issue STOP and go IDLE
   * when there is none.
   */
  function MasterTransmitAck(s: Twi): (o: Outcome)
    // an answer either sends one byte, the one just behind the cursor, and counts it ...
    ensures o.Next? ==> o.event.None? && o.twi.vec == s.vec
    ensures o.Next? ==> (o.io.tx.Some? <==> o.io.cmd == Some(DataCmd))
    ensures o.Next? && o.io.tx.Some? ==>
      o.twi.role == s.role && o.twi.count == s.count + 1
      && o.twi.seg < VecMax && 1 <= o.twi.next <= |o.twi.vec[o.twi.seg]|
      && o.io.tx.value == o.twi.vec[o.twi.seg][o.twi.next - 1]
    // ... or stops the bus and goes idle without counting
    ensures o.Next? && o.io.tx.None? ==>
      o.io.cmd == Some(StopCmd) && o.twi.role == IdleState && o.twi.count == s.count
    // inside a segment the byte under the cursor goes out
    ensures s.next < s.last ==> (o.Next? <==> Peek(s).Some?)
    ensures s.next < s.last && o.Next? ==> o.io.tx == Peek(s) && o.twi.seg == s.seg && o.twi.next == s.next + 1
    // at its end, exactly one segment advance, and the first byte of that segment if it has one
    ensures s.next == s.last ==> (o.Overrun? <==> s.ix + 1 >= VecMax)
    ensures s.next == s.last && s.ix + 1 < VecMax ==>
      o.Next? && o.twi.ix == s.ix + 1 && o.twi.seg == s.ix + 1
      && (o.io.tx.Some? <==> s.vec[s.ix + 1] != [])
      && (o.io.tx.Some? ==> o.io.tx.value == s.vec[s.ix + 1][0])
    ensures s.next > s.last ==> o == StopIdle(s)
  {
    if s.next == s.last && s.ix + 1 >= VecMax then Overrun
    else
      var t := if s.next == s.last
               then s.(ix := s.ix + 1, seg := s.ix + 1, next := 0, last := |s.vec[s.ix + 1]|)
               else s;
      if t.next < t.last then
        match Peek(t)
        case None => Overrun
        case Some(b) => Next(t.(next := t.next + 1, count := t.count + 1), Io(Some(DataCmd), Some(b)), None)
      else StopIdle(t)
  }

  /** MR_SLA_ACK, and the tail of MR_DATA_ACK: acknowledge while more than one byte of room remains. */
  function MasterReceiveAck(s: Twi): (o: Outcome)
    ensures o.Next? && o.twi == s && o.event.None? && o.io.tx.None?
    ensures o.io.cmd == Some(AckCmd) || o.io.cmd == Some(NackCmd)
    ensures o.io.cmd == Some(AckCmd) <==> s.next + 1 < s.last
  {
    Next(s, Cmd(if s.next < s.last - 1 then AckCmd else NackCmd), None)
  }

  /** Point the cursor at the slave read buffer and restart the count. */
  function SelectRead(s: Twi, role: Role): (t: Twi)
    ensures t.seg == ReadIx && t.next == 0 && t.last == |s.vec[ReadIx]| && t.count == 0
    ensures t.role == role
    ensures t.(seg := s.seg, next := s.next, last := s.last, count := s.count, role := s.role) == s
  {
    s.(seg := ReadIx, next := 0, last := |s.vec[ReadIx]|, count := 0, role := role)
  }

  /** ST_DATA_ACK: send the next byte with ACK, or 0xFF with NACK once the buffer is used up. */
  function SlaveTransmitAck(s: Twi): (o: Outcome)
    ensures s.next < s.last ==> (o.Next? <==> Peek(s).Some?)
    ensures s.next < s.last && o.Next? ==>
      o.io == Io(Some(AckCmd), Peek(s)) && o.event.None?
      && o.twi == s.(next := s.next + 1, count := s.count + 1)
    ensures s.last <= s.next ==>
      o.Next? && o.io == Io(Some(NackCmd), Some(0xFF)) && o.event.None? && o.twi == s
  {
    if s.next < s.last then
      match Peek(s)
      case None => Overrun
      case Some(b) => Next(s.(next := s.next + 1, count := s.count + 1), Io(Some(AckCmd), Some(b)), None)
    else Next(s, Io(Some(NackCmd), Some(0xFF)), None)
  }

  /** SR_DATA_ACK: store the byte and acknowledge while room remains, else NACK. */
  function SlaveReceiveData(s: Twi, data: bv8): (o: Outcome)
    ensures s.next < s.last ==> (o.Next? <==> Store(s, data).Some?)
    ensures s.next < s.last && o.Next? ==>
      o.io == Cmd(AckCmd) && o.event.None?
      && o.twi == Store(s, data).value.(count := s.count + 1)
    ensures s.last <= s.next ==>
      o.Next? && o.io == Cmd(NackCmd) && o.event.None? && o.twi == s
  {
    if s.next < s.last then
      match Store(s, data)
      case None => Overrun
      case Some(t) => Next(t.(count := t.count + 1), Cmd(AckCmd), None)
    else Next(s, Cmd(NackCmd), None)
  }

  /**
   * ISR(TWI_vect): one bus event.  `status` is the code read from TWSR and
   * `data` the value read from TWDR (used only where the routine reads it).
   */
  function Step(s0: Twi, status: Status, data: bv8): (o: Outcome)
    ensures o.Next? ==> o.twi.status == status
    ensures o.Next? ==> o.twi.target == s0.target && o.twi.addr == s0.addr
    ensures o.Next? && o.event.Some? ==> status == SrStop
  {
    var s := s0.(status := status);
    match status
    case Start | RepStart => Next(s, Io(Some(DataCmd), Some(s.addr)), None)
    case ArbLost => Next(s.(role := ErrorState, count := -1), Cmd(IdleCmd), None)
    case MtSlaAck | MtDataAck => MasterTransmitAck(s)
    case MtDataNack => StopIdle(s)
    case MtSlaNack => StopError(s)
    case MrDataAck =>
      (match Store(s, data)
       case None => Overrun
       case Some(t) => MasterReceiveAck(t.(count := t.count + 1)))
    case MrSlaAck => MasterReceiveAck(s)
    case MrDataNack =>
      (match Store(s, data)
       case None => Overrun
       case Some(t) => StopIdle(t.(count := t.count + 1)))
    case MrSlaNack => StopError(s)
    case StSlaAck | StArbLostSlaAck => SlaveTransmitAck(SelectRead(s, SlaveTransmit))
    case StDataAck => SlaveTransmitAck(s)
    case StDataNack | StLastData => Next(s.(role := IdleState), Cmd(AckCmd), None)
    case SrSlaAck | SrGcallAck | SrArbLostSlaAck | SrArbLostGcallAck =>
      Next(SelectRead(s, SlaveReceive), Cmd(AckCmd), None)
    case SrDataAck | SrGcallDataAck => SlaveReceiveData(s, data)
    case SrStop =>
      Next(s.(role := IdleState, twar := 0), Cmd(StopCmd), Some(WriteCompleted(s.target, EventValue(s.count))))
    case SrDataNack | SrGcallDataNack => Next(s, Cmd(NackCmd), None)
    case NoInfo => Next(s, Io(None, None), None)
    case BusError => StopError(s)
    case Other => Next(s, Cmd(IdleCmd), None)
  }
}
