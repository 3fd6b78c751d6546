/**
 * Whole transfers of the Two-Wire controller: a run feeds the interrupt
 * routine a sequence of bus events and collects what it wrote to the
 * control and data registers and which events it pushed.  The lemmas
 * below follow the master and slave protocols of the I2C-bus
 * specification (UM10204: START and STOP in section 3.1.4, ACK and NACK in
 * section 3.1.6, the address byte in section 3.1.10) through the interrupt
 * routine and state what a complete transfer does.
 */
module TwoWireRuns {
  import opened Options
  import opened TwoWire

  /** One interrupt: the status read from TWSR and the byte read from TWDR. */
  datatype Input = Input(status: Status, data: bv8)

  /** What a run leaves behind: the final state, the control register writes, the bytes sent and the events pushed, in order. */
  datatype Trace = Trace(twi: Twi, cmds: seq<Command>, sent: seq<bv8>, events: seq<Event>)

  /** n copies of x. */
  function Repeat<T>(x: T, n: nat): (r: seq<T>)
    ensures |r| == n
    ensures forall i | 0 <= i < n :: r[i] == x
  {
    if n == 0 then [] else [x] + Repeat(x, n - 1)
  }

  /** Feed the inputs to the interrupt routine one by one; `None` if one of them overruns a buffer. */
  function Run(s: Twi, inputs: seq<Input>): (r: Option<Trace>)
    ensures r.Some? ==> |r.value.cmds| <= |inputs| && |r.value.sent| <= |inputs| && |r.value.events| <= |inputs|
    ensures inputs == [] ==> r == Some(Trace(s, [], [], []))
    decreases |inputs|
  {
    if inputs == [] then Some(Trace(s, [], [], []))
    else
      match Step(s, inputs[0].status, inputs[0].data)
      case Overrun => None
      case Next(t, io, ev) =>
        match Run(t, inputs[1..])
        case None => None
        case Some(tr) => Some(Trace(tr.twi, AsSeq(io.cmd) + tr.cmds, AsSeq(io.tx) + tr.sent, AsSeq(ev) + tr.events))
  }

  /** Run of one more input in front: the step's outputs come first, then the rest of the run. */
  lemma RunCons(s: Twi, i: Input, rest: seq<Input>)
    requires Step(s, i.status, i.data).Next? && Run(Step(s, i.status, i.data).twi, rest).Some?
    ensures var o := Step(s, i.status, i.data); var tr := Run(o.twi, rest).value;
      Run(s, [i] + rest) == Some(Trace(tr.twi, AsSeq(o.io.cmd) + tr.cmds, AsSeq(o.io.tx) + tr.sent, AsSeq(o.event) + tr.events))
  {
    hide Step;
    assert ([i] + rest)[1..] == rest;
  }

  /** A run stops for good at the first event whose step is an overrun. */
  lemma RunOverrun(s: Twi, i: Input, rest: seq<Input>)
    requires Step(s, i.status, i.data).Overrun?
    ensures Run(s, [i] + rest) == None
  {
    hide Step;
  }

  /** A run that stops after the first event stops as a whole. */
  lemma RunConsNone(s: Twi, i: Input, rest: seq<Input>)
    requires Step(s, i.status, i.data).Next? && Run(Step(s, i.status, i.data).twi, rest) == None
    ensures Run(s, [i] + rest) == None
  {
    hide Step;
    assert ([i] + rest)[1..] == rest;
  }

  /** RunCons for a step that writes the control register c and nothing else. */
  lemma RunConsCmd(s: Twi, i: Input, rest: seq<Input>, t: Twi, c: Command)
    requires Step(s, i.status, i.data) == Next(t, Cmd(c), None) && Run(t, rest).Some?
    ensures var tr := Run(t, rest).value;
      Run(s, [i] + rest) == Some(Trace(tr.twi, [c] + tr.cmds, tr.sent, tr.events))
  {
    hide Step, Run;
    RunCons(s, i, rest);
    var tr := Run(t, rest).value;
    assert AsSeq(Some(c)) + tr.cmds == [c] + tr.cmds;
    assert AsSeq<bv8>(None) + tr.sent == tr.sent;
    assert AsSeq<Event>(None) + tr.events == tr.events;
  }

  /** RunCons for a step that writes the control register c and sends the byte b. */
  lemma RunConsSend(s: Twi, i: Input, rest: seq<Input>, t: Twi, c: Command, b: bv8)
    requires Step(s, i.status, i.data) == Next(t, Io(Some(c), Some(b)), None) && Run(t, rest).Some?
    ensures var tr := Run(t, rest).value;
      Run(s, [i] + rest) == Some(Trace(tr.twi, [c] + tr.cmds, [b] + tr.sent, tr.events))
  {
    hide Step, Run;
    RunCons(s, i, rest);
    var tr := Run(t, rest).value;
    assert AsSeq(Some(c)) + tr.cmds == [c] + tr.cmds;
    assert AsSeq(Some(b)) + tr.sent == [b] + tr.sent;
    assert AsSeq<Event>(None) + tr.events == tr.events;
  }

  /** RunCons for a step that writes the control register c and posts the event e. */
  lemma RunConsEvent(s: Twi, i: Input, rest: seq<Input>, t: Twi, c: Command, e: Event)
    requires Step(s, i.status, i.data) == Next(t, Cmd(c), Some(e)) && Run(t, rest).Some?
    ensures var tr := Run(t, rest).value;
      Run(s, [i] + rest) == Some(Trace(tr.twi, [c] + tr.cmds, tr.sent, [e] + tr.events))
  {
    hide Step, Run;
    RunCons(s, i, rest);
    var tr := Run(t, rest).value;
    assert AsSeq(Some(c)) + tr.cmds == [c] + tr.cmds;
    assert AsSeq<bv8>(None) + tr.sent == tr.sent;
    assert AsSeq(Some(e)) + tr.events == [e] + tr.events;
  }

  // ---------------------------------------------------------------------
  // Single events
  // ---------------------------------------------------------------------

  /** Arbitration loss, an address NACK in either master mode and a bus error each end the transfer in ERROR with count -1. */
  lemma ErrorStatusesFail(s: Twi, status: Status, data: bv8)
    requires status == ArbLost || status == MtSlaNack || status == MrSlaNack || status == BusError
    ensures Step(s, status, data).Next?
    ensures var o := Step(s, status, data);
      o.twi.role == ErrorState && o.twi.count == -1 && !Busy(o.twi.role)
      && AwaitCompleted(o.twi) == Some(-1)
      && o.io.cmd == Some(if status == ArbLost then IdleCmd else StopCmd)
      && o.io.tx.None? && o.event.None? && o.twi.vec == s.vec
  {
    hide Run;
  }

  /** NO_INFO changes nothing but the recorded status; an unrecognised status only rewrites IDLE_CMD. */
  lemma IgnoredStatusesKeepState(s: Twi, status: Status, data: bv8)
    requires status == NoInfo || status == Other
    ensures Step(s, status, data).Next?
    ensures var o := Step(s, status, data);
      o.twi == s.(status := status) && o.io.tx.None? && o.event.None?
      && (status == NoInfo ==> o.io.cmd.None?)
      && (status == Other ==> o.io.cmd == Some(IdleCmd))
  {
    hide Run;
  }

  /** MT_DATA_NACK: the slave refused a byte; STOP and go IDLE keeping the count of bytes it accepted. */
  lemma DataNackStops(s: Twi, data: bv8)
    ensures Step(s, MtDataNack, data).Next?
    ensures var o := Step(s, MtDataNack, data);
      o.twi.role == IdleState && o.twi.count == s.count && o.io == Io(Some(StopCmd), None)
  {
    hide Run;
  }

  // ---------------------------------------------------------------------
  // Master transmitter
  // ---------------------------------------------------------------------

  /** The bytes of the segments from i on, up to the first empty one (the end of the iovec). */
  function Rest(vec: seq<seq<bv8>>, i: nat): (r: seq<bv8>)
    ensures i < |vec| && vec[i] != [] ==> r == vec[i] + Rest(vec, i + 1)
    decreases |vec| - i
  {
    if i >= |vec| || vec[i] == [] then [] else vec[i] + Rest(vec, i + 1)
  }

  /** The cursor of a master transmit: on segment ix, inside it, with an end marker somewhere after it. */
  predicate Transmitting(s: Twi) {
    s.seg == s.ix && s.ix < VecMax && s.next <= s.last == |s.vec[s.ix]|
    && exists j | s.ix < j < VecMax :: s.vec[j] == []
  }

  /** The bytes a master transmit has still to send. */
  function Pending(s: Twi): seq<bv8>
    requires Transmitting(s)
  {
    s.vec[s.ix][s.next..] + Rest(s.vec, s.ix + 1)
  }

  predicate IsTransmitAck(i: Input) {
    i.status == MtSlaAck || i.status == MtDataAck
  }

  /** What an MT_SLA_ACK / MT_DATA_ACK interrupt must do with the pending bytes of s. */
  predicate TransmitAckDoes(s: Twi, o: Outcome)
    requires Transmitting(s)
  {
    o.Next? && o.event.None? && o.twi.vec == s.vec &&
    if Pending(s) == [] then
      o.io == Io(Some(StopCmd), None) && o.twi.role == IdleState && o.twi.count == s.count
    else
      o.io == Io(Some(DataCmd), Some(Pending(s)[0])) && o.twi.role == s.role
      && o.twi.count == s.count + 1 && Transmitting(o.twi) && Pending(o.twi) == Pending(s)[1..]
  }

  /** Inside the current segment: send the byte under the cursor. */
  lemma TransmitWithinSegment(s: Twi, i: Input)
    requires Transmitting(s) && IsTransmitAck(i) && s.next < s.last
    ensures TransmitAckDoes(s, Step(s, i.status, i.data))
  {
    hide Run;
    var j :| s.ix < j < VecMax && s.vec[j] == [];
    assert Pending(s)[0] == s.vec[s.ix][s.next];
    var t := s.(status := i.status, next := s.next + 1, count := s.count + 1);
    assert Step(s, i.status, i.data) == Next(t, Io(Some(DataCmd), Some(s.vec[s.ix][s.next])), None);
    assert Transmitting(t) by { assert s.ix < j < VecMax && t.vec[j] == []; }
    assert Pending(t) == Pending(s)[1..] by {
      assert s.vec[s.ix][s.next..] == [s.vec[s.ix][s.next]] + s.vec[s.ix][s.next + 1..];
    }
  }

  /** At the end of the current segment, before the end marker: stop. */
  lemma TransmitAtEnd(s: Twi, i: Input)
    requires Transmitting(s) && IsTransmitAck(i) && s.next == s.last && s.vec[s.ix + 1] == []
    ensures TransmitAckDoes(s, Step(s, i.status, i.data))
  {
    hide Run;
    assert s.vec[s.ix][s.next..] == [];
    assert Pending(s) == [];
  }

  /** At the end of the current segment, before another one: move to it and send its first byte. */
  lemma TransmitAcrossSegment(s: Twi, i: Input)
    requires Transmitting(s) && IsTransmitAck(i) && s.next == s.last && s.vec[s.ix + 1] != []
    ensures TransmitAckDoes(s, Step(s, i.status, i.data))
  {
    hide Step, Run;
    var j :| s.ix < j < VecMax && s.vec[j] == [];
    var k := s.ix + 1;
    assert Pending(s) == s.vec[k] + Rest(s.vec, k + 1) by {
      assert s.vec[s.ix][s.next..] == [];
    }
    var t := s.(status := i.status, ix := k, seg := k, next := 1, last := |s.vec[k]|, count := s.count + 1);
    NextSegmentSends(s, i);
    assert Transmitting(t) by { assert k < j < VecMax && t.vec[j] == []; }
    assert Pending(t) == Pending(s)[1..] by {
      assert s.vec[k] == [s.vec[k][0]] + s.vec[k][1..];
    }
  }

  /** At the end of a segment with a nonempty one after it: move to that segment and send its first byte. */
  lemma NextSegmentSends(s: Twi, i: Input)
    requires IsTransmitAck(i) && s.next == s.last && s.ix + 1 < VecMax && s.vec[s.ix + 1] != []
    ensures var k := s.ix + 1;
      Step(s, i.status, i.data)
      == Next(s.(status := i.status, ix := k, seg := k, next := 1, last := |s.vec[k]|, count := s.count + 1),
              Io(Some(DataCmd), Some(s.vec[k][0])), None)
  {
    hide Run;
  }

  /**
   * MT_SLA_ACK / MT_DATA_ACK: with bytes pending, send exactly the first
   * one with DATA_CMD and count it; with none, STOP and go IDLE with the
   * count unchanged.  At most one segment is skipped per event, which is
   * why an empty segment ends the iovec.
   */
  lemma TransmitAckStep(s: Twi, i: Input)
    requires Transmitting(s) && IsTransmitAck(i)
    ensures TransmitAckDoes(s, Step(s, i.status, i.data))
  {
    hide Step, Run;
    if s.next < s.last {
      TransmitWithinSegment(s, i);
    } else if s.vec[s.ix + 1] == [] {
      TransmitAtEnd(s, i);
    } else {
      TransmitAcrossSegment(s, i);
    }
  }

  /**
   * Against a slave that acknowledges every byte, a master transmit sends
   * exactly its pending bytes, in order, one DATA_CMD each, then STOP; the
   * count grows by their number and the controller ends IDLE.
   */
  lemma {:induction false} TransmitAll(s: Twi, inputs: seq<Input>)
    requires Transmitting(s)
    requires |inputs| == |Pending(s)| + 1 && forall k | 0 <= k < |inputs| :: IsTransmitAck(inputs[k])
    ensures Drained(s, inputs)
    decreases |inputs|
  {
    hide Step, Run;
    TransmitAckStep(s, inputs[0]);
    if Pending(s) == [] {
      TransmitStops(s, inputs);
    } else {
      var o := Step(s, inputs[0].status, inputs[0].data);
      TransmitAll(o.twi, inputs[1..]);
      TransmitSends(s, inputs);
    }
  }

  /** A master transmit driven by the events inputs sends what was pending, with STOP last, and ends idle. */
  predicate Drained(s: Twi, inputs: seq<Input>)
    requires Transmitting(s)
  {
    Run(s, inputs).Some? &&
    var tr := Run(s, inputs).value;
    tr.sent == Pending(s) && tr.cmds == Repeat(DataCmd, |Pending(s)|) + [StopCmd] && tr.events == []
    && tr.twi.role == IdleState && tr.twi.count == s.count + |Pending(s)| && tr.twi.vec == s.vec
  }

  lemma TransmitStops(s: Twi, inputs: seq<Input>)
    requires Transmitting(s) && Pending(s) == [] && |inputs| == 1
    requires TransmitAckDoes(s, Step(s, inputs[0].status, inputs[0].data))
    ensures Drained(s, inputs)
  {
    hide Step, Run;
    var o := Step(s, inputs[0].status, inputs[0].data);
    assert inputs == [inputs[0]] + [];
    RunConsCmd(s, inputs[0], [], o.twi, StopCmd);
  }

  lemma TransmitSends(s: Twi, inputs: seq<Input>)
    requires Transmitting(s) && Pending(s) != [] && |inputs| >= 1
    requires TransmitAckDoes(s, Step(s, inputs[0].status, inputs[0].data))
    requires var o := Step(s, inputs[0].status, inputs[0].data); Transmitting(o.twi) && Drained(o.twi, inputs[1..])
    ensures Drained(s, inputs)
  {
    hide Step, Run;
    var i := inputs[0];
    var o := Step(s, i.status, i.data);
    var p := Pending(s);
    var tr := Run(o.twi, inputs[1..]).value;
    assert Run(s, inputs) == Some(Trace(tr.twi, [DataCmd] + tr.cmds, [p[0]] + tr.sent, tr.events)) by {
      assert inputs == [i] + inputs[1..];
      RunConsSend(s, i, inputs[1..], o.twi, DataCmd, p[0]);
    }
    assert [p[0]] + p[1..] == p;
    assert [DataCmd] + Repeat(DataCmd, |p| - 1) == Repeat(DataCmd, |p|);
    assert [DataCmd] + (Repeat(DataCmd, |p| - 1) + [StopCmd]) == Repeat(DataCmd, |p|) + [StopCmd];
  }



  /** The inputs of a write to an acknowledging slave: START, the address ACK and n data ACKs. */
  function WriteInputs(n: nat): (r: seq<Input>)
    ensures |r| == n + 2 && r[0] == Input(Start, 0)
    ensures forall k | 1 <= k < |r| :: IsTransmitAck(r[k])
  {
    [Input(Start, 0), Input(MtSlaAck, 0)] + Repeat(Input(MtDataAck, 0), n)
  }

  /** A started master transmit: START sends the address byte with DATA_CMD and keeps the cursor. */
  lemma StartSendsAddress(s: Twi, data: bv8)
    ensures Step(s, Start, data) == Next(s.(status := Start), Io(Some(DataCmd), Some(s.addr)), None)
  {
    hide Run;
  }

  /** From a START, a write of the pending bytes: address first, then the bytes, then STOP. */
  lemma WriteTransfer(s: Twi)
    requires Transmitting(s)
    ensures Run(s, WriteInputs(|Pending(s)|)).Some?
    ensures var tr := Run(s, WriteInputs(|Pending(s)|)).value;
      tr.sent == [s.addr] + Pending(s) && tr.cmds == Repeat(DataCmd, |Pending(s)| + 1) + [StopCmd]
      && tr.events == [] && tr.twi.role == IdleState && tr.twi.count == s.count + |Pending(s)|
  {
    hide Step, Run;
    var n := |Pending(s)|;
    var inputs := WriteInputs(n);
    var t := s.(status := Start);
    assert Transmitting(t) && Pending(t) == Pending(s);
    TransmitAll(t, inputs[1..]);
    var tr := Run(t, inputs[1..]).value;
    assert Run(s, inputs) == Some(Trace(tr.twi, [DataCmd] + tr.cmds, [s.addr] + tr.sent, tr.events)) by {
      StartSendsAddress(s, 0);
      assert inputs == [inputs[0]] + inputs[1..];
      RunConsSend(s, inputs[0], inputs[1..], t, DataCmd, s.addr);
    }
    assert [DataCmd] + (Repeat(DataCmd, n) + [StopCmd]) == Repeat(DataCmd, n + 1) + [StopCmd];
  }


  /** A transmit cursor at the start of a single buffer followed by the end marker has exactly that buffer pending. */
  lemma SinglePending(s: Twi, buf: seq<bv8>)
    requires s.vec[0] == buf && s.vec[1] == []
    requires s.ix == 0 && s.seg == 0 && s.next == 0 && s.last == |buf|
    ensures Transmitting(s) && Pending(s) == buf
  {
    hide Step, Run;
    assert s.vec[0][0..] == buf;
    assert Rest(s.vec, 1) == [];
  }

  /** write_request(addr, buf): the slave receives the address byte with the write bit, then buf; the count is |buf|. */
  lemma WriteRequestSends(s: Twi, addr: bv8, buf: seq<bv8>)
    ensures var c := WriteRequest(s, addr, buf);
      Transmitting(c.twi) && Pending(c.twi) == buf
      && Run(c.twi, WriteInputs(|buf|)).Some?
      && var tr := Run(c.twi, WriteInputs(|buf|)).value;
      tr.sent == [addr | WriteOp] + buf && tr.cmds == Repeat(DataCmd, |buf| + 1) + [StopCmd]
      && tr.twi.role == IdleState && tr.twi.count == |buf| && AwaitCompleted(tr.twi) == Some(|buf|)
  {
    hide Step, Run, WriteRequest;
    var c := WriteRequest(s, addr, buf);
    SinglePending(c.twi, buf);
    WriteTransfer(c.twi);
  }

  lemma ConcatAssoc<T>(a: seq<T>, b: seq<T>, c: seq<T>)
    ensures a + (b + c) == a + b + c
  {
  }

  /** The iovec of a write with a header segment h holds h, then buf, up to the end marker. */
  lemma HeaderPending(s: Twi, h: seq<bv8>, buf: seq<bv8>)
    requires s.vec[0] == h && s.vec[1] == buf && s.vec[2] == []
    requires s.ix == 0 && s.seg == 0 && s.next == 0 && s.last == |h|
    ensures Transmitting(s) && Pending(s) == h + buf
  {
    hide Step, Run;
    assert s.vec[0][0..] == h;
    assert Rest(s.vec, 2) == [];
    assert Rest(s.vec, 1) == buf by {
      if buf != [] { assert Rest(s.vec, 1) == buf + Rest(s.vec, 2); }
    }
  }

  /** write_request(addr, header, buf) with an 8-bit header: the header byte goes out before buf. */
  lemma WriteRequest8Sends(s: Twi, addr: bv8, header: bv8, buf: seq<bv8>)
    ensures var c := WriteRequest8(s, addr, header, buf);
      Transmitting(c.twi) && Pending(c.twi) == [header] + buf
      && Run(c.twi, WriteInputs(1 + |buf|)).Some?
      && var tr := Run(c.twi, WriteInputs(1 + |buf|)).value;
      tr.sent == [addr | WriteOp] + [header] + buf && tr.cmds == Repeat(DataCmd, |buf| + 2) + [StopCmd]
      && tr.twi.role == IdleState && tr.twi.count == 1 + |buf|
  {
    hide Step, Run;
    var c := WriteRequest8(s, addr, header, buf);
    HeaderPending(c.twi, [header], buf);
    WriteTransfer(c.twi);
    ConcatAssoc([addr | WriteOp], [header], buf);
  }

  /** write_request(addr, header, buf) with a 16-bit header: its high byte, its low byte, then buf. */
  lemma WriteRequest16Sends(s: Twi, addr: bv8, header: bv16, buf: seq<bv8>)
    ensures var c := WriteRequest16(s, addr, header, buf);
      Transmitting(c.twi) && Pending(c.twi) == HeaderBytes(header) + buf
      && Run(c.twi, WriteInputs(2 + |buf|)).Some?
      && var tr := Run(c.twi, WriteInputs(2 + |buf|)).value;
      tr.sent == [addr | WriteOp] + HeaderBytes(header) + buf
      && tr.cmds == Repeat(DataCmd, |buf| + 3) + [StopCmd]
      && tr.twi.role == IdleState && tr.twi.count == 2 + |buf|
  {
    hide Step, Run;
    var c := WriteRequest16(s, addr, header, buf);
    HeaderPending(c.twi, HeaderBytes(header), buf);
    WriteTransfer(c.twi);
    ConcatAssoc([addr | WriteOp], HeaderBytes(header), buf);
  }

  // ---------------------------------------------------------------------
  // Master receiver
  // ---------------------------------------------------------------------

  function Min(a: nat, b: nat): nat {
    if a <= b then a else b
  }

  /** The cursor points into its segment and the limit is the segment's end. */
  predicate Cursor(s: Twi) {
    s.seg < VecMax && s.next <= s.last == |s.vec[s.seg]|
  }

  /** MR_SLA_ACK: acknowledge the coming byte exactly when more than one byte of room remains; nothing is stored. */
  lemma AddressAckChoosesAck(s: Twi, data: bv8)
    ensures Step(s, MrSlaAck, data) == Next(s.(status := MrSlaAck), Io(Some(if s.next + 1 < s.last then AckCmd else NackCmd), None), None)
  {
    hide Run;
  }

  /** The bus events of a master read that receives the bytes ds: a data ACK for each byte but the last, a data NACK for the last. */
  function ReceiveInputs(ds: seq<bv8>): (r: seq<Input>)
    requires |ds| >= 1
    ensures |r| == |ds| && r[|ds| - 1] == Input(MrDataNack, ds[|ds| - 1])
    ensures forall k | 0 <= k < |ds| - 1 :: r[k] == Input(MrDataAck, ds[k])
    decreases |ds|
  {
    if |ds| == 1 then [Input(MrDataNack, ds[0])] else [Input(MrDataAck, ds[0])] + ReceiveInputs(ds[1..])
  }

  /** The control writes after the address of a read of n bytes: ACK until the last byte is due, NACK for it, STOP after it. */
  function ReceiveTailCmds(n: nat): seq<Command>
    requires n >= 1
  {
    if n == 1 then [StopCmd] else Repeat(AckCmd, n - 2) + [NackCmd, StopCmd]
  }

  /** One data byte received: stored at the cursor and counted; the last one is followed by STOP. */
  lemma ReceiveDataStep(s: Twi, i: Input)
    requires Cursor(s) && s.next < s.last && (i.status == MrDataAck || i.status == MrDataNack)
    ensures var o := Step(s, i.status, i.data);
      o.Next? && o.event.None? && o.io.tx.None?
      && o.twi.vec == s.vec[s.seg := s.vec[s.seg][s.next := i.data]]
      && o.twi.seg == s.seg && o.twi.next == s.next + 1 && o.twi.last == s.last && o.twi.count == s.count + 1
      && (i.status == MrDataNack ==> o.twi.role == IdleState && o.io.cmd == Some(StopCmd))
      && (i.status == MrDataAck ==> o.io.cmd == Some(if s.next + 2 < s.last then AckCmd else NackCmd))
  {
    hide Run;
  }

  /**
   * The rest of a master read with room for exactly the bytes ds: they are
   * stored in order at the cursor, each is counted, the controller ACKs
   * while more than one byte of room remains, NACKs the last byte, then
   * issues STOP and goes IDLE.
   */
  predicate TailReceived(s: Twi, ds: seq<bv8>)
    requires |ds| >= 1
  {
    var r := Run(s, ReceiveInputs(ds));
    r.Some? && r.value.cmds == ReceiveTailCmds(|ds|) && r.value.sent == [] && r.value.events == []
    && s.seg < VecMax && s.next + |ds| <= |s.vec[s.seg]|
    && r.value.twi.vec == s.vec[s.seg := s.vec[s.seg][..s.next] + ds]
    && r.value.twi.count == s.count + |ds| && r.value.twi.role == IdleState
  }

  lemma {:induction false} ReceiveTail(s: Twi, ds: seq<bv8>)
    requires Cursor(s) && |ds| >= 1 && s.next + |ds| == s.last
    ensures TailReceived(s, ds)
    decreases |ds|
  {
    hide Step, Run, TailReceived;
    if |ds| == 1 {
      ReceiveLastByte(s, ds);
    } else {
      var i := Input(MrDataAck, ds[0]);
      ReceiveDataStep(s, i);
      var o := Step(s, i.status, i.data);
      ReceiveTail(o.twi, ds[1..]);
      ReceiveNextByte(s, ds, o.twi);
    }
  }

  /** The last byte: stored, counted, then STOP. */
  lemma ReceiveLastByte(s: Twi, ds: seq<bv8>)
    requires Cursor(s) && |ds| == 1 && s.next + 1 == s.last
    ensures TailReceived(s, ds)
  {
    hide Step, Run;
    var i := Input(MrDataNack, ds[0]);
    assert ReceiveInputs(ds) == [i] + [];
    ReceiveDataStep(s, i);
    RunConsCmd(s, i, [], Step(s, i.status, i.data).twi, StopCmd);
    assert s.vec[s.seg][s.next := ds[0]] == s.vec[s.seg][..s.next] + ds;
  }

  /** A byte with more to come: stored and counted, then the rest of the read as from the next position. */
  lemma ReceiveNextByte(s: Twi, ds: seq<bv8>, t: Twi)
    requires Cursor(s) && |ds| >= 2 && s.next + |ds| == s.last
    requires Step(s, MrDataAck, ds[0]).Next? && Step(s, MrDataAck, ds[0]).twi == t && TailReceived(t, ds[1..])
    ensures TailReceived(s, ds)
  {
    hide Step, Run;
    var i := Input(MrDataAck, ds[0]);
    var rest := ds[1..];
    assert ReceiveInputs(ds) == [i] + ReceiveInputs(rest);
    ReceiveDataStep(s, i);
    RunConsCmd(s, i, ReceiveInputs(rest), t, if s.next + 2 < s.last then AckCmd else NackCmd);
    StoreThenFill(s.vec, s.seg, s.next, ds);
    ReceiveTailCmdsCons(|ds|);
  }

  /** Storing the first byte and then the rest at the following positions stores them all. */
  lemma StoreThenFill(v: Vec, seg: nat, next: nat, ds: seq<bv8>)
    requires seg < VecMax && next < |v[seg]| && |ds| >= 1
    ensures var w := v[seg := v[seg][next := ds[0]]];
      w[seg := w[seg][..next + 1] + ds[1..]] == v[seg := v[seg][..next] + ds]
  {
    var buf := v[seg][next := ds[0]];
    assert buf[..next + 1] == v[seg][..next] + [ds[0]];
    assert ds == [ds[0]] + ds[1..];
    assert buf[..next + 1] + ds[1..] == v[seg][..next] + ds;
  }

  /** The controller's answer to one more data byte, then the commands for the rest. */
  lemma ReceiveTailCmdsCons(n: nat)
    requires n >= 2
    ensures [if n > 2 then AckCmd else NackCmd] + ReceiveTailCmds(n - 1) == ReceiveTailCmds(n)
  {
    if n > 2 {
      assert Repeat(AckCmd, n - 2) == [AckCmd] + Repeat(AckCmd, n - 3);
    }
  }

  /** The bus events of a complete master read of ds: START, the address ACK, then the data. */
  function ReadInputs(ds: seq<bv8>): (r: seq<Input>)
    requires |ds| >= 1
    ensures |r| == |ds| + 2 && r[0] == Input(Start, 0) && r[1] == Input(MrSlaAck, 0)
  {
    [Input(Start, 0)] + ([Input(MrSlaAck, 0)] + ReceiveInputs(ds))
  }

  /** The cursor as read_request leaves it: at the start of segment 0, which holds n bytes. */
  predicate ReadReady(t: Twi, n: nat) {
    t.seg == 0 && t.next == 0 && t.last == n == |t.vec[0]|
  }

  /** From a START, a read of the bytes ds into segment 0 that has room for exactly them. */
  lemma ReadTransfer(t0: Twi, ds: seq<bv8>)
    requires ReadReady(t0, |ds|) && |ds| >= 1
    ensures Run(t0, ReadInputs(ds)).Some?
    ensures var tr := Run(t0, ReadInputs(ds)).value;
      tr.sent == [t0.addr] && tr.cmds == [DataCmd] + Repeat(AckCmd, |ds| - 1) + [NackCmd, StopCmd] && tr.events == []
      && tr.twi.vec == t0.vec[0 := ds] && tr.twi.count == t0.count + |ds| && tr.twi.role == IdleState
  {
    hide Step, Run;
    var t2 := t0.(status := MrSlaAck);
    ReceiveTail(t2, ds);
    ReadOpening(t0, ds);
    ReadCmds(|ds|);
    assert t2.vec[0][..0] + ds == ds;
  }

  /** START and the address ACK of a read: the address goes out, then ACK or NACK for the first byte. */
  lemma ReadOpening(t0: Twi, ds: seq<bv8>)
    requires ReadReady(t0, |ds|) && |ds| >= 1 && Run(t0.(status := MrSlaAck), ReceiveInputs(ds)).Some?
    ensures var tr := Run(t0.(status := MrSlaAck), ReceiveInputs(ds)).value;
      Run(t0, ReadInputs(ds)) == Some(Trace(tr.twi, [DataCmd] + ([if 1 < |ds| then AckCmd else NackCmd] + tr.cmds), [t0.addr] + tr.sent, tr.events))
  {
    hide Step, Run;
    StartSendsAddress(t0, 0);
    var t1 := t0.(status := Start);
    AddressAckChoosesAck(t1, 0);
    var t2 := t1.(status := MrSlaAck);
    RunConsCmd(t1, Input(MrSlaAck, 0), ReceiveInputs(ds), t2, if 1 < |ds| then AckCmd else NackCmd);
    RunConsSend(t0, Input(Start, 0), [Input(MrSlaAck, 0)] + ReceiveInputs(ds), t1, DataCmd, t0.addr);
  }

  /** The control writes of a read of n bytes, as the address step and the tail produce them. */
  lemma ReadCmds(n: nat)
    requires n >= 1
    ensures [DataCmd] + ([if 1 < n then AckCmd else NackCmd] + ReceiveTailCmds(n)) == [DataCmd] + Repeat(AckCmd, n - 1) + [NackCmd, StopCmd]
  {
    if n > 1 {
      assert Repeat(AckCmd, n - 1) == [AckCmd] + Repeat(AckCmd, n - 2);
    }
  }

  /**
   * read_request(addr, buf) with a buffer of at least one byte, against a
   * slave that sends |buf| bytes ds: the address goes out with the read
   * bit, the controller ACKs all bytes but the last and NACKs the last,
   * exactly |buf| bytes land in the buffer, never past its end, and
   * await_completed returns |buf|.
   */
  lemma ReadRequestReceives(s: Twi, addr: bv8, buf: seq<bv8>, ds: seq<bv8>)
    requires |ds| == |buf| >= 1
    ensures var c := ReadRequest(s, addr, buf);
      Run(c.twi, ReadInputs(ds)).Some?
      && var tr := Run(c.twi, ReadInputs(ds)).value;
      tr.sent == [addr | ReadOp] && tr.cmds == [DataCmd] + Repeat(AckCmd, |buf| - 1) + [NackCmd, StopCmd]
      && tr.twi.vec[0] == ds && tr.twi.vec[1] == [] && tr.twi.vec[2..] == s.vec[2..]
      && tr.twi.count == |buf| && tr.twi.role == IdleState
      && AwaitCompleted(tr.twi) == Some(|buf|)
  {
    hide Step, Run;
    ReadTransfer(ReadRequest(s, addr, buf).twi, ds);
  }

  /** A read into an empty segment 0: the address ACK gets NACK, and the byte the slave still sends has nowhere to go. */
  lemma EmptyReadTransfer(t0: Twi, d: bv8)
    requires ReadReady(t0, 0)
    ensures Step(t0.(status := Start), MrSlaAck, 0) == Next(t0.(status := MrSlaAck), Io(Some(NackCmd), None), None)
    ensures Step(t0.(status := MrSlaAck), MrDataNack, d) == Overrun
    ensures Run(t0, [Input(Start, 0), Input(MrSlaAck, 0), Input(MrDataNack, d)]) == None
  {
    hide Step, Run;
    var t1 := t0.(status := Start);
    var t2 := t0.(status := MrSlaAck);
    StartSendsAddress(t0, 0);
    AddressAckChoosesAck(t1, 0);
    DataNackWithoutRoom(t2, d);
    var i0, i1, i2 := Input(Start, 0), Input(MrSlaAck, 0), Input(MrDataNack, d);
    assert [i2] == [i2] + [] && [i1, i2] == [i1] + [i2] && [i0, i1, i2] == [i0] + [i1, i2];
    RunOverrun(t2, Input(MrDataNack, d), []);
    RunConsNone(t1, Input(MrSlaAck, 0), [Input(MrDataNack, d)]);
    RunConsNone(t0, Input(Start, 0), [Input(MrSlaAck, 0), Input(MrDataNack, d)]);
  }

  /** MR_DATA_NACK with the cursor outside its segment: the byte would be stored past it. */
  lemma DataNackWithoutRoom(s: Twi, d: bv8)
    requires !(s.seg < VecMax && s.next < |s.vec[s.seg]|)
    ensures Step(s, MrDataNack, d) == Overrun
  {
    hide Run;
  }

  /**
   * read_request with an empty buffer: the address ACK is answered with
   * NACK, but the byte the slave still sends would be stored one past the
   * end of the buffer.
   */
  lemma EmptyReadOverruns(s: Twi, addr: bv8, d: bv8)
    ensures var c := ReadRequest(s, addr, []);
      Step(c.twi.(status := MrSlaAck), MrDataNack, d) == Overrun
      && Run(c.twi, [Input(Start, 0), Input(MrSlaAck, 0), Input(MrDataNack, d)]) == None
  {
    hide Step, Run;
    EmptyReadTransfer(ReadRequest(s, addr, []).twi, d);
  }

  // ---------------------------------------------------------------------
  // Slave transmitter
  // ---------------------------------------------------------------------

  /** What a slave transmitter puts on the bus for k data requests from the bytes b: b in order, then 0xFF for each request past its end. */
  function Transmitted(b: seq<bv8>, k: nat): (r: seq<bv8>)
    ensures |r| == k
    ensures forall j | 0 <= j < k :: r[j] == if j < |b| then b[j] else 0xFF
  {
    if k <= |b| then b[..k] else b + Repeat(0xFF, k - |b|)
  }

  /** One more request: the first byte that is left, or 0xFF when none is. */
  lemma TransmittedByte(b: seq<bv8>, k: nat)
    requires k >= 1 && b != []
    ensures Transmitted(b, k) == [b[0]] + Transmitted(b[1..], k - 1)
  {
    var r := [b[0]] + Transmitted(b[1..], k - 1);
    assert forall j | 0 <= j < k :: Transmitted(b, k)[j] == r[j];
  }

  lemma TransmittedPad(k: nat)
    requires k >= 1
    ensures Transmitted([], k) == [0xFF] + Transmitted([], k - 1)
  {
    var r := [0xFF] + Transmitted([], k - 1);
    assert forall j | 0 <= j < k :: Transmitted([], k)[j] == r[j];
  }


  /**
   * The control writes of a slave with room for avail bytes, for n data
   * events and then the event that ends the transfer: ACK for each byte
   * that fits, NACK for each one past them, then final.
   */
  function AnswerCmds(avail: nat, n: nat, final: Command): (r: seq<Command>)
    ensures |r| == n + 1 && r[n] == final
    ensures forall j | 0 <= j < n :: r[j] == if j < avail then AckCmd else NackCmd
  {
    if n == 0 then [final]
    else [if avail > 0 then AckCmd else NackCmd] + AnswerCmds(if avail > 0 then avail - 1 else 0, n - 1, final)
  }

  /** One more data event in front while there is room: ACK. */
  lemma AnswerAck(avail: nat, n: nat, final: Command)
    requires n >= 1 && avail >= 1
    ensures AnswerCmds(avail, n, final) == [AckCmd] + AnswerCmds(avail - 1, n - 1, final)
  {
  }

  /** One more data event in front with no room: NACK. */
  lemma AnswerNack(n: nat, final: Command)
    requires n >= 1
    ensures AnswerCmds(0, n, final) == [NackCmd] + AnswerCmds(0, n - 1, final)
  {
  }

  /** What a slave-transmit data request must do: send the byte at the cursor with ACK, or 0xFF with NACK when none is left. */
  predicate SendsNext(s: Twi, o: Outcome)
    requires Cursor(s)
  {
    o.Next? && o.event.None? && o.twi.vec == s.vec && o.twi.seg == s.seg && o.twi.last == s.last
    && o.twi.role == s.role && o.twi.status == s.status &&
    if s.next < s.last then
      o.io == Io(Some(AckCmd), Some(s.vec[s.seg][s.next])) && o.twi == s.(next := s.next + 1, count := s.count + 1)
    else
      o.io == Io(Some(NackCmd), Some(0xFF)) && o.twi == s
  }

  /** ST_DATA_ACK hands over to the slave transmit step. */
  lemma DataAckTransmits(s: Twi, d: bv8)
    ensures Step(s, StDataAck, d) == SlaveTransmitAck(s.(status := StDataAck))
  {
    hide Run;
  }

  lemma SlaveTransmitAckSends(s: Twi)
    requires Cursor(s)
    ensures SendsNext(s, SlaveTransmitAck(s))
  {
    hide Step, Run;
  }

  /** The bus events of n data requests to a slave transmitter, then the master's final NACK (or the last-byte event). */
  function SlaveSendInputs(n: nat, last: Input): (r: seq<Input>)
    ensures |r| == n + 1 && r[n] == last
    ensures forall k | 0 <= k < n :: r[k] == Input(StDataAck, 0)
  {
    if n == 0 then [last] else [Input(StDataAck, 0)] + SlaveSendInputs(n - 1, last)
  }

  /**
   * A slave transmitter answering n data requests and then the end of the
   * transfer: the bytes left at the cursor go out in order, each with ACK
   * and counted, every request past them gets 0xFF with NACK, and the
   * final event ACKs and returns to IDLE.  The buffers are not changed.
   */
  predicate SlaveSent(s: Twi, n: nat, last: Input)
    requires Cursor(s)
  {
    var r := Run(s, SlaveSendInputs(n, last));
    r.Some? && r.value.sent == Transmitted(s.vec[s.seg][s.next..], n) && r.value.cmds == AnswerCmds(s.last - s.next, n, AckCmd)
    && r.value.events == [] && r.value.twi.vec == s.vec && r.value.twi.role == IdleState
    && r.value.twi.count == s.count + Min(n, s.last - s.next)
  }

  lemma SlaveSendsNone(s: Twi, last: Input)
    requires Cursor(s) && (last.status == StDataNack || last.status == StLastData)
    ensures SlaveSent(s, 0, last)
  {
    hide Step, Run;
    assert SlaveSendInputs(0, last) == [last] + [];
    SlaveTransferEnds(s, last);
    RunConsCmd(s, last, [], s.(status := last.status, role := IdleState), AckCmd);
  }

  /** A request while bytes are left: the byte at the cursor goes out first. */
  lemma SlaveSendsByte(s: Twi, n: nat, last: Input)
    requires Cursor(s) && n >= 1 && s.next < s.last
    requires SlaveSent(s.(status := StDataAck, next := s.next + 1, count := s.count + 1), n - 1, last)
    ensures SlaveSent(s, n, last)
  {
    hide Step, Run;
    var i := Input(StDataAck, 0);
    var b := s.vec[s.seg][s.next..];
    var v := s.(status := StDataAck, next := s.next + 1, count := s.count + 1);
    assert Step(s, StDataAck, 0) == Next(v, Io(Some(AckCmd), Some(b[0])), None) by {
      DataAckTransmits(s, 0);
      SlaveTransmitAckSends(s.(status := StDataAck));
    }
    assert SlaveSendInputs(n, last) == [i] + SlaveSendInputs(n - 1, last);
    RunConsSend(s, i, SlaveSendInputs(n - 1, last), v, AckCmd, b[0]);
    AnswerAck(s.last - s.next, n, AckCmd);
    TransmittedByte(b, n);
    DropOne(s.vec[s.seg], s.next);
    assert v.vec[v.seg][v.next..] == b[1..];
    assert v.last - v.next == s.last - s.next - 1;
    assert v.count + Min(n - 1, v.last - v.next) == s.count + Min(n, s.last - s.next);
  }


  /** A request with no byte left: 0xFF goes out and nothing else changes. */
  lemma SlaveSendsPad(s: Twi, n: nat, last: Input)
    requires Cursor(s) && n >= 1 && s.next == s.last
    requires SlaveSent(s.(status := StDataAck), n - 1, last)
    ensures SlaveSent(s, n, last)
  {
    hide Step, Run;
    var i := Input(StDataAck, 0);
    var u := s.(status := StDataAck);
    DataAckTransmits(s, 0);
    SlaveTransmitAckSends(u);
    assert SlaveSendInputs(n, last) == [i] + SlaveSendInputs(n - 1, last);
    RunConsSend(s, i, SlaveSendInputs(n - 1, last), u, NackCmd, 0xFF);
    AnswerNack(n, AckCmd);
    assert s.vec[s.seg][s.next..] == [];
    TransmittedPad(n);
  }

  lemma {:induction false} SlaveSends(s: Twi, n: nat, last: Input)
    requires Cursor(s) && (last.status == StDataNack || last.status == StLastData)
    ensures SlaveSent(s, n, last)
    decreases n
  {
    hide Step, Run;
    if n == 0 {
      SlaveSendsNone(s, last);
    } else if s.next < s.last {
      SlaveSends(s.(status := StDataAck, next := s.next + 1, count := s.count + 1), n - 1, last);
      SlaveSendsByte(s, n, last);
    } else {
      SlaveSends(s.(status := StDataAck), n - 1, last);
      SlaveSendsPad(s, n, last);
    }
  }

  lemma DropOne<T>(x: seq<T>, k: nat)
    requires k < |x|
    ensures x[k..][1..] == x[k + 1..]
  {
  }

  /** ST_DATA_NACK / ST_LAST_DATA: the master ends the transfer; ACK and back to IDLE. */
  lemma SlaveTransferEnds(s: Twi, last: Input)
    requires last.status == StDataNack || last.status == StLastData
    ensures Step(s, last.status, last.data) == Next(s.(status := last.status, role := IdleState), Cmd(AckCmd), None)
  {
    hide Run;
  }

  /** The bus events of a slave transmit: addressed with ST_SLA_ACK, then n more requests and the end of the transfer. */
  function SlaveTransmitInputs(n: nat, last: Input): (r: seq<Input>)
    ensures |r| == n + 2 && r[0] == Input(StSlaAck, 0) && r[n + 1] == last
  {
    [Input(StSlaAck, 0)] + SlaveSendInputs(n, last)
  }

  /**
   * Addressed as slave transmitter and then asked for n more bytes before
   * the master ends the transfer: the read buffer goes out from its start,
   * padded with 0xFF, the count is the number of real bytes sent, at most
   * the buffer's size, and the controller is IDLE.
   */
  predicate SlaveTransmitted(s: Twi, n: nat, last: Input) {
    var r := Run(s, SlaveTransmitInputs(n, last));
    r.Some? && r.value.sent == Transmitted(s.vec[ReadIx], n + 1) && r.value.cmds == AnswerCmds(|s.vec[ReadIx]|, n + 1, AckCmd)
    && r.value.events == [] && r.value.twi.vec == s.vec && r.value.twi.role == IdleState
    && r.value.twi.count == Min(n + 1, |s.vec[ReadIx]|) <= |s.vec[ReadIx]|
  }

  /** The address event of a slave transmit answers with its first byte, then the requests follow. */
  lemma SlaveTransmitOpening(s: Twi, n: nat, last: Input, v: Twi, c: Command, x: bv8)
    requires Step(s, StSlaAck, 0) == Next(v, Io(Some(c), Some(x)), None) && Run(v, SlaveSendInputs(n, last)).Some?
    ensures var tr := Run(v, SlaveSendInputs(n, last)).value;
      Run(s, SlaveTransmitInputs(n, last)) == Some(Trace(tr.twi, [c] + tr.cmds, [x] + tr.sent, tr.events))
  {
    hide Step, Run;
    RunConsSend(s, Input(StSlaAck, 0), SlaveSendInputs(n, last), v, c, x);
  }

  /** ST_SLA_ACK points the cursor at the read buffer and answers as ST_DATA_ACK does. */
  lemma SlaveSelected(s: Twi)
    ensures Step(s, StSlaAck, 0) == SlaveTransmitAck(SelectRead(s.(status := StSlaAck), SlaveTransmit))
  {
    hide Run;
  }

  /** The address event's answer followed by the requests' answers make up the whole slave transmit. */
  lemma SlaveTransmitJoin(s: Twi, n: nat, last: Input, v: Twi, c: Command, x: bv8)
    requires Cursor(v) && Step(s, StSlaAck, 0) == Next(v, Io(Some(c), Some(x)), None) && SlaveSent(v, n, last)
    requires v.vec == s.vec && v.seg == ReadIx
    requires [x] + Transmitted(v.vec[ReadIx][v.next..], n) == Transmitted(s.vec[ReadIx], n + 1)
    requires [c] + AnswerCmds(v.last - v.next, n, AckCmd) == AnswerCmds(|s.vec[ReadIx]|, n + 1, AckCmd)
    requires v.count + Min(n, v.last - v.next) == Min(n + 1, |s.vec[ReadIx]|) <= |s.vec[ReadIx]|
    ensures SlaveTransmitted(s, n, last)
  {
    hide Step, Run;
    SlaveTransmitOpening(s, n, last, v, c, x);
  }

  /** The slave transmit of a non-empty read buffer: its first byte goes out on the address event. */
  lemma SlaveTransmitFromByte(s: Twi, n: nat, last: Input)
    requires (last.status == StDataNack || last.status == StLastData) && |s.vec[ReadIx]| > 0
    ensures SlaveTransmitted(s, n, last)
  {
    hide Step, Run, SlaveSent, SlaveTransmitted, Transmitted, AnswerCmds;
    var b := s.vec[ReadIx];
    var v := SelectRead(s.(status := StSlaAck), SlaveTransmit).(next := 1, count := 1);
    ReadBufferSendsFirst(s);
    SlaveSends(v, n, last);
    AnswerAck(|b|, n + 1, AckCmd);
    TransmittedByte(b, n + 1);
    assert v.vec[ReadIx][v.next..] == b[1..];
    SlaveTransmitJoin(s, n, last, v, AckCmd, b[0]);
  }

  /** ST_SLA_ACK with a non-empty read buffer: its first byte with ACK, counted. */
  lemma ReadBufferSendsFirst(s: Twi)
    requires |s.vec[ReadIx]| > 0
    ensures var t := SelectRead(s.(status := StSlaAck), SlaveTransmit);
      Step(s, StSlaAck, 0) == Next(t.(next := 1, count := 1), Io(Some(AckCmd), Some(s.vec[ReadIx][0])), None)
  {
    hide Step, Run;
    SlaveSelected(s);
    SlaveTransmitAckSends(SelectRead(s.(status := StSlaAck), SlaveTransmit));
  }

  /** The slave transmit of an empty read buffer: 0xFF with NACK from the first request. */
  lemma SlaveTransmitFromNothing(s: Twi, n: nat, last: Input)
    requires (last.status == StDataNack || last.status == StLastData) && |s.vec[ReadIx]| == 0
    ensures SlaveTransmitted(s, n, last)
  {
    hide Step, Run, SlaveSent, SlaveTransmitted, Transmitted, AnswerCmds;
    var t := SelectRead(s.(status := StSlaAck), SlaveTransmit);
    EmptyReadBufferPads(s);
    SlaveSends(t, n, last);
    AnswerNack(n + 1, AckCmd);
    TransmittedPad(n + 1);
    assert s.vec[ReadIx] == [] && t.vec[ReadIx][t.next..] == [];
    SlaveTransmitJoin(s, n, last, t, NackCmd, 0xFF);
  }

  /** ST_SLA_ACK with an empty read buffer: 0xFF with NACK at once. */
  lemma EmptyReadBufferPads(s: Twi)
    requires |s.vec[ReadIx]| == 0
    ensures Step(s, StSlaAck, 0) == Next(SelectRead(s.(status := StSlaAck), SlaveTransmit), Io(Some(NackCmd), Some(0xFF)), None)
  {
    hide Step, Run;
    SlaveSelected(s);
    SlaveTransmitAckSends(SelectRead(s.(status := StSlaAck), SlaveTransmit));
  }

  lemma SlaveTransmitTransfer(s: Twi, n: nat, last: Input)
    requires last.status == StDataNack || last.status == StLastData
    ensures SlaveTransmitted(s, n, last)
  {
    hide Step, Run;
    if |s.vec[ReadIx]| == 0 {
      SlaveTransmitFromNothing(s, n, last);
    } else {
      SlaveTransmitFromByte(s, n, last);
    }
  }

  // ---------------------------------------------------------------------
  // Slave receiver
  // ---------------------------------------------------------------------

  /** The bus events of a master writing ds to this slave after the address, then the STOP. */
  function SlaveWriteInputs(ds: seq<bv8>): (r: seq<Input>)
    ensures |r| == |ds| + 1 && r[|ds|] == Input(SrStop, 0)
    ensures forall k | 0 <= k < |ds| :: r[k] == Input(SrDataAck, ds[k])
  {
    if ds == [] then [Input(SrStop, 0)] else [Input(SrDataAck, ds[0])] + SlaveWriteInputs(ds[1..])
  }

  /** The buffer b after ds is stored from position at on, as far as b has room. */
  function Filled(b: seq<bv8>, at: nat, ds: seq<bv8>): (r: seq<bv8>)
    requires at <= |b|
    ensures |r| == |b|
    ensures forall j | 0 <= j < |b| :: r[j] == if at <= j < at + Min(|ds|, |b| - at) then ds[j - at] else b[j]
  {
    var m := Min(|ds|, |b| - at);
    b[..at] + ds[..m] + b[at + m..]
  }

  /** Storing the first byte and then the rest behind it fills the same buffer. */
  lemma FilledCons(b: seq<bv8>, at: nat, ds: seq<bv8>)
    requires at < |b| && ds != []
    ensures Filled(b[at := ds[0]], at + 1, ds[1..]) == Filled(b, at, ds)
  {
    assert forall j | 0 <= j < |b| :: Filled(b[at := ds[0]], at + 1, ds[1..])[j] == Filled(b, at, ds)[j];
  }

  /** With no room left nothing is stored. */
  lemma FilledFull(b: seq<bv8>, ds: seq<bv8>)
    ensures Filled(b, |b|, ds) == b
  {
  }

  lemma UpdateTwice<T>(v: seq<T>, k: nat, x: T, y: T)
    requires k < |v|
    ensures v[k := x][k := y] == v[k := y]
  {
  }

  /**
   * A slave receiver getting the bytes ds and then the STOP: the bytes are
   * stored at the cursor as far as there is room, each stored one ACKed and
   * counted, the rest NACKed and dropped; on STOP the controller goes IDLE,
   * clears the slave address register and posts a write-completed event
   * carrying the count.
   */
  predicate SlaveReceived(s: Twi, ds: seq<bv8>)
    requires Cursor(s)
  {
    var r := Run(s, SlaveWriteInputs(ds));
    var m := Min(|ds|, s.last - s.next);
    r.Some? && r.value.sent == [] && r.value.cmds == AnswerCmds(s.last - s.next, |ds|, StopCmd)
    && r.value.events == [WriteCompleted(s.target, EventValue(s.count + m))]
    && r.value.twi.vec == s.vec[s.seg := Filled(s.vec[s.seg], s.next, ds)]
    && r.value.twi.role == IdleState && r.value.twi.twar == 0 && r.value.twi.count == s.count + m
    && r.value.twi.addr == s.addr && r.value.twi.target == s.target
  }

  /** SR_STOP: go idle, clear the slave address and push the write-completed event with the count. */
  lemma StopCompletes(s: Twi)
    ensures Step(s, SrStop, 0) == Next(s.(status := SrStop, role := IdleState, twar := 0), Cmd(StopCmd), Some(WriteCompleted(s.target, EventValue(s.count))))
  {
    hide Run;
  }

  lemma SlaveReceivesStop(s: Twi)
    requires Cursor(s)
    ensures SlaveReceived(s, [])
  {
    hide Step, Run;
    var i := Input(SrStop, 0);
    assert SlaveWriteInputs([]) == [i] + [];
    var t := s.(status := SrStop, role := IdleState, twar := 0);
    StopCompletes(s);
    RunConsEvent(s, i, [], t, StopCmd, WriteCompleted(s.target, EventValue(s.count)));
    assert s.vec[s.seg := Filled(s.vec[s.seg], s.next, [])] == s.vec by {
      assert Filled(s.vec[s.seg], s.next, []) == s.vec[s.seg];
    }
  }

  /** The state after a data byte is stored at the cursor. */
  function Stored(s: Twi, d: bv8): Twi
    requires Cursor(s) && s.next < s.last
  {
    s.(status := SrDataAck, vec := s.vec[s.seg := s.vec[s.seg][s.next := d]], next := s.next + 1, count := s.count + 1)
  }

  lemma SlaveDataStep(s: Twi, d: bv8)
    requires Cursor(s) && s.next < s.last
    ensures Step(s, SrDataAck, d) == Next(Stored(s, d), Cmd(AckCmd), None)
  {
    hide Run;
    var t := Store(s.(status := SrDataAck), d).value;
    assert t.(count := t.count + 1) == Stored(s, d);
  }

  lemma SlaveStoresByte(s: Twi, ds: seq<bv8>)
    requires Cursor(s) && ds != [] && s.next < s.last && Run(Stored(s, ds[0]), SlaveWriteInputs(ds[1..])).Some?
    ensures var tr := Run(Stored(s, ds[0]), SlaveWriteInputs(ds[1..])).value;
      Run(s, SlaveWriteInputs(ds)) == Some(Trace(tr.twi, [AckCmd] + tr.cmds, tr.sent, tr.events))
  {
    hide Step, Run;
    var i := Input(SrDataAck, ds[0]);
    assert SlaveWriteInputs(ds) == [i] + SlaveWriteInputs(ds[1..]);
    SlaveDataStep(s, ds[0]);
    RunConsCmd(s, i, SlaveWriteInputs(ds[1..]), Stored(s, ds[0]), AckCmd);
  }

  /** Filling the rest behind the stored byte fills the buffers as filling all of ds does. */
  lemma StoredFills(s: Twi, ds: seq<bv8>)
    requires Cursor(s) && ds != [] && s.next < s.last
    ensures var v := Stored(s, ds[0]);
      v.vec[v.seg := Filled(v.vec[v.seg], v.next, ds[1..])] == s.vec[s.seg := Filled(s.vec[s.seg], s.next, ds)]
  {
    hide Step, Run;
    FilledCons(s.vec[s.seg], s.next, ds);
    UpdateTwice(s.vec, s.seg, s.vec[s.seg][s.next := ds[0]], Filled(s.vec[s.seg], s.next, ds));
  }

  /** A data byte while room remains: stored at the cursor, ACKed and counted. */
  lemma SlaveReceivesByte(s: Twi, ds: seq<bv8>)
    requires Cursor(s) && ds != [] && s.next < s.last
    requires SlaveReceived(Stored(s, ds[0]), ds[1..])
    ensures SlaveReceived(s, ds)
  {
    hide Step, Run;
    SlaveStoresByte(s, ds);
    StoredFills(s, ds);
    assert s.count + 1 + Min(|ds| - 1, s.last - s.next - 1) == s.count + Min(|ds|, s.last - s.next);
    AnswerAck(s.last - s.next, |ds|, StopCmd);
    assert Stored(s, ds[0]).last - Stored(s, ds[0]).next == s.last - s.next - 1;
  }

  /** SR_DATA_NACK and SR_GCALL_DATA_NACK: NACK again and change nothing else. */
  lemma SlaveDataNackRefuses(s: Twi, d: bv8)
    ensures Step(s, SrDataNack, d) == Next(s.(status := SrDataNack), Cmd(NackCmd), None)
    ensures Step(s, SrGcallDataNack, d) == Next(s.(status := SrGcallDataNack), Cmd(NackCmd), None)
  {
    hide Run;
  }

  /** SR_DATA_ACK with no room left: the byte is NACKed, not stored and not counted. */
  lemma SlaveRefusesByte(s: Twi, d: bv8)
    requires s.next >= s.last
    ensures Step(s, SrDataAck, d) == Next(s.(status := SrDataAck), Cmd(NackCmd), None)
  {
    hide Run;
  }

  lemma SlaveDropsByte(s: Twi, ds: seq<bv8>)
    requires ds != [] && s.next >= s.last && Run(s.(status := SrDataAck), SlaveWriteInputs(ds[1..])).Some?
    ensures var tr := Run(s.(status := SrDataAck), SlaveWriteInputs(ds[1..])).value;
      Run(s, SlaveWriteInputs(ds)) == Some(Trace(tr.twi, [NackCmd] + tr.cmds, tr.sent, tr.events))
  {
    hide Step, Run;
    var i := Input(SrDataAck, ds[0]);
    assert SlaveWriteInputs(ds) == [i] + SlaveWriteInputs(ds[1..]);
    SlaveRefusesByte(s, ds[0]);
    RunConsCmd(s, i, SlaveWriteInputs(ds[1..]), s.(status := SrDataAck), NackCmd);
  }

  lemma SlaveReceivesNothing(s: Twi, ds: seq<bv8>)
    requires Cursor(s) && ds != [] && s.next == s.last
    requires SlaveReceived(s.(status := SrDataAck), ds[1..])
    ensures SlaveReceived(s, ds)
  {
    hide Step, Run;
    SlaveDropsByte(s, ds);
    FilledFull(s.vec[s.seg], ds);
    FilledFull(s.vec[s.seg], ds[1..]);
    AnswerNack(|ds|, StopCmd);
  }

  lemma {:induction false} SlaveReceives(s: Twi, ds: seq<bv8>)
    requires Cursor(s)
    ensures SlaveReceived(s, ds)
    decreases |ds|
  {
    hide Step, Run;
    if ds == [] {
      SlaveReceivesStop(s);
    } else if s.next < s.last {
      SlaveReceives(Stored(s, ds[0]), ds[1..]);
      SlaveReceivesByte(s, ds);
    } else {
      SlaveReceives(s.(status := SrDataAck), ds[1..]);
      SlaveReceivesNothing(s, ds);
    }
  }

  /**
   * Addressed as slave receiver (SR_SLA_ACK) and then written ds: the
   * address is ACKed, the first bytes of ds, as many as fit, overwrite the
   * start of the read buffer and nothing else, the write-completed event
   * carries their number, and the controller ends IDLE with the slave
   * address register cleared.
   */
  predicate SlaveWritten(s: Twi, ds: seq<bv8>) {
    var r := Run(s, [Input(SrSlaAck, 0)] + SlaveWriteInputs(ds));
    var m := Min(|ds|, |s.vec[ReadIx]|);
    r.Some? && r.value.sent == [] && r.value.cmds == [AckCmd] + AnswerCmds(|s.vec[ReadIx]|, |ds|, StopCmd)
    && r.value.events == [WriteCompleted(s.target, EventValue(m))]
    && r.value.twi.vec == s.vec[ReadIx := Filled(s.vec[ReadIx], 0, ds)]
    && r.value.twi.vec[ReadIx][..m] == ds[..m]
    && r.value.twi.role == IdleState && r.value.twi.twar == 0 && r.value.twi.count == m
    && r.value.twi.addr == s.addr
  }

  /** SR_SLA_ACK points the cursor at the read buffer, restarts the count and acknowledges. */
  lemma SlaveReceiveSelected(s: Twi)
    ensures Step(s, SrSlaAck, 0) == Next(SelectRead(s.(status := SrSlaAck), SlaveReceive), Cmd(AckCmd), None)
  {
    hide Run;
  }

  lemma SlaveReceiveTransfer(s: Twi, ds: seq<bv8>)
    ensures SlaveWritten(s, ds)
  {
    hide Step, Run;
    var i := Input(SrSlaAck, 0);
    var t := SelectRead(s.(status := SrSlaAck), SlaveReceive);
    SlaveReceiveSelected(s);
    SlaveReceives(t, ds);
    RunConsCmd(s, i, SlaveWriteInputs(ds), t, AckCmd);
    var m := Min(|ds|, |s.vec[ReadIx]|);
    var f := Filled(s.vec[ReadIx], 0, ds);
    assert f[..m] == ds[..m];
  }

  /**
   * The write-completed event of that transfer, handled by on_event:
   * on_request receives the WRITE_IX entry as it was before the transfer
   * (the bytes went to READ_IX), with the count as its size, and the slave
   * address register is restored.  Entries are values here, so this is
   * the case of a device whose two buffers do not share memory.
   */
  lemma SlaveWriteHandoff(s: Twi, ds: seq<bv8>)
    ensures SlaveWritten(s, ds)
    ensures var tr := Run(s, [Input(SrSlaAck, 0)] + SlaveWriteInputs(ds)).value;
      OnEvent(tr.twi, tr.events[0]) == (tr.twi.(twar := s.addr), Some(Handoff(s.vec[WriteIx], EventValue(Min(|ds|, |s.vec[ReadIx]|)))))
  {
    hide Step, Run;
    SlaveReceiveTransfer(s, ds);
  }
}
