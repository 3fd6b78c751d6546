/**
 * The byte framing of the ILI9341 display driver: the inline `write`
 * helpers that put a command and its parameters on the SPI bus.
 *
 * The data/command select line is asserted while the command byte is
 * transferred and released for the parameter bytes (section 8 of the
 * ILI9341 datasheet V1.13), so every transferred byte is paired with the
 * state of that line.  Chip select and the SPI clock are not modelled.
 */
module Ili9341 {
  import opened Options

  /** One SPI byte transfer, with the data/command line asserted (`command`) or not. */
  datatype Transfer = Transfer(command: bool, b: bv8)

  /** A command byte with its parameter bytes, as the display receives it. */
  datatype Frame = Frame(cmd: bv8, params: seq<bv8>)

  /** A 16-bit value as the two bytes it is sent as, most significant first. */
  function Bytes16(data: bv16): (r: seq<bv8>)
    ensures |r| == 2
    ensures Word(r[0], r[1]) == data
    ensures (r[0] as int) * 256 + (r[1] as int) == data as int
  {
    ByteValues(data);
    [(data >> 8) as bv8, (data & 0xFF) as bv8]
  }

  /** The high byte weighs 256 and the low byte 1. */
  lemma ByteValues(data: bv16)
    ensures ((data >> 8) as bv8) as int * 256 + ((data & 0xFF) as bv8) as int == data as int
  {
    assert data as int == ((data >> 8) as int) * 256 + ((data & 0xFF) as int);
    ByteCast(data >> 8);
    ByteCast(data & 0xFF);
  }

  lemma ByteCast(d: bv16)
    requires d < 256
    ensures (d as bv8) as int == d as int
  {
  }

  /** The 16-bit value a high and a low byte stand for. */
  function Word(hi: bv8, lo: bv8): bv16 {
    ((hi as bv16) << 8) | (lo as bv16)
  }

  /** Bytes sent with the data/command line released. */
  function Data(bs: seq<bv8>): (r: seq<Transfer>)
    ensures |r| == |bs|
    ensures forall i | 0 <= i < |bs| :: r[i] == Transfer(false, bs[i])
  {
    if bs == [] then [] else [Transfer(false, bs[0])] + Data(bs[1..])
  }

  /** write(uint16_t data): two data bytes, most significant first. */
  function Write16(data: bv16): (r: seq<Transfer>)
    ensures |r| == 2 && !r[0].command && !r[1].command
    ensures Word(r[0].b, r[1].b) == data
  {
    Data(Bytes16(data))
  }

  /** write(Command cmd): the command byte alone, with the data/command line asserted. */
  function WriteCmd(cmd: bv8): (r: seq<Transfer>)
    ensures |r| == 1 && Parse(r) == Some(Frame(cmd, []))
  {
    [Transfer(true, cmd)]
  }

  /** write(Command cmd, uint8_t data). */
  function WriteCmd8(cmd: bv8, data: bv8): (r: seq<Transfer>)
    ensures Parse(r) == Some(Frame(cmd, [data]))
  {
    assert Bytes([Transfer(false, data)]) == [data];
    WriteCmd(cmd) + Data([data])
  }

  /** write(Command cmd, uint16_t data). */
  function WriteCmd16(cmd: bv8, data: bv16): (r: seq<Transfer>)
    ensures |r| == 3
    ensures Parse(r).Some? && Parse(r).value.cmd == cmd
    ensures var p := Parse(r).value.params; |p| == 2 && Word(p[0], p[1]) == data
  {
    WriteCmd(cmd) + Write16(data)
  }

  /** write(Command cmd, uint16_t x, uint16_t y): the command, then x and y, each most significant byte first. */
  function WriteCmdXY(cmd: bv8, x: bv16, y: bv16): (r: seq<Transfer>)
    ensures |r| == 5
    ensures r[0].command && forall i | 1 <= i < 5 :: !r[i].command
    ensures Parse(r).Some? && Parse(r).value.cmd == cmd
    ensures var p := Parse(r).value.params; |p| == 4 && Word(p[0], p[1]) == x && Word(p[2], p[3]) == y
  {
    WriteCmd(cmd) + Write16(x) + Write16(y)
  }

  /** The bytes of a run of transfers. */
  function Bytes(ts: seq<Transfer>): (r: seq<bv8>)
    ensures |r| == |ts|
    ensures forall i | 0 <= i < |ts| :: r[i] == ts[i].b
  {
    if ts == [] then [] else [ts[0].b] + Bytes(ts[1..])
  }

  /** How the display reads a run of transfers: one command byte, then only parameter bytes; anything else is not a single frame. */
  function Parse(ts: seq<Transfer>): (f: Option<Frame>)
    ensures f.Some? <==> |ts| >= 1 && ts[0].command && forall i | 1 <= i < |ts| :: !ts[i].command
    ensures f.Some? ==> f.value.cmd == ts[0].b && |f.value.params| == |ts| - 1
    ensures f.Some? ==> forall i | 1 <= i < |ts| :: f.value.params[i - 1] == ts[i].b
  {
    if |ts| >= 1 && ts[0].command && forall i | 1 <= i < |ts| :: !ts[i].command then
      Some(Frame(ts[0].b, Bytes(ts[1..])))
    else None
  }

  /** The transfers a frame is sent as. */
  function Serialize(f: Frame): (ts: seq<Transfer>)
    ensures |ts| == 1 + |f.params|
  {
    [Transfer(true, f.cmd)] + Data(f.params)
  }

  /** Parsing undoes serialising, for every frame. */
  lemma ParseSerialize(f: Frame)
    ensures Parse(Serialize(f)) == Some(f)
  {
    var ts := Serialize(f);
    assert ts[1..] == Data(f.params);
    assert Bytes(ts[1..]) == f.params;
  }

  /** Each write helper is the serialised form of its command with the bytes of its arguments. */
  lemma WritesAreFrames(cmd: bv8, d8: bv8, d16: bv16, x: bv16, y: bv16)
    ensures WriteCmd(cmd) == Serialize(Frame(cmd, []))
    ensures WriteCmd8(cmd, d8) == Serialize(Frame(cmd, [d8]))
    ensures WriteCmd16(cmd, d16) == Serialize(Frame(cmd, Bytes16(d16)))
    ensures WriteCmdXY(cmd, x, y) == Serialize(Frame(cmd, Bytes16(x) + Bytes16(y)))
  {
    assert WriteCmdXY(cmd, x, y) == [Transfer(true, cmd)] + Data(Bytes16(x) + Bytes16(y));
  }
}
