/**
 * The Virtual LCD: a client that drives a character display attached to
 * another board over the Two-Wire bus, and the slave that decodes what it
 * receives and drives the real display.
 *
 * A frame whose first byte is not zero is text; `[COMMAND, cmd]` switches
 * the backlight or the display; `[0, x, y]` moves the cursor.  The display
 * side effects become a list of `Action`s, and the outcome of the bus
 * transfer the client performs (`twi.begin()` and the count `twi.write`
 * reports) is a parameter of each client call.
 *
 * The values of `Slave::COMMAND` and of the four command codes are declared
 * in a header that is not part of this model, so they are a `Codes` record.
 */
module VirtualLcd {
  import opened Options

  /** The slave's command selector byte and its four command codes. */
  datatype Codes = Codes(command: bv8, backlightOff: bv8, backlightOn: bv8, displayOff: bv8, displayOn: bv8)

  /** The four command codes are pairwise different, as the slave's switch statement needs. */
  predicate Distinct(k: Codes) {
    k.backlightOff != k.backlightOn && k.backlightOff != k.displayOff && k.backlightOff != k.displayOn
    && k.backlightOn != k.displayOff && k.backlightOn != k.displayOn && k.displayOff != k.displayOn
  }

  /** What the slave does to its display. */
  datatype Action = Put(c: bv8) | BacklightOff | BacklightOn | DisplayOff | DisplayOn | Cursor(x: bv8, y: bv8)

  predicate IsCommand(a: Action) {
    a.BacklightOff? || a.BacklightOn? || a.DisplayOff? || a.DisplayOn?
  }

  /** The command code the client sends for a command action. */
  function Code(k: Codes, a: Action): bv8
    requires IsCommand(a)
  {
    match a
    case BacklightOff => k.backlightOff
    case BacklightOn => k.backlightOn
    case DisplayOff => k.displayOff
    case DisplayOn => k.displayOn
  }

  /** The action the slave's switch selects for a command code; codes it does not name select nothing. */
  function CommandAction(k: Codes, cmd: bv8): (a: Option<Action>)
    ensures a.Some? <==> cmd == k.backlightOff || cmd == k.backlightOn || cmd == k.displayOff || cmd == k.displayOn
    ensures a.Some? ==> IsCommand(a.value) && Code(k, a.value) == cmd
  {
    if cmd == k.backlightOff then Some(BacklightOff)
    else if cmd == k.backlightOn then Some(BacklightOn)
    else if cmd == k.displayOff then Some(DisplayOff)
    else if cmd == k.displayOn then Some(DisplayOn)
    else None
  }

  /** Each byte of s put on the display, in order. */
  function Text(s: seq<bv8>): (r: seq<Action>)
    ensures |r| == |s|
    ensures forall i | 0 <= i < |s| :: r[i] == Put(s[i])
  {
    if s == [] then [] else [Put(s[0])] + Text(s[1..])
  }

  function Max(a: nat, b: nat): nat {
    if a >= b then a else b
  }

  /**
   * Slave::on_request: decode the first `size` bytes of the slave's own
   * receive buffer `mbuf` (the buffer pointer handed to it is not read).
   * The first byte is always read, and so always put on the display when
   * it is not zero, even for a zero size.  The loop counter is 8 bits wide,
   * so the loop ends only for sizes below 256.
   */
  function OnRequest(k: Codes, mbuf: seq<bv8>, size: nat): (acts: seq<Action>)
    requires 1 <= |mbuf| && size <= |mbuf| && size < 256
    ensures mbuf[0] != 0 ==> |acts| == Max(size, 1) && forall i | 0 <= i < |acts| :: acts[i] == Put(mbuf[i])
    ensures mbuf[0] == 0 ==> |acts| <= 1 && forall a | a in acts :: !a.Put?
    ensures mbuf[0] == 0 && size == 2 ==> (acts != [] <==> CommandAction(k, mbuf[1]).Some?)
    ensures mbuf[0] == 0 && size == 2 && acts != [] ==> IsCommand(acts[0]) && Code(k, acts[0]) == mbuf[1]
    ensures mbuf[0] == 0 && size == 3 ==> acts == [Cursor(mbuf[1], mbuf[2])]
    ensures mbuf[0] == 0 && size != 2 && size != 3 ==> acts == []
  {
    if mbuf[0] != 0 then Text(mbuf[..Max(size, 1)])
    else if size == 2 then AsSeq(CommandAction(k, mbuf[1]))
    else if size == 3 then [Cursor(mbuf[1], mbuf[2])]
    else []
  }

  // ---------------------------------------------------------------------
  // Client frames
  // ---------------------------------------------------------------------

  /** VLCD::write(cmd): the selector byte, then the command code. */
  function CommandFrame(k: Codes, cmd: bv8): (f: seq<bv8>)
    ensures |f| == 2 && f[0] == k.command && f[1] == cmd
  {
    [k.command, cmd]
  }

  /** VLCD::set_cursor(x, y): a zero byte, then the column and the row. */
  function CursorFrame(x: bv8, y: bv8): (f: seq<bv8>)
    ensures |f| == 3 && f[0] == 0 && f[1] == x && f[2] == y
  {
    [0, x, y]
  }

  /** The frame the client sends to have the slave perform a: putchar, one of the four command wrappers, or set_cursor. */
  function Encode(k: Codes, a: Action): (f: seq<bv8>)
    ensures a.Put? ==> f == [a.c]
    ensures IsCommand(a) ==> f == CommandFrame(k, Code(k, a))
    ensures a.Cursor? ==> f == CursorFrame(a.x, a.y)
  {
    match a
    case Put(c) => [c]
    case Cursor(x, y) => CursorFrame(x, y)
    case _ => CommandFrame(k, Code(k, a))
  }

  /** With a zero selector and distinct codes, every frame the client sends makes the slave perform exactly the action it encodes, except a NUL character, which is lost. */
  lemma RoundTrip(k: Codes, a: Action)
    requires k.command == 0 && Distinct(k)
    requires a.Put? ==> a.c != 0
    ensures var f := Encode(k, a); OnRequest(k, f, |f|) == [a]
  {
    var f := Encode(k, a);
    if a.Put? {
      assert OnRequest(k, f, 1)[0] == a;
    } else if IsCommand(a) {
      var acts := OnRequest(k, f, 2);
      assert CommandAction(k, Code(k, a)) == Some(a);
      assert acts == [a];
    }
  }

  /** putchar('\0') sends a one-byte frame the slave ignores. */
  lemma NulIsLost(k: Codes)
    ensures OnRequest(k, Encode(k, Put(0)), 1) == []
  {
  }

  /** With a nonzero selector the slave takes a command frame for text and puts both bytes on the display. */
  lemma CommandNeedsZeroSelector(k: Codes, cmd: bv8)
    requires k.command != 0
    ensures OnRequest(k, CommandFrame(k, cmd), 2) == [Put(k.command), Put(cmd)]
  {
    var acts := OnRequest(k, CommandFrame(k, cmd), 2);
    assert |acts| == 2;
  }

  /** A text frame of any length below 256 is put on the display byte for byte, in order. */
  lemma TextRoundTrip(k: Codes, s: seq<bv8>)
    requires 1 <= |s| < 256 && s[0] != 0
    ensures OnRequest(k, s, |s|) == Text(s)
  {
  }

  // ---------------------------------------------------------------------
  // Client calls and their return values
  // ---------------------------------------------------------------------

  /** What a client call does: the frame it hands to `twi.write`, if `twi.begin()` succeeded, and the value it returns. */
  datatype Sent = Sent(frame: Option<seq<bv8>>, ret: int)

  /** The frame of a call that only writes once the bus is begun. */
  function Send(begun: bool, f: seq<bv8>): (o: Option<seq<bv8>>)
    ensures o.Some? <==> begun
    ensures o.Some? ==> o.value == f
  {
    if begun then Some(f) else None
  }

  /** VLCD::write(cmd) and VLCD::set_cursor(x, y): no return value; nothing is sent when the bus cannot be begun. */
  function Command(k: Codes, cmd: bv8, begun: bool): (o: Option<seq<bv8>>)
    ensures o.Some? <==> begun
    ensures o.Some? ==> |o.value| == 2 && o.value == CommandFrame(k, cmd)
  {
    Send(begun, CommandFrame(k, cmd))
  }

  function SetCursor(x: bv8, y: bv8, begun: bool): (o: Option<seq<bv8>>)
    ensures o.Some? <==> begun
    ensures o.Some? ==> |o.value| == 3 && o.value == CursorFrame(x, y)
  {
    Send(begun, CursorFrame(x, y))
  }

  /** VLCD::putchar(c): the character as an unsigned value when the one-byte transfer went through, else -1. */
  function PutChar(c: bv8, begun: bool, n: int): (r: Sent)
    ensures r.frame.Some? <==> begun
    ensures r.frame.Some? ==> r.frame.value == [c]
    ensures r.ret >= 0 <==> begun && n == 1
    ensures r.ret >= 0 ==> r.ret < 256 && r.ret as bv8 == c
    ensures r.ret < 0 ==> r.ret == -1
  {
    Sent(Send(begun, [c]), if begun && n == 1 then c as int else -1)
  }

  /** strlen: the index of the first NUL. */
  function Strlen(s: seq<bv8>): (n: nat)
    requires 0 in s
    ensures n < |s| && s[n] == 0
    ensures forall i | 0 <= i < n :: s[i] != 0
  {
    if s[0] == 0 then 0 else 1 + Strlen(s[1..])
  }

  /** VLCD::puts(s): sends the characters before the NUL; 0 when all of them went through, else -1. */
  function Puts(s: seq<bv8>, begun: bool, n: int): (r: Sent)
    requires 0 in s
    ensures r.frame.Some? <==> begun
    ensures r.frame.Some? ==> |r.frame.value| == Strlen(s) && 0 !in r.frame.value && r.frame.value + [0] == s[..Strlen(s) + 1]
    ensures r.ret == 0 <==> begun && n == Strlen(s)
    ensures r.ret != 0 ==> r.ret == -1
  {
    var len := Strlen(s);
    Sent(Send(begun, s[..len]), if begun && n == len then 0 else -1)
  }

  /** A nonempty string sent by puts is put on the slave's display character by character. */
  lemma PutsDisplays(k: Codes, s: seq<bv8>, n: int)
    requires 0 in s && 1 <= Strlen(s) < 256
    ensures var f := Puts(s, true, n).frame.value; OnRequest(k, f, |f|) == Text(s[..Strlen(s)])
  {
  }

  /**
   * VLCD::puts_P(s): copies the characters of the program-memory string s
   * up to its NUL, but at most bufMax of them, into a local buffer, then
   * sends that buffer.  The loop reads the next character before it tests
   * for a full buffer, so s must hold a NUL or more than bufMax bytes.
   */
  method PutsP(s: seq<bv8>, bufMax: nat, begun: bool, n: int) returns (buf: seq<bv8>, r: Sent)
    requires 0 in s || bufMax < |s|
    ensures |buf| <= bufMax && |buf| < |s| && buf == s[..|buf|] && 0 !in buf
    ensures |buf| == bufMax || s[|buf|] == 0
    ensures r.frame == Send(begun, buf)
    ensures r.ret == 0 <==> begun && n == |buf|
    ensures r.ret != 0 ==> r.ret == -1
  {
    buf := [];
    while s[|buf|] != 0 && |buf| != bufMax
      invariant |buf| <= bufMax && |buf| < |s|
      invariant buf == s[..|buf|] && 0 !in buf
      decreases bufMax - |buf|
    {
      buf := buf + [s[|buf|]];
    }
    r := Sent(Send(begun, buf), if begun && n == |buf| then 0 else -1);
  }

  /** VLCD::write(buf, size): -1 when the bus cannot be begun, else the count the transfer reports, unchanged. */
  function Write(buf: seq<bv8>, begun: bool, n: int): (r: Sent)
    ensures r.frame.Some? <==> begun
    ensures r.frame.Some? ==> r.frame.value == buf
    ensures !begun ==> r.ret == -1
    ensures begun ==> r.ret == n
  {
    Sent(Send(begun, buf), if begun then n else -1)
  }
}
