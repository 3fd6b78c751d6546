# Cosa core in Dafny

This project models six parts of the Cosa AVR library and proves properties of them:

- **Two-Wire controller** (`twi.dfy`, `twi_runs.dfy`). This is the interrupt-driven I2C driver of `Cosa/TWI.cpp`.
  - The controller's state is an immutable record.
  - Each foreground call (`begin`, `end`, `request`, the three `write_request` overloads, `read_request`, `await_completed`, and the device's `on_event`, `set_write_buf` and `set_read_buf`) is a pure function.
  - The interrupt routine is the transition `TwoWire.Step(state, status, data)`. It records what the routine writes to the control register (`TWCR`) and the data register (`TWDR`), and the event it pushes.
  - `TwoWireRuns.Run` folds `Step` over a sequence of bus events. The lemmas about whole transfers are stated on it: a master write, a master read, a slave transmit and a slave receive.
  - Where the C code would dereference a pointer outside its buffer, or index the iovec past its end, `Step` yields `Overrun` instead of a state.
- **Hamming(8,4) codec tables** (`hamming.dfy`). The symbol table, the 256-entry syndrome decoding table, the 128-entry nibble-packed table and the preamble. They are checked exhaustively.
- **Virtual LCD** (`vlcd.dfy`).
  - The client frames of `Cosa/VLCD.cpp` and the values its calls return.
  - The slave's `on_request` decoder, with the display side effects as a list of actions.
  - The round trip between the two.
- **UML connector** (`connector.dfy`). The connector assignment with its optional change filter, and the listener schedule requests it makes.
- **Command shell configuration** (`shell.dfy`). The inline members of `Shell.hh`.
- **ILI9341 byte framing** (`ili9341.dfy`). The `write` helpers as a sequence of SPI transfers, each tagged with the data/command line. A parser proves that the helpers produce well-formed frames.

`options.dfy` holds the `Option` type all modules share.

The constants of `TWI.hh` are not part of this model. The model assumes the values below:

- `WRITE_OP = 0x00` and `READ_OP = 0x01`. The R/W bit is 0 for a write (section 3.1.10 of the I2C-bus specification, UM10204).
- `WRITE_IX = 0` and `READ_IX = 1`.
- An iovec of four entries.

With `WRITE_OP = 0`, `request` never takes the write branch of its role test (`addr & WRITE_OP` is always 0). So every master request records the master-receive role. `TwoWire.Request` states this as the code has it. The interrupt routine dispatches on the bus status and never reads the role. The role only decides the busy test in `await_completed`, and both master roles count as busy.

The values of `VLCD::Slave::COMMAND` and of the four command codes come from `VLCD.hh`, which is not part of this model. They are the fields of a `Codes` record. The round trip holds when the selector is 0 and the codes are distinct. The lemma `VirtualLcd.CommandNeedsZeroSelector` shows what happens otherwise.

## Model

| member | source | states |
|---|---|---|
| TwoWire.Begin | Cosa/TWI.cpp:42-67 | Records the handler and the address before it can fail. Returns false exactly when a slave address is given without a handler; in that case nothing is written. Otherwise it writes IDLE_CMD and loads TWAR with a nonzero address. Role, buffers and count are untouched. |
| TwoWire.End | Cosa/TWI.cpp:69-76 | Always succeeds. Drops the handler, writes 0 to TWCR and clears TWAR. Nothing else changes. |
| TwoWire.EndIdempotent | Cosa/TWI.cpp:69-76 | Ending twice has the same effect as ending once. |
| TwoWire.Request | Cosa/TWI.cpp:78-90 | Starts a master transfer on the iovec as it stands, with no busy check. The role is master transmit iff the WRITE_OP bit is set in the address byte, else master receive. The cursor points at the start of segment 0, and ix and count are 0. Writes START_CMD and returns true. |
| TwoWire.Iovec | Cosa/TWI.cpp:95-97 | The given segments come first, then the empty end marker. The entries after the marker are kept. |
| TwoWire.WriteRequest | Cosa/TWI.cpp:92-99 | The iovec is [buf] plus the end marker. The address byte carries WRITE_OP. The cursor is at the start of buf and the count is 0. Returns true. |
| TwoWire.WriteRequest8 | Cosa/TWI.cpp:101-110 | The iovec is [[header], buf] plus the end marker, under the write address. |
| TwoWire.HeaderBytes | Cosa/TWI.cpp:116-117 | Two bytes that put the 16-bit header back together, most significant byte first. |
| TwoWire.WriteRequest16 | Cosa/TWI.cpp:112-122 | The iovec is [[header >> 8, header & 0xFF], buf] plus the end marker, under the write address. |
| TwoWire.ReadRequest | Cosa/TWI.cpp:124-131 | The iovec is [buf] plus the end marker, under the address with READ_OP. The cursor spans buf and the count is 0. |
| TwoWire.AwaitCompleted | Cosa/TWI.cpp:133-138 | Returns the count once the state is no longer above IDLE. ERROR and IDLE both complete; any transfer role keeps it waiting. |
| TwoWire.SetWriteBuf | Cosa/TWI.cpp:295-300 | Replaces iovec entry WRITE_IX. Every other entry and field is kept. |
| TwoWire.SetReadBuf | Cosa/TWI.cpp:302-307 | Replaces iovec entry READ_IX. Every other entry and field is kept. |
| TwoWire.OnEvent | Cosa/TWI.cpp:285-293 | Ignores every event but write-completed. For that event it hands the WRITE_IX buffer and the event value to on_request, then restores TWAR to the device address. |
| TwoWire.EventValue | Cosa/TWI.cpp:263 | The count is pushed as a 16-bit event value: unchanged when in range, 0xFFFF for -1. |
| TwoWire.Peek | Cosa/TWI.cpp:168-169 | `*m_next` is defined exactly when the cursor is inside its segment; it is the byte under the cursor. |
| TwoWire.Store | Cosa/TWI.cpp:190 | `*m_next++ = TWDR` is defined exactly when the cursor is inside its segment. It writes that one position, advances the cursor and leaves every other segment alone. |
| TwoWire.SelectRead | Cosa/TWI.cpp:214-217 | Slave selection points the cursor at the start of the READ_IX buffer, with the limit at its end and the count at 0, and records the slave role (ST_STATE here, SR_STATE at line 245). Buffers, handler, address, TWAR, ix and status are kept. |
| TwoWire.Busy | Cosa/TWI.cpp:136 | A transfer is in progress exactly when the state lies above IDLE in the state enumeration, which puts ERROR first and IDLE second. |
| TwoWire.StopIdle | Cosa/TWI.cpp:174-178 | Writes STOP, pushes nothing and goes IDLE; every other field is kept, so await_completed then returns the count unchanged. |
| TwoWire.StopError | Cosa/TWI.cpp:179-184 | Writes STOP, pushes nothing and goes to ERROR with count -1, so await_completed then returns -1; every other field is kept. |
| TwoWire.MasterTransmitAck | Cosa/TWI.cpp:161-178 | Either sends one byte with DATA_CMD, the one just behind the advanced cursor, and counts it, or writes STOP and goes IDLE with the count unchanged. Inside a segment it sends the byte under the cursor. At a segment's end it advances exactly one segment and sends that segment's first byte, or stops when it is empty; with no entry left to advance to the iovec is indexed past its end. |
| TwoWire.MasterReceiveAck | Cosa/TWI.cpp:192-194 | Writes ACK exactly when more than one byte of room remains, NACK otherwise, and changes nothing. |
| TwoWire.SlaveTransmitAck | Cosa/TWI.cpp:218-227 | With bytes left, sends the byte under the cursor with ACK, advances past it and counts it. With the buffer used up, sends 0xFF with NACK and changes nothing. |
| TwoWire.SlaveReceiveData | Cosa/TWI.cpp:247-257 | With room left, stores the byte at the cursor, counts it and ACKs. With no room, NACKs and changes nothing. |
| TwoWire.Step | Cosa/TWI.cpp:140-283 | Every interrupt records the status it read and keeps the handler and address. Only SR_STOP pushes an event. |
| TwoWireRuns.Run | Cosa/TWI.cpp:140-283 | Interrupts applied in turn: each one writes TWCR and TWDR at most once and pushes at most one event. |
| TwoWireRuns.ErrorStatusesFail | Cosa/TWI.cpp:152-207 | Arbitration loss, an address NACK in either master mode, and a bus error (lines 273-278) all end in ERROR with count -1. After them await_completed returns -1. Arbitration loss writes IDLE_CMD; the others write STOP. |
| TwoWireRuns.IgnoredStatusesKeepState | Cosa/TWI.cpp:270-281 | NO_INFO writes nothing and changes nothing but the recorded status. An unrecognised status writes IDLE_CMD and changes nothing else. |
| TwoWireRuns.DataNackStops | Cosa/TWI.cpp:174-178 | MT_DATA_NACK writes STOP and goes IDLE, keeping the count of accepted bytes. |
| TwoWireRuns.TransmitWithinSegment | Cosa/TWI.cpp:168-172 | Inside a segment, an ACK sends the byte under the cursor and counts it. |
| TwoWireRuns.TransmitAcrossSegment | Cosa/TWI.cpp:163-172 | At the end of a segment with a non-empty next one, an ACK advances one segment and sends that segment's first byte. |
| TwoWireRuns.TransmitAtEnd | Cosa/TWI.cpp:163-178 | At the end of a segment whose next one is the end marker, an ACK writes STOP and goes IDLE with the count unchanged. |
| TwoWireRuns.TransmitAckStep | Cosa/TWI.cpp:161-178 | An MT_SLA_ACK or MT_DATA_ACK sends exactly the first pending byte and counts it; with nothing pending it writes STOP and goes IDLE. |
| TwoWireRuns.TransmitAll | Cosa/TWI.cpp:161-178 | Against a slave that ACKs everything, the pending bytes go out in order, one DATA_CMD each, then STOP. The count grows by their number and the controller ends IDLE. |
| TwoWireRuns.StartSendsAddress | Cosa/TWI.cpp:147-151 | START sends the address byte with DATA_CMD. |
| TwoWireRuns.WriteTransfer | Cosa/TWI.cpp:147-178 | From START, a master write sends the address, then every pending byte, then STOP. |
| TwoWireRuns.WriteRequestSends | Cosa/TWI.cpp:92-99 | write_request(addr, buf) puts the address with WRITE_OP on the bus, then buf in order. The count is \|buf\| and await_completed returns it. |
| TwoWireRuns.WriteRequest8Sends | Cosa/TWI.cpp:101-110 | The 8-bit header goes out before buf; the count is 1 + \|buf\|. |
| TwoWireRuns.WriteRequest16Sends | Cosa/TWI.cpp:112-122 | The header's high byte, then its low byte, then buf; the count is 2 + \|buf\|. |
| TwoWireRuns.AddressAckChoosesAck | Cosa/TWI.cpp:192-194 | MR_SLA_ACK writes ACK exactly when more than one byte of room remains, else NACK. Nothing is stored. |
| TwoWireRuns.ReceiveDataStep | Cosa/TWI.cpp:189-201 | A received data byte is stored at the cursor and counted. After a data ACK the next answer is ACK while more than one byte of room is left. A data NACK writes STOP and goes IDLE. |
| TwoWireRuns.ReceiveTail | Cosa/TWI.cpp:189-201 | With room for exactly the incoming bytes, all of them are stored in order at the cursor. The controller ACKs all but the last, NACKs the last, then writes STOP and goes IDLE; the count grows by their number. |
| TwoWireRuns.ReadTransfer | Cosa/TWI.cpp:147-201 | A whole master read from START: the address goes out, then ACKs, a NACK for the last byte, and STOP. The buffer holds the received bytes. |
| TwoWireRuns.ReadRequestReceives | Cosa/TWI.cpp:124-131 | read_request with a buffer of n >= 1 bytes receives exactly n bytes into it and nothing past its end; the iovec entries after the end marker are kept. The master NACKs the last byte, and await_completed returns n. |
| TwoWireRuns.EmptyReadTransfer | Cosa/TWI.cpp:192-197 | With an empty buffer the address ACK is answered with NACK. The data byte the slave then sends would be stored past the end of the buffer. |
| TwoWireRuns.EmptyReadOverruns | Cosa/TWI.cpp:124-131 | read_request with an empty buffer runs into that overrun. |
| TwoWireRuns.DataNackWithoutRoom | Cosa/TWI.cpp:195-197 | MR_DATA_NACK with the cursor outside its segment has no defined store. |
| TwoWireRuns.SlaveTransmitAckSends | Cosa/TWI.cpp:218-227 | A slave data request sends the next byte with ACK and counts it. Once the read buffer is used up it sends 0xFF with NACK and does not count. |
| TwoWireRuns.SlaveTransferEnds | Cosa/TWI.cpp:228-232 | ST_DATA_NACK and ST_LAST_DATA write ACK and go IDLE. |
| TwoWireRuns.SlaveSends | Cosa/TWI.cpp:218-232 | For any number n of ST_DATA_ACK interrupts and then the end of the transfer: the bytes left go out in order with ACK, then 0xFF with NACK for each further one. The count grows by the bytes sent, and the controller ends IDLE with its buffers unchanged. |
| TwoWireRuns.SlaveTransmitTransfer | Cosa/TWI.cpp:212-232 | ST_SLA_ACK, then any number of ST_DATA_ACK interrupts, then the end of the transfer: the read buffer goes out, followed by 0xFF for every data-ACK interrupt past its end. The count is the number of real bytes sent, never more than the read buffer's size. |
| TwoWireRuns.SlaveDataStep | Cosa/TWI.cpp:247-253 | A slave data byte with room left is stored at the cursor, counted and ACKed. |
| TwoWireRuns.SlaveRefusesByte | Cosa/TWI.cpp:254-256 | A slave data byte with no room left is NACKed and neither stored nor counted. |
| TwoWireRuns.SlaveDataNackRefuses | Cosa/TWI.cpp:265-268 | SR_DATA_NACK and SR_GCALL_DATA_NACK write NACK_CMD and change nothing but the recorded status. |
| TwoWireRuns.StopCompletes | Cosa/TWI.cpp:258-264 | SR_STOP writes STOP, goes IDLE, clears TWAR and pushes one write-completed event that carries the count. |
| TwoWireRuns.SlaveReceives | Cosa/TWI.cpp:247-264 | The written bytes are stored at the cursor as far as there is room. For any number of SR_DATA_ACK interrupts, stored bytes are ACKed and counted and the rest NACKed and dropped. The SR_STOP that follows ends the transfer with exactly one event carrying the count. |
| TwoWireRuns.SlaveReceiveSelected | Cosa/TWI.cpp:237-246 | SR_SLA_ACK points the cursor at the READ_IX buffer, resets the count and ACKs. |
| TwoWireRuns.SlaveReceiveTransfer | Cosa/TWI.cpp:237-264 | A whole slave receive: the first bytes, as many as fit, overwrite the start of the READ_IX buffer and nothing else. The count, and the event value, is their number, which is at most the buffer's size. |
| TwoWireRuns.SlaveWriteHandoff | Cosa/TWI.cpp:285-293 | The event of a slave receive, handled by on_event, hands on_request the WRITE_IX entry with the count as its size, and TWAR is restored. For a device whose write and read buffers are distinct memory, that entry holds what it held before the transfer, because the bytes were stored into READ_IX. |
| Hamming.SymbolsDistinct | cores/cosa/Cosa/Wireless/Driver/VWI/Codec/HammingCodec.cpp:24-26 | The sixteen symbols are pairwise distinct. |
| Hamming.MinimumDistance | cores/cosa/Cosa/Wireless/Driver/VWI/Codec/HammingCodec.cpp:24-26 | Any two distinct symbols differ in at least four bit positions. |
| Hamming.DecodeEncode | cores/cosa/Cosa/Wireless/Driver/VWI/Codec/HammingCodec.cpp:31-48 | The syndrome-table entry of symbol n has low nibble n and a zero syndrome nibble. |
| Hamming.SyndromeZeroIffSymbol | cores/cosa/Cosa/Wireless/Driver/VWI/Codec/HammingCodec.cpp:31-48 | The syndrome nibble is zero for exactly the sixteen symbols and nonzero for the other 240 bytes. |
| Hamming.SingleBitCorrection | cores/cosa/Cosa/Wireless/Driver/VWI/Codec/HammingCodec.cpp:31-48 | Flipping any one of the eight bits of symbol n still decodes to n, over all 128 cases. |
| Hamming.SingleBitErrorDetected | cores/cosa/Cosa/Wireless/Driver/VWI/Codec/HammingCodec.cpp:31-48 | A symbol with one bit flipped always has a nonzero syndrome. |
| Hamming.PackedDecodeEncode | cores/cosa/Cosa/Wireless/Driver/VWI/Codec/HammingCodec.cpp:53-70 | Both nibbles of the packed-table entry for symbol n (indexed by symbol >> 1) are n, so either selected nibble decodes it. |
| Hamming.PreambleShape | cores/cosa/Cosa/Wireless/Driver/VWI/Codec/HammingCodec.cpp:74-76 | The preamble is seven 0x55 bytes (the symbol for 5), then 0x5A (no symbol). |
| VirtualLcd.CommandAction | Cosa/VLCD.cpp:39-46 | A command code selects an action iff it is one of the four codes, and that action's code is the one given. |
| VirtualLcd.Text | Cosa/VLCD.cpp:32-36 | Every byte is put on the display, in order. |
| VirtualLcd.OnRequest | Cosa/VLCD.cpp:29-53 | Reads the slave's own buffer. A nonzero first byte puts max(size, 1) bytes on the display, in order. A zero first byte with size 2 performs the selected command, or nothing for an unknown code. With size 3 it moves the cursor. Any other size does nothing. |
| VirtualLcd.CommandFrame | Cosa/VLCD.cpp:59-68 | The frame is the selector byte, then the command code. |
| VirtualLcd.CursorFrame | Cosa/VLCD.cpp:117-127 | The frame is 0, then x, then y. |
| VirtualLcd.Encode | Cosa/VLCD.cpp:87-136 | The frame the client sends for each action: the character, a command frame or a cursor frame. |
| VirtualLcd.RoundTrip | Cosa/VLCD.cpp:29-53 | With selector 0 and distinct codes, the slave decodes every client frame into exactly the action it encodes, except NUL. |
| VirtualLcd.NulIsLost | Cosa/VLCD.cpp:32-33 | putchar of NUL sends a frame the slave ignores. |
| VirtualLcd.CommandNeedsZeroSelector | Cosa/VLCD.cpp:32-36 | With a nonzero selector the slave takes a command frame for two characters of text. |
| VirtualLcd.TextRoundTrip | Cosa/VLCD.cpp:32-36 | A text frame shorter than 256 bytes is displayed byte for byte. |
| VirtualLcd.Command | Cosa/VLCD.cpp:59-68 | Sends the two-byte command frame iff the bus can be begun, else nothing. |
| VirtualLcd.SetCursor | Cosa/VLCD.cpp:117-127 | Sends the three-byte cursor frame iff the bus can be begun, else nothing. |
| VirtualLcd.PutChar | Cosa/VLCD.cpp:129-136 | Returns a non-negative value iff the bus was begun and exactly one byte went through. That value is the character as an unsigned byte; otherwise it returns -1. |
| VirtualLcd.Strlen | Cosa/VLCD.cpp:142 | The index of the first NUL. |
| VirtualLcd.Puts | Cosa/VLCD.cpp:138-146 | Sends the characters before the NUL. Returns 0 iff the bus was begun and the transfer count equals strlen, else -1. |
| VirtualLcd.PutsDisplays | Cosa/VLCD.cpp:138-146 | The slave displays a non-empty string sent by puts character by character. |
| VirtualLcd.PutsP | Cosa/VLCD.cpp:148-160 | Copies the characters before the first NUL, but at most BUF_MAX of them, and sends exactly those. Returns 0 iff the transfer count equals their number, else -1. |
| VirtualLcd.Write | Cosa/VLCD.cpp:162-169 | Returns -1 if the bus cannot be begun, else the raw transfer count. |
| Connector.New | cores/cosa/Cosa/UML/Connector.hh:60-63 | Reading a new connector gives its initial value. |
| Connector.ReadAfterWrite | cores/cosa/Cosa/UML/Connector.hh:94-97 | `operator T()` reads the value last given by the constructor or an assignment. Assigning a connector the value it reads leaves it as it was, and schedules the listeners once exactly when the change filter is off. |
| Connector.Assign | cores/cosa/Cosa/UML/Connector.hh:71-77 | Returns the assigned value on both paths and stores it. It schedules the listeners exactly once unless the change filter is on and the value is already stored; then nothing changes and nothing is scheduled. |
| Connector.AssignFrom | cores/cosa/Cosa/UML/Connector.hh:85-88 | Assigning from a connector is assigning its stored value. |
| Connector.Signal | cores/cosa/Cosa/UML/Connector.hh:108 | A signal is a boolean connector with the change filter on. |
| Connector.SignalSchedulesOnToggle | cores/cosa/Cosa/UML/Connector.hh:108 | A signal schedules its listeners exactly when the assignment toggles it. |
| Connector.AssignAllHoldsLast | cores/cosa/Cosa/UML/Connector.hh:71-77 | After a series of assignments the connector holds the last value. |
| Connector.UnfilteredSchedulesEach | cores/cosa/Cosa/UML/Connector.hh:71-77 | Without the filter, every assignment schedules the listeners once. |
| Connector.FilteredSchedulesOnChange | cores/cosa/Cosa/UML/Connector.hh:71-77 | With the filter, the listeners are scheduled once per change of value. |
| Shell.Rank | cores/cosa/Cosa/Shell.hh:32-36 | GUEST < USER < ADMIN as 0, 1, 2. |
| Shell.ErrorCodesDistinct | cores/cosa/Cosa/Shell.hh:41-47 | The five error codes are negative and pairwise distinct. |
| Shell.PromptOf | cores/cosa/Cosa/Shell.hh:80 | A null prompt becomes the default prompt; any other is kept. |
| Shell.New | cores/cosa/Cosa/Shell.hh:77-85 | The constructor keeps the table and prompt, and starts a first run with echo on at ADMIN. |
| Shell.SetEcho | cores/cosa/Cosa/Shell.hh:91-103 | get_echo after set_echo returns the mode; nothing else changes. |
| Shell.SetPrompt | cores/cosa/Cosa/Shell.hh:109-122 | get_prompt after set_prompt returns the default for null and the given prompt otherwise; nothing else changes. |
| Shell.SetPrivilege | cores/cosa/Cosa/Shell.hh:128-140 | get_privilege after set_privilege returns the level; nothing else changes. |
| Shell.IsPrivileged | cores/cosa/Cosa/Shell.hh:146-149 | Holds iff the current level is at or above the one asked for. ADMIN passes every check; GUEST passes only GUEST. |
| Shell.PrivilegeOrdered | cores/cosa/Cosa/Shell.hh:146-149 | Passing a check implies passing every lower one. A shell set to a level passes exactly the checks up to it. |
| Shell.Reset | cores/cosa/Cosa/Shell.hh:154-157 | Sets the first-run flag and changes nothing else. |
| Shell.SetCommands | cores/cosa/Cosa/Shell.hh:165-171 | Replaces the count, table and prompt (the default for null). Echo, level and the first-run flag are kept. |
| Shell.SetCommandsLikeNew | cores/cosa/Cosa/Shell.hh:165-171 | set_commands on a new shell gives the shell the constructor builds from the new arguments. |
| Ili9341.Bytes16 | cores/cosa/Cosa/Canvas/Driver/ILI9341.hh:261-266 | Two bytes, most significant first: hi * 256 + lo is the data. |
| Ili9341.Write16 | cores/cosa/Cosa/Canvas/Driver/ILI9341.hh:261-266 | Two data transfers with the data/command line released, which recombine to the data. |
| Ili9341.WriteCmd | cores/cosa/Cosa/Canvas/Driver/ILI9341.hh:272-278 | Exactly one transfer: the command with the line asserted. It parses as a command without parameters. |
| Ili9341.WriteCmd8 | cores/cosa/Cosa/Canvas/Driver/ILI9341.hh:285-292 | Parses as the command with the one data byte as its parameter. |
| Ili9341.WriteCmd16 | cores/cosa/Cosa/Canvas/Driver/ILI9341.hh:299-307 | Three transfers that parse as the command with two parameter bytes recombining to the data. |
| Ili9341.WriteCmdXY | cores/cosa/Cosa/Canvas/Driver/ILI9341.hh:315-325 | Five transfers, only the first under the command line. The four parameters recombine to x, then y. |
| Ili9341.Parse | cores/cosa/Cosa/Canvas/Driver/ILI9341.hh:272-325 | A run of transfers is one frame iff only its first byte is a command; the rest are its parameters. |
| Ili9341.ParseSerialize | cores/cosa/Cosa/Canvas/Driver/ILI9341.hh:272-325 | Parsing undoes serialising for every frame. |
| Ili9341.WritesAreFrames | cores/cosa/Cosa/Canvas/Driver/ILI9341.hh:261-325 | Each write helper is the serialised frame of its command with its argument bytes. |

## Left out

- Hardware registers are outputs of `Step`, not memory. This covers TWCR, TWDR and TWSR. It also covers the prescaler and bit rate that `begin` programs (TWI.cpp:61-64) and the SDA/SCL pull-ups it enables; these are not modelled.
- The `loop_until_bit_is_clear` waits after each STOP are not modelled; they are hardware waits.
- `Power::sleep` in `await_completed` and the concurrency between the interrupt and the foreground are not modelled. Completion is a function of the state.
- `Event::push` and the event queue are not modelled. The pushed event is a value `Step` returns.
- The numeric status codes, the state numbering and the iovec helpers `iovec_arg`/`iovec_end` belong to headers that are not part of this model. The status is an enum whose `Other` case stands for the `default:` branch.
- `TWI::write` and `TWI::read`, which VLCD calls, are not part of this model. `twi.begin()`'s result and the count `twi.write` reports are parameters of the VLCD calls.
- The sequence of status codes the hardware reports is an input of `TwoWireRuns.Run`, not derived from the bits written to TWCR. After the routine answers with NACK_CMD (TWEA cleared, defined in `TWI.hh`, which is not part of this model) a controller reports ST_LAST_DATA, ST_DATA_NACK or SR_DATA_NACK next; the slave transfer lemmas state how the routine answers any number of data-ACK statuses, including streams the hardware would not produce after more than one refused byte.
- Buffers are held by value. A device that changes its buffers in the middle of a transfer is not represented.
- TwoWireRuns.SlaveWriteHandoff: iovec entries that share memory are not represented. `set_write_buf` and `set_read_buf` store only pointers (TWI.cpp:295-307), so a device may pass one buffer to both. Such a device's `on_request` sees the bytes just received, which `TwoWireRuns.SlaveReceiveTransfer` gives as the READ_IX contents after the transfer. The lemma states the handoff only for distinct buffers.
- TwoWire.OnEvent: `on_request` itself is a virtual call. The model returns the buffer and size it is called with.
- VirtualLcd.OnRequest: requires a size below 256. The loop counter is 8 bits wide, so for larger sizes it wraps and the loop never ends; that non-termination is not modelled. It also requires at least `size` bytes in the slave's buffer, and at least one.
- `VLCD::begin`, `end` and `display_clear` are not modelled. They only call the modelled command wrappers and `putchar`, and `SLEEP(1)`.
- The four command wrappers (`backlight_off` and so on) are `VirtualLcd.Command` applied to each code.
- The LCD side effects on the slave are a list of actions, not calls into the LCD driver.
- Shell parsing and execution (`get`, `execute`, `run`, `script`, `help`, `prompt`) and the default prompt's text are not modelled; their implementations are not part of this model.
- Connector.AssignFrom: requires an unfiltered source connector, the `Connector<T>` the operator's parameter type names. Copy-assigning a filtered connector uses the compiler-generated copy assignment, which is not modelled.
- The controller's schedule queue for capsules is not modelled. Each assignment returns the listener vectors it hands over.
- ILI9341 drawing, `begin` and orientation, chip select and the SPI clock are not modelled.
- The Hamming encode and decode routines are not part of this model; only the tables are.
- Integer widths: counts are unbounded integers. The only width that matters for the modelled paths is the 16-bit event value, and `TwoWire.EventValue` models it explicitly.
