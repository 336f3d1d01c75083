# xum1541 IEC engine — a Dafny model

This project models the adapter-side IEC bus engine of the xum1541 firmware
(`xum1541/iec.c`): the engine that sits between the host's USB requests and
the Commodore serial bus. It has three layers.

- **Lines** (`lines.dfy`): the logical line selectors IEC_DATA, IEC_CLOCK,
  IEC_ATN and IEC_RESET, the 16-entry logical-to-physical table `iec2hw`,
  and the inverted line poll `xu1541_poll`. The physical port bits come
  from a board header, so they are a parameter (`Pins`). The model assumes
  only that they are four distinct single bits.
- **Bits** (`bitlevel.dfy`): the DATA pattern `send_byte` drives for a byte,
  and the shift-in loop of `cbm_raw_read` that rebuilds a byte from eight
  clocked DATA samples.
- **Byte stream and dispatch** (`stream.dfy`, `engine.dfy`): `cbm_raw_write`
  and `cbm_raw_read` over a bus oracle, in which every bounded busy wait of
  the firmware is one boolean. The outcome of a whole transfer is
  characterised by pure functions (`WriteCount`, `Transmits`,
  `ReadOutcome`).
  - The firmware globals `io_buffer`, `io_buffer_len`, `io_request`,
    `io_result` and `eoi` are the fields of the class `IecEngine`.
  - The methods of `IecEngine` are the dispatch routine `xu1541_handle` and
    the host-facing entry points, proved against those functions.
- `scenarios.dfy` states three host-level exchanges through the state machine:
  - a buffered write;
  - an async command under ATN;
  - a read split by EOI.

Behaviour of the code a reader might not expect, which the model keeps:

- A failed write returns 0, never the number of bytes sent before the
  failure (`xum1541/iec.c:233`, `282`, `286`).
- A CLK-release timeout or a failed bit handshake makes `cbm_raw_read`
  return 0, not the bytes collected so far (`xum1541/iec.c:321-324`,
  `391-394`). The bytes already stored stay in the buffer, and the model
  says so (`buf[..stored]`).
- A received bit is 1 when DATA is released (`xum1541/iec.c:367-368`), the
  same convention `send_byte` uses when it pulls DATA for a 0 bit.
- Nothing returns the state machine to IDLE after a write or an async
  command: `xu1541_get_result` only reports the state (`xum1541/iec.c:486-493`).
- The "EOI already latched" exit of `cbm_raw_read` is taken only after the
  wait for CLK release, so a timeout there still takes the plain 0 exit
  (`xum1541/iec.c:320-338`).

Other behaviour the model makes explicit:

- A read of length 0 is not rejected. The 8-bit `count` never equals 0
  after an increment until it wraps, so up to 256 bytes are stored and the
  count wraps to 0 (`Stream.ReadLimit`, `Stream.Wrap`,
  `Stream.ZeroLengthReadWraps`).
- An async request of length 0 sends nothing, and `cbm_raw_write` returns 0
  for it, so `io_result` becomes 1, the failure value.

## Model

| member | source | states |
|---|---|---|
| Lines.Iec2Hw | xum1541/iec.c:56-60 | the lookup yields the union of the port bits of exactly the logical lines the mask names (the reference LinesOf) |
| Lines.TableIsLinesOf | xum1541/iec.c:37-54 | every one of the 16 table entries is the union of the port bits of the logical lines its index names |
| Lines.Iec2HwUnion | xum1541/iec.c:37-60 | for masks below 16, iec2hw(a\|b) is iec2hw(a)\|iec2hw(b) |
| Lines.Iec2HwSelects | xum1541/iec.c:20-60 | each logical bit sets exactly its own port bit, and no port bit outside DATA/CLK/ATN/RESET is ever set |
| Lines.Iec2HwInjective | xum1541/iec.c:37-60 | different logical masks give different physical masks |
| Lines.Poll | xum1541/iec.c:525-539 | the logical DATA/CLOCK/ATN bit is set exactly when that port bit reads low; RESET and the upper bits are never reported |
| Lines.PollMatchesIec2Hw | xum1541/iec.c:514-517 | for DATA/CLOCK/ATN masks, the poll reports all lines of the mask pulled exactly when the port bits iec2hw selects all read low |
| Lines.PollReleasedMatchesIec2Hw | xum1541/iec.c:514-517 | for DATA/CLOCK/ATN masks, the poll reports none of the lines of the mask pulled exactly when the port bits iec2hw selects all read high |
| BitLevel.SendByte | xum1541/iec.c:184-211 | the eight DATA levels go out LSB first, DATA asserted exactly for a 0 bit; the result is the listener's acknowledgement |
| BitLevel.AssemblePartial | xum1541/iec.c:362-373 | after n samples the shift register holds them in its top n bits, first sample lowest, and zeros below |
| BitLevel.AssembleBits | xum1541/iec.c:362-373 | after eight samples bit i of the byte is sample i |
| BitLevel.BitRoundTrip | xum1541/iec.c:189-202 | sampling the DATA levels send_byte drives, released read as 1, rebuilds the byte sent |
| BitLevel.ReceiveByte | xum1541/iec.c:358-373 | the byte loop succeeds exactly when every CLK wait succeeds, and then yields the byte whose bit i is the i-th DATA sample |
| Stream.Wrap | xum1541/iec.c:383 | storing a count into a uint8_t gives a value congruent to it modulo 256: counts below 256 are kept and 256 becomes 0 |
| Stream.FirstFailure | xum1541/iec.c:249-290 | the byte the write loop stops at: every earlier byte was held and acknowledged, and that one was not |
| Stream.WriteFailureCauses | xum1541/iec.c:243-287 | for len >= 1, the write returns 0 exactly when no device pulls DATA, or some byte is not held, or some byte is not acknowledged; otherwise it returns len |
| Stream.NoSendAfterFailure | xum1541/iec.c:249-290 | nothing is sent past the first failing byte, and that byte is sent only if DATA was held for it |
| Stream.WriteOkSendsAll | xum1541/iec.c:249-290 | a write on which every handshake succeeds sends all len bytes and returns len |
| Stream.FirstEnd | xum1541/iec.c:315-389 | the read iteration the loop stops at: no earlier one timed out, signalled EOI or failed a handshake |
| Stream.ReadLimit | xum1541/iec.c:389 | the loop stores at most len bytes when len is not 0, and 256 when len is 0 |
| Stream.ReadOutcome | xum1541/iec.c:307-398 | a read stores at most its limit, and returns either 0 or the number of bytes stored modulo 256; which of the two is stated case by case by ReadSuccessCount, ZeroLengthReadWraps, ReadEoiCount, ReadFailureYieldsZero and LatchedEoiReadsNothing |
| Stream.ReadSuccessCount | xum1541/iec.c:378-389 | a read of 1..255 bytes on which no iteration times out, signals EOI or fails a handshake returns len and stores len bytes |
| Stream.ZeroLengthReadWraps | xum1541/iec.c:383-389 | a read of length 0 that meets no end stores 256 bytes and returns 0, the wrapped count |
| Stream.ReadEoiCount | xum1541/iec.c:346-389 | a read whose first ending iteration is an EOI-flagged byte that passes its handshakes stores that byte, latches EOI and returns the number of bytes stored modulo 256 |
| Stream.ReadCountBounded | xum1541/iec.c:381-389 | a read of 1..255 bytes neither returns nor stores more than len |
| Stream.ReadCountMeansHandshakes | xum1541/iec.c:391-394 | a non-zero count means every stored byte came through without a timeout or a failed handshake |
| Stream.ReadFailureYieldsZero | xum1541/iec.c:320-394 | a CLK timeout or a failed bit handshake before EOI and the limit makes the read return 0, with the earlier bytes stored; EOI ends latched exactly when that byte was flagged with EOI and its CLK wait did not time out |
| Stream.ReadStopsAtEoi | xum1541/iec.c:346-389 | when a read latches EOI and returns bytes, the last stored byte is the one the talker flagged, and no earlier byte was flagged |
| Stream.LatchedEoiReadsNothing | xum1541/iec.c:332-337 | a read that starts with EOI latched returns 0, stores nothing, keeps EOI set, and takes the exit that empties the staged read, unless the first CLK wait times out |
| Stream.TalkerByte | xum1541/iec.c:315-389 | a talker cycle with no timeout and every handshake in time, whose DATA samples are the given levels and whose CLK is pulled again exactly when no EOI is flagged |
| Stream.TalkerCycle | xum1541/iec.c:263-272 | a byte sent with the EOI hold-off is seen by the reader as a talker that does not pull CLK again in time; every handshake succeeds and the DATA samples are the released levels the sender drove |
| Stream.WriteThenRead | xum1541/iec.c:263-373 | the bytes of a complete write without ATN are read back exactly, and the EOI hold-off before the last byte ends the read there with count equal to the bytes written |
| Stream.WrittenIsRead | xum1541/iec.c:229-398 | the send_byte calls of a successful cbm_raw_write without ATN cover every byte, and a reader of them receives exactly the data, stopping with EOI after the last byte |
| Engine.Min | xum1541/iec.c:456-457 | the clamp of the requested length to the staged length is the smaller of the two |
| Engine.IecEngine.constructor | xum1541/iec.c:26-34 | a fresh engine is idle, with an empty buffer, result 0 and EOI clear |
| Engine.IecEngine.Init | xum1541/iec.c:62-74 | cbm_init empties the buffer, goes idle and clears the result, and leaves EOI as it was |
| Engine.IecEngine.RawWrite | xum1541/iec.c:229-304 | EOI is cleared; the result is WriteCount (0 or len); the send_byte calls are exactly Transmits (the bytes in order, stopping at the first failure, hold-off only before the last byte without ATN); how the bus is left |
| Engine.IecEngine.RawRead | xum1541/iec.c:306-398 | the count, the new EOI flag and the flush of the staged read are those of ReadOutcome; the buffer holds the received bytes in buf[..stored] and is untouched beyond |
| Engine.IecEngine.Handle | xum1541/iec.c:400-433 | IDLE, RESULT and READ_DONE change nothing; ASYNC sends io_buffer[2..] with atn/talk from io_buffer[0..1] and stores 1 exactly when the write returned 0; WRITE stores the count written; both go to RESULT; READ goes to READ_DONE with io_buffer_len = io_result = the count read |
| Engine.IecEngine.RequestRead | xum1541/iec.c:435-441 | stages a read of len bytes and changes nothing else |
| Engine.IecEngine.Read | xum1541/iec.c:443-468 | outside READ_DONE returns 0 and changes nothing; otherwise hands min(len, staged) bytes to USB, and only on success returns that number, empties the buffer and goes idle |
| Engine.IecEngine.Write | xum1541/iec.c:470-483 | a failed USB transfer returns 0 and changes nothing; otherwise the buffer holds the incoming bytes and a write of len is staged |
| Engine.IecEngine.GetResult | xum1541/iec.c:485-493 | reports the request state and the result and changes nothing |
| Engine.IecEngine.RequestAsync | xum1541/iec.c:495-505 | stores atn and talk in io_buffer[0..1] and the payload in io_buffer[2..2+len], and stages an async request of len |
| Scenarios.Listener | xum1541/iec.c:249-290 | a listener that claims the bus and holds and acknowledges every byte of the write |
| Scenarios.BufferedWrite | xum1541/iec.c:405-424 | a staged three-byte write sends all three bytes, the hold-off before the third, and reports RESULT with 3 |
| Scenarios.AsyncUnderAtn | xum1541/iec.c:405-416 | an async command under ATN sends its payload in order without hold-off, releases ATN, and reports success as 0 |
| Scenarios.ReadPastEoi | xum1541/iec.c:332-337 | a read of four from a talker flagging the second byte stages two; the host collects them; the next read of four returns 0 because EOI is still latched |

## Left out

- Timing: the `DELAY_US`/`DELAY_MS` windows and the poll counters of `iec_wait_timeout_2ms` and `iec_wait_clk`. Every bounded wait is one boolean of the bus oracle (`Slot`, `ReadCycle`, `BitCycle`).
- The EOI hold-off waits of `cbm_raw_write` (`xum1541/iec.c:268-271`): their results are discarded, so only their presence before a byte (`Sent.eoiHoldoff`) is recorded.
- `cli()`/`sei()` interrupt bracketing and `wdt_reset()`: concurrency and watchdog concerns with no effect on the logic.
- The raw line primitives `iec_set`, `iec_release`, `iec_get`, `iec_poll`, `iec_set_release` and the flash read `pgm_read_byte`: these are foreign hardware calls. Their answers come from the oracle, and which lines are held at each moment is not tracked beyond the DATA pattern of each byte and the way a write leaves the bus (`Finish`).
- The board's `IO_DATA`, `IO_CLK`, `IO_ATN` and `IO_RESET` values: the board header is not part of this model. They are the `Pins` parameter.
- `USB_ReadBlock`/`USB_WriteBlock`: a success boolean plus the incoming contents. A failed USB read is modelled as leaving the buffer untouched; the real transfer may have overwritten part of it.
- `board_update_display` and `DEBUGF`: output-only hooks.
- Unbounded waits with no timeout, `wait_for_listener` (`xum1541/iec.c:218-227`) and the talk hand-off spin (`xum1541/iec.c:295-296`): assumed to end.
- `xu1541_wait` (`xum1541/iec.c:508-523`): an unbounded wait that always returns 0. For masks of DATA, CLOCK and ATN, the condition it tests on the port in either state is related to the poll by `Lines.PollMatchesIec2Hw` and `Lines.PollReleasedMatchesIec2Hw`; masks that include RESET are not covered.
- `xu1541_setrelease` (`xum1541/iec.c:541-545`): it only passes two `iec2hw` masks to a line primitive, and the table lemmas cover those masks.
- `cbm_reset`, `wait_for_free_bus` and `check_if_bus_free` (`xum1541/iec.c:76-160`): reset and presence probing over timed samples. Their result is discarded, and their loop bound depends on `XUM1541_RESET_TIMEOUT`, which is defined in `xum1541.h`; that header is not part of this model.
- The numeric values of `XUM1541_IO_*` (in `xum1541.h`): the request states are the datatype `Request`.
- `XUM1541_IO_BUFFER_SIZE`: the capacity is a constructor parameter.
- Lines.Iec2Hw: requires an index below 16. The firmware reads past the table otherwise.
- Engine.IecEngine.Write: requires len to fit the buffer. The firmware does not check it, and a larger len overflows `io_buffer`.
- Engine.IecEngine.RequestAsync: requires len + 2 to fit the buffer and the payload to hold len bytes. The firmware does not check either.
- Engine.IecEngine.RequestRead: requires the read limit (len, or 256 for 0) to fit the buffer. The firmware does not check it.
- Engine.IecEngine.Handle: requires the oracle to answer every byte the staged request may transfer.
