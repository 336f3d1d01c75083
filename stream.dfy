/*
 * Byte-stream transfer: what cbm_raw_write and cbm_raw_read produce for a
 * given behaviour of the bus. Each bounded busy wait of the firmware is one
 * boolean of a bus oracle; the functions here characterise the outcome of a
 * whole transfer without following the loops, and the lemmas state the
 * promises of the firmware about them.
 */
module Stream {
  import opened BitLevel

  /** An 8-bit unsigned count (the firmware's uint8_t lengths and results). */
  newtype U8 = x: int | 0 <= x < 256

  /**
   * Stores an unbounded count into 8 bits, as a uint8_t store does: the
   * result is congruent to the count modulo 256, so counts below 256 are
   * kept and 256 becomes 0.
   */
  function Wrap(n: nat): (r: U8)
    ensures (n - r as int) % 256 == 0
    ensures n < 256 ==> r as int == n
    ensures n == 256 ==> r == 0
  {
    (n % 256) as U8
  }

  /** The index of the first false flag, or |flags| when all hold. */
  function FirstFalse(flags: seq<bool>): (k: nat)
    ensures k <= |flags|
    ensures forall j :: 0 <= j < k ==> flags[j]
    ensures k < |flags| ==> !flags[k]
  {
    if flags == [] || !flags[0] then 0 else 1 + FirstFalse(flags[1..])
  }

  // ---------------------------------------------------------------- write

  /** The bus answers to one byte of cbm_raw_write. */
  datatype Slot = Slot(
    dataHeld: bool,  // the listener still pulls DATA 50 us into the byte
    acked: bool)     // the listener pulled DATA within 2 ms after the eight bits

  /** The bus answers to one cbm_raw_write. */
  datatype WriteBus = WriteBus(
    claimed: bool,      // some device pulled DATA within 2 ms of the start
    slots: seq<Slot>)   // slot k answers byte k

  /** One call of send_byte: the byte, the DATA levels driven, and whether the EOI hold-off preceded it. */
  datatype Sent = Sent(value: bv8, asserted: seq<bool>, eoiHoldoff: bool)

  /** How cbm_raw_write leaves the bus. */
  datatype Finish =
    | NoDevice       // nobody claimed DATA: CLK and ATN released at once
    | TalkHandoff    // DATA pulled, CLK and ATN released, the talker took CLK
    | AtnReleased    // only ATN released

  predicate Good(s: Slot) {
    s.dataHeld && s.acked
  }

  /** The whole write succeeds: the bus was claimed and every byte was held and acknowledged. */
  predicate WriteOk(len: U8, bus: WriteBus)
    requires len as int <= |bus.slots|
  {
    bus.claimed && forall k :: 0 <= k < len as int ==> Good(bus.slots[k])
  }

  /** The value cbm_raw_write returns. */
  function WriteCount(len: U8, bus: WriteBus): U8
    requires len as int <= |bus.slots|
  {
    if WriteOk(len, bus) then len else 0
  }

  /** The first byte that fails, or len. */
  function FirstFailure(len: U8, bus: WriteBus): (k: nat)
    requires len as int <= |bus.slots|
    ensures k <= len as int
    ensures forall j :: 0 <= j < k ==> Good(bus.slots[j])
    ensures k < len as int ==> !Good(bus.slots[k])
  {
    var flags := seq(len as int, j requires 0 <= j < len as int => Good(bus.slots[j]));
    assert forall j :: 0 <= j < len as int ==> flags[j] == Good(bus.slots[j]);
    FirstFalse(flags)
  }

  /** The number of calls of send_byte: the bytes up to the first failure, plus that byte if DATA was held for it. */
  function Attempted(len: U8, bus: WriteBus): (n: nat)
    requires len as int <= |bus.slots|
    ensures n <= len as int
  {
    if !bus.claimed then 0
    else
      var f := FirstFailure(len, bus);
      if f < len as int && bus.slots[f].dataHeld then f + 1 else f
  }

  /**
   * The sequence of send_byte calls of a write of `data`: one per attempted
   * byte, in order, each driving that byte's DATA pattern, with the EOI
   * hold-off exactly before the last byte of a write without ATN.
   */
  predicate Transmits(sent: seq<Sent>, data: seq<bv8>, atn: bool, bus: WriteBus)
    requires |data| < 256 && |data| <= |bus.slots|
  {
    && |sent| == Attempted(|data| as U8, bus)
    && forall k :: 0 <= k < |sent| ==>
         && sent[k].value == data[k]
         && Drives(sent[k].asserted, data[k])
         && (sent[k].eoiHoldoff <==> k == |data| - 1 && !atn)
  }

  /** The write returns 0 exactly when nobody claims the bus, or some byte is not held or not acknowledged. */
  lemma WriteFailureCauses(len: U8, bus: WriteBus)
    requires 0 < len && len as int <= |bus.slots|
    ensures WriteCount(len, bus) == 0 <==>
      || !bus.claimed
      || (exists k :: 0 <= k < len as int && !bus.slots[k].dataHeld)
      || (exists k :: 0 <= k < len as int && !bus.slots[k].acked)
    ensures WriteCount(len, bus) == 0 || WriteCount(len, bus) == len
  {
  }

  /**
   * No byte is sent after the first failure: every byte but the last one
   * attempted was held and acknowledged, and nothing is attempted past a
   * failing byte.
   */
  lemma NoSendAfterFailure(len: U8, bus: WriteBus, k: nat)
    requires len as int <= |bus.slots| && k < len as int
    requires !Good(bus.slots[k])
    ensures Attempted(len, bus) <= k + 1
    ensures !bus.slots[k].dataHeld ==> Attempted(len, bus) <= k
    ensures forall j :: 0 <= j && j + 1 < Attempted(len, bus) ==> Good(bus.slots[j])
  {
  }

  /** A full write sends every byte. */
  lemma WriteOkSendsAll(len: U8, bus: WriteBus)
    requires len as int <= |bus.slots| && WriteOk(len, bus)
    ensures Attempted(len, bus) == len as int
    ensures WriteCount(len, bus) == len
  {
  }

  // ----------------------------------------------------------------- read

  /** The bus answers to one iteration of the cbm_raw_read loop. */
  datatype ReadCycle = ReadCycle(
    clkReleaseTimeout: bool,  // the talker kept CLK pulled for the whole second
    clkReasserted: bool,      // the talker pulled CLK again within the short window (false: EOI)
    byteIn: ByteCycle)        // the clocked byte that follows

  /** Every cycle carries eight bit cycles. */
  predicate WellFormed(bus: seq<ReadCycle>) {
    forall i :: 0 <= i < |bus| ==> WellFormedByte(bus[i].byteIn)
  }

  /**
   * How many bytes a read of `len` may store: len, except that a length of
   * 0 makes the 8-bit count wrap only after 256 bytes.
   */
  function ReadLimit(len: U8): (n: nat)
    ensures 1 <= n <= 256
    ensures len != 0 ==> n == len as int
    ensures len == 0 ==> n == 256
  {
    if len == 0 then 256 else len as int
  }

  /** The oracle answers every iteration the read can run. */
  predicate Covers(bus: seq<ReadCycle>, len: U8) {
    |bus| >= ReadLimit(len) && WellFormed(bus)
  }

  /** A cycle that ends the read: a timeout, EOI, or a failed bit handshake. */
  predicate Ends(c: ReadCycle)
    requires WellFormedByte(c.byteIn)
  {
    c.clkReleaseTimeout || !c.clkReasserted || !ByteOk(c.byteIn)
  }

  /** The first cycle that ends the read, or the limit. */
  function FirstEnd(bus: seq<ReadCycle>, limit: nat): (f: nat)
    requires limit <= |bus| && WellFormed(bus)
    ensures f <= limit
    ensures forall j :: 0 <= j < f ==> !Ends(bus[j])
    ensures f < limit ==> Ends(bus[f])
  {
    var flags := seq(limit, j requires 0 <= j < limit => !Ends(bus[j]));
    assert forall j :: 0 <= j < limit ==> flags[j] == !Ends(bus[j]);
    FirstFalse(flags)
  }

  /** The bytes the first n cycles deliver. */
  function Received(bus: seq<ReadCycle>, n: nat): seq<bv8>
    requires n <= |bus|
  {
    seq(n, i requires 0 <= i < n <= |bus| => Assemble(Samples(bus[i].byteIn.bits)))
  }

  /**
   * The outcome of one cbm_raw_read: the value returned, how many bytes
   * were stored into the buffer, the EOI flag afterwards, and whether the
   * read took the "EOI already latched" exit that empties the staged read.
   */
  datatype ReadResult = ReadResult(count: U8, stored: nat, eoi: bool, flushed: bool)

  function ReadOutcome(bus: seq<ReadCycle>, len: U8, eoi: bool): (r: ReadResult)
    requires Covers(bus, len)
    ensures r.stored <= ReadLimit(len)
    ensures r.count == 0 || r.count as int == r.stored % 256
  {
    var limit := ReadLimit(len);
    if bus[0].clkReleaseTimeout then ReadResult(0, 0, eoi, false)
    else if eoi then ReadResult(0, 0, true, true)
    else
      var f := FirstEnd(bus, limit);
      if f == limit then ReadResult(Wrap(limit), limit, false, false)
      else if bus[f].clkReleaseTimeout then ReadResult(0, f, false, false)
      else if !ByteOk(bus[f].byteIn) then ReadResult(0, f, !bus[f].clkReasserted, false)
      else ReadResult(Wrap(f + 1), f + 1, true, false)
  }

  /** A read of 1..255 bytes never reports or stores more than asked for. */
  lemma ReadCountBounded(bus: seq<ReadCycle>, len: U8, eoi: bool)
    requires Covers(bus, len) && len != 0
    ensures ReadOutcome(bus, len, eoi).count <= len
    ensures ReadOutcome(bus, len, eoi).stored <= len as int
  {
  }

  /**
   * A read of 1..255 bytes on which no iteration times out, signals EOI or
   * fails a handshake returns len and stores len bytes.
   */
  lemma ReadSuccessCount(bus: seq<ReadCycle>, len: U8)
    requires Covers(bus, len) && len != 0
    requires forall j :: 0 <= j < len as int ==> !Ends(bus[j])
    ensures ReadOutcome(bus, len, false) == ReadResult(len, len as int, false, false)
  {
  }

  /**
   * A read of length 0 that meets no end in 256 iterations stores 256 bytes
   * and returns 0: the 8-bit count only equals len again once it wraps.
   */
  lemma ZeroLengthReadWraps(bus: seq<ReadCycle>)
    requires Covers(bus, 0)
    requires forall j :: 0 <= j < 256 ==> !Ends(bus[j])
    ensures ReadOutcome(bus, 0, false) == ReadResult(0, 256, false, false)
  {
  }

  /**
   * A read whose first ending iteration is a byte flagged with EOI that
   * then passes every handshake stores that byte too, latches EOI and
   * returns the number of bytes stored.
   */
  lemma ReadEoiCount(bus: seq<ReadCycle>, len: U8, f: nat)
    requires Covers(bus, len) && f < ReadLimit(len)
    requires forall j :: 0 <= j < f ==> !Ends(bus[j])
    requires !bus[f].clkReleaseTimeout && !bus[f].clkReasserted && ByteOk(bus[f].byteIn)
    ensures ReadOutcome(bus, len, false) == ReadResult(Wrap(f + 1), f + 1, true, false)
  {
  }

  /**
   * A non-zero count means every stored byte passed its handshake: a
   * timeout or a failed bit handshake anywhere discards the whole read.
   */
  lemma ReadCountMeansHandshakes(bus: seq<ReadCycle>, len: U8, eoi: bool)
    requires Covers(bus, len)
    ensures var r := ReadOutcome(bus, len, eoi);
      r.count != 0 ==>
        && r.count as int == r.stored % 256
        && forall j :: 0 <= j < r.stored ==> !bus[j].clkReleaseTimeout && ByteOk(bus[j].byteIn)
  {
  }

  /**
   * A timeout or failed handshake before the limit, with no EOI before it,
   * yields 0; a byte flagged with EOI whose handshake then fails still
   * leaves EOI latched.
   */
  lemma ReadFailureYieldsZero(bus: seq<ReadCycle>, len: U8, eoi: bool, k: nat)
    requires Covers(bus, len) && k < ReadLimit(len)
    requires forall j :: 0 <= j < k ==> !Ends(bus[j])
    requires bus[k].clkReleaseTimeout || !ByteOk(bus[k].byteIn)
    ensures ReadOutcome(bus, len, eoi).count == 0
    ensures !eoi ==> ReadOutcome(bus, len, eoi).stored == k
    ensures !eoi ==> ReadOutcome(bus, len, eoi).eoi == (!bus[k].clkReleaseTimeout && !bus[k].clkReasserted)
  {
  }

  /**
   * EOI ends the read on the byte it was signalled for: if this read
   * latched EOI and returns bytes, the last stored byte is the one the
   * talker flagged, and no earlier one was flagged.
   */
  lemma ReadStopsAtEoi(bus: seq<ReadCycle>, len: U8)
    requires Covers(bus, len)
    ensures var r := ReadOutcome(bus, len, false);
      r.eoi && r.count != 0 ==>
        && r.stored >= 1
        && !bus[r.stored - 1].clkReasserted
        && forall j :: 0 <= j < r.stored - 1 ==> bus[j].clkReasserted
  {
  }

  /**
   * A read that starts with EOI already latched returns 0, stores nothing,
   * keeps EOI and takes the flush exit (unless the first CLK wait times out).
   */
  lemma LatchedEoiReadsNothing(bus: seq<ReadCycle>, len: U8)
    requires Covers(bus, len)
    ensures var r := ReadOutcome(bus, len, true);
      && r.count == 0 && r.stored == 0 && r.eoi
      && r.flushed == !bus[0].clkReleaseTimeout
  {
  }

  // ------------------------------------------------------ write then read

  /**
   * The read cycle of a talker that answers every handshake in time, sends
   * the DATA levels `released` and flags EOI by not pulling CLK again.
   */
  function TalkerByte(released: seq<bool>, eoi: bool): (c: ReadCycle)
    requires |released| == 8
    ensures WellFormedByte(c.byteIn) && ByteOk(c.byteIn) && !c.clkReleaseTimeout
    ensures c.clkReasserted == !eoi
    ensures Samples(c.byteIn.bits) == released
  {
    ReadCycle(false, !eoi, ByteCycle(true, seq(8, i requires 0 <= i < 8 => BitCycle(true, released[i], true))))
  }

  /**
   * The read-side view of one send_byte call of a well-behaved talker: the
   * EOI hold-off before the byte is what the reader sees as CLK not pulled
   * again in time, and the DATA samples are the levels the sender drove.
   */
  function TalkerCycle(s: Sent): (c: ReadCycle)
    requires |s.asserted| == 8
    ensures !c.clkReleaseTimeout && WellFormedByte(c.byteIn) && ByteOk(c.byteIn)
    ensures c.clkReasserted == !s.eoiHoldoff
    ensures Samples(c.byteIn.bits) == Observed(s.asserted)
  {
    TalkerByte(Observed(s.asserted), s.eoiHoldoff)
  }

  /**
   * Stream round trip: the send_byte calls of a complete write without ATN,
   * seen by a reader on a bus that answers every handshake, are read back
   * as exactly the bytes written; the EOI hold-off before the last byte
   * stops the read there even when more bytes were asked for.
   */
  lemma {:induction false} WriteThenRead(data: seq<bv8>, sent: seq<Sent>, bus: seq<ReadCycle>, len: U8)
    requires 1 <= |data| < 256 && |sent| == |data|
    requires forall k :: 0 <= k < |sent| ==>
      sent[k].value == data[k] && Drives(sent[k].asserted, data[k]) &&
      (sent[k].eoiHoldoff <==> k == |data| - 1)
    requires Covers(bus, len) && |data| <= ReadLimit(len)
    requires forall k :: 0 <= k < |sent| ==> |sent[k].asserted| == 8 && bus[k] == TalkerCycle(sent[k])
    ensures ReadOutcome(bus, len, false) == ReadResult(|data| as U8, |data|, true, false)
    ensures Received(bus, |data|) == data
  {
    var n := |data|;
    forall k | 0 <= k < n ensures Received(bus, n)[k] == data[k] {
      BitRoundTrip(data[k], sent[k].asserted);
    }
    var f := FirstEnd(bus, ReadLimit(len));
    assert Ends(bus[n - 1]);
    assert f == n - 1;
  }

  /**
   * What a successful cbm_raw_write without ATN sends is what a reader
   * receives: every byte is sent, and the reader gets exactly the data,
   * stopping at the last byte with EOI latched.
   */
  lemma {:induction false} WrittenIsRead(data: seq<bv8>, sent: seq<Sent>, wbus: WriteBus, bus: seq<ReadCycle>, len: U8)
    requires 1 <= |data| < 256 && |data| <= |wbus.slots|
    requires WriteOk(|data| as U8, wbus) && Transmits(sent, data, false, wbus)
    requires Covers(bus, len) && |data| <= ReadLimit(len)
    requires forall k :: 0 <= k < |sent| ==> bus[k] == TalkerCycle(sent[k])
    ensures |sent| == |data|
    ensures ReadOutcome(bus, len, false) == ReadResult(|data| as U8, |data|, true, false)
    ensures Received(bus, |data|) == data
  {
    WriteOkSendsAll(|data| as U8, wbus);
    WriteThenRead(data, sent, bus, len);
  }
}
