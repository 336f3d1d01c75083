/*
 * Bit-level transfer: the DATA pattern send_byte drives for one byte, the
 * shift-in loop of cbm_raw_read that rebuilds a byte from eight clocked
 * DATA samples, and the round trip between the two.
 */
module BitLevel {

  /** Bit i of b, counting from the least significant bit. */
  predicate Bit(b: bv8, i: nat)
    requires i < 8
  {
    (b >> i) & 1 == 1
  }

  /** Two bytes with the same eight bits are the same byte. */
  lemma BitsDetermineByte(x: bv8, y: bv8)
    requires forall i :: 0 <= i < 8 ==> (Bit(x, i) <==> Bit(y, i))
    ensures x == y
  {
    assert Bit(x, 0) == Bit(y, 0) && Bit(x, 1) == Bit(y, 1);
    assert Bit(x, 2) == Bit(y, 2) && Bit(x, 3) == Bit(y, 3);
    assert Bit(x, 4) == Bit(y, 4) && Bit(x, 5) == Bit(y, 5);
    assert Bit(x, 6) == Bit(y, 6) && Bit(x, 7) == Bit(y, 7);
  }

  /**
   * The DATA levels the sender drives for byte b, one per bit in the order
   * sent: true where DATA is asserted (pulled low). Bits go out LSB first
   * and DATA is asserted exactly for a 0 bit.
   */
  predicate Drives(asserted: seq<bool>, b: bv8) {
    |asserted| == 8 && forall i :: 0 <= i < 8 ==> (asserted[i] <==> !Bit(b, i))
  }

  lemma ShiftedBit(b: bv8, i: nat)
    requires i < 8
    ensures (b >> i) & 1 == 0 <==> !Bit(b, i)
    ensures (b >> i) >> 1 == b >> (i + 1)
  {
  }

  /**
   * send_byte: for each of the eight bits, DATA is asserted when the low bit
   * of the shifting copy is 0, then the copy is shifted right. After the
   * bits the sender waits a bounded time for the listener to pull DATA; the
   * outcome of that wait is `listenerAck`.
   */
  method SendByte(b: bv8, listenerAck: bool) returns (asserted: seq<bool>, ack: bool)
    ensures Drives(asserted, b)
    ensures ack == listenerAck
  {
    var v := b;
    asserted := [];
    var i := 0;
    while i < 8
      invariant 0 <= i <= 8
      invariant |asserted| == i
      invariant v == b >> i
      invariant forall j :: 0 <= j < i ==> (asserted[j] <==> !Bit(b, j))
    {
      ShiftedBit(b, i);
      asserted := asserted + [v & 1 == 0];
      v := v >> 1;
      i := i + 1;
    }
    ack := listenerAck;
  }

  /** One step of the receive loop: shift right, and set the top bit if DATA was released. */
  function ShiftIn(b: bv8, released: bool): bv8 {
    (b >> 1) | (if released then 0x80 else 0)
  }

  /** The byte the receive loop holds after shifting in `released`, first sample first. */
  function Assemble(released: seq<bool>): bv8 {
    if released == [] then 0
    else ShiftIn(Assemble(released[..|released| - 1]), released[|released| - 1])
  }

  lemma ShiftInBits(b: bv8, released: bool)
    ensures forall k :: 0 <= k < 7 ==> (Bit(ShiftIn(b, released), k) <==> Bit(b, k + 1))
    ensures Bit(ShiftIn(b, released), 7) <==> released
  {
  }

  /**
   * After n <= 8 samples the samples sit in the top n bits, first sample
   * lowest, and the bits below them are still 0.
   */
  lemma {:induction false} AssemblePartial(released: seq<bool>)
    requires |released| <= 8
    ensures forall j :: 0 <= j < |released| ==> (Bit(Assemble(released), 8 - |released| + j) <==> released[j])
    ensures forall j :: 0 <= j < 8 - |released| ==> !Bit(Assemble(released), j)
  {
    var n := |released|;
    if n == 0 {
      assert forall j :: 0 <= j < 8 ==> !Bit(0, j);
    } else {
      var front := released[..n - 1];
      AssemblePartial(front);
      ShiftInBits(Assemble(front), released[n - 1]);
    }
  }

  /** Eight samples give a byte whose bit i is sample i: LSB received first. */
  lemma AssembleBits(released: seq<bool>)
    requires |released| == 8
    ensures forall i :: 0 <= i < 8 ==> (Bit(Assemble(released), i) <==> released[i])
  {
    AssemblePartial(released);
  }

  /** The DATA samples a listener takes while the sender drives `asserted`: released = not asserted. */
  function Observed(asserted: seq<bool>): seq<bool> {
    seq(|asserted|, i requires 0 <= i < |asserted| => !asserted[i])
  }

  /** Bit round trip: sampling the pattern send_byte drives rebuilds the byte sent. */
  lemma BitRoundTrip(b: bv8, asserted: seq<bool>)
    requires Drives(asserted, b)
    ensures Assemble(Observed(asserted)) == b
  {
    AssembleBits(Observed(asserted));
    BitsDetermineByte(Assemble(Observed(asserted)), b);
  }

  /** One clock half-cycle pair of the receive loop, as the talker answers it. */
  datatype BitCycle = BitCycle(
    clkReleased: bool,   // the talker released CLK within the 2 ms window
    dataReleased: bool,  // DATA read released (a 1 bit) while CLK was released
    clkAsserted: bool)   // the talker pulled CLK again within the 2 ms window

  /** One byte of the receive loop: the first CLK wait, then the eight bit cycles. */
  datatype ByteCycle = ByteCycle(clkAsserted: bool, bits: seq<BitCycle>)

  predicate WellFormedByte(h: ByteCycle) {
    |h.bits| == 8
  }

  /** Every handshake step of the byte succeeded. */
  predicate ByteOk(h: ByteCycle)
    requires WellFormedByte(h)
  {
    h.clkAsserted && forall i :: 0 <= i < 8 ==> h.bits[i].clkReleased && h.bits[i].clkAsserted
  }

  /** The DATA samples of the bit cycles, in order. */
  function Samples(bits: seq<BitCycle>): seq<bool> {
    seq(|bits|, i requires 0 <= i < |bits| => bits[i].dataReleased)
  }

  /**
   * The byte loop of cbm_raw_read: wait for CLK asserted, then for each bit
   * wait for CLK released, shift in the DATA sample, wait for CLK asserted;
   * any wait that times out stops the loop with ok false.
   */
  method ReceiveByte(h: ByteCycle) returns (ok: bool, b: bv8)
    requires WellFormedByte(h)
    ensures ok <==> ByteOk(h)
    ensures ok ==> b == Assemble(Samples(h.bits))
    ensures ok ==> forall i :: 0 <= i < 8 ==> (Bit(b, i) <==> h.bits[i].dataReleased)
  {
    ghost var released := Samples(h.bits);
    ok := h.clkAsserted;
    b := 0;
    var bit := 0;
    while bit < 8 && ok
      invariant 0 <= bit <= 8
      invariant ok ==> h.clkAsserted
      invariant ok ==> forall j :: 0 <= j < bit ==> h.bits[j].clkReleased && h.bits[j].clkAsserted
      invariant ok ==> b == Assemble(released[..bit])
      invariant !ok ==> !ByteOk(h)
    {
      ok := h.bits[bit].clkReleased;
      if ok {
        assert released[..bit + 1][..bit] == released[..bit];
        b := b >> 1;
        if h.bits[bit].dataReleased {
          b := b | 0x80;
        }
        ok := h.bits[bit].clkAsserted;
      }
      bit := bit + 1;
    }
    if ok {
      assert released[..8] == released;
      AssembleBits(released);
    }
  }
}
