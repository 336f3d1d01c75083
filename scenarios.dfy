/*
 * Host-level exchanges through the dispatch state machine, on buses that
 * answer every handshake: a buffered write, an async command under ATN, and
 * a read that meets EOI followed by a second read.
 */
module Scenarios {
  import opened Stream
  import opened Engine

  /** A listener that claims the bus and holds and acknowledges each of n bytes. */
  function Listener(n: nat): (bus: WriteBus)
    ensures bus.claimed && |bus.slots| == n
    ensures forall k :: 0 <= k < n ==> Good(bus.slots[k])
  {
    WriteBus(true, seq(n, k => Slot(true, true)))
  }

  /**
   * A buffered write of three bytes to a listener that takes them all: the
   * host's write is staged, the dispatch sends all three bytes without ATN,
   * with the EOI hold-off before the last, and the result is 3. Reading the
   * result does not return the state machine to idle.
   */
  method BufferedWrite(data: seq<bv8>) returns (request: Request, result: U8, sent: seq<Sent>)
    requires |data| == 3
    ensures request == IoResult && result == 3
    ensures |sent| == 3
    ensures forall k :: 0 <= k < 3 ==> sent[k].value == data[k] && (sent[k].eoiHoldoff <==> k == 2)
  {
    var e := new IecEngine(16);
    var n := e.Write(3, true, data);
    assert e.ioRequest == IoWrite && e.ioBufferLen == 3;
    var bus := Listener(3);
    WriteOkSendsAll(3, bus);
    var activity := e.Handle(bus, []);
    sent := activity.sent;
    request, result := e.GetResult();
  }

  /**
   * An async command of two bytes with ATN and no talk hand-off: the bytes
   * after the prefix are sent in order under ATN, with no EOI hold-off, ATN
   * is released afterwards, and the result byte reports success (0).
   */
  method AsyncUnderAtn() returns (result: U8, activity: Activity)
    ensures result == 0
    ensures activity.WriteTransfer? && activity.atn && !activity.talk
    ensures activity.finish == AtnReleased
    ensures |activity.sent| == 2
    ensures activity.sent[0].value == 0x3F && activity.sent[1].value == 0x31
    ensures !activity.sent[0].eoiHoldoff && !activity.sent[1].eoiHoldoff
  {
    var e := new IecEngine(16);
    e.RequestAsync([0x3F, 0x31], 2, 1, 0);
    assert e.ioBuffer[2..4] == [0x3F, 0x31];
    var bus := Listener(2);
    WriteOkSendsAll(2, bus);
    activity := e.Handle(bus, []);
    assert e.ioBuffer[2..2 + e.ioBufferLen as int] == [0x3F, 0x31];
    var request;
    request, result := e.GetResult();
  }

  /**
   * EOI splits a read across two calls: a read of four bytes from a talker
   * that flags the second byte as its last stages two bytes; once they are
   * collected, a second read of four returns nothing because EOI is still
   * latched.
   */
  method ReadPastEoi(first: seq<bool>, second: seq<bool>) returns (firstCount: U8, collected: U8, secondCount: U8)
    requires |first| == 8 && |second| == 8
    ensures firstCount == 2 && collected == 2 && secondCount == 0
  {
    var e := new IecEngine(16);
    e.RequestRead(4);
    var quiet := TalkerByte(first, false);
    var bus := [TalkerByte(first, false), TalkerByte(second, true), quiet, quiet];
    assert FirstEnd(bus, 4) == 1 by {
      assert !Ends(bus[0]) && Ends(bus[1]);
    }
    var activity := e.Handle(Listener(0), bus);
    firstCount := e.ioBufferLen;
    var block;
    collected, block := e.Read(4, true);
    e.RequestRead(4);
    LatchedEoiReadsNothing(bus, 4);
    activity := e.Handle(Listener(0), bus);
    secondCount := e.ioBufferLen;
  }
}
