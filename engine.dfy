/*
 * The adapter-side engine state of xum1541/iec.c: the command buffer, its
 * length, the request state, the last result and the persistent EOI flag,
 * with the byte-stream transfers (cbm_raw_write, cbm_raw_read), the
 * dispatch routine (xu1541_handle) and the host-facing entry points.
 */
module Engine {
  import opened BitLevel
  import opened Stream

  /** The request states XUM1541_IO_*. */
  datatype Request = IoIdle | IoAsync | IoWrite | IoRead | IoReadDone | IoResult

  /** What one dispatch call did on the bus. */
  datatype Activity =
    | NoTransfer
    | WriteTransfer(atn: bool, talk: bool, sent: seq<Sent>, finish: Finish)
    | ReadTransfer

  function Min(a: U8, b: U8): (m: U8)
    ensures m <= a && m <= b && (m == a || m == b)
  {
    if a <= b then a else b
  }

  class IecEngine {
    /** io_buffer: fixed capacity, two prefix bytes (atn, talk) for async requests. */
    const ioBuffer: array<bv8>
    var ioBufferLen: U8
    var ioRequest: Request
    var ioResult: U8
    /** The global EOI flag: latched by a read, cleared only by a write. */
    var eoi: bool

    /** The staged length always fits the buffer for the request that will use it. */
    ghost predicate Valid()
      reads this
    {
      && 2 <= ioBuffer.Length
      && (ioRequest == IoAsync ==> ioBufferLen as int + 2 <= ioBuffer.Length)
      && (ioRequest == IoWrite || ioRequest == IoReadDone ==> ioBufferLen as int <= ioBuffer.Length)
      && (ioRequest == IoRead ==> ReadLimit(ioBufferLen) <= ioBuffer.Length)
    }

    /** The static initial state followed by cbm_init. */
    constructor (capacity: nat)
      requires 2 <= capacity
      ensures Valid() && fresh(ioBuffer) && ioBuffer.Length == capacity
      ensures ioRequest == IoIdle && ioBufferLen == 0 && ioResult == 0 && !eoi
    {
      ioBuffer := new bv8[capacity];
      eoi := false;
      ioBufferLen := 0;
      ioRequest := IoIdle;
      ioResult := 0;
    }

    /** cbm_init: an empty, idle command buffer; the EOI flag is left as it is. */
    method Init()
      requires Valid()
      modifies this
      ensures Valid()
      ensures ioBufferLen == 0 && ioRequest == IoIdle && ioResult == 0
      ensures eoi == old(eoi)
    {
      ioBufferLen := 0;
      ioRequest := IoIdle;
      ioResult := 0;
    }

    /**
     * cbm_raw_write: send buf[start..start+len] with ATN asserted when atn is
     * non-zero, and hand the bus to the talker afterwards when talk is
     * non-zero. Returns len on full success and 0 on any failure.
     */
    method RawWrite(buf: array<bv8>, start: nat, len: U8, atn: bv8, talk: bv8, bus: WriteBus)
      returns (rv: U8, sent: seq<Sent>, finish: Finish)
      requires start + len as int <= buf.Length && len as int <= |bus.slots|
      modifies this`eoi
      ensures !eoi
      ensures rv == WriteCount(len, bus)
      ensures Transmits(sent, buf[start..start + len as int], atn != 0, bus)
      ensures finish == if !bus.claimed then NoDevice else if talk != 0 then TalkHandoff else AtnReleased
    {
      ghost var data := buf[start..start + len as int];
      rv := len;
      eoi := false;
      sent := [];
      if !bus.claimed {
        rv, finish := 0, NoDevice;
        return;
      }
      var n := len;
      var p := start;
      ghost var failed := false;
      while n != 0 && rv != 0
        invariant n <= len && !eoi
        invariant p == start + |sent|
        invariant rv == if failed then 0 else len
        invariant failed ==> len > 0
        invariant forall j :: 0 <= j < (len - n) as int ==> Good(bus.slots[j])
        invariant failed ==> (len - n) < len && !Good(bus.slots[(len - n) as int])
        invariant |sent| == (len - n) as int + (if failed && bus.slots[(len - n) as int].dataHeld then 1 else 0)
        invariant forall k :: 0 <= k < |sent| ==> sent[k].value == data[k]
        invariant forall k :: 0 <= k < |sent| ==> Drives(sent[k].asserted, sent[k].value)
        invariant forall k :: 0 <= k < |sent| ==> (sent[k].eoiHoldoff <==> k == len as int - 1 && atn == 0)
      {
        var i := (len - n) as int;
        if bus.slots[i].dataHeld {
          // wait_for_listener, then the EOI hold-off before the last byte of a non-ATN write
          var holdoff := n == 1 && atn == 0;
          var b := buf[p];
          assert |sent| == i && b == data[i];
          var asserted, ack := SendByte(b, bus.slots[i].acked);
          sent := sent + [Sent(b, asserted, holdoff)];
          p := p + 1;
          if ack {
            n := n - 1;
          } else {
            rv := 0;
            failed := true;
          }
        } else {
          rv := 0;
          failed := true;
        }
      }
      if failed {
        assert FirstFailure(len, bus) == (len - n) as int;
      } else {
        WriteOkSendsAll(len, bus);
      }
      finish := if talk != 0 then TalkHandoff else AtnReleased;
    }

    /**
     * cbm_raw_read: read up to len bytes into buf (256 when len is 0, where
     * the 8-bit count only stops on wrapping). Stops on the limit, on EOI,
     * or on a failed handshake; a failure returns 0 although the bytes
     * already stored stay in buf.
     */
    method RawRead(buf: array<bv8>, len: U8, bus: seq<ReadCycle>) returns (count: U8)
      requires Covers(bus, len) && ReadLimit(len) <= buf.Length
      modifies buf, this`eoi, this`ioRequest, this`ioBufferLen
      ensures var r := ReadOutcome(bus, len, old(eoi));
        && count == r.count
        && eoi == r.eoi
        && buf[..r.stored] == Received(bus, r.stored)
        && buf[r.stored..] == old(buf[r.stored..])
        && if r.flushed then ioRequest == IoReadDone && ioBufferLen == 0
           else ioRequest == old(ioRequest) && ioBufferLen == old(ioBufferLen)
    {
      var limit := ReadLimit(len);
      var pos := 0;  // how far *buf++ has advanced
      count := 0;
      var ok := true;
      while true
        invariant 0 <= pos < limit && count as int == pos
        invariant forall j :: 0 <= j < pos ==> !Ends(bus[j])
        invariant eoi == old(eoi) && (pos > 0 ==> !eoi)
        invariant buf[..pos] == Received(bus, pos)
        invariant forall j :: pos <= j < buf.Length ==> buf[j] == old(buf[j])
        invariant ioRequest == old(ioRequest) && ioBufferLen == old(ioBufferLen)
        decreases limit - pos
      {
        // wait up to one second for the talker to release CLK
        if bus[pos].clkReleaseTimeout {
          assert buf[pos..] == old(buf[pos..]);
          return 0;
        }
        if eoi {
          ioRequest := IoReadDone;
          ioBufferLen := 0;
          return 0;
        }
        // release DATA; a talker that does not pull CLK again in time signals EOI
        if !bus[pos].clkReasserted {
          eoi := true;
        }
        var b;
        ok, b := ReceiveByte(bus[pos].byteIn);
        if ok {
          buf[pos] := b;
          assert buf[..pos + 1] == buf[..pos] + [b];
          pos := pos + 1;
          count := Wrap(count as int + 1);
        }
        if !(count != len && ok && !eoi) {
          assert forall j :: pos <= j < buf.Length ==> buf[j] == old(buf[j]);
          break;
        }
      }
      if !ok {
        count := 0;
      }
      assert buf[pos..] == old(buf[pos..]);
    }

    /**
     * xu1541_handle: run the pending request, if any. An async request
     * writes the payload after the two prefix bytes with ATN and talk taken
     * from them, and stores 1 as the result exactly when the write returned
     * 0; a write request stores the count written; a read request stages the
     * bytes read and their count. Other states are left as they are.
     */
    method Handle(wbus: WriteBus, rbus: seq<ReadCycle>) returns (activity: Activity)
      requires Valid()
      requires ioRequest == IoAsync || ioRequest == IoWrite ==> ioBufferLen as int <= |wbus.slots|
      requires ioRequest == IoRead ==> Covers(rbus, ioBufferLen)
      modifies this, ioBuffer
      ensures Valid()
      ensures old(ioRequest) in {IoIdle, IoResult, IoReadDone} ==>
        && activity == NoTransfer
        && unchanged(this) && unchanged(ioBuffer)
      ensures old(ioRequest) == IoAsync ==>
        && ioRequest == IoResult
        && ioResult == (if WriteCount(old(ioBufferLen), wbus) == 0 then 1 else 0)
        && ioBufferLen == old(ioBufferLen) && !eoi && unchanged(ioBuffer)
        && activity.WriteTransfer?
        && activity.atn == (ioBuffer[0] != 0) && activity.talk == (ioBuffer[1] != 0)
        && Transmits(activity.sent, ioBuffer[2..2 + ioBufferLen as int], activity.atn, wbus)
        && activity.finish == (if !wbus.claimed then NoDevice else if activity.talk then TalkHandoff else AtnReleased)
      ensures old(ioRequest) == IoWrite ==>
        && ioRequest == IoResult
        && ioResult == WriteCount(old(ioBufferLen), wbus)
        && ioBufferLen == old(ioBufferLen) && !eoi && unchanged(ioBuffer)
        && activity.WriteTransfer? && !activity.atn && !activity.talk
        && Transmits(activity.sent, ioBuffer[..ioBufferLen], false, wbus)
        && activity.finish == (if !wbus.claimed then NoDevice else AtnReleased)
      ensures old(ioRequest) == IoRead ==>
        var r := ReadOutcome(rbus, old(ioBufferLen), old(eoi));
        && ioRequest == IoReadDone
        && ioBufferLen == r.count && ioResult == r.count && eoi == r.eoi
        && ioBuffer[..r.stored] == Received(rbus, r.stored)
        && ioBuffer[r.stored..] == old(ioBuffer[r.stored..])
        && activity == ReadTransfer
    {
      activity := NoTransfer;
      if ioRequest == IoAsync {
        var rv, sent, finish := RawWrite(ioBuffer, 2, ioBufferLen, ioBuffer[0], ioBuffer[1], wbus);
        ioResult := if rv == 0 then 1 else 0;
        ioRequest := IoResult;
        activity := WriteTransfer(ioBuffer[0] != 0, ioBuffer[1] != 0, sent, finish);
      }
      if ioRequest == IoWrite {
        var rv, sent, finish := RawWrite(ioBuffer, 0, ioBufferLen, 0, 0, wbus);
        ioResult := rv;
        ioRequest := IoResult;
        activity := WriteTransfer(false, false, sent, finish);
      }
      if ioRequest == IoRead {
        var count := RawRead(ioBuffer, ioBufferLen, rbus);
        ioRequest := IoReadDone;
        ioBufferLen := count;
        ioResult := count;
        activity := ReadTransfer;
      }
    }

    /** xu1541_request_read: stage a read of len bytes (0 asks for 256). */
    method RequestRead(len: U8)
      requires Valid() && ReadLimit(len) <= ioBuffer.Length
      modifies this
      ensures Valid()
      ensures ioRequest == IoRead && ioBufferLen == len
      ensures ioResult == old(ioResult) && eoi == old(eoi)
    {
      ioRequest := IoRead;
      ioBufferLen := len;
    }

    /**
     * xu1541_read: hand the staged read to the host. Outside READ_DONE it
     * returns 0 and changes nothing; otherwise it hands min(len, staged)
     * bytes to the USB block transfer, and only when that succeeds returns
     * their number and goes back to idle with an empty buffer.
     */
    method Read(len: U8, usbOk: bool) returns (n: U8, block: seq<bv8>)
      requires Valid()
      modifies this
      ensures Valid()
      ensures old(ioRequest) != IoReadDone ==> n == 0 && block == [] && unchanged(this)
      ensures old(ioRequest) == IoReadDone ==>
        && block == ioBuffer[..Min(len, old(ioBufferLen))]
        && if usbOk then
             && n == Min(len, old(ioBufferLen))
             && ioBufferLen == 0 && ioRequest == IoIdle
             && ioResult == old(ioResult) && eoi == old(eoi)
           else n == 0 && unchanged(this)
    {
      block := [];
      if ioRequest != IoReadDone {
        return 0, block;
      }
      var m := len;
      if m > ioBufferLen {
        m := ioBufferLen;
      }
      block := ioBuffer[..m];
      if !usbOk {
        return 0, block;
      }
      ioBufferLen := 0;
      ioRequest := IoIdle;
      n := m;
    }

    /**
     * xu1541_write: fill the buffer with len bytes from the USB block
     * transfer and stage a write; on a failed transfer return 0 and change
     * nothing.
     */
    method Write(len: U8, usbOk: bool, incoming: seq<bv8>) returns (n: U8)
      requires Valid() && len as int <= ioBuffer.Length && |incoming| == len as int
      modifies this, ioBuffer
      ensures Valid()
      ensures !usbOk ==> n == 0 && unchanged(this) && unchanged(ioBuffer)
      ensures usbOk ==>
        && n == len && ioBufferLen == len && ioRequest == IoWrite
        && ioResult == old(ioResult) && eoi == old(eoi)
        && ioBuffer[..len] == incoming && ioBuffer[len..] == old(ioBuffer[len..])
    {
      if !usbOk {
        return 0;
      }
      forall i | 0 <= i < len as int {
        ioBuffer[i] := incoming[i];
      }
      ioBufferLen := len;
      ioRequest := IoWrite;
      n := len;
    }

    /** xu1541_get_result: the request state and result, unchanged. */
    method GetResult() returns (request: Request, result: U8)
      ensures request == ioRequest && result == ioResult
    {
      request := ioRequest;
      result := ioResult;
    }

    /**
     * xu1541_request_async: stage an async write of the first len bytes of
     * payload, after the atn and talk prefix bytes.
     */
    method RequestAsync(payload: seq<bv8>, len: U8, atn: bv8, talk: bv8)
      requires Valid() && len as int <= |payload| && len as int + 2 <= ioBuffer.Length
      modifies this, ioBuffer
      ensures Valid()
      ensures ioRequest == IoAsync && ioBufferLen == len
      ensures ioBuffer[0] == atn && ioBuffer[1] == talk
      ensures ioBuffer[2..2 + len as int] == payload[..len]
      ensures ioBuffer[2 + len as int..] == old(ioBuffer[2 + len as int..])
      ensures ioResult == old(ioResult) && eoi == old(eoi)
    {
      ioRequest := IoAsync;
      forall i | 0 <= i < len as int {
        ioBuffer[2 + i] := payload[i];
      }
      ioBufferLen := len;
      ioBuffer[0] := atn;
      ioBuffer[1] := talk;
    }
  }
}
