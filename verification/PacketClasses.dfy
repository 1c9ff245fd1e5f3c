/** The receiver and the sender as the classes update them in place. */
module PacketClasses {
  import opened ByteOrder
  import opened Words
  import opened PacketProtocol

  class ReceivePacket {
    const layout: Layout
    var state: nat
    const tmpBuffer: array<Byte>
    var tmpIndex: nat
    var front: seq<Byte>
    var dataLength: int
    var body: seq<Byte>
    var end: seq<Byte>
    const dataBuffer: array<Byte>
    var dataBegin: Pointer
    var dataCurrent: Pointer
    var dataEnd: Pointer
    var packets: seq<Packet>

    predicate InField()
      reads this
    {
      state in {1, 2, 3, 5}
    }

    ghost predicate Valid()
      reads this
    {
      && layout.Valid() && tmpBuffer.Length == 256 && tmpBuffer != dataBuffer
      && state <= 5 && (InField() ==> tmpIndex < FieldSize(layout, state))
    }

    /** The state-machine value of the object. */
    function View(): Receiver
      requires InField() ==> tmpIndex <= tmpBuffer.Length
      reads this, tmpBuffer, dataBuffer
    {
      Receiver(state, if InField() then tmpBuffer[..tmpIndex] else [], front, dataLength, body, end,
               dataBuffer[..], dataBegin, dataCurrent, dataEnd, packets, false)
    }

    constructor (layout: Layout, bufferSize: nat)
      requires layout.Valid()
      ensures Valid() && fresh(tmpBuffer) && fresh(dataBuffer)
      ensures this.layout == layout && dataBuffer.Length == bufferSize
      ensures View() == Fresh(dataBuffer[..], [], 0, [], [])
    {
      this.layout := layout;
      state, tmpIndex := 0, 0;
      tmpBuffer := new Byte[256];
      front, dataLength, body, end := [], 0, [], [];
      dataBuffer := new Byte[bufferSize];
      dataBegin, dataCurrent, dataEnd := NULL, NULL, NULL;
      packets := [];
    }

    /** The body field is complete: choose where the payload goes. */
    method BodyField(field: seq<Byte>)
      requires layout.Valid() && tmpBuffer.Length == 256 && tmpBuffer != dataBuffer
      requires state == 3 && tmpIndex <= 256
      modifies this`state, this`tmpIndex, this`body, this`dataBegin, this`dataCurrent, this`dataEnd
      ensures Valid() && View() == BodyComplete(old(View()), field)
    {
      body := field;
      if dataLength == 0 {
        state := 5;
        tmpIndex := 0;
        assert tmpBuffer[..tmpIndex] == [];
        return;
      }
      if |packets| > 0 {
        var packet := packets[|packets| - 1];
        dataBegin := Plus(packet.data, packet.length);
      } else {
        dataBegin := At(0);
      }
      if dataCurrent == NULL {
        dataCurrent := dataBegin;
      }
      dataEnd := Plus(dataCurrent, dataLength);
      if dataEnd.At? && dataEnd.offset > dataBuffer.Length {
        state := 0;
      } else {
        state := 4;
      }
    }

    /** States 1, 2, 3 and 5: collect a byte and act on a complete field. */
    method FieldByte(b: Byte)
      requires Valid() && InField()
      modifies this`state, this`tmpIndex, this`front, this`dataLength, this`body, this`end
      modifies this`dataBegin, this`dataCurrent, this`dataEnd, this`packets, tmpBuffer
      ensures Valid() && View() == StepByte(layout, old(View()), b)
    {
      hide DecodeLength;
      ghost var r := View();
      tmpBuffer[tmpIndex] := b;
      tmpIndex := tmpIndex + 1;
      assert tmpBuffer[..tmpIndex] == r.collected + [b];
      if tmpIndex == FieldSize(layout, state) {
        var field := tmpBuffer[..tmpIndex];
        if state == 1 {
          front := field;
          state := 2;
          tmpIndex := 0;
        } else if state == 2 {
          dataLength := DecodeLength(layout, field);
          state := 3;
          tmpIndex := 0;
        } else if state == 3 {
          BodyField(field);
        } else {
          end := field;
          AppendPacket();
          state := 0;
        }
      }
    }

    method AppendPacket()
      modifies this`packets
      ensures packets == old(packets) + [Packet(front, body, end, dataLength, dataBegin)]
    {
      packets := packets + [Packet(front, body, end, dataLength, dataBegin)];
    }

    /** State 4: store a payload byte. */
    method PayloadByteIn(b: Byte)
      requires Valid() && state == 4 && Writable(View())
      modifies this`state, this`tmpIndex, this`dataCurrent, dataBuffer
      ensures Valid() && View() == StepByte(layout, old(View()), b)
    {
      dataBuffer[dataCurrent.offset] := b;
      assert dataBuffer[..] == old(dataBuffer[..])[dataCurrent.offset := b];
      dataCurrent := Plus(dataCurrent, 1);
      if !Below(dataCurrent, dataEnd) {
        state := 5;
        tmpIndex := 0;
        assert tmpBuffer[..tmpIndex] == [];
      }
    }

    /**
     * Takes a chunk; `beyond` are the bytes that follow it in memory, which the search for a head may read. The
     * result is false if the code would have written outside its buffer; the object is then as it was before that.
     */
    method Push(data: seq<Byte>, beyond: seq<Byte>) returns (ok: bool)
      requires Valid() && |beyond| + 1 >= |layout.head|
      modifies this, tmpBuffer, dataBuffer
      ensures ok == !Feed(layout, old(View()), data + beyond, 0, |data|).fault
      ensures Valid() && View() == Feed(layout, old(View()), data + beyond, 0, |data|).(fault := false)
    {
      hide StepByte, Writable;
      var mem, index, stop := data + beyond, 0, |data|;
      ghost var goal := Feed(layout, View(), mem, 0, stop);
      while index < stop
        invariant 0 <= index && Valid()
        invariant Feed(layout, View(), mem, index, stop) == goal
      {
        if state == 0 {
          var h := mem[index..index + |layout.head|];
          if h == layout.head {
            index := index + (|layout.head| - 1);
            state := 1;
            tmpIndex := 0;
            assert tmpBuffer[..tmpIndex] == [];
          }
        } else if state == 4 {
          if !(dataCurrent.At? && 0 <= dataCurrent.offset < dataBuffer.Length) {
            WriteOutside(layout, View(), mem, index, stop);
            return false;
          }
          WriteInside(View());
          PayloadByteIn(mem[index]);
        } else {
          FieldByte(mem[index]);
        }
        index := index + 1;
      }
      return true;
    }

    lemma {:induction false} WriteOutside(l: Layout, r: Receiver, mem: seq<Byte>, at: nat, stop: nat)
      requires l.Valid() && stop + |l.head| <= |mem| + 1 && at < stop && r.state == 4 && !r.fault
      requires !(r.current.At? && 0 <= r.current.offset < |r.buffer|)
      ensures Feed(l, r, mem, at, stop) == r.(fault := true)
    {
    }

    lemma {:induction false} WriteInside(r: Receiver)
      requires r.current.At? && 0 <= r.current.offset < |r.buffer|
      ensures Writable(r)
    {
    }

    /** Forgets the packets; a payload in progress moves to the front of the buffer. */
    method Clear()
      requires Valid() && (Below(dataCurrent, dataEnd) ==> Movable(View()))
      modifies this`packets, this`dataBegin, this`dataCurrent, this`dataEnd, dataBuffer
      ensures Valid() && View() == Cleared(old(View()))
    {
      hide Cleared;
      ghost var r := View();
      packets := [];
      if Below(dataCurrent, dataEnd) {
        ClearedMoves(r);
        var moved := if dataCurrent.At? then dataBuffer[dataBegin.offset..dataCurrent.offset] else [];
        MoveToFront(moved);
        dataEnd := At(dataLength - 1);
        dataCurrent := At(|moved|);
        dataBegin := At(0);
      } else {
        ClearedForgets(r);
        dataCurrent := NULL;
        dataEnd := NULL;
        dataBegin := NULL;
      }
    }

    method MoveToFront(moved: seq<Byte>)
      requires |moved| <= dataBuffer.Length
      modifies dataBuffer
      ensures dataBuffer[..] == moved + old(dataBuffer[..])[|moved|..]
    {
      CopyInto(dataBuffer, 0, moved);
    }

    lemma {:induction false} ClearedMoves(r: Receiver)
      requires Below(r.current, r.stop) && Movable(r)
      ensures var moved := if r.current.At? then r.buffer[r.begin.offset..r.current.offset] else [];
              Cleared(r) == r.(packets := [], buffer := moved + r.buffer[|moved|..],
                               stop := At(r.length - 1), current := At(|moved|), begin := At(0))
    {
    }

    lemma {:induction false} ClearedForgets(r: Receiver)
      requires !Below(r.current, r.stop)
      ensures Cleared(r) == r.(packets := [], current := NULL, stop := NULL, begin := NULL)
    {
    }
  }

  // ---- sending ----------------------------------------------------------------------------------------

  /** The size of a frame without payload. */
  function Overhead(l: Layout): nat {
    |l.head| + l.frontSize + l.lengthSize + l.bodySize + l.endSize
  }

  function FrameSize(l: Layout, len: int): int {
    Overhead(l) + len
  }

  /** What a 32-bit signed int keeps of a number. */
  function ToInt32(n: int): int {
    var low := n % 0x1_0000_0000;
    if low >= 0x8000_0000 then low - 0x1_0000_0000 else low
  }

  /** The tests on a frame's size, which is kept in a 32-bit int. */
  predicate Accepts(l: Layout, len: int) {
    len >= 0 && ToInt32(FrameSize(l, len)) <= 4096
  }

  /** The tests let through exactly the frames that fit the buffer, if and only if the size stays below 2^31. */
  lemma {:induction false} SizeTestIsRight(l: Layout, len: int)
    requires 0 <= len < 0x8000_0000 && Overhead(l) < 0x8000_0000
    ensures (Accepts(l, len) <==> FrameSize(l, len) <= 4096) <==> FrameSize(l, len) < 0x8000_0000
  {
  }

  /** Whatever the layout, the largest length wraps around and is let through. */
  lemma {:induction false} LargestLengthIsLetThrough(l: Layout)
    requires l.Valid() && Overhead(l) < 0x8000_0000
    ensures Accepts(l, 0x7fff_ffff) && FrameSize(l, 0x7fff_ffff) > 4096
  {
  }

  class SendPacket {
    const layout: Layout
    const front: seq<Byte>
    const crc: seq<Byte> -> seq<Byte>
    const buffer: array<Byte>
    var size: nat

    ghost predicate Valid() {
      layout.Valid() && Overhead(layout) < 0x8000_0000 && buffer.Length == 4096 && |front| == layout.frontSize
      && forall x :: |crc(x)| == layout.endSize
    }

    constructor (layout: Layout, front: seq<Byte>, crc: seq<Byte> -> seq<Byte>)
      requires layout.Valid() && Overhead(layout) < 0x8000_0000 && |front| == layout.frontSize
      requires forall x :: |crc(x)| == layout.endSize
      ensures Valid() && fresh(buffer)
      ensures this.layout == layout && this.front == front && this.crc == crc
    {
      this.layout, this.front, this.crc := layout, front, crc;
      buffer := new Byte[4096];
      size := 4096;
    }

    /** A store through the moving pointer. */
    method Put(p: nat, x: seq<Byte>) returns (q: nat)
      requires p + |x| <= buffer.Length
      modifies buffer
      ensures q == p + |x| && buffer[..q] == old(buffer[..p]) + x
      ensures forall k :: q <= k < buffer.Length ==> buffer[k] == old(buffer[k])
    {
      CopyInto(buffer, p, x);
      q := p + |x|;
    }

    /** What comes before the body. */
    function Lead(len: nat): (lead: seq<Byte>)
      requires Valid()
      ensures |lead| == |layout.head| + layout.frontSize + layout.lengthSize
    {
      layout.head + front + EncodeLength(layout, len)
    }

    lemma {:induction false} FrameOf(body: seq<Byte>, payload: seq<Byte>)
      requires Valid()
      ensures var m := Message(front, body, payload, crc(body + payload));
              Frame(layout, m) == Lead(|payload|) + body + payload + m.end
    {
    }

    /** Lead, body and the copied payload, the whole of it or nothing. */
    method PutParts(body: seq<Byte>, payload: seq<Byte>, len: nat) returns (p: nat)
      requires Valid() && |body| == layout.bodySize && FrameSize(layout, len) <= 4096
      requires |payload| <= len
      modifies buffer
      ensures p == FrameSize(layout, |payload|) - layout.endSize
      ensures buffer[..p] == Lead(len) + body + payload && buffer[p..] == old(buffer[p..])
    {
      hide EncodeLength;
      p := Put(0, layout.head);
      assert buffer[..p] == layout.head;
      p := Put(p, front);
      p := Put(p, EncodeLength(layout, len));
      assert buffer[..p] == Lead(len);
      p := Put(p, body);
      p := Put(p, payload);
      assert buffer[..p] == Lead(len) + body + payload;
      forall k | p <= k < buffer.Length
        ensures buffer[k] == old(buffer[k])
      {
      }
    }

    /** The trailer is computed over len bytes from the body's end on, copied or not. */
    method PutFrame(body: seq<Byte>, payload: seq<Byte>, len: nat)
      requires Valid() && |body| == layout.bodySize && FrameSize(layout, len) <= 4096
      requires |payload| <= len
      modifies buffer
      ensures var p := FrameSize(layout, |payload|);
              var e := p - layout.endSize;
              && buffer[..p] == Lead(len) + body + payload + crc(body + payload + old(buffer[e..e + len - |payload|]))
              && buffer[p..] == old(buffer[p..])
    {
      hide *;
      LeadIs(len);
      var e := PutParts(body, payload, len);
      ghost var lead := Lead(len);
      var start, stop := e - |payload| - |body|, e - |payload| + len;
      CoveredIs(buffer[..], old(buffer[..]), lead, body, payload, len);
      var covered := buffer[start..stop];
      ghost var parts := buffer[..];
      CrcIs(covered);
      var p := Put(e, crc(covered));
      TailKept(buffer[..], parts, old(buffer[..]), e, p);
    }

    lemma {:induction false} LeadIs(len: nat)
      requires Valid()
      ensures |Lead(len)| == |layout.head| + layout.frontSize + layout.lengthSize && buffer.Length == 4096
      ensures layout.Valid() && FrameSize(layout, 0) == |Lead(len)| + layout.bodySize + layout.endSize
      ensures forall n: nat :: FrameSize(layout, n) == FrameSize(layout, 0) + n
    {
    }

    lemma {:induction false} CrcIs(x: seq<Byte>)
      requires Valid()
      ensures |crc(x)| == layout.endSize
    {
    }

    lemma {:induction false} CoveredIs(now: seq<Byte>, was: seq<Byte>, lead: seq<Byte>, body: seq<Byte>,
                                       payload: seq<Byte>, len: nat)
      requires |payload| <= len && |lead| + |body| + len <= |now| == |was|
      requires var e := |lead| + |body| + |payload|; now[..e] == lead + body + payload && now[e..] == was[e..]
      ensures var e := |lead| + |body| + |payload|;
              now[|lead|..|lead| + |body| + len] == body + payload + was[e..e + len - |payload|]
    {
      var e, stop := |lead| + |body| + |payload|, |lead| + |body| + len;
      assert now[|lead|..e] == now[..e][|lead|..] == body + payload;
      assert now[e..stop] == now[e..][..stop - e] == was[e..][..stop - e] == was[e..stop];
      assert now[|lead|..stop] == now[|lead|..e] + now[e..stop];
    }

    lemma {:induction false} TailKept(now: seq<Byte>, mid: seq<Byte>, was: seq<Byte>, e: nat, p: nat)
      requires e <= p <= |now| == |mid| == |was|
      requires forall k :: p <= k < |now| ==> now[k] == mid[k]
      requires mid[e..] == was[e..]
      ensures now[p..] == was[p..]
    {
      assert now[p..] == mid[p..];
      assert mid[p..] == mid[e..][p - e..] && was[p..] == was[e..][p - e..];
    }

    method PutPayload(body: seq<Byte>, payload: seq<Byte>)
      requires Valid() && |body| == layout.bodySize && FrameSize(layout, |payload|) <= 4096
      modifies buffer
      ensures var r := FrameSize(layout, |payload|);
              && buffer[..r] == Frame(layout, Message(front, body, payload, crc(body + payload)))
              && buffer[r..] == old(buffer[r..])
    {
      hide EncodeLength, Frame, Lead;
      PutFrame(body, payload, |payload|);
      FrameOf(body, payload);
      assert body + payload + [] == body + payload;
    }

    method PutNothing(body: seq<Byte>, len: nat)
      requires Valid() && |body| == layout.bodySize && FrameSize(layout, len) <= 4096
      modifies buffer
      ensures var r := FrameSize(layout, 0);
              && var after := r - layout.endSize;
              && buffer[..r] == Lead(len) + body + crc(body + old(buffer[after..after + len]))
              && buffer[r..] == old(buffer[r..])
    {
      hide EncodeLength, Lead;
      PutFrame(body, [], len);
      assert body + [] == body && Lead(len) + body + [] == Lead(len) + body;
    }

    /**
     * Builds a frame. With a null `d` no payload is copied: the trailer lands right behind the body, and is computed
     * over whatever the buffer held there. `fault` says that the code goes on to use memory outside its buffer.
     */
    method SetPack(body: seq<Byte>, d: array?<Byte>, len: int) returns (r: int, fault: bool)
      requires Valid() && |body| == layout.bodySize && d != buffer
      requires -0x8000_0000 <= len < 0x8000_0000
      requires Accepts(layout, len) && d != null ==> len <= d.Length
      modifies this`size, buffer
      ensures fault <==> len >= 0 && FrameSize(layout, len) >= 0x8000_0000
      ensures (len < 0 || FrameSize(layout, len) > 4096) && !fault ==>
                r == -1 && buffer[..] == old(buffer[..]) && size == old(size)
      ensures 0 <= len && FrameSize(layout, len) <= 4096 ==> r == FrameSize(layout, len) == size
      ensures 0 <= len && FrameSize(layout, len) <= 4096 && (d != null || len == 0) ==>
                && var payload := if d == null then [] else old(d[..len]);
                && buffer[..r] == Frame(layout, Message(front, body, payload, crc(body + payload)))
                && buffer[r..] == old(buffer[r..])
      ensures 0 < len && FrameSize(layout, len) <= 4096 && d == null ==>
                && var after := r - len - layout.endSize;
                && buffer[..r - len] == Lead(len) + body + crc(body + old(buffer[after..after + len]))
                && buffer[r - len..] == old(buffer[r - len..])
    {
      hide EncodeLength, Frame, Lead;
      if len < 0 {
        return -1, false;
      }
      var total := FrameSize(layout, len);
      var iSize := ToInt32(total);
      if iSize > 4096 {
        return -1, false;
      }
      if total >= 0x8000_0000 {
        return iSize, true;
      }
      if d == null && len > 0 {
        PutNothing(body, len);
      } else {
        PutPayload(body, if d == null then [] else d[..len]);
      }
      size := total;
      return total, false;
    }
  }
}
