/** Which whole frames keep the receiver's promises about storage: a condition on their payloads' sizes alone. */
module StoredFrames {
  import opened ByteOrder
  import opened Words
  import opened PacketProtocol
  import opened PacketStorage
  import opened PacketRoundTrip

  /** Between frames and within the invariant. */
  predicate Ready(l: Layout, r: Receiver) {
    l.Valid() && Invariant(l, r) && r.state == 0 && r.collected == []
  }

  lemma {:induction false} ReadyIsIdle(l: Layout, r: Receiver)
    requires Ready(l, r)
    ensures Idle(r) && Stored(r) && Base(r) == EndOf(r.packets)
  {
    hide Consecutive;
    InvariantStores(l, r);
  }

  // ---- one frame -------------------------------------------------------------------------------------------------

  /** An empty frame keeps the promises exactly when the receiver would record it where the last payload ends. */
  lemma {:induction false} EmptyFrame(l: Layout, r: Receiver, m: Message)
    requires Ready(l, r) && Fits(l, m) && m.payload == []
    ensures Stored(Done(l, r, m)) <==> Harmless(r)
    ensures Harmless(r) ==> Ready(l, Done(l, r, m)) && Harmless(Done(l, r, m))
    ensures Harmless(r) ==> EndOf(Done(l, r, m).packets) == EndOf(r.packets)
    ensures |Done(l, r, m).buffer| == |r.buffer|
  {
    hide Consecutive, Done;
    ReadyIsIdle(l, r);
    DoneEmpty(l, r, m);
    ConsecutiveSnoc(r.packets, Delivered(m, 0, r.begin));
    if Harmless(r) {
      InvariantStores(l, Done(l, r, m));
    }
  }

  /** A payload for which there is room is stored behind the others. */
  lemma {:induction false} PlainFrame(l: Layout, r: Receiver, m: Message)
    requires Ready(l, r) && Fits(l, m) && m.payload != [] && Room(r, |m.payload|)
    ensures Ready(l, Done(l, r, m)) && !Harmless(Done(l, r, m))
    ensures EndOf(Done(l, r, m).packets) == EndOf(r.packets) + |m.payload|
    ensures |Done(l, r, m).buffer| == |r.buffer|
  {
    hide Consecutive, Done;
    ReadyIsIdle(l, r);
    DonePlain(l, r, m);
    NextBeginIsEnd(r);
    ConsecutiveSnoc(r.packets, Delivered(m, |m.payload|, NextBegin(r)));
  }

  /** One for which there is none is refused at its body field, and leaves the begin pointer where payloads end. */
  lemma {:induction false} RefusedFrame(l: Layout, r: Receiver, m: Message)
    requires Ready(l, r) && Fits(l, m) && !Room(r, |m.payload|)
    ensures var s := Steps(l, Matched(r), Prefix(l, m));
            Ready(l, s) && Harmless(s) && s.packets == r.packets && s.buffer == r.buffer
  {
    hide Consecutive, Steps;
    ReadyIsIdle(l, r);
    PrefixDone(l, r, m);
    NextBeginIsEnd(r);
  }

  /** A frame whose length arrives negative breaks a promise with the first byte after its body field. */
  lemma {:induction false} NegativeFrame(l: Layout, r: Receiver, front: seq<Byte>, field: seq<Byte>, body: seq<Byte>,
                                         b: Byte)
    requires Ready(l, r) && DecodeLength(l, field) < 0
    requires |front| == l.frontSize && |field| == l.lengthSize && |body| == l.bodySize
    ensures !Stored(Steps(l, Matched(r), front + field + body + [b]))
  {
    hide Consecutive, Steps, DecodeLength;
    var h := Matched(r);
    FieldDone(l, h, 1, front);
    var r2 := r.(state := 2, collected := [], front := front);
    FieldDone(l, r2, 2, field);
    StepsAppend(l, h, front, field);
    var r3 := r2.(state := 3, length := DecodeLength(l, field));
    FieldDone(l, r3, 3, body);
    StepsAppend(l, h, front + field, body);
    NextBeginIsEnd(r);
    var s := BodyComplete(r3, body);
    BadByteBreaks(l, s, b);
    StepsSnoc(l, h, front + field + body, b);
    BrokenIsNotStored(StepByte(l, s, b));
  }

  /** Payloads from the field's limit up to its width arrive with a negative length. */
  lemma {:induction false} LongPayloadsArriveNegative(l: Layout, n: nat)
    requires l.Valid() && LengthLimit(l) <= n < Pow256(LengthWidth(l))
    ensures DecodeLength(l, EncodeLength(l, n)) < 0
  {
    LengthArrives(l, n);
    Remainder(0, Pow256(LengthWidth(l)), n);
  }

  // ---- many frames ---------------------------------------------------------------------------------------------

  /** A frame as it is taken in: whole, or up to its body field if there is no room for the payload. */
  function Arrive(l: Layout, r: Receiver, m: Message): Receiver {
    if Room(r, |m.payload|) then Done(l, r, m) else Steps(l, Matched(r), Prefix(l, m))
  }

  /** The promises hold before and after every frame. */
  predicate FramesStored(l: Layout, r: Receiver, ms: seq<Message>)
    decreases |ms|
  {
    Stored(r) && (ms == [] || FramesStored(l, Arrive(l, r, ms[0]), ms[1..]))
  }

  /**
   * No empty payload is sent unless the last non-empty one was refused; `used` bytes of `size` are taken, and
   * `refused` says whether the last non-empty payload before these was refused.
   */
  predicate EmptiesAfterRefusal(sizes: seq<nat>, used: nat, refused: bool, size: nat)
    decreases |sizes|
  {
    if sizes == [] then true
    else if used + sizes[0] > size then EmptiesAfterRefusal(sizes[1..], used, true, size)
    else if sizes[0] == 0 then refused && EmptiesAfterRefusal(sizes[1..], used, refused, size)
    else EmptiesAfterRefusal(sizes[1..], used + sizes[0], false, size)
  }

  function Sizes(ms: seq<Message>): seq<nat> {
    if ms == [] then [] else [|ms[0].payload|] + Sizes(ms[1..])
  }

  lemma {:induction false} FramesKeepFrom(l: Layout, r: Receiver, ms: seq<Message>)
    requires Ready(l, r) && AllFit(l, ms)
    ensures 0 <= EndOf(r.packets)
    ensures FramesStored(l, r, ms)
       <==> EmptiesAfterRefusal(Sizes(ms), EndOf(r.packets), Harmless(r), |r.buffer|)
    decreases |ms|
  {
    hide Done, Steps, Stored, Harmless, Invariant, Fits;
    ReadyIsIdle(l, r);
    EndIsNatural(l, r);
    if ms != [] {
      var m := ms[0];
      assert Sizes(ms)[0] == |m.payload| && Sizes(ms)[1..] == Sizes(ms[1..]);
      if !Room(r, |m.payload|) {
        RefusedFrame(l, r, m);
        FramesKeepFrom(l, Arrive(l, r, m), ms[1..]);
      } else if m.payload != [] {
        PlainFrame(l, r, m);
        FramesKeepFrom(l, Arrive(l, r, m), ms[1..]);
      } else {
        EmptyFrame(l, r, m);
        if Harmless(r) {
          FramesKeepFrom(l, Arrive(l, r, m), ms[1..]);
        }
      }
    }
  }

  lemma {:induction false} EndIsNatural(l: Layout, r: Receiver)
    requires Ready(l, r)
    ensures 0 <= EndOf(r.packets) <= |r.buffer|
  {
    hide Consecutive;
  }

  /**
   * On a new receiver, frames keep the promises exactly when every empty payload comes after a refused one with no
   * stored payload between: a condition on the sizes and the buffer alone.
   */
  lemma {:induction false} FramesKeep(l: Layout, buffer: seq<Byte>, front: seq<Byte>, length: int, body: seq<Byte>,
                                      end: seq<Byte>, ms: seq<Message>)
    requires l.Valid() && AllFit(l, ms)
    ensures FramesStored(l, Fresh(buffer, front, length, body, end), ms)
       <==> EmptiesAfterRefusal(Sizes(ms), 0, false, |buffer|)
  {
    hide FramesStored, Sizes, EmptiesAfterRefusal;
    FreshIsInvariant(l, buffer, front, length, body, end);
    FramesKeepFrom(l, Fresh(buffer, front, length, body, end), ms);
  }

  /** The smallest failing input: one empty frame. After a refused one it does no harm. */
  lemma {:induction false} FirstEmptyBreaks(l: Layout, buffer: seq<Byte>, front: seq<Byte>, length: int,
                                            body: seq<Byte>, end: seq<Byte>, m: Message, e: Message)
    requires l.Valid() && Fits(l, m) && Fits(l, e) && e.payload == [] && |m.payload| > |buffer|
    ensures var r := Fresh(buffer, front, length, body, end);
            !FramesStored(l, r, [e]) && FramesStored(l, r, [m, e])
  {
    hide FramesStored, Fits;
    FramesKeep(l, buffer, front, length, body, end, [e]);
    FramesKeep(l, buffer, front, length, body, end, [m, e]);
    assert [m, e][1..] == [e] && [e][1..] == [];
    var n := |m.payload|;
    assert Sizes([e]) == [0] && Sizes([m, e]) == [n, 0];
    assert [n, 0][1..] == [0] && [0][1..] == [];
    assert EmptiesAfterRefusal([0], 0, true, |buffer|) && !EmptiesAfterRefusal([0], 0, false, |buffer|);
  }
}
