/** Frames pushed through the receiver in chunks come out as the packets that were sent. */
module PacketRoundTrip {
  import opened Memory
  import opened Words
  import opened PacketProtocol

  // ---- feeding bytes with no head search ------------------------------------------------------------

  function Steps(l: Layout, r: Receiver, x: seq<Byte>): Receiver {
    if x == [] then r else StepByte(l, Steps(l, r, x[..|x| - 1]), x[|x| - 1])
  }

  lemma {:induction false} StepsSnoc(l: Layout, r: Receiver, x: seq<Byte>, b: Byte)
    ensures Steps(l, r, x + [b]) == StepByte(l, Steps(l, r, x), b)
  {
    assert (x + [b])[..|x|] == x;
  }

  lemma {:induction false} StepsAppend(l: Layout, r: Receiver, x: seq<Byte>, y: seq<Byte>)
    ensures Steps(l, r, x + y) == Steps(l, Steps(l, r, x), y)
  {
    hide StepByte;
    if y == [] {
      assert x + y == x;
    } else {
      var n := |y| - 1;
      StepsAppend(l, r, x, y[..n]);
      StepsSnoc(l, r, x + y[..n], y[n]);
      assert x + y == x + y[..n] + [y[n]];
      assert y == y[..n] + [y[n]];
      StepsSnoc(l, Steps(l, r, x), y[..n], y[n]);
    }
  }

  lemma {:induction false} StepsFaulted(l: Layout, r: Receiver, x: seq<Byte>)
    requires r.fault
    ensures Steps(l, r, x) == r
  {
    if x != [] {
      StepsFaulted(l, r, x[..|x| - 1]);
    }
  }

  /** In a field state at a field's start. */
  predicate AtField(l: Layout, r: Receiver, state: nat) {
    l.Valid() && !r.fault && r.state == state && state in {1, 2, 3, 5} && r.collected == []
  }

  lemma {:induction false} PartOfField(l: Layout, r: Receiver, state: nat, x: seq<Byte>)
    requires AtField(l, r, state) && |x| < FieldSize(l, state)
    ensures Steps(l, r, x) == r.(collected := x)
  {
    hide Completed;
    if x != [] {
      PartOfField(l, r, state, x[..|x| - 1]);
      assert x[..|x| - 1] + [x[|x| - 1]] == x;
    }
  }

  lemma {:induction false} WholeField(l: Layout, r: Receiver, state: nat, x: seq<Byte>)
    requires AtField(l, r, state) && |x| == FieldSize(l, state)
    ensures Steps(l, r, x) == Completed(l, r.(collected := x[..|x| - 1]), x)
  {
    hide Completed;
    PartOfField(l, r, state, x[..|x| - 1]);
    assert x[..|x| - 1] + [x[|x| - 1]] == x;
  }

  /** A whole field leaves nothing behind in the field buffer. */
  lemma {:induction false} FieldDone(l: Layout, r: Receiver, state: nat, x: seq<Byte>)
    requires AtField(l, r, state) && |x| == FieldSize(l, state)
    ensures Steps(l, r, x) == Completed(l, r, x)
  {
    WholeField(l, r, state, x);
  }

  // ---- payloads -----------------------------------------------------------------------------------------

  predicate AtPayload(r: Receiver, n: nat) {
    && !r.fault && r.state == 4 && r.collected == []
    && r.current.At? && 0 <= r.current.offset && r.current.offset + n <= |r.buffer| && r.stop == Plus(r.current, n)
  }

  function PayloadPart(r: Receiver, x: seq<Byte>): Receiver
    requires r.current.At? && 0 <= r.current.offset && r.current.offset + |x| <= |r.buffer|
  {
    r.(buffer := Overwritten(r.buffer, r.current.offset, x), current := Plus(r.current, |x|))
  }

  lemma {:induction false} PartOfPayload(l: Layout, r: Receiver, n: nat, x: seq<Byte>)
    requires AtPayload(r, n) && |x| < n
    ensures Steps(l, r, x) == PayloadPart(r, x)
  {
    if x == [] {
      assert Overwritten(r.buffer, r.current.offset, x) == r.buffer;
    } else {
      var k := |x| - 1;
      PartOfPayload(l, r, n, x[..k]);
      var at := r.current.offset;
      assert Overwritten(r.buffer, at, x[..k])[at + k := x[k]] == Overwritten(r.buffer, at, x);
    }
  }

  lemma {:induction false} WholePayload(l: Layout, r: Receiver, n: nat, x: seq<Byte>)
    requires AtPayload(r, n) && |x| == n && n > 0
    ensures Steps(l, r, x) == PayloadPart(r, x).(state := 5)
  {
    var k := |x| - 1;
    PartOfPayload(l, r, n, x[..k]);
    var at := r.current.offset;
    assert Overwritten(r.buffer, at, x[..k])[at + k := x[k]] == Overwritten(r.buffer, at, x);
  }

  // ---- one frame ------------------------------------------------------------------------------------------

  /** Between frames. While no payload has been stored, no packet points into the buffer. */
  predicate Idle(r: Receiver) {
    && !r.fault && r.state == 0 && r.collected == []
    && (r.current == NULL || (r.current.At? && 0 <= r.current.offset <= |r.buffer|))
    && (r.current == NULL ==> r.begin == NULL && forall p :: p in r.packets ==> p.data == NULL)
  }

  function Base(r: Receiver): int {
    if r.current.At? then r.current.offset else 0
  }

  predicate Room(r: Receiver, n: nat) {
    Base(r) + n <= |r.buffer|
  }

  /** The receiver once a frame's length field is in. */
  function Header(r: Receiver, m: Message): Receiver {
    r.(state := 3, collected := [], front := m.front, length := |m.payload|)
  }

  function Prefix(l: Layout, m: Message): seq<Byte> {
    m.front + EncodeLength(l, |m.payload|) + m.body
  }

  lemma {:induction false} HeaderDone(l: Layout, r: Receiver, m: Message)
    requires l.Valid() && Idle(r) && Fits(l, m)
    ensures Steps(l, Matched(r), m.front) == r.(state := 2, collected := [], front := m.front)
    ensures Steps(l, Matched(r), m.front + EncodeLength(l, |m.payload|)) == Header(r, m)
  {
    hide DecodeLength, EncodeLength, Steps;
    var field := EncodeLength(l, |m.payload|);
    FieldDone(l, Matched(r), 1, m.front);
    var r2 := r.(state := 2, collected := [], front := m.front);
    FieldDone(l, r2, 2, field);
    StepsAppend(l, Matched(r), m.front, field);
    LengthRoundTrip(l, |m.payload|);
  }

  lemma {:induction false} PrefixDone(l: Layout, r: Receiver, m: Message)
    requires l.Valid() && Idle(r) && Fits(l, m)
    ensures Steps(l, Matched(r), Prefix(l, m)) == BodyComplete(Header(r, m), m.body)
  {
    hide EncodeLength, Steps, BodyComplete;
    HeaderDone(l, r, m);
    FieldDone(l, Header(r, m), 3, m.body);
    StepsAppend(l, Matched(r), m.front + EncodeLength(l, |m.payload|), m.body);
  }

  /** The receiver after a whole frame. */
  function Done(l: Layout, r: Receiver, m: Message): Receiver {
    Steps(l, Matched(r), Rest(l, m))
  }

  function Delivered(m: Message, length: int, data: Pointer): Packet {
    Packet(m.front, m.body, m.end, length, data)
  }

  lemma {:induction false} DoneSplit(l: Layout, r: Receiver, m: Message)
    requires l.Valid() && Idle(r) && Fits(l, m)
    ensures Done(l, r, m) == Steps(l, Steps(l, BodyComplete(Header(r, m), m.body), m.payload), m.end)
  {
    hide Steps, BodyComplete;
    PrefixDone(l, r, m);
    StepsAppend(l, Matched(r), Prefix(l, m), m.payload);
    StepsAppend(l, Matched(r), Prefix(l, m) + m.payload, m.end);
  }

  /** A frame without payload: the packet inherits whatever begin pointer the receiver last had. */
  lemma {:induction false} DoneEmpty(l: Layout, r: Receiver, m: Message)
    requires l.Valid() && Idle(r) && Fits(l, m) && m.payload == []
    ensures Done(l, r, m)
         == r.(front := m.front, length := 0, body := m.body, end := m.end,
               packets := r.packets + [Delivered(m, 0, r.begin)])
  {
    DoneSplit(l, r, m);
    var s := BodyComplete(Header(r, m), m.body);
    assert Steps(l, s, m.payload) == s;
    FieldDone(l, s, 5, m.end);
  }

  /** A frame with payload, room for it and somewhere to put it. */
  lemma {:induction false} DonePlain(l: Layout, r: Receiver, m: Message)
    requires l.Valid() && Idle(r) && Fits(l, m) && m.payload != [] && Room(r, |m.payload|)
    requires r.current != NULL || r.packets == []
    ensures Done(l, r, m)
         == r.(front := m.front, length := |m.payload|, body := m.body, end := m.end,
               buffer := Overwritten(r.buffer, Base(r), m.payload),
               begin := NextBegin(r), current := At(Base(r) + |m.payload|), stop := At(Base(r) + |m.payload|),
               packets := r.packets + [Delivered(m, |m.payload|, NextBegin(r))])
  {
    hide Steps, Overwritten;
    DoneSplit(l, r, m);
    var s := BodyComplete(Header(r, m), m.body);
    WholePayload(l, s, |m.payload|, m.payload);
    FieldDone(l, PayloadPart(s, m.payload).(state := 5), 5, m.end);
  }

  /** A payload after packets that never got a buffer address: the code writes through a null pointer. */
  lemma {:induction false} DoneFault(l: Layout, r: Receiver, m: Message)
    requires l.Valid() && Idle(r) && Fits(l, m) && m.payload != []
    requires r.current == NULL && r.packets != []
    ensures Done(l, r, m).fault
    ensures forall k :: 0 < k <= |m.payload| ==>
              Steps(l, BodyComplete(Header(r, m), m.body), m.payload[..k]).fault
  {
    DoneSplit(l, r, m);
    var s := BodyComplete(Header(r, m), m.body);
    assert r.packets[|r.packets| - 1] in r.packets;
    forall k | 0 < k <= |m.payload|
      ensures Steps(l, s, m.payload[..k]).fault
    {
      assert m.payload[..k] == m.payload[..1] + m.payload[1..k];
      StepsAppend(l, s, m.payload[..1], m.payload[1..k]);
      FirstByteFaults(l, s, m.payload[..1]);
      StepsFaulted(l, Steps(l, s, m.payload[..1]), m.payload[1..k]);
    }
    assert m.payload[..|m.payload|] == m.payload;
    StepsFaulted(l, Steps(l, s, m.payload), m.end);
  }

  lemma {:induction false} FirstByteFaults(l: Layout, s: Receiver, x: seq<Byte>)
    requires !s.fault && s.state == 4 && s.current.Null? && |x| == 1
    ensures Steps(l, s, x).fault
  {
    assert Steps(l, s, x[..0]) == s;
  }

  /** Inside a frame the receiver is not searching for a head, so a head pattern in a payload goes unnoticed. */
  lemma {:induction false} Busy(l: Layout, r: Receiver, m: Message, k: nat)
    requires l.Valid() && Idle(r) && Fits(l, m) && Room(r, |m.payload|) && k < |Rest(l, m)|
    ensures var s := Steps(l, Matched(r), Rest(l, m)[..k]);
            s.fault || s.state != 0
  {
    hide Steps, DecodeLength, EncodeLength, BodyComplete;
    var field := EncodeLength(l, |m.payload|);
    var h := Matched(r);
    var rest := Rest(l, m);
    var f, g, b := l.frontSize, l.frontSize + l.lengthSize, l.frontSize + l.lengthSize + l.bodySize;
    HeaderDone(l, r, m);
    if k < f {
      assert rest[..k] == m.front[..k];
      PartOfField(l, h, 1, m.front[..k]);
    } else if k < g {
      assert rest[..k] == m.front + field[..k - f];
      StepsAppend(l, h, m.front, field[..k - f]);
      PartOfField(l, Steps(l, h, m.front), 2, field[..k - f]);
    } else if k < b {
      assert rest[..k] == m.front + field + m.body[..k - g];
      StepsAppend(l, h, m.front + field, m.body[..k - g]);
      PartOfField(l, Header(r, m), 3, m.body[..k - g]);
    } else {
      BusyAfterPrefix(l, r, m, k);
    }
  }

  lemma {:induction false} BusyAfterPrefix(l: Layout, r: Receiver, m: Message, k: nat)
    requires l.Valid() && Idle(r) && Fits(l, m) && Room(r, |m.payload|) && |Prefix(l, m)| <= k < |Rest(l, m)|
    ensures var s := Steps(l, Matched(r), Rest(l, m)[..k]);
            s.fault || s.state != 0
  {
    hide Steps, DecodeLength, EncodeLength;
    var b, n := |Prefix(l, m)|, |m.payload|;
    var s := BodyComplete(Header(r, m), m.body);
    PrefixDone(l, r, m);
    if k <= b + n {
      var x := m.payload[..k - b];
      assert Rest(l, m)[..k] == Prefix(l, m) + x;
      StepsAppend(l, Matched(r), Prefix(l, m), x);
      if x == [] {
        StepsNone(l, s);
      } else if r.current == NULL && r.packets != [] {
        DoneFault(l, r, m);
      } else if k < b + n {
        PartOfPayload(l, s, n, x);
      } else {
        WholePayload(l, s, n, x);
      }
    } else {
      var x := m.end[..k - b - n];
      assert Rest(l, m)[..k] == Prefix(l, m) + m.payload + x;
      StepsAppend(l, Matched(r), Prefix(l, m), m.payload);
      StepsAppend(l, Matched(r), Prefix(l, m) + m.payload, x);
      if n == 0 {
        StepsNone(l, s);
        PartOfField(l, s, 5, x);
      } else if r.current == NULL && r.packets != [] {
        DoneFault(l, r, m);
        assert m.payload[..n] == m.payload;
        StepsFaulted(l, Steps(l, s, m.payload), x);
      } else {
        WholePayload(l, s, n, m.payload);
        PartOfField(l, PayloadPart(s, m.payload).(state := 5), 5, x);
      }
    }
  }

  lemma {:induction false} StepsNone(l: Layout, r: Receiver)
    ensures Steps(l, r, []) == r
  {
  }

  // ---- many frames, in chunks ---------------------------------------------------------------------------------

  function Total(ms: seq<Message>): nat {
    if ms == [] then 0 else |ms[0].payload| + Total(ms[1..])
  }

  ghost predicate AllFit(l: Layout, ms: seq<Message>) {
    forall m :: m in ms ==> Fits(l, m)
  }

  /** Able to take all these frames without running out of buffer, or already past saving. */
  ghost predicate Able(l: Layout, r: Receiver, ms: seq<Message>) {
    l.Valid() && AllFit(l, ms) && (r.fault || (Idle(r) && Room(r, Total(ms))))
  }

  lemma {:induction false} DoneIsAble(l: Layout, r: Receiver, ms: seq<Message>)
    requires Able(l, r, ms) && ms != []
    ensures Able(l, Done(l, r, ms[0]), ms[1..])
  {
    hide Steps, Overwritten;
    var m := ms[0];
    if r.fault {
      StepsFaulted(l, r, Rest(l, m));
    } else if m.payload == [] {
      DoneEmpty(l, r, m);
    } else if r.current == NULL && r.packets != [] {
      DoneFault(l, r, m);
    } else {
      DonePlain(l, r, m);
    }
  }

  /** The receiver after whole frames. */
  function After(l: Layout, r: Receiver, ms: seq<Message>): Receiver
    decreases |ms|
  {
    if ms == [] then r else After(l, Done(l, r, ms[0]), ms[1..])
  }

  /** What a line carries: whole frames, and bytes between them that belong to no frame. */
  datatype Piece = Noise(bytes: seq<Byte>) | Whole(message: Message)

  function PieceBytes(l: Layout, piece: Piece): seq<Byte> {
    if piece.Noise? then piece.bytes else Frame(l, piece.message)
  }

  function Signal(l: Layout, ps: seq<Piece>): seq<Byte> {
    if ps == [] then [] else PieceBytes(l, ps[0]) + Signal(l, ps[1..])
  }

  /** The messages among the pieces. */
  function Sent(ps: seq<Piece>): seq<Message> {
    if ps == [] then [] else (if ps[0].Noise? then [] else [ps[0].message]) + Sent(ps[1..])
  }

  /** Frames end to end are a signal without noise. */
  function Frames(l: Layout, ms: seq<Message>): seq<Byte> {
    if ms == [] then [] else Frame(l, ms[0]) + Frames(l, ms[1..])
  }

  function Clean(ms: seq<Message>): seq<Piece> {
    if ms == [] then [] else [Whole(ms[0])] + Clean(ms[1..])
  }

  lemma {:induction false} CleanSignal(l: Layout, ms: seq<Message>)
    ensures Signal(l, Clean(ms)) == Frames(l, ms) && Sent(Clean(ms)) == ms
  {
    hide Frame;
    if ms != [] {
      CleanSignal(l, ms[1..]);
      assert Clean(ms)[1..] == Clean(ms[1..]);
    }
  }

  function AfterPiece(l: Layout, r: Receiver, piece: Piece): Receiver {
    if piece.Noise? then r else Done(l, r, piece.message)
  }

  lemma {:induction false} AfterPieceIsAble(l: Layout, r: Receiver, ps: seq<Piece>)
    requires Able(l, r, Sent(ps)) && ps != []
    ensures Able(l, AfterPiece(l, r, ps[0]), Sent(ps[1..]))
    ensures After(l, r, Sent(ps)) == After(l, AfterPiece(l, r, ps[0]), Sent(ps[1..]))
  {
    hide Done, Able;
    if ps[0].Whole? {
      DoneIsAble(l, r, Sent(ps));
      assert Sent(ps)[1..] == Sent(ps[1..]);
    } else {
      assert Sent(ps) == Sent(ps[1..]);
    }
  }

  /** Position p of the signal is not strictly inside a head. */
  predicate Boundary(l: Layout, ps: seq<Piece>, p: nat) {
    if ps == [] then p == 0
    else if p >= |PieceBytes(l, ps[0])| then Boundary(l, ps[1..], p - |PieceBytes(l, ps[0])|)
    else ps[0].Noise? || p == 0 || p >= |l.head|
  }

  predicate InNoise(l: Layout, ps: seq<Piece>, p: nat) {
    if ps == [] then false
    else if p >= |PieceBytes(l, ps[0])| then InNoise(l, ps[1..], p - |PieceBytes(l, ps[0])|)
    else ps[0].Noise?
  }

  predicate HeadAt(l: Layout, mem: seq<Byte>, q: nat) {
    q + |l.head| <= |mem| && mem[q..q + |l.head|] == l.head
  }

  /** No head is seen at a position of noise while mem[at..end], which carries the signal from p on, is fed. */
  predicate Quiet(l: Layout, ps: seq<Piece>, p: nat, mem: seq<Byte>, at: nat, end: nat)
    requires at <= end && end + |l.head| <= |mem| + 1
  {
    forall q: nat :: at <= q < end && HeadAt(l, mem, q) ==> !InNoise(l, ps, p + q - at)
  }

  /** The receiver after the first p bytes of the signal. */
  function Expect(l: Layout, r: Receiver, ps: seq<Piece>, p: nat): Receiver
    requires Boundary(l, ps, p)
    decreases |ps|
  {
    if ps == [] then r
    else if p >= |PieceBytes(l, ps[0])| then Expect(l, AfterPiece(l, r, ps[0]), ps[1..], p - |PieceBytes(l, ps[0])|)
    else if ps[0].Noise? || p == 0 then r
    else Steps(l, Matched(r), Rest(l, ps[0].message)[..p - |l.head|])
  }

  lemma {:induction false} ExpectAll(l: Layout, r: Receiver, ps: seq<Piece>)
    requires Able(l, r, Sent(ps))
    ensures Boundary(l, ps, |Signal(l, ps)|)
    ensures Expect(l, r, ps, |Signal(l, ps)|) == After(l, r, Sent(ps))
    decreases |ps|
  {
    hide AfterPiece, PieceBytes, Able, After;
    if ps != [] {
      AfterPieceIsAble(l, r, ps);
      ExpectAll(l, AfterPiece(l, r, ps[0]), ps[1..]);
    } else {
      AfterNothing(l, r);
    }
  }

  lemma {:induction false} AfterNothing(l: Layout, r: Receiver)
    ensures After(l, r, []) == r
  {
  }

  lemma {:induction false} BoundaryStart(l: Layout, ps: seq<Piece>)
    requires l.Valid()
    ensures Boundary(l, ps, 0)
  {
    if ps != [] {
      BoundaryStart(l, ps[1..]);
    }
  }

  lemma {:induction false} ExpectStart(l: Layout, r: Receiver, ps: seq<Piece>)
    requires l.Valid() && Boundary(l, ps, 0)
    ensures Expect(l, r, ps, 0) == r
  {
    if ps != [] && |PieceBytes(l, ps[0])| == 0 {
      assert ps[0].Noise?;
      ExpectStart(l, r, ps[1..]);
    }
  }

  /** A byte after the head takes one step. */
  lemma {:induction false} ExpectNext(l: Layout, r: Receiver, ps: seq<Piece>, p: nat)
    requires Able(l, r, Sent(ps)) && ps != [] && ps[0].Whole? && |l.head| <= p < |Frame(l, ps[0].message)|
    ensures Boundary(l, ps, p) && Boundary(l, ps, p + 1)
    ensures Expect(l, r, ps, p + 1) == StepByte(l, Expect(l, r, ps, p), Frame(l, ps[0].message)[p])
    ensures Expect(l, r, ps, p).fault || Expect(l, r, ps, p).state != 0
  {
    hide Steps, StepByte, EncodeLength;
    var m := ps[0].message;
    var rest, k := Rest(l, m), p - |l.head|;
    assert Sent(ps)[0] == m;
    assert rest[..k + 1] == rest[..k] + [rest[k]];
    StepsSnoc(l, Matched(r), rest[..k], rest[k]);
    if r.fault {
      StepsFaulted(l, r, rest[..k]);
    } else {
      Busy(l, r, m, k);
    }
    if p + 1 == |Frame(l, m)| {
      assert rest[..k + 1] == rest;
      BoundaryStart(l, ps[1..]);
      ExpectStart(l, Done(l, r, m), ps[1..]);
    }
  }

  /** A byte of noise leaves the receiver as it is. */
  lemma {:induction false} ExpectNoise(l: Layout, r: Receiver, ps: seq<Piece>, p: nat)
    requires l.Valid() && ps != [] && ps[0].Noise? && p < |ps[0].bytes|
    ensures Boundary(l, ps, p) && Boundary(l, ps, p + 1)
    ensures Expect(l, r, ps, p) == Expect(l, r, ps, p + 1) == r
  {
    if p + 1 == |ps[0].bytes| {
      BoundaryStart(l, ps[1..]);
      ExpectStart(l, r, ps[1..]);
    }
  }

  lemma {:induction false} FeedNoise(l: Layout, r: Receiver, mem: seq<Byte>, at: nat, end: nat)
    requires l.Valid() && at < end && end + |l.head| <= |mem| + 1
    requires r.fault || (r.state == 0 && mem[at..at + |l.head|] != l.head)
    ensures Feed(l, r, mem, at, end) == Feed(l, r, mem, at + 1, end)
  {
    hide StepByte;
  }

  lemma {:induction false} FeedByte(l: Layout, r: Receiver, mem: seq<Byte>, at: nat, end: nat)
    requires l.Valid() && at < end && end + |l.head| <= |mem| + 1
    requires r.fault || r.state != 0
    ensures Feed(l, r, mem, at, end) == Feed(l, StepByte(l, r, mem[at]), mem, at + 1, end)
  {
    hide PayloadByte, Completed;
  }

  lemma {:induction false} FeedNothing(l: Layout, r: Receiver, mem: seq<Byte>, at: nat)
    requires l.Valid() && at + |l.head| <= |mem| + 1
    ensures Feed(l, r, mem, at, at) == r
  {
  }

  lemma {:induction false} FeedMatch(l: Layout, r: Receiver, mem: seq<Byte>, at: nat, end: nat)
    requires l.Valid() && at < end && end + |l.head| <= |mem| + 1
    requires r.fault || (r.state == 0 && mem[at..at + |l.head|] == l.head)
    ensures Feed(l, r, mem, at, end) == Feed(l, Matched(r), mem, at + |l.head|, end)
  {
    hide StepByte;
  }

  lemma {:induction false} ExpectHead(l: Layout, r: Receiver, ps: seq<Piece>)
    requires l.Valid() && AllFit(l, Sent(ps)) && ps != [] && ps[0].Whole?
    ensures Boundary(l, ps, |l.head|) && Expect(l, r, ps, |l.head|) == Matched(r)
  {
    hide Steps, Done, EncodeLength;
    assert Sent(ps)[0] == ps[0].message;
    assert Rest(l, ps[0].message)[..0] == [];
    StepsNone(l, Matched(r));
  }

  lemma {:induction false} QuietLater(l: Layout, ps: seq<Piece>, p: nat, mem: seq<Byte>, at: nat, end: nat, k: nat)
    requires at + k <= end && end + |l.head| <= |mem| + 1 && Quiet(l, ps, p, mem, at, end)
    ensures Quiet(l, ps, p + k, mem, at + k, end)
  {
    hide InNoise, HeadAt;
    forall q: nat | at + k <= q < end && HeadAt(l, mem, q)
      ensures !InNoise(l, ps, p + k + q - (at + k))
    {
      assert p + k + q - (at + k) == p + q - at;
    }
  }

  lemma {:induction false} QuietAfterPiece(l: Layout, ps: seq<Piece>, p: nat, mem: seq<Byte>, at: nat, end: nat)
    requires at <= end && end + |l.head| <= |mem| + 1 && Quiet(l, ps, p, mem, at, end)
    requires ps != [] && p >= |PieceBytes(l, ps[0])|
    ensures Quiet(l, ps[1..], p - |PieceBytes(l, ps[0])|, mem, at, end)
  {
    hide HeadAt, PieceBytes;
    var f := |PieceBytes(l, ps[0])|;
    forall q: nat | at <= q < end && HeadAt(l, mem, q)
      ensures !InNoise(l, ps[1..], p - f + q - at)
    {
      assert p - f + q - at == p + q - at - f;
      assert !InNoise(l, ps, p + q - at);
    }
  }

  /** Behind the first piece, a position is one of the remaining pieces. */
  lemma {:induction false} PieceBehind(l: Layout, r: Receiver, ps: seq<Piece>, p: nat)
    requires ps != [] && p >= |PieceBytes(l, ps[0])|
    ensures var f := |PieceBytes(l, ps[0])|;
            && Boundary(l, ps, p) == Boundary(l, ps[1..], p - f)
            && (Boundary(l, ps, p) ==> Expect(l, r, ps, p) == Expect(l, AfterPiece(l, r, ps[0]), ps[1..], p - f))
  {
    hide PieceBytes, AfterPiece;
  }

  lemma {:induction false} SignalBehind(l: Layout, ps: seq<Piece>, p: nat, q: nat)
    requires ps != [] && |PieceBytes(l, ps[0])| <= p <= q <= |Signal(l, ps)|
    ensures var f := |PieceBytes(l, ps[0])|;
            && q - f <= |Signal(l, ps[1..])|
            && Signal(l, ps)[p..q] == Signal(l, ps[1..])[p - f..q - f]
  {
    hide PieceBytes;
  }

  lemma {:induction false} SignalWithin(l: Layout, ps: seq<Piece>, p: nat)
    requires ps != [] && p < |PieceBytes(l, ps[0])|
    ensures p < |Signal(l, ps)| && Signal(l, ps)[p] == PieceBytes(l, ps[0])[p]
  {
    hide PieceBytes;
  }

  lemma {:induction false} SignalNone(l: Layout, ps: seq<Piece>, p: nat)
    requires p < |Signal(l, ps)|
    ensures ps != []
  {
  }

  /** Feeding one byte of the first piece, but not of a head. */
  lemma {:induction false} FeedWithin(l: Layout, r: Receiver, ps: seq<Piece>, p: nat, mem: seq<Byte>, at: nat, end: nat)
    requires Able(l, r, Sent(ps)) && ps != [] && p < |PieceBytes(l, ps[0])|
    requires at < end && end + |l.head| <= |mem| + 1
    requires mem[at] == PieceBytes(l, ps[0])[p] && Quiet(l, ps, p, mem, at, end)
    requires Boundary(l, ps, p) && (ps[0].Noise? || p != 0)
    ensures Boundary(l, ps, p + 1)
    ensures Feed(l, Expect(l, r, ps, p), mem, at, end) == Feed(l, Expect(l, r, ps, p + 1), mem, at + 1, end)
  {
    hide Steps, AfterPiece, StepByte, Rest, Feed, Quiet, Sent, After;
    if ps[0].Whole? {
      ExpectNext(l, r, ps, p);
      FeedByte(l, Expect(l, r, ps, p), mem, at, end);
    } else {
      ExpectNoise(l, r, ps, p);
      QuietHere(l, ps, p, mem, at, end);
      FeedNoise(l, r, mem, at, end);
    }
  }

  /** Feeding a stretch of the signal between two boundaries takes the receiver from one to the other. */
  lemma {:induction false} FeedStretch(l: Layout, r: Receiver, ps: seq<Piece>, p: nat,
                                       mem: seq<Byte>, at: nat, end: nat)
    requires Able(l, r, Sent(ps))
    requires at <= end && end + |l.head| <= |mem| + 1 && p + (end - at) <= |Signal(l, ps)|
    requires mem[at..end] == Signal(l, ps)[p..p + (end - at)] && Quiet(l, ps, p, mem, at, end)
    requires Boundary(l, ps, p) && Boundary(l, ps, p + (end - at))
    ensures Feed(l, Expect(l, r, ps, p), mem, at, end) == Expect(l, r, ps, p + (end - at))
    decreases |ps|, end - at
  {
    hide *;
    IdleStart(l, r, ps);
    if at == end {
      FeedNothing(l, Expect(l, r, ps, p), mem, at);
    } else {
      var n := end - at;
      SignalNone(l, ps, p);
      var f := |PieceBytes(l, ps[0])|;
      if p >= f {
        SignalBehind(l, ps, p, p + n);
        PieceBehind(l, r, ps, p);
        PieceBehind(l, r, ps, p + n);
        AfterPieceIsAble(l, r, ps);
        QuietAfterPiece(l, ps, p, mem, at, end);
        FeedStretch(l, AfterPiece(l, r, ps[0]), ps[1..], p - f, mem, at, end);
      } else if ps[0].Whole? && p == 0 {
        FeedHead(l, r, ps, mem, at, end);
      } else {
        SignalWithin(l, ps, p);
        assert mem[at] == mem[at..end][0] == Signal(l, ps)[p];
        FeedWithin(l, r, ps, p, mem, at, end);
        assert mem[at + 1..end] == mem[at..end][1..];
        assert Signal(l, ps)[p + 1..p + n] == Signal(l, ps)[p..p + n][1..];
        QuietLater(l, ps, p, mem, at, end, 1);
        FeedStretch(l, r, ps, p + 1, mem, at + 1, end);
      }
    }
  }

  lemma {:induction false} QuietHere(l: Layout, ps: seq<Piece>, p: nat, mem: seq<Byte>, at: nat, end: nat)
    requires at < end && end + |l.head| <= |mem| + 1 && Quiet(l, ps, p, mem, at, end)
    requires ps != [] && ps[0].Noise? && p < |ps[0].bytes|
    ensures mem[at..at + |l.head|] != l.head
  {
    assert InNoise(l, ps, p + at - at);
    assert !HeadAt(l, mem, at);
  }

  lemma {:induction false} FeedHead(l: Layout, r: Receiver, ps: seq<Piece>, mem: seq<Byte>, at: nat, end: nat)
    requires Able(l, r, Sent(ps)) && ps != [] && ps[0].Whole?
    requires at < end && end + |l.head| <= |mem| + 1 && end - at <= |Signal(l, ps)|
    requires mem[at..end] == Signal(l, ps)[..end - at] && Quiet(l, ps, 0, mem, at, end)
    requires Boundary(l, ps, end - at)
    ensures Boundary(l, ps, 0)
    ensures Feed(l, Expect(l, r, ps, 0), mem, at, end) == Expect(l, r, ps, end - at)
    decreases |ps|, end - at, 0
  {
    hide *;
    IdleStart(l, r, ps);
    var h, n := |l.head|, end - at;
    HeadIsSent(l, ps, n);
    assert mem[at..at + h] == mem[at..end][..h] == Signal(l, ps)[..h];
    ExpectHead(l, r, ps);
    BoundaryStart(l, ps);
    ExpectStart(l, r, ps);
    FeedMatch(l, r, mem, at, end);
    assert mem[at + h..end] == mem[at..end][h..] == Signal(l, ps)[h..n];
    QuietLater(l, ps, 0, mem, at, end, h);
    FeedStretch(l, r, ps, h, mem, at + h, end);
  }

  lemma {:induction false} HeadIsSent(l: Layout, ps: seq<Piece>, n: nat)
    requires ps != [] && ps[0].Whole? && 0 < n <= |Signal(l, ps)| && Boundary(l, ps, n)
    ensures |l.head| <= n && Signal(l, ps)[..|l.head|] == l.head
  {
    hide Rest;
  }

  lemma {:induction false} IdleStart(l: Layout, r: Receiver, ps: seq<Piece>)
    requires Able(l, r, Sent(ps))
    ensures l.Valid() && |l.head| > 0 && AllFit(l, Sent(ps)) && (r.fault || r.state == 0)
  {
  }

  function Stream(cs: seq<Chunk>): seq<Byte> {
    if cs == [] then [] else cs[0].data + Stream(cs[1..])
  }

  /** No chunk ends strictly inside a head. */
  predicate HeadsWhole(l: Layout, ps: seq<Piece>, cs: seq<Chunk>, p: nat) {
    cs == [] || (Boundary(l, ps, p + |cs[0].data|) && HeadsWhole(l, ps, cs[1..], p + |cs[0].data|))
  }

  /** No noise looks like a head, together with what follows it in the signal or, at a chunk's end, in memory. */
  ghost predicate NoFalseHead(l: Layout, ps: seq<Piece>, cs: seq<Chunk>, p: nat)
    requires l.Valid() && Readable(l, cs)
    decreases |cs|
  {
    cs == [] ||
    (Quiet(l, ps, p, cs[0].data + cs[0].beyond, 0, |cs[0].data|) && NoFalseHead(l, ps, cs[1..], p + |cs[0].data|))
  }

  lemma {:induction false} PushChunks(l: Layout, r: Receiver, ps: seq<Piece>, cs: seq<Chunk>, p: nat)
    requires Able(l, r, Sent(ps)) && Readable(l, cs)
    requires p <= |Signal(l, ps)| && Signal(l, ps)[p..] == Stream(cs)
    requires Boundary(l, ps, p) && HeadsWhole(l, ps, cs, p) && NoFalseHead(l, ps, cs, p)
    ensures PushAll(l, Expect(l, r, ps, p), cs) == After(l, r, Sent(ps))
    decreases |cs|
  {
    hide Expect, Signal, Sent, After, Boundary, Feed, Quiet;
    if cs == [] {
      ExpectAll(l, r, ps);
    } else {
      var c := cs[0];
      var n := |c.data|;
      assert Signal(l, ps)[p..p + n] == Signal(l, ps)[p..][..n] == c.data;
      assert (c.data + c.beyond)[0..n] == c.data;
      FeedStretch(l, r, ps, p, c.data + c.beyond, 0, n);
      assert Signal(l, ps)[p + n..] == Signal(l, ps)[p..][n..] == Stream(cs[1..]);
      PushChunks(l, r, ps, cs[1..], p + n);
    }
  }

  /**
   * However the signal is cut, short of cutting a head, and whatever noise lies between the frames, short of a false
   * head, the receiver ends up where the whole frames take it.
   */
  lemma {:induction false} PushingIsChunkBlind(l: Layout, r: Receiver, ps: seq<Piece>, cs: seq<Chunk>)
    requires Able(l, r, Sent(ps)) && Readable(l, cs)
    requires Signal(l, ps) == Stream(cs) && HeadsWhole(l, ps, cs, 0) && NoFalseHead(l, ps, cs, 0)
    ensures PushAll(l, r, cs) == After(l, r, Sent(ps))
  {
    hide Expect, Signal, Sent, After, PushAll, HeadsWhole, Stream, NoFalseHead;
    BoundaryStart(l, ps);
    ExpectStart(l, r, ps);
    assert Signal(l, ps)[0..] == Signal(l, ps);
    PushChunks(l, r, ps, cs, 0);
  }

  // ---- what the frames leave behind ------------------------------------------------------------------------------

  /** Packet k of r is message k, and a non-empty payload lies where the payloads before it end. */
  predicate Matches(r: Receiver, ms: seq<Message>, k: nat)
    requires k < |ms|
  {
    && k < |r.packets|
    && var p := r.packets[k];
    && var m := ms[k];
    && p.front == m.front && p.body == m.body && p.end == m.end && p.length == |m.payload|
    && (m.payload != [] ==>
          && p.data == At(Total(ms[..k])) && p.data.offset + p.length <= |r.buffer|
          && r.buffer[p.data.offset..p.data.offset + p.length] == m.payload)
  }

  /** The receiver holds exactly the messages, in order. */
  ghost predicate Received(r: Receiver, ms: seq<Message>) {
    !r.fault && |r.packets| == |ms| && forall k :: 0 <= k < |ms| ==> Matches(r, ms, k)
  }

  /** No frame with an empty payload comes before one with a payload. */
  ghost predicate EmptiesLast(ms: seq<Message>) {
    forall i, j :: 0 <= i < j < |ms| && ms[i].payload == [] ==> ms[j].payload == []
  }

  /** Where the pointers stand after messages ps, none of whose empties precede a payload. */
  ghost predicate Tidy(r: Receiver, ps: seq<Message>) {
    && Idle(r) && Received(r, ps)
    && Total(ps) <= |r.buffer|
    && if Total(ps) == 0 then r.current == NULL && r.begin == NULL
       else
         && r.current == At(Total(ps)) && r.begin.At? && 0 <= r.begin.offset < r.current.offset
         && var last := r.packets[|ps| - 1];
         && ps != []
         && last.data == r.begin
         && (ps[|ps| - 1].payload != [] ==> Plus(last.data, last.length) == r.current)
  }

  lemma {:induction false} TotalSnoc(ps: seq<Message>, m: Message)
    ensures Total(ps + [m]) == Total(ps) + |m.payload|
  {
    if ps == [] {
      assert ([] + [m])[1..] == [];
    } else {
      assert (ps + [m])[1..] == ps[1..] + [m];
      TotalSnoc(ps[1..], m);
    }
  }

  lemma {:induction false} TotalTake(ps: seq<Message>, k: nat)
    requires k < |ps|
    ensures Total(ps[..k]) + |ps[k].payload| <= Total(ps)
  {
    if k == |ps| - 1 {
      assert ps == ps[..k] + [ps[k]];
      TotalSnoc(ps[..k], ps[k]);
    } else {
      var n := |ps| - 1;
      assert ps == ps[..n] + [ps[n]] && ps[..n][..k] == ps[..k];
      TotalSnoc(ps[..n], ps[n]);
      TotalTake(ps[..n], k);
    }
  }

  lemma {:induction false} TotalZero(ps: seq<Message>)
    ensures Total(ps) == 0 <==> forall k :: 0 <= k < |ps| ==> ps[k].payload == []
  {
    if ps != [] {
      TotalZero(ps[1..]);
      assert forall k :: 0 <= k < |ps| - 1 ==> ps[1..][k] == ps[k + 1];
      if forall k :: 0 <= k < |ps| ==> ps[k].payload == [] {
        assert ps[0].payload == [];
      }
    }
  }

  /** Appending a packet and writing behind the stored payloads disturbs nothing recorded before. */
  lemma {:induction false} MatchesKept(r: Receiver, s: Receiver, ps: seq<Message>, m: Message, k: nat)
    requires k < |ps| && Matches(r, ps, k)
    requires Total(ps) <= |r.buffer| == |s.buffer| && r.buffer[..Total(ps)] == s.buffer[..Total(ps)]
    requires |s.packets| == |r.packets| + 1 && s.packets[..|r.packets|] == r.packets
    ensures Matches(s, ps + [m], k)
  {
    assert (ps + [m])[..k] == ps[..k] && (ps + [m])[k] == ps[k];
    assert s.packets[k] == s.packets[..|r.packets|][k];
    TotalTake(ps, k);
    var p := r.packets[k];
    if ps[k].payload != [] {
      var at := p.data.offset;
      assert r.buffer[at..at + p.length] == r.buffer[..Total(ps)][at..at + p.length];
      assert s.buffer[at..at + p.length] == s.buffer[..Total(ps)][at..at + p.length];
    }
  }

  lemma {:induction false} TidyEmpty(l: Layout, r: Receiver, ps: seq<Message>, m: Message)
    requires l.Valid() && Fits(l, m) && Tidy(r, ps) && m.payload == []
    ensures Tidy(Done(l, r, m), ps + [m])
  {
    hide Done, Matches;
    DoneEmpty(l, r, m);
    var s := Done(l, r, m);
    TotalSnoc(ps, m);
    forall k | 0 <= k < |ps| + 1
      ensures Matches(s, ps + [m], k)
    {
      if k < |ps| {
        MatchesKept(r, s, ps, m, k);
      } else {
        LastEmptyMatches(s, ps, m, r.begin);
      }
    }
  }

  lemma {:induction false} LastEmptyMatches(s: Receiver, ps: seq<Message>, m: Message, begin: Pointer)
    requires |s.packets| == |ps| + 1 && s.packets[|ps|] == Delivered(m, 0, begin) && m.payload == []
    ensures Matches(s, ps + [m], |ps|)
  {
  }

  lemma {:induction false} TidyPlain(l: Layout, r: Receiver, ps: seq<Message>, m: Message)
    requires l.Valid() && Fits(l, m) && Tidy(r, ps) && m.payload != [] && Room(r, |m.payload|)
    requires ps == [] || ps[|ps| - 1].payload != []
    ensures Tidy(Done(l, r, m), ps + [m])
  {
    hide Done, Matches;
    var t, n := Total(ps), |m.payload|;
    TotalZero(ps);
    assert Base(r) == t && NextBegin(r) == At(t);
    DonePlain(l, r, m);
    var s := Done(l, r, m);
    TotalSnoc(ps, m);
    forall k | 0 <= k < |ps| + 1
      ensures Matches(s, ps + [m], k)
    {
      if k < |ps| {
        MatchesKept(r, s, ps, m, k);
      } else {
        LastPlainMatches(r, s, ps, m);
      }
    }
  }

  lemma {:induction false} LastPlainMatches(r: Receiver, s: Receiver, ps: seq<Message>, m: Message)
    requires Total(ps) + |m.payload| <= |r.buffer| && s.buffer == Overwritten(r.buffer, Total(ps), m.payload)
    requires |s.packets| == |ps| + 1 && s.packets[|ps|] == Delivered(m, |m.payload|, At(Total(ps)))
    ensures Matches(s, ps + [m], |ps|)
  {
    assert (ps + [m])[..|ps|] == ps;
    assert s.buffer[Total(ps)..Total(ps) + |m.payload|] == m.payload;
  }

  /** Packets are only ever added. */
  lemma {:induction false} PacketsGrow(l: Layout, r: Receiver, ms: seq<Message>)
    requires Able(l, r, ms)
    ensures After(l, r, ms).fault || r.packets <= After(l, r, ms).packets
    ensures r.fault ==> After(l, r, ms) == r
    decreases |ms|
  {
    hide Done;
    if ms != [] {
      var m := ms[0];
      DoneIsAble(l, r, ms);
      PacketsGrow(l, Done(l, r, m), ms[1..]);
      if r.fault {
        DoneFaulted(l, r, m);
      } else if m.payload == [] {
        DoneEmpty(l, r, m);
      } else if r.current == NULL && r.packets != [] {
        DoneFault(l, r, m);
      } else {
        DonePlain(l, r, m);
      }
    }
  }

  lemma {:induction false} DoneFaulted(l: Layout, r: Receiver, m: Message)
    requires r.fault
    ensures Done(l, r, m) == r
  {
    StepsFaulted(l, r, Rest(l, m));
  }

  /** A payload after an empty frame is recorded at an address where it does not lie, or is written through null. */
  lemma {:induction false} PayloadAfterEmpty(l: Layout, r: Receiver, ps: seq<Message>, m: Message)
    requires l.Valid() && Fits(l, m) && Tidy(r, ps) && m.payload != [] && Room(r, |m.payload|)
    requires ps != [] && ps[|ps| - 1].payload == []
    ensures var s := Done(l, r, m);
            s.fault || (|s.packets| == |ps| + 1 && s.packets[|ps|].data != At(Total(ps)))
  {
    hide Done;
    assert Matches(r, ps, |ps| - 1);
    if Total(ps) == 0 {
      DoneFault(l, r, m);
    } else {
      DonePlain(l, r, m);
    }
  }

  lemma {:induction false} Outcome(l: Layout, r: Receiver, ps: seq<Message>, ms: seq<Message>)
    requires Able(l, r, ms) && Tidy(r, ps) && EmptiesLast(ps)
    ensures Received(After(l, r, ms), ps + ms) <==> EmptiesLast(ps + ms)
    decreases |ms|
  {
    hide Done, Matches;
    if ms == [] {
      assert ps + ms == ps;
    } else {
      var m := ms[0];
      DoneIsAble(l, r, ms);
      assert ps + ms == ps + [m] + ms[1..];
      if m.payload != [] && ps != [] && ps[|ps| - 1].payload == [] {
        PayloadAfterEmpty(l, r, ps, m);
        PacketsGrow(l, Done(l, r, m), ms[1..]);
        NotReceived(l, r, ps, ms);
        assert (ps + ms)[|ps| - 1].payload == [] && (ps + ms)[|ps|].payload != [];
      } else {
        if m.payload == [] {
          TidyEmpty(l, r, ps, m);
        } else {
          TidyPlain(l, r, ps, m);
        }
        EmptiesLastSnoc(ps, m);
        Outcome(l, Done(l, r, m), ps + [m], ms[1..]);
      }
    }
  }

  lemma {:induction false} EmptiesLastSnoc(ps: seq<Message>, m: Message)
    requires EmptiesLast(ps) && (m.payload == [] || ps == [] || ps[|ps| - 1].payload != [])
    ensures EmptiesLast(ps + [m])
  {
    var qs := ps + [m];
    forall i, j | 0 <= i < j < |qs| && qs[i].payload == []
      ensures qs[j].payload == []
    {
      assert qs[i] == ps[i];
      if j < |ps| {
        assert qs[j] == ps[j];
      } else if i < |ps| - 1 {
        assert ps[|ps| - 1].payload == [];
      }
    }
  }

  lemma {:induction false} NotReceived(l: Layout, r: Receiver, ps: seq<Message>, ms: seq<Message>)
    requires ms != [] && ms[0].payload != []
    requires var s := Done(l, r, ms[0]); s.fault || (|s.packets| == |ps| + 1 && s.packets[|ps|].data != At(Total(ps)))
    requires var t := After(l, r, ms); t.fault || Done(l, r, ms[0]).packets <= t.packets
    requires Done(l, r, ms[0]).fault ==> After(l, r, ms).fault
    ensures !Received(After(l, r, ms), ps + ms)
  {
    hide Done, After, Total;
    var t := After(l, r, ms);
    assert (ps + ms)[..|ps|] == ps && (ps + ms)[|ps|] == ms[0];
    if !t.fault {
      assert !Matches(t, ps + ms, |ps|);
    }
  }

  // ---- what could never be received -------------------------------------------------------------------------------

  /** Every length that came in is one the field can carry, and the buffer keeps its size. */
  predicate Carried(l: Layout, r: Receiver, size: nat) {
    && |r.buffer| == size && r.state <= 5
    && (r.state >= 3 ==> r.length < LengthLimit(l))
    && forall i :: 0 <= i < |r.packets| ==> r.packets[i].length < LengthLimit(l)
  }

  lemma {:induction false} DecodedIsBelowLimit(l: Layout, b: seq<Byte>)
    ensures DecodeLength(l, b) < LengthLimit(l)
  {
  }

  lemma {:induction false} StepCarries(l: Layout, r: Receiver, b: Byte, size: nat)
    requires l.Valid() && Carried(l, r, size) && r.state != 0
    ensures Carried(l, StepByte(l, r, b), size)
  {
    hide DecodeLength, LengthLimit;
    DecodedIsBelowLimit(l, r.collected + [b]);
  }

  lemma {:induction false} FeedCarries(l: Layout, r: Receiver, mem: seq<Byte>, at: nat, end: nat, size: nat)
    requires l.Valid() && end + |l.head| <= |mem| + 1 && Carried(l, r, size)
    ensures Carried(l, Feed(l, r, mem, at, end), size)
    decreases end - at
  {
    hide StepByte, LengthLimit;
    if at < end && !r.fault {
      if r.state == 0 {
        if mem[at..at + |l.head|] == l.head {
          FeedCarries(l, Matched(r), mem, at + |l.head|, end, size);
        } else {
          FeedCarries(l, r, mem, at + 1, end, size);
        }
      } else {
        StepCarries(l, r, mem[at], size);
        FeedCarries(l, StepByte(l, r, mem[at]), mem, at + 1, end, size);
      }
    }
  }

  lemma {:induction false} PushesCarry(l: Layout, r: Receiver, cs: seq<Chunk>, size: nat)
    requires l.Valid() && Readable(l, cs) && Carried(l, r, size)
    ensures Carried(l, PushAll(l, r, cs), size)
    decreases |cs|
  {
    hide Feed, Carried;
    if cs != [] {
      var mem, n := cs[0].data + cs[0].beyond, |cs[0].data|;
      FeedCarries(l, r, mem, 0, n, size);
      PushesCarry(l, Feed(l, r, mem, 0, n), cs[1..], size);
    }
  }

  lemma {:induction false} ReceivedFits(r: Receiver, ms: seq<Message>, k: nat)
    requires Received(r, ms) && k <= |ms|
    ensures Total(ms[..k]) <= |r.buffer|
  {
    if k > 0 {
      ReceivedFits(r, ms, k - 1);
      assert Matches(r, ms, k - 1);
      assert ms[..k] == ms[..k - 1] + [ms[k - 1]];
      TotalSnoc(ms[..k - 1], ms[k - 1]);
    }
  }

  /** Whatever bytes arrive, messages that came out had lengths the field can carry and payloads the buffer can hold. */
  lemma {:induction false} OnlyPossibleIsReceived(l: Layout, r: Receiver, cs: seq<Chunk>, ms: seq<Message>)
    requires l.Valid() && Readable(l, cs) && Tidy(r, []) && Received(PushAll(l, r, cs), ms)
    ensures (forall i :: 0 <= i < |ms| ==> |ms[i].payload| < LengthLimit(l)) && Total(ms) <= |r.buffer|
  {
    hide PushAll, Total, Tidy, LengthLimit;
    TidyIsCarried(l, r);
    PushesCarry(l, r, cs, |r.buffer|);
    ReceivedFits(PushAll(l, r, cs), ms, |ms|);
    assert ms[..|ms|] == ms;
    forall i | 0 <= i < |ms|
      ensures |ms[i].payload| < LengthLimit(l)
    {
      assert Matches(PushAll(l, r, cs), ms, i);
    }
  }

  lemma {:induction false} TidyIsCarried(l: Layout, r: Receiver)
    requires Tidy(r, [])
    ensures Carried(l, r, |r.buffer|)
  {
  }

  // ---- the round trip ---------------------------------------------------------------------------------------------

  ghost predicate AllShaped(l: Layout, ms: seq<Message>) {
    forall m :: m in ms ==> Shaped(l, m)
  }

  /** The lengths fit their field, the payloads fit the buffer, and no empty payload comes before a payload. */
  ghost predicate Receivable(l: Layout, ms: seq<Message>, size: nat) {
    (forall i :: 0 <= i < |ms| ==> |ms[i].payload| < LengthLimit(l)) && Total(ms) <= size && EmptiesLast(ms)
  }

  /**
   * The round trip. Frames, with or without noise between them, are pushed in any chunks that cut no head. They come
   * out as exactly the messages sent, each payload in its place, if and only if each length fits its field, all
   * payloads fit the buffer, and no empty payload comes before a payload.
   */
  lemma {:induction false} RoundTrip(l: Layout, r: Receiver, ps: seq<Piece>, cs: seq<Chunk>)
    requires l.Valid() && Readable(l, cs) && AllShaped(l, Sent(ps)) && Tidy(r, [])
    requires Stream(cs) == Signal(l, ps) && HeadsWhole(l, ps, cs, 0) && NoFalseHead(l, ps, cs, 0)
    ensures Received(PushAll(l, r, cs), Sent(ps)) <==> Receivable(l, Sent(ps), |r.buffer|)
  {
    hide Signal, Sent, After, PushAll, HeadsWhole, Stream, NoFalseHead, Total, Received, EmptiesLast, LengthLimit;
    var ms := Sent(ps);
    if Received(PushAll(l, r, cs), ms) {
      OnlyPossibleIsReceived(l, r, cs, ms);
    }
    if (forall i :: 0 <= i < |ms| ==> |ms[i].payload| < LengthLimit(l)) && Total(ms) <= |r.buffer| {
      TidyIsAble(l, r, ms);
      PushingIsChunkBlind(l, r, ps, cs);
      NoneYet();
      Outcome(l, r, [], ms);
      assert [] + ms == ms;
    }
  }

  lemma {:induction false} TidyIsAble(l: Layout, r: Receiver, ms: seq<Message>)
    requires l.Valid() && AllShaped(l, ms) && Tidy(r, []) && Total(ms) <= |r.buffer|
    requires forall i :: 0 <= i < |ms| ==> |ms[i].payload| < LengthLimit(l)
    ensures Able(l, r, ms)
  {
    hide LengthLimit;
  }

  lemma {:induction false} NoneYet()
    ensures EmptiesLast([])
  {
  }

  /** Frames end to end: nothing but the messages and the cuts matters. */
  lemma {:induction false} FramesRoundTrip(l: Layout, r: Receiver, ms: seq<Message>, cs: seq<Chunk>)
    requires l.Valid() && Readable(l, cs) && AllShaped(l, ms) && Tidy(r, [])
    requires Stream(cs) == Frames(l, ms) && HeadsWhole(l, Clean(ms), cs, 0)
    ensures Received(PushAll(l, r, cs), ms) <==> Receivable(l, ms, |r.buffer|)
  {
    hide Signal, Sent, Clean, Frames, PushAll, HeadsWhole, Stream, Received, NoFalseHead, Receivable;
    CleanSignal(l, ms);
    CleanIsQuiet(l, ms, cs, 0);
    RoundTrip(l, r, Clean(ms), cs);
  }

  lemma {:induction false} CleanHasNoNoise(l: Layout, ms: seq<Message>, p: nat)
    ensures !InNoise(l, Clean(ms), p)
  {
    hide PieceBytes;
    if ms != [] && p >= |PieceBytes(l, Clean(ms)[0])| {
      CleanHasNoNoise(l, ms[1..], p - |PieceBytes(l, Clean(ms)[0])|);
      assert Clean(ms)[1..] == Clean(ms[1..]);
    }
  }

  lemma {:induction false} CleanIsQuiet(l: Layout, ms: seq<Message>, cs: seq<Chunk>, p: nat)
    requires l.Valid() && Readable(l, cs)
    ensures NoFalseHead(l, Clean(ms), cs, p)
    decreases |cs|
  {
    hide InNoise, Clean;
    forall q: nat
      ensures !InNoise(l, Clean(ms), q)
    {
      CleanHasNoNoise(l, ms, q);
    }
    if cs != [] {
      CleanIsQuiet(l, ms, cs[1..], p + |cs[0].data|);
    }
  }

  /** The smallest exchange that goes wrong: an empty payload and then a payload. */
  lemma {:induction false} PayloadAfterEmptyIsLost(l: Layout, r: Receiver, e: Message, m: Message, cs: seq<Chunk>)
    requires l.Valid() && Readable(l, cs) && Shaped(l, e) && Shaped(l, m) && Tidy(r, [])
    requires e.payload == [] && m.payload != []
    requires Stream(cs) == Frames(l, [e, m]) && HeadsWhole(l, Clean([e, m]), cs, 0)
    ensures !Received(PushAll(l, r, cs), [e, m])
  {
    hide Frames, Clean, PushAll, HeadsWhole, Stream, Received, Total, LengthLimit;
    FramesRoundTrip(l, r, [e, m], cs);
    assert [e, m][0] == e && [e, m][1] == m;
  }

  /** A new receiver, and one that has been cleared between frames, can start an exchange. */
  lemma {:induction false} FreshIsTidy(buffer: seq<Byte>, front: seq<Byte>, length: int, body: seq<Byte>,
                                       end: seq<Byte>)
    ensures Tidy(Fresh(buffer, front, length, body, end), [])
  {
  }

  lemma {:induction false} ClearedIsTidy(r: Receiver, ps: seq<Message>)
    requires Tidy(r, ps) && !Below(r.current, r.stop)
    ensures Tidy(Cleared(r), [])
  {
  }
}
