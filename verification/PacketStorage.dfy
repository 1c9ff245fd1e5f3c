/** Where the receiver keeps payloads: what it promises, and exactly which bytes and runs keep the promise. */
module PacketStorage {
  import opened Words
  import opened PacketProtocol

  /** The offset of a recorded payload. */
  function Where(p: Packet): int {
    if p.data.At? then p.data.offset else p.data.past
  }

  /** The end of the last recorded payload. */
  function EndOf(ps: seq<Packet>): int {
    if ps == [] then 0 else Where(ps[|ps| - 1]) + ps[|ps| - 1].length
  }

  // ---- the promises ----------------------------------------------------------------------------------------

  /** Every recorded payload begins where the one before it ends, the first at the start of the buffer. */
  predicate Consecutive(ps: seq<Packet>) {
    forall i :: 0 <= i < |ps| ==> ps[i].data == At(EndOf(ps[..i]))
  }

  /** Every recorded payload ends inside a buffer of n bytes. */
  predicate Inside(ps: seq<Packet>, n: nat) {
    forall i :: 0 <= i <= |ps| ==> 0 <= EndOf(ps[..i]) <= n
  }

  /** The write pointer stands at the end of the last packet, or nowhere as long as there is none. */
  predicate Standing(r: Receiver) {
    if r.current == NULL then r.packets == [] else r.current == At(EndOf(r.packets))
  }

  /**
   * What the receiver promises about its storage: nothing was written outside the buffer; the recorded payloads lie
   * end to end in it; and the write pointer is at the end of what has been stored, the end pointer of a payload in
   * progress where that payload will end. No length is restricted.
   */
  predicate Stored(r: Receiver) {
    && !r.fault && Consecutive(r.packets) && Inside(r.packets, |r.buffer|)
    && (r.state <= 3 || (r.state == 5 && r.length == 0) ==> Standing(r))
    && (r.state == 4 ==> r.stop == At(EndOf(r.packets) + r.length))
    && (r.state == 5 && r.length != 0 ==> r.current == At(EndOf(r.packets) + r.length))
  }

  // ---- the receiver's state while it keeps them --------------------------------------------------------------

  /** No payload is in progress. */
  predicate Between(r: Receiver) {
    Standing(r) && (Below(r.current, r.stop) ==> r.begin == r.current)
  }

  predicate Invariant(l: Layout, r: Receiver) {
    && !r.fault && r.state <= 5
    && Consecutive(r.packets) && (forall i :: 0 <= i < |r.packets| ==> r.packets[i].length >= 0)
    && 0 <= EndOf(r.packets) <= |r.buffer|
    && (r.current == NULL ==> r.begin == NULL && r.stop == NULL)
    && (r.state in {1, 2, 3, 5} ==> |r.collected| < FieldSize(l, r.state))
    && (r.state <= 3 ==> Between(r))
    && (r.state == 4 ==>
          && r.length != 0 && r.begin == At(EndOf(r.packets)) && r.stop == Plus(r.begin, r.length)
          && r.stop.offset <= |r.buffer| && r.current.At?
          && (if r.length < 0 then r.current == r.begin else r.begin.offset <= r.current.offset < r.stop.offset))
    && (r.state == 5 ==>
          && r.length >= 0
          && if r.length == 0 then Between(r)
             else
               && r.begin == At(EndOf(r.packets)) && r.current == r.stop == Plus(r.begin, r.length)
               && r.stop.offset <= |r.buffer|)
  }

  lemma {:induction false} EndMonotone(ps: seq<Packet>, i: nat, j: nat)
    requires Consecutive(ps) && i <= j <= |ps| && forall k :: 0 <= k < |ps| ==> ps[k].length >= 0
    ensures 0 <= EndOf(ps[..i]) <= EndOf(ps[..j])
    decreases j
  {
    if i < j {
      EndMonotone(ps, i, j - 1);
      assert ps[..j][j - 1] == ps[j - 1];
    } else if i > 0 {
      EndMonotone(ps, i - 1, j - 1);
      assert ps[..i][i - 1] == ps[i - 1];
    }
  }

  /** The invariant is enough for the promises. */
  lemma {:induction false} InvariantStores(l: Layout, r: Receiver)
    requires Invariant(l, r)
    ensures Stored(r)
  {
    hide Consecutive;
    var ps := r.packets;
    assert ps[..|ps|] == ps;
    forall i | 0 <= i <= |ps|
      ensures 0 <= EndOf(ps[..i]) <= |r.buffer|
    {
      EndMonotone(ps, i, |ps|);
    }
  }

  // ---- one byte ----------------------------------------------------------------------------------------------

  /**
   * An empty frame completed now is recorded where it belongs. Initially it would not be, nor after a stored payload;
   * it would be after a frame that was refused for lack of room.
   */
  predicate Harmless(r: Receiver) {
    r.current != NULL && r.begin == At(EndOf(r.packets))
  }

  /** No payload byte of a negative length, and no end of an empty frame that would be recorded elsewhere. */
  predicate GoodByte(l: Layout, r: Receiver) {
    && (r.state == 4 ==> r.length > 0)
    && (r.state == 5 && r.length == 0 && |r.collected| + 1 == l.endSize ==> Harmless(r))
  }

  /** All bytes of mem[at..end] are good when they are reached. */
  predicate GoodBytes(l: Layout, r: Receiver, mem: seq<Byte>, at: nat, end: nat)
    requires l.Valid() && end + |l.head| <= |mem| + 1
    decreases end - at
  {
    at >= end || r.fault
    || if r.state == 0 then
         if mem[at..at + |l.head|] == l.head then GoodBytes(l, Matched(r), mem, at + |l.head|, end)
         else GoodBytes(l, r, mem, at + 1, end)
       else GoodByte(l, r) && GoodBytes(l, StepByte(l, r, mem[at]), mem, at + 1, end)
  }

  lemma {:induction false} ConsecutiveSnoc(ps: seq<Packet>, p: Packet)
    ensures Consecutive(ps + [p]) <==> Consecutive(ps) && p.data == At(EndOf(ps))
    ensures EndOf(ps + [p]) == Where(p) + p.length
  {
    var qs := ps + [p];
    assert qs[..|ps|] == ps;
    assert forall i :: 0 <= i < |ps| ==> qs[..i] == ps[..i] && qs[i] == ps[i];
    if Consecutive(qs) {
      assert qs[|ps|].data == At(EndOf(qs[..|ps|]));
      forall i | 0 <= i < |ps|
        ensures ps[i].data == At(EndOf(ps[..i]))
      {
        assert qs[i].data == At(EndOf(qs[..i]));
      }
    }
  }

  /** A field's last byte. */
  lemma {:induction false} CompletedKeeps(l: Layout, r: Receiver, b: Byte)
    requires l.Valid() && Invariant(l, r) && GoodByte(l, r)
    requires r.state in {1, 2, 3, 5} && |r.collected| + 1 == FieldSize(l, r.state)
    ensures Invariant(l, Completed(l, r, r.collected + [b]))
  {
    hide DecodeLength, Consecutive;
    if r.state == 5 {
      ConsecutiveSnoc(r.packets, Packet(r.front, r.body, r.collected + [b], r.length, r.begin));
    } else if r.state == 3 {
      NextBeginIsEnd(r);
    }
  }

  lemma {:induction false} NextBeginIsEnd(r: Receiver)
    requires Consecutive(r.packets)
    ensures NextBegin(r) == At(EndOf(r.packets))
  {
    if r.packets != [] {
      var n := |r.packets|;
      assert r.packets[n - 1].data == At(EndOf(r.packets[..n - 1]));
    }
  }

  lemma {:induction false} StepKeeps(l: Layout, r: Receiver, b: Byte)
    requires l.Valid() && Invariant(l, r) && GoodByte(l, r) && r.state != 0
    ensures Invariant(l, StepByte(l, r, b))
  {
    hide Completed, Consecutive;
    if r.state != 4 && |r.collected| + 1 == FieldSize(l, r.state) {
      CompletedKeeps(l, r, b);
    }
  }

  // ---- what cannot be mended -----------------------------------------------------------------------------------

  /** More has been written than the recorded payloads and the one in progress account for. */
  predicate Ahead(r: Receiver) {
    var e := EndOf(r.packets) + if r.state <= 3 then 0 else r.length;
    var p := if r.state == 4 then r.stop else r.current;
    p.At? && p.offset > e
  }

  predicate Broken(r: Receiver) {
    r.state <= 5 && (r.fault || !Consecutive(r.packets) || Ahead(r))
  }

  lemma {:induction false} BrokenIsNotStored(r: Receiver)
    requires Broken(r)
    ensures !Stored(r)
  {
    hide Consecutive;
  }

  /** A byte that is not good breaks a promise. */
  lemma {:induction false} BadByteBreaks(l: Layout, r: Receiver, b: Byte)
    requires l.Valid() && Invariant(l, r) && r.state != 0 && !GoodByte(l, r)
    ensures Broken(StepByte(l, r, b))
  {
    hide DecodeLength, Consecutive;
    if r.state == 5 {
      ConsecutiveSnoc(r.packets, Packet(r.front, r.body, r.collected + [b], r.length, r.begin));
    }
  }

  /** No later byte restores it. */
  lemma {:induction false} BrokenStep(l: Layout, r: Receiver, b: Byte)
    requires l.Valid() && Broken(r) && r.state != 0
    ensures Broken(StepByte(l, r, b))
  {
    hide DecodeLength, Consecutive;
    if r.state == 5 {
      ConsecutiveSnoc(r.packets, Packet(r.front, r.body, r.collected + [b], r.length, r.begin));
    } else if Consecutive(r.packets) {
      NextBeginIsEnd(r);
    }
  }

  lemma {:induction false} BrokenMatched(r: Receiver)
    requires Broken(r) && r.state == 0
    ensures Broken(Matched(r))
  {
    hide Consecutive;
  }

  lemma {:induction false} BrokenStays(l: Layout, r: Receiver, mem: seq<Byte>, at: nat, end: nat)
    requires l.Valid() && end + |l.head| <= |mem| + 1 && Broken(r)
    ensures Broken(Feed(l, r, mem, at, end))
    decreases end - at
  {
    hide StepByte, Broken, Matched;
    if at < end && !r.fault {
      if r.state == 0 {
        if mem[at..at + |l.head|] == l.head {
          BrokenMatched(r);
          BrokenStays(l, Matched(r), mem, at + |l.head|, end);
        } else {
          BrokenStays(l, r, mem, at + 1, end);
        }
      } else {
        BrokenStep(l, r, mem[at]);
        BrokenStays(l, StepByte(l, r, mem[at]), mem, at + 1, end);
      }
    }
  }

  // ---- pushes ----------------------------------------------------------------------------------------------------

  /** Pushing keeps the promises exactly when every byte is good where it is reached; the invariant goes with them. */
  lemma {:induction false} PushKeeps(l: Layout, r: Receiver, mem: seq<Byte>, at: nat, end: nat)
    requires l.Valid() && end + |l.head| <= |mem| + 1 && Invariant(l, r)
    ensures Stored(Feed(l, r, mem, at, end)) <==> GoodBytes(l, r, mem, at, end)
    ensures Stored(Feed(l, r, mem, at, end)) ==> Invariant(l, Feed(l, r, mem, at, end))
    decreases end - at
  {
    hide StepByte, Invariant, GoodByte, Broken, Stored, Matched;
    InvariantIsSound(l, r);
    InvariantStores(l, r);
    if at < end {
      if r.state == 0 {
        if mem[at..at + |l.head|] == l.head {
          MatchedKeeps(l, r);
          PushKeeps(l, Matched(r), mem, at + |l.head|, end);
        } else {
          PushKeeps(l, r, mem, at + 1, end);
        }
      } else {
        var s := StepByte(l, r, mem[at]);
        if GoodByte(l, r) {
          StepKeeps(l, r, mem[at]);
          PushKeeps(l, s, mem, at + 1, end);
        } else {
          BadByteBreaks(l, r, mem[at]);
          BrokenStays(l, s, mem, at + 1, end);
          BrokenIsNotStored(Feed(l, s, mem, at + 1, end));
        }
      }
    }
  }

  lemma {:induction false} InvariantIsSound(l: Layout, r: Receiver)
    requires Invariant(l, r)
    ensures !r.fault && 0 <= EndOf(r.packets) <= |r.buffer|
  {
  }

  lemma {:induction false} MatchedKeeps(l: Layout, r: Receiver)
    requires l.Valid() && Invariant(l, r) && r.state == 0
    ensures Invariant(l, Matched(r))
  {
    hide Consecutive;
  }

  // ---- what no push can change ---------------------------------------------------------------------------

  /** Nothing recorded is lost or changed. */
  predicate Kept(r: Receiver, s: Receiver) {
    && r.packets <= s.packets && |s.buffer| == |r.buffer|
    && 0 <= EndOf(r.packets) <= |r.buffer|
    && s.buffer[..EndOf(r.packets)] == r.buffer[..EndOf(r.packets)]
  }

  /** Below offset e nothing will be written any more. */
  predicate Guarded(r: Receiver, e: nat) {
    e == 0 || (r.current.At? && r.current.offset >= e)
  }

  lemma {:induction false} StepGuards(l: Layout, r: Receiver, s: Receiver, b: Byte)
    requires l.Valid() && Kept(r, s) && Guarded(s, EndOf(r.packets))
    ensures Kept(r, StepByte(l, s, b)) && Guarded(StepByte(l, s, b), EndOf(r.packets))
  {
    hide DecodeLength, EndOf;
  }

  lemma {:induction false} FeedGuards(l: Layout, r: Receiver, s: Receiver, mem: seq<Byte>, at: nat, end: nat)
    requires l.Valid() && end + |l.head| <= |mem| + 1 && Kept(r, s) && Guarded(s, EndOf(r.packets))
    ensures var t := Feed(l, s, mem, at, end);
            Kept(r, t) && Guarded(t, EndOf(r.packets))
    decreases end - at
  {
    hide StepByte, EndOf;
    if at < end && !s.fault {
      if s.state == 0 {
        if mem[at..at + |l.head|] == l.head {
          FeedGuards(l, r, Matched(s), mem, at + |l.head|, end);
        } else {
          FeedGuards(l, r, s, mem, at + 1, end);
        }
      } else {
        StepGuards(l, r, s, mem[at]);
        FeedGuards(l, r, StepByte(l, s, mem[at]), mem, at + 1, end);
      }
    }
  }

  lemma {:induction false} PushesGuard(l: Layout, r: Receiver, s: Receiver, cs: seq<Chunk>)
    requires l.Valid() && Readable(l, cs) && Kept(r, s) && Guarded(s, EndOf(r.packets))
    ensures Kept(r, PushAll(l, s, cs))
    decreases |cs|
  {
    hide Kept, Guarded, Feed;
    if cs != [] {
      var mem, n := cs[0].data + cs[0].beyond, |cs[0].data|;
      FeedGuards(l, r, s, mem, 0, n);
      PushesGuard(l, r, Feed(l, s, mem, 0, n), cs[1..]);
    }
  }

  /** Whatever bytes are pushed, in however many pushes, no packet and no payload recorded before is changed. */
  lemma {:induction false} PushesKeepRecords(l: Layout, r: Receiver, cs: seq<Chunk>)
    requires l.Valid() && Readable(l, cs) && Invariant(l, r)
    ensures Kept(r, PushAll(l, r, cs))
  {
    hide PushAll;
    KeptByDoingNothing(l, r);
    PushesGuard(l, r, r, cs);
  }

  /** What Kept means to the holder of a packet: its payload bytes are the same afterwards. */
  lemma {:induction false} RecordedPayloadsKept(l: Layout, r: Receiver, s: Receiver, k: nat)
    requires Invariant(l, r) && Kept(r, s) && k < |r.packets|
    ensures var p := r.packets[k];
            && s.packets[k] == p && p.data.At? && 0 <= p.data.offset && p.data.offset + p.length <= |r.buffer|
            && s.buffer[p.data.offset..][..p.length] == r.buffer[p.data.offset..][..p.length]
  {
    var p, e := r.packets[k], EndOf(r.packets);
    EndMonotone(r.packets, k, k + 1);
    EndMonotone(r.packets, k + 1, |r.packets|);
    assert r.packets[..|r.packets|] == r.packets && r.packets[..k + 1][k] == p;
    var at := p.data.offset;
    assert r.buffer[at..][..p.length] == r.buffer[..e][at..][..p.length];
    assert s.buffer[at..][..p.length] == s.buffer[..e][at..][..p.length];
  }

  /** Two recorded payloads never overlap. */
  lemma {:induction false} RecordedPayloadsDisjoint(l: Layout, r: Receiver, i: nat, j: nat)
    requires Invariant(l, r) && i < j < |r.packets|
    ensures r.packets[i].data.At? && r.packets[j].data.At?
    ensures r.packets[i].data.offset + r.packets[i].length <= r.packets[j].data.offset
  {
    EndMonotone(r.packets, i + 1, j);
    assert r.packets[..i + 1][i] == r.packets[i];
  }

  // ---- clear ---------------------------------------------------------------------------------------------

  lemma {:induction false} ClearIsSafe(l: Layout, r: Receiver)
    requires Invariant(l, r)
    ensures Below(r.current, r.stop) ==> Movable(r)
  {
  }

  /**
   * What clear does: a payload in progress, which has the write pointer before the end pointer, moves to the front,
   * and the end pointer is one byte short; without one, or with none begun, all pointers become null.
   */
  lemma {:induction false} ClearMeans(r: Receiver)
    requires Below(r.current, r.stop) ==> Movable(r)
    ensures r.current.At? && r.stop.At? && r.current.offset < r.stop.offset ==>
              && r.begin.At? && 0 <= r.begin.offset <= r.current.offset <= |r.buffer|
              && var n := r.current.offset - r.begin.offset;
              Cleared(r) == r.(packets := [], buffer := r.buffer[r.begin.offset..r.current.offset] + r.buffer[n..],
                               begin := At(0), current := At(n), stop := At(r.length - 1))
    ensures (r.current == NULL && r.stop == NULL)
            || (r.current.At? && r.stop.At? && r.current.offset >= r.stop.offset) ==>
              Cleared(r) == r.(packets := [], begin := NULL, current := NULL, stop := NULL)
  {
  }

  /** Clearing keeps the promises exactly when no payload and no trailer of one is being received. */
  lemma {:induction false} ClearKeeps(l: Layout, r: Receiver)
    requires Invariant(l, r)
    requires Below(r.current, r.stop) ==> Movable(r)
    ensures Stored(Cleared(r)) <==> r.state <= 3 || (r.state == 5 && r.length == 0)
    ensures Stored(Cleared(r)) ==> Invariant(l, Cleared(r))
  {
    hide Consecutive;
    NoPackets(|r.buffer|);
  }

  lemma {:induction false} NoPackets(n: nat)
    ensures Consecutive([]) && Inside([], n)
  {
  }

  /** In the middle of a payload, clearing makes the receiver expect one byte too few. */
  lemma {:induction false} ClearDropsOneByte(l: Layout, r: Receiver)
    requires Invariant(l, r) && r.state == 4 && r.length > 0
    ensures var s := Cleared(r);
            && s.current.At? && s.stop.At? && s.current.offset == r.current.offset - r.begin.offset
            && s.stop.offset - s.current.offset == r.stop.offset - r.current.offset - 1
            && s.buffer[..s.current.offset] == r.buffer[r.begin.offset..r.current.offset]
  {
  }

  // ---- whole runs ------------------------------------------------------------------------------------------

  datatype Operation = Push(chunk: Chunk) | Clear

  predicate Sound(l: Layout, r: Receiver, op: Operation)
    requires l.Valid()
  {
    match op
    case Push(c) => |c.beyond| + 1 >= |l.head| && GoodBytes(l, r, c.data + c.beyond, 0, |c.data|)
    case Clear => r.state <= 3 || (r.state == 5 && r.length == 0)
  }

  /** What the operation needs to have a defined result. */
  predicate Defined(l: Layout, r: Receiver, op: Operation) {
    match op
    case Push(c) => |c.beyond| + 1 >= |l.head|
    case Clear => Below(r.current, r.stop) ==> Movable(r)
  }

  function Apply(l: Layout, r: Receiver, op: Operation): Receiver
    requires l.Valid() && Defined(l, r, op)
  {
    match op
    case Push(c) => Feed(l, r, c.data + c.beyond, 0, |c.data|)
    case Clear => Cleared(r)
  }

  /** One operation keeps the promises exactly when it is sound where it is applied. */
  lemma {:induction false} ApplyKeeps(l: Layout, r: Receiver, op: Operation)
    requires l.Valid() && Invariant(l, r) && Defined(l, r, op)
    ensures Stored(Apply(l, r, op)) <==> Sound(l, r, op)
    ensures Stored(Apply(l, r, op)) ==> Invariant(l, Apply(l, r, op))
  {
    hide Feed, GoodBytes, Invariant, Stored, Cleared;
    match op
    case Push(c) =>
      PushKeeps(l, r, c.data + c.beyond, 0, |c.data|);
    case Clear =>
      ClearIsSafe(l, r);
      ClearKeeps(l, r);
  }

  /** Every operation of the run is sound where it is applied. */
  predicate SoundRun(l: Layout, r: Receiver, ops: seq<Operation>)
    requires l.Valid()
    decreases |ops|
  {
    ops == [] || (Defined(l, r, ops[0]) && Sound(l, r, ops[0]) && SoundRun(l, Apply(l, r, ops[0]), ops[1..]))
  }

  /** The promises hold after every operation of the run. */
  predicate StoredRun(l: Layout, r: Receiver, ops: seq<Operation>)
    requires l.Valid()
    decreases |ops|
  {
    && Stored(r)
    && (ops == [] || (Defined(l, r, ops[0]) && StoredRun(l, Apply(l, r, ops[0]), ops[1..])))
  }

  lemma {:induction false} FreshIsInvariant(l: Layout, buffer: seq<Byte>, front: seq<Byte>, length: int,
                                            body: seq<Byte>, end: seq<Byte>)
    ensures Invariant(l, Fresh(buffer, front, length, body, end))
  {
  }

  lemma {:induction false} KeptByDoingNothing(l: Layout, r: Receiver)
    requires Invariant(l, r)
    ensures Kept(r, r) && Guarded(r, EndOf(r.packets))
  {
    hide Consecutive;
  }

  /** A run of pushes and clears keeps the promises throughout exactly when all its operations are sound. */
  lemma {:induction false} RunKeeps(l: Layout, r: Receiver, ops: seq<Operation>)
    requires l.Valid() && Invariant(l, r)
    ensures StoredRun(l, r, ops) <==> SoundRun(l, r, ops)
    decreases |ops|
  {
    hide Invariant, Stored, Apply, Sound, Defined;
    InvariantStores(l, r);
    if ops != [] && Defined(l, r, ops[0]) {
      var s := Apply(l, r, ops[0]);
      ApplyKeeps(l, r, ops[0]);
      if Stored(s) {
        RunKeeps(l, s, ops[1..]);
      } else {
        NotKept(l, s, ops[1..]);
      }
    }
  }

  lemma {:induction false} NotKept(l: Layout, r: Receiver, ops: seq<Operation>)
    requires l.Valid() && !Stored(r)
    ensures !StoredRun(l, r, ops)
  {
    hide Stored;
  }
}
