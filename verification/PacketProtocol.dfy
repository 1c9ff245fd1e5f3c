/**
 * The packet format and the receiver as a state machine: a head pattern, a front field, a length field, a body
 * field, the payload and a trailer. Payloads are laid end to end in one buffer.
 */
module PacketProtocol {
  import opened ByteOrder
  import opened Words

  /** The template parameters: the head value's bytes and the sizes of the other fields. */
  datatype Layout = Layout(head: seq<Byte>, frontSize: nat, lengthSize: nat, bodySize: nat, endSize: nat,
                           signedLength: bool) {
    /** Every field has a size, and fits the receiver's 256-byte field buffer. */
    predicate Valid() {
      && |head| >= 1
      && 1 <= frontSize <= 256 && 1 <= lengthSize <= 256 && 1 <= bodySize <= 256 && 1 <= endSize <= 256
    }
  }

  // ---- the length field --------------------------------------------------------------------------

  /** The number of length bytes that reach the receiver's 32-bit int. */
  function LengthWidth(l: Layout): nat {
    if l.lengthSize < 4 then l.lengthSize else 4
  }

  /** The first length that does not survive the trip through the field and the int. */
  function LengthLimit(l: Layout): nat {
    var whole := Pow256(LengthWidth(l));
    if l.signedLength || l.lengthSize >= 4 then whole / 2 else whole
  }

  function EncodeLength(l: Layout, n: nat): (b: seq<Byte>)
    ensures |b| == l.lengthSize
  {
    LittleBytes(n, l.lengthSize)
  }

  function DecodeLength(l: Layout, b: seq<Byte>): int {
    var whole := Pow256(LengthWidth(l));
    var v := LittleValue(b) % whole;
    if v >= LengthLimit(l) then v - whole else v
  }

  lemma {:induction false} PowersDivide(j: nat, k: nat)
    requires j <= k
    ensures exists q: nat :: Pow256(k) == q * Pow256(j)
  {
    if j == k {
      assert Pow256(k) == 1 * Pow256(j);
    } else {
      PowersDivide(j, k - 1);
      var q: nat :| Pow256(k - 1) == q * Pow256(j);
      assert Pow256(k) == (256 * q) * Pow256(j);
    }
  }

  lemma {:induction false} Associates(x: nat, y: nat, z: nat)
    ensures x * (y * z) == x * y * z
  {
  }

  lemma {:induction false} Distributes(x: nat, y: nat, z: nat)
    ensures (x + y) * z == x * z + y * z
  {
  }

  lemma {:induction false} ModOfMod(n: nat, q: nat, m: nat)
    requires m >= 1 && q * m >= 1
    ensures n % (q * m) % m == n % m
  {
    var r := n % (q * m);
    var d := n / (q * m);
    assert n == d * (q * m) + r;
    var e, f := r / m, r % m;
    Associates(d, q, m);
    assert n == d * q * m + e * m + f;
    Distributes(d * q, e, m);
    Remainder(d * q + e, m, f);
  }

  /** What arrives is the length reduced to the bytes that reach the int, and then its sign. */
  lemma {:induction false} LengthArrives(l: Layout, n: nat)
    requires l.Valid()
    ensures var whole := Pow256(LengthWidth(l));
            DecodeLength(l, EncodeLength(l, n)) == n % whole - if n % whole >= LengthLimit(l) then whole else 0
  {
    hide LengthLimit;
    var whole := Pow256(LengthWidth(l));
    LittleValueOfLittleBytes(n, l.lengthSize);
    PowersDivide(LengthWidth(l), l.lengthSize);
    var q: nat :| Pow256(l.lengthSize) == q * whole;
    ModOfMod(n, q, whole);
    assert LittleValue(EncodeLength(l, n)) % whole == n % whole;
  }

  /** A length arrives as it was sent exactly when it is below the field's limit. */
  lemma {:induction false} LengthRoundTrip(l: Layout, n: nat)
    requires l.Valid()
    ensures DecodeLength(l, EncodeLength(l, n)) == n <==> n < LengthLimit(l)
  {
    hide DecodeLength, EncodeLength;
    var whole := Pow256(LengthWidth(l));
    LengthArrives(l, n);
    if n < whole {
      Remainder(0, whole, n);
    }
  }

  /** Every byte of the length field, where it stands in the frame: the least significant one first. */
  lemma {:induction false} LengthBytes(l: Layout, m: Message, k: nat)
    requires Shaped(l, m) && k < l.lengthSize
    ensures |Frame(l, m)| > |l.head| + l.frontSize + k
    ensures Value(Frame(l, m)[|l.head| + l.frontSize + k]) == |m.payload| / Pow256(k) % 256
  {
    hide Value;
    LittleBytesAt(|m.payload|, l.lengthSize, k);
    assert Frame(l, m) == l.head + m.front + EncodeLength(l, |m.payload|) + m.body + m.payload + m.end;
  }

  /**
   * What a field is read as: the number whose bytes it holds, least significant first, as far as they reach the
   * 32-bit int, and as the field's type and the int take its sign.
   */
  lemma {:induction false} LengthRead(l: Layout, b: seq<Byte>)
    requires l.Valid() && |b| == l.lengthSize
    ensures var w := if l.lengthSize < 4 then l.lengthSize else 4;
            && (Weighed(b, w) - DecodeLength(l, b)) % Pow256(w) == 0
            && (if l.signedLength || l.lengthSize >= 4
                then -(Pow256(w) / 2) <= DecodeLength(l, b) < Pow256(w) / 2
                else 0 <= DecodeLength(l, b) < Pow256(w))
            && Pow256(1) == 0x100 && Pow256(2) == 0x1_0000 && Pow256(3) == 0x100_0000 && Pow256(4) == 0x1_0000_0000
  {
    hide Value;
    var w := LengthWidth(l);
    var whole := Pow256(w);
    LittleValueIsWeighed(b);
    var q := WeighedBelow(b, w, |b|);
    PowersAreThese();
    WeighedIsSmall(b, w);
    Remainder(q, whole, Weighed(b, w));
    Divisible(whole);
  }

  lemma {:induction false} Divisible(m: int)
    requires m >= 1
    ensures m % m == 0 && 0 % m == 0 && (-m) % m == 0
  {
  }

  lemma {:induction false} PowersAreThese()
    ensures Pow256(1) == 0x100 && Pow256(2) == 0x1_0000 && Pow256(3) == 0x100_0000 && Pow256(4) == 0x1_0000_0000
  {
    assert Pow256(2) == 0x1_0000;
  }

  lemma {:induction false} WeighedIsSmall(b: seq<Byte>, k: nat)
    requires k <= |b|
    ensures Weighed(b, k) < Pow256(k)
  {
    hide Value;
    if k > 0 {
      WeighedIsSmall(b, k - 1);
      OnePlace(Value(b[k - 1]), Pow256(k - 1));
    }
  }

  lemma {:induction false} OnePlace(v: nat, p: nat)
    requires v < 256
    ensures v * p + p <= 256 * p
  {
    assert (256 - (v + 1)) * p >= 0;
  }

  /** Where each field stands in a frame. */
  lemma {:induction false} FrameFields(l: Layout, m: Message)
    requires Shaped(l, m)
    ensures var f, h := Frame(l, m), |l.head|;
            var b := h + l.frontSize + l.lengthSize;
            var p := b + l.bodySize;
            && |f| == p + |m.payload| + l.endSize
            && f[..h] == l.head && f[h..h + l.frontSize] == m.front && f[b..p] == m.body
            && f[p..p + |m.payload|] == m.payload && f[p + |m.payload|..] == m.end
  {
    hide EncodeLength;
    assert Frame(l, m) == l.head + m.front + EncodeLength(l, |m.payload|) + m.body + m.payload + m.end;
  }

  // ---- frames -----------------------------------------------------------------------------------------

  datatype Message = Message(front: seq<Byte>, body: seq<Byte>, payload: seq<Byte>, end: seq<Byte>)

  /** The fields have the layout's sizes. */
  predicate Shaped(l: Layout, m: Message) {
    |m.front| == l.frontSize && |m.body| == l.bodySize && |m.end| == l.endSize
  }

  /** And the length is one its field can carry. */
  predicate Fits(l: Layout, m: Message) {
    Shaped(l, m) && |m.payload| < LengthLimit(l)
  }

  /** Everything after the head. */
  function Rest(l: Layout, m: Message): seq<Byte> {
    m.front + EncodeLength(l, |m.payload|) + m.body + m.payload + m.end
  }

  function Frame(l: Layout, m: Message): seq<Byte> {
    l.head + Rest(l, m)
  }

  // ---- the receiver ---------------------------------------------------------------------------------

  /** A pointer into the data buffer, or one computed from the null pointer. */
  datatype Pointer = Null(past: int) | At(offset: int)

  const NULL := Null(0)

  function Plus(p: Pointer, n: int): Pointer {
    match p
    case Null(k) => Null(k + n)
    case At(k) => At(k + n)
  }

  /** Comparison of pointers with the same origin. */
  predicate Below(p: Pointer, q: Pointer) {
    if p.Null? then q.Null? && p.past < q.past else q.At? && p.offset < q.offset
  }

  datatype Packet = Packet(front: seq<Byte>, body: seq<Byte>, end: seq<Byte>, length: int, data: Pointer)

  /**
   * The receiver's fields; `collected` is the part of the field buffer filled so far. `fault` records that the code
   * would have written outside the data buffer.
   */
  datatype Receiver = Receiver(
    state: nat, collected: seq<Byte>,
    front: seq<Byte>, length: int, body: seq<Byte>, end: seq<Byte>,
    buffer: seq<Byte>, begin: Pointer, current: Pointer, stop: Pointer,
    packets: seq<Packet>, fault: bool)

  function FieldSize(l: Layout, state: nat): nat {
    if state == 1 then l.frontSize else if state == 2 then l.lengthSize else if state == 3 then l.bodySize
    else l.endSize
  }

  /** Where the next payload is said to begin: after the last packet's. */
  function NextBegin(r: Receiver): Pointer {
    if r.packets == [] then At(0)
    else
      var last := r.packets[|r.packets| - 1];
      Plus(last.data, last.length)
  }

  /** What the body field's last byte leads to. */
  function BodyComplete(r: Receiver, c: seq<Byte>): Receiver {
    if r.length == 0 then r.(body := c, state := 5, collected := [])
    else
      var begin := NextBegin(r);
      var current := if r.current == NULL then begin else r.current;
      var stop := Plus(current, r.length);
      r.(body := c, begin := begin, current := current, stop := stop, collected := [],
         state := if stop.At? && stop.offset > |r.buffer| then 0 else 4)
  }

  /** A field of states 1, 2, 3 or 5 has all its bytes. */
  function Completed(l: Layout, r: Receiver, c: seq<Byte>): Receiver {
    if r.state == 1 then r.(front := c, state := 2, collected := [])
    else if r.state == 2 then r.(length := DecodeLength(l, c), state := 3, collected := [])
    else if r.state == 3 then BodyComplete(r, c)
    else r.(end := c, state := 0, collected := [],
            packets := r.packets + [Packet(r.front, r.body, c, r.length, r.begin)])
  }

  /** The write pointer points into the buffer. */
  predicate Writable(r: Receiver) {
    r.current.At? && 0 <= r.current.offset < |r.buffer|
  }

  /** One payload byte. */
  function PayloadByte(r: Receiver, b: Byte): Receiver {
    if !Writable(r) then r.(fault := true)
    else
      var s := r.(buffer := r.buffer[r.current.offset := b], current := Plus(r.current, 1));
      if Below(s.current, r.stop) then s else s.(state := 5, collected := [])
  }

  /** One byte in any state but the search for a head. */
  function StepByte(l: Layout, r: Receiver, b: Byte): Receiver {
    if r.fault then r
    else if r.state == 4 then PayloadByte(r, b)
    else
      var c := r.collected + [b];
      if |c| == FieldSize(l, r.state) then Completed(l, r, c) else r.(collected := c)
  }

  function Matched(r: Receiver): Receiver {
    if r.fault then r else r.(state := 1, collected := [])
  }

  /**
   * The loop of `push` over mem[at..end]. In state 0 it reads a whole head value, which may reach past `end` into
   * the bytes that follow the chunk in memory.
   */
  function Feed(l: Layout, r: Receiver, mem: seq<Byte>, at: nat, end: nat): Receiver
    requires l.Valid() && end + |l.head| <= |mem| + 1
    decreases end - at
  {
    if at >= end || r.fault then r
    else if r.state == 0 then
      if mem[at..at + |l.head|] == l.head then Feed(l, Matched(r), mem, at + |l.head|, end)
      else Feed(l, r, mem, at + 1, end)
    else Feed(l, StepByte(l, r, mem[at]), mem, at + 1, end)
  }

  /** A chunk handed to push, and the bytes that happen to lie behind it in memory. */
  datatype Chunk = Chunk(data: seq<Byte>, beyond: seq<Byte>)

  ghost predicate Readable(l: Layout, cs: seq<Chunk>) {
    forall c :: c in cs ==> |c.beyond| + 1 >= |l.head|
  }

  function PushAll(l: Layout, r: Receiver, cs: seq<Chunk>): Receiver
    requires l.Valid() && Readable(l, cs)
    decreases |cs|
  {
    if cs == [] then r
    else PushAll(l, Feed(l, r, cs[0].data + cs[0].beyond, 0, |cs[0].data|), cs[1..])
  }

  /** A payload in progress lies in the buffer, or has no place and no bytes yet. */
  predicate Movable(r: Receiver) {
    if r.current.At? then r.begin.At? && 0 <= r.begin.offset <= r.current.offset <= |r.buffer|
    else r.begin == r.current
  }

  /** `clear`: drops the packets and moves a payload in progress to the front. */
  function Cleared(r: Receiver): Receiver
    requires Below(r.current, r.stop) ==> Movable(r)
  {
    if Below(r.current, r.stop) then
      var moved := if r.current.At? then r.buffer[r.begin.offset..r.current.offset] else [];
      r.(packets := [], buffer := moved + r.buffer[|moved|..],
         stop := At(r.length - 1), current := At(|moved|), begin := At(0))
    else r.(packets := [], current := NULL, stop := NULL, begin := NULL)
  }

  /** A new receiver. */
  function Fresh(buffer: seq<Byte>, front: seq<Byte>, length: int, body: seq<Byte>, end: seq<Byte>): Receiver {
    Receiver(0, [], front, length, body, end, buffer, NULL, NULL, NULL, [], false)
  }
}
