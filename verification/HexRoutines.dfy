/** The loops of hexsize, hexdump and hexpack. */
module HexRoutines {
  import opened Words
  import opened Memory
  import opened HexFormat

  /** A 32-bit unsigned count. */
  function Count(n: nat): nat {
    n % COUNTS
  }

  lemma {:induction false} CountMeans(n: nat)
    ensures Count(n) == n % 0x1_0000_0000
  {
  }

  lemma {:induction false} Wrapped(a: nat, b: nat)
    ensures Count(Count(a) + b) == Count(a + b)
  {
    var q := a / COUNTS;
    assert a == q * COUNTS + a % COUNTS;
    Multiple(a % COUNTS + b, q);
  }

  lemma {:induction false} Multiple(r: nat, q: nat)
    ensures (q * COUNTS + r) % COUNTS == r % COUNTS
  {
    assert r == r / COUNTS * COUNTS + r % COUNTS;
    assert q * COUNTS + r == (q + r / COUNTS) * COUNTS + r % COUNTS;
  }

  lemma {:induction false} NoItems()
    ensures Items([]) == [] && Width([]) == 0 && Taken([]) == 0 && Count(0) == 0
  {
  }

  lemma {:induction false} PlainNext(format: seq<Byte>, f: nat)
    requires f < |format| && !IsDigit(format[f].bits)
    ensures Items(format[f..]) == [Plain(format[f])] + Items(format[f + 1..])
  {
    hide IsDigit;
    assert format[f..][1..] == format[f + 1..];
  }

  lemma {:induction false} CountNext(format: seq<Byte>, f: nat)
    requires f < |format| && IsDigit(format[f].bits)
    ensures var end := f + Run(format[f..]);
            f < end <= |format| && Items(format[f..]) == [Bytes(Skip(format[f..end]))] + Items(format[end..])
  {
    hide IsDigit, Skip;
    var n := Run(format[f..]);
    assert format[f..][n..] == format[f + n..] && format[f..][..n] == format[f..f + n];
  }

  /** The width the format gives, as a 32-bit count. */
  method HexSize(format: seq<Byte>) returns (count: nat)
    requires Byte(0) !in format
    ensures count == Count(Width(Items(format)))
  {
    hide IsDigit, Items, Skip, Count;
    count := 0;
    var f := 0;
    ghost var width: nat := 0;
    NoItems();
    assert format[0..] == format && format[|format|..] == [];
    while f < |format|
      invariant f <= |format| && count == Count(width) && width + Width(Items(format[f..])) == Width(Items(format))
    {
      while f < |format| && !IsDigit(format[f].bits)
        invariant f <= |format| && count == Count(width) && width + Width(Items(format[f..])) == Width(Items(format))
      {
        PlainNext(format, f);
        Wrapped(width, 1);
        f, count, width := f + 1, Count(count + 1), width + 1;
      }
      if f < |format| {
        CountNext(format, f);
        var end := f + Run(format[f..]);
        var skip := Skip(format[f..end]);
        Wrapped(width, 2 * skip);
        f, count, width := end, Count(count + 2 * skip), width + 2 * skip;
      }
    }
  }

  // ---- Dumping ----------------------------------------------------------------------------------------------

  /** Some text written from the buffer's start; the character after it may be a passing zero. */
  predicate Grown(memory: seq<Byte>, before: seq<Byte>, done: seq<Byte>) {
    && |memory| == |before| && |done| < |memory|
    && memory[..|done|] == done && memory[|done| + 1..] == before[|done| + 1..]
  }

  method PutPlain(text: array<Byte>, p: nat, c: Byte, ghost before: seq<Byte>, ghost done: seq<Byte>)
    requires Grown(text[..], before, done) && p == |done| && p + 1 < text.Length
    modifies text
    ensures Grown(text[..], before, done + [c])
  {
    text[p] := c;
    assert text[..][p + 2..] == before[p + 2..] by {
      assert forall i :: p + 1 <= i < |before| ==> old(text[..])[i] == old(text[..])[p + 1..][i - p - 1];
    }
  }

  /** snprintf writes the two digits and a zero. */
  method PutPair(text: array<Byte>, p: nat, b: Byte, ghost before: seq<Byte>, ghost done: seq<Byte>)
    requires Grown(text[..], before, done) && p == |done| && p + 2 < text.Length
    modifies text
    ensures Grown(text[..], before, done + Pair(b))
  {
    var pair := Pair(b);
    text[p] := pair[0];
    text[p + 1] := pair[1];
    text[p + 2] := Byte(0);
    assert text[..][p + 3..] == before[p + 3..] by {
      assert forall i :: p + 1 <= i < |before| ==> old(text[..])[i] == old(text[..])[p + 1..][i - p - 1];
    }
  }

  method PutEnd(text: array<Byte>, p: nat, ghost before: seq<Byte>, ghost done: seq<Byte>)
    requires Grown(text[..], before, done) && p == |done|
    modifies text
    ensures text[..] == Overwritten(before, 0, done + [Byte(0)])
  {
    text[p] := Byte(0);
  }

  method PutPairs(text: array<Byte>, p: nat, binary: seq<Byte>, ghost before: seq<Byte>, ghost done: seq<Byte>)
    requires Grown(text[..], before, done) && p == |done| && p + 2 * |binary| < text.Length
    modifies text
    ensures Grown(text[..], before, done + Pairs(binary))
  {
    hide Grown, Pair;
    ghost var written := done;
    assert binary[0..] == binary && done + Pairs(binary[|binary|..]) == done;
    for i := 0 to |binary|
      invariant |written| == p + 2 * i && Grown(text[..], before, written)
      invariant written + Pairs(binary[i..]) == done + Pairs(binary)
    {
      assert binary[i..][1..] == binary[i + 1..];
      PutPair(text, p + 2 * i, binary[i], before, written);
      written := written + Pair(binary[i]);
    }
    assert written + Pairs(binary[|binary|..]) == written;
  }

  lemma {:induction false} PlainDump(c: Byte, rest: seq<Item>, b: seq<Byte>)
    requires Taken([Plain(c)] + rest) <= |b|
    ensures Taken(rest) <= |b| && Dump([Plain(c)] + rest, b) == [c] + Dump(rest, b)
  {
    assert ([Plain(c)] + rest)[1..] == rest;
  }

  lemma {:induction false} BytesDump(n: nat, rest: seq<Item>, b: seq<Byte>)
    requires Taken([Bytes(n)] + rest) <= |b|
    ensures n + Taken(rest) <= |b| && Dump([Bytes(n)] + rest, b) == Pairs(b[..n]) + Dump(rest, b[n..])
  {
    hide Pairs;
    assert ([Bytes(n)] + rest)[1..] == rest;
  }

  /** The text of the format and the bytes, then a zero; the count is that text's length. */
  method HexDump(binary: seq<Byte>, text: array<Byte>, format: seq<Byte>) returns (count: nat)
    requires Byte(0) !in format && Taken(Items(format)) <= |binary| && Width(Items(format)) < text.Length
    modifies text
    ensures text[..] == Overwritten(old(text[..]), 0, Dump(Items(format), binary) + [Byte(0)])
    ensures count == Count(|Dump(Items(format), binary)|)
  {
    hide Count, IsDigit, Items, Skip, Pairs, Grown, Dump, Taken, Width, Overwritten;
    ghost var before, done, full := text[..], [], Dump(Items(format), binary);
    var f, b, p := 0, 0, 0;
    count := 0;
    NoItems();
    GrownFromStart(before);
    assert format[0..] == format && format[|format|..] == [] && binary[0..] == binary;
    while f < |format|
      invariant f <= |format| && p == |done| && count == Count(p) && Grown(text[..], before, done)
      invariant b <= |binary| && Taken(Items(format[f..])) <= |binary[b..]|
      invariant done + Dump(Items(format[f..]), binary[b..]) == full
    {
      while f < |format| && !IsDigit(format[f].bits)
        invariant f <= |format| && p == |done| && count == Count(p) && Grown(text[..], before, done)
        invariant b <= |binary| && Taken(Items(format[f..])) <= |binary[b..]|
        invariant done + Dump(Items(format[f..]), binary[b..]) == full
      {
        PlainNext(format, f);
        PlainDump(format[f], Items(format[f + 1..]), binary[b..]);
        Wrapped(p, 1);
        PutPlain(text, p, format[f], before, done);
        done := done + [format[f]];
        f, p, count := f + 1, p + 1, Count(count + 1);
      }
      if f < |format| {
        CountNext(format, f);
        var end := f + Run(format[f..]);
        var skip := Skip(format[f..end]);
        BytesDump(skip, Items(format[end..]), binary[b..]);
        Wrapped(p, 2 * skip);
        count := Count(count + 2 * skip);
        PutPairs(text, p, binary[b..b + skip], before, done);
        assert binary[b..][..skip] == binary[b..b + skip] && binary[b..][skip..] == binary[b + skip..];
        done := done + Pairs(binary[b..b + skip]);
        f, p, b := end, p + 2 * skip, b + skip;
      }
    }
    NothingDumped(binary[b..]);
    assert done + [] == done;
    PutEnd(text, p, before, done);
  }

  lemma {:induction false} NothingDumped(b: seq<Byte>)
    ensures Taken([]) == 0 && Dump([], b) == []
  {
  }

  lemma {:induction false} GrownFromStart(before: seq<Byte>)
    requires before != []
    ensures Grown(before, before, [])
  {
  }

  // ---- Reading back -----------------------------------------------------------------------------------------

  lemma {:induction false} PlainRead(c: Byte, rest: seq<Item>, t: seq<Byte>)
    requires Readable([Plain(c)] + rest, t)
    ensures t != []
    ensures t[0] == c ==> Readable(rest, t[1..]) && Parsed([Plain(c)] + rest, t) == Parsed(rest, t[1..]) &&
                          Accepted([Plain(c)] + rest, t) == 1 + Accepted(rest, t[1..])
    ensures t[0] != c ==> Parsed([Plain(c)] + rest, t) == [] && Accepted([Plain(c)] + rest, t) == 0
  {
    assert ([Plain(c)] + rest)[1..] == rest;
  }

  lemma {:induction false} BytesRead(n: nat, rest: seq<Item>, t: seq<Byte>)
    requires Readable([Bytes(n)] + rest, t)
    ensures 2 * n <= |t| && Readable(rest, t[2 * n..])
    ensures Parsed([Bytes(n)] + rest, t) == Unpairs(t, n) + Parsed(rest, t[2 * n..])
    ensures Accepted([Bytes(n)] + rest, t) == 2 * n + Accepted(rest, t[2 * n..])
  {
    hide Unpairs;
    assert ([Bytes(n)] + rest)[1..] == rest;
  }

  lemma {:induction false} NothingRead(t: seq<Byte>)
    ensures Readable([], t) && Parsed([], t) == [] && Accepted([], t) == 0
  {
  }

  method PutByte(binary: array<Byte>, b: nat, x: Byte)
    requires b < binary.Length
    modifies binary
    ensures binary[..] == Overwritten(old(binary[..]), b, [x])
  {
    binary[b] := x;
  }

  /** The loop over a count: two characters make a byte, whatever they are. */
  method ReadPairs(binary: array<Byte>, b: nat, t: seq<Byte>, n: nat, ghost before: seq<Byte>, ghost done: seq<Byte>)
    requires |before| == binary.Length && b == |done| && b + n <= binary.Length && 2 * n <= |t|
    requires binary[..] == Overwritten(before, 0, done)
    modifies binary
    ensures binary[..] == Overwritten(before, 0, done + Unpairs(t, n))
  {
    hide Unpair, Overwritten;
    ghost var bytes := done;
    assert t[0..] == t;
    for i := 0 to n
      invariant |bytes| == b + i && binary[..] == Overwritten(before, 0, bytes)
      invariant bytes + Unpairs(t[2 * i..], n - i) == done + Unpairs(t, n)
    {
      var x := Unpair(t[2 * i], t[2 * i + 1]);
      assert t[2 * i..][2..] == t[2 * (i + 1)..];
      OverwrittenTwice(before, bytes, [x]);
      PutByte(binary, b + i, x);
      bytes := bytes + [x];
    }
    assert bytes + Unpairs(t[2 * n..], 0) == bytes;
  }

  /** The bytes read back are stored, and the characters accepted are counted; a difference ends the reading. */
  method HexPack(binary: array<Byte>, text: seq<Byte>, format: seq<Byte>) returns (count: nat)
    requires Byte(0) !in format && Readable(Items(format), text) && |Parsed(Items(format), text)| <= binary.Length
    modifies binary
    ensures binary[..] == Overwritten(old(binary[..]), 0, Parsed(Items(format), text))
    ensures count == Count(Accepted(Items(format), text))
  {
    hide Count, IsDigit, Items, Skip, Unpairs, Parsed, Readable, Accepted, Overwritten;
    ghost var before, done, full := binary[..], [], Parsed(Items(format), text);
    var f, b, s := 0, 0, 0;
    count := 0;
    NoItems();
    OverwrittenByNothing(before);
    assert format[0..] == format && format[|format|..] == [] && text[0..] == text;
    while f < |format|
      invariant f <= |format| && 0 <= s <= |text| && b == |done| && count == Count(s)
      invariant Readable(Items(format[f..]), text[s..]) && done + Parsed(Items(format[f..]), text[s..]) == full
      invariant s + Accepted(Items(format[f..]), text[s..]) == Accepted(Items(format), text)
      invariant binary[..] == Overwritten(before, 0, done)
    {
      while f < |format| && !IsDigit(format[f].bits)
        invariant f <= |format| && 0 <= s <= |text| && b == |done| && count == Count(s)
        invariant Readable(Items(format[f..]), text[s..]) && done + Parsed(Items(format[f..]), text[s..]) == full
        invariant s + Accepted(Items(format[f..]), text[s..]) == Accepted(Items(format), text)
        invariant binary[..] == Overwritten(before, 0, done)
      {
        PlainNext(format, f);
        PlainRead(format[f], Items(format[f + 1..]), text[s..]);
        assert text[s..][1..] == text[s + 1..];
        if text[s] != format[f] {
          assert done + [] == done;
          return;
        }
        Wrapped(s, 1);
        f, s, count := f + 1, s + 1, Count(count + 1);
      }
      if f < |format| {
        CountNext(format, f);
        var end := f + Run(format[f..]);
        var skip := Skip(format[f..end]);
        BytesRead(skip, Items(format[end..]), text[s..]);
        Wrapped(s, 2 * skip);
        count := Count(count + 2 * skip);
        assert text[s..][2 * skip..] == text[s + 2 * skip..];
        ReadPairs(binary, b, text[s..], skip, before, done);
        done := done + Unpairs(text[s..], skip);
        f, s, b := end, s + 2 * skip, b + skip;
      }
    }
    NothingRead(text[s..]);
    assert done + [] == done;
  }

  lemma {:induction false} OverwrittenByNothing(memory: seq<Byte>)
    ensures Overwritten(memory, 0, []) == memory
  {
  }

  // ---- The three together -----------------------------------------------------------------------------------

  /**
   * What hexdump leaves in memory is read back by hexpack with the same format: the same bytes, the same count, and
   * that count is hexsize of the format.
   */
  lemma {:induction false} RoundTrip(format: seq<Byte>, bytes: seq<Byte>, memory: seq<Byte>)
    requires Taken(Items(format)) <= |bytes| && Width(Items(format)) < |memory|
    ensures var items := Items(format);
            var after := Overwritten(memory, 0, Dump(items, bytes) + [Byte(0)]);
            && Readable(items, after)
            && Parsed(items, after) == bytes[..Taken(items)]
            && Accepted(items, after) == |Dump(items, bytes)| == Width(items)
  {
    hide Items, Taken, Width, Dump, Readable, Parsed, Accepted;
    var items := Items(format);
    var t := Dump(items, bytes);
    var rest := [Byte(0)] + memory[|t| + 1..];
    assert Overwritten(memory, 0, t + [Byte(0)]) == t + rest;
    DumpReadsBack(items, bytes, rest);
  }
}
