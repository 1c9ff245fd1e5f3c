/** Integers laid out in memory byte by byte, and copying into a buffer. */
module ByteOrder {
  import opened Words

  function LowByte(n: nat): Byte {
    Byte((n % 256) as bv8)
  }

  /** The low `k` bytes of n, least significant first. */
  function LittleBytes(n: nat, k: nat): (b: seq<Byte>)
    ensures |b| == k
  {
    if k == 0 then [] else [LowByte(n)] + LittleBytes(n / 256, k - 1)
  }

  /** The low `k` bytes of n, most significant first. */
  function BigBytes(n: nat, k: nat): (b: seq<Byte>)
    ensures |b| == k
  {
    if k == 0 then [] else BigBytes(n / 256, k - 1) + [LowByte(n)]
  }

  /** The two orders are each other's mirror image. */
  lemma {:induction false} BackwardsLittleBytes(n: nat, k: nat)
    ensures Backwards(LittleBytes(n, k)) == BigBytes(n, k)
  {
    hide LowByte;
    if k != 0 {
      BackwardsLittleBytes(n / 256, k - 1);
      var rest := LittleBytes(n / 256, k - 1);
      assert Backwards([LowByte(n)] + rest) == Backwards(rest) + [LowByte(n)];
    }
  }

  lemma {:induction false} LowByteCongruence(m: nat, n: nat)
    requires m % 256 == n % 256
    ensures LowByte(m) == LowByte(n)
  {
  }

  lemma {:induction false} FourBytes(n: nat, k: nat)
    ensures LittleBytes(n, k + 4)
         == [LowByte(n), LowByte(n / 256), LowByte(n / 0x1_0000), LowByte(n / 0x100_0000)]
            + LittleBytes(n / 0x1_0000_0000, k)
  {
    hide LowByte;
    var n1, n2, n3 := n / 256, n / 0x1_0000, n / 0x100_0000;
    assert LittleBytes(n, k + 4) == [LowByte(n)] + LittleBytes(n1, k + 3);
    assert LittleBytes(n1, k + 3) == [LowByte(n1)] + LittleBytes(n2, k + 2);
    assert LittleBytes(n2, k + 2) == [LowByte(n2)] + LittleBytes(n3, k + 1);
    assert LittleBytes(n3, k + 1) == [LowByte(n3)] + LittleBytes(n / 0x1_0000_0000, k);
  }

  lemma {:induction false} LowHalf(m: nat, h: nat)
    ensures var n := h * 0x1_0000_0000 + m;
            n % 256 == m % 256 && n / 256 % 256 == m / 256 % 256
            && n / 0x1_0000 % 256 == m / 0x1_0000 % 256 && n / 0x100_0000 % 256 == m / 0x100_0000 % 256
  {
    LowPart(m, h * 0x100_0000, 1);
    LowPart(m, h * 0x1_0000, 256);
    LowPart(m, h * 256, 0x1_0000);
    LowPart(m, h, 0x100_0000);
  }

  lemma {:induction false} LowPart(m: nat, h: nat, d: nat)
    requires d == 1 || d == 256 || d == 0x1_0000 || d == 0x100_0000
    ensures (h * 256 * d + m) / d % 256 == m / d % 256
  {
    assert (h * 256 * d + m) / d == h * 256 + m / d;
  }

  /** Eight bytes are two four-byte halves, the low half first. */
  lemma {:induction false} LittleBytesSplit(n: nat)
    ensures LittleBytes(n, 8) == LittleBytes(n % 0x1_0000_0000, 4) + LittleBytes(n / 0x1_0000_0000, 4)
  {
    hide LowByte;
    var m := n % 0x1_0000_0000;
    FourBytes(n, 4);
    FourBytes(m, 0);
    LowHalf(m, n / 0x1_0000_0000);
    LowByteCongruence(m, n);
    LowByteCongruence(m / 256, n / 256);
    LowByteCongruence(m / 0x1_0000, n / 0x1_0000);
    LowByteCongruence(m / 0x100_0000, n / 0x100_0000);
  }

  // ---- memcpy and memset --------------------------------------------------------------------

  method CopyInto(dest: array<Byte>, at: nat, src: seq<Byte>)
    requires at + |src| <= dest.Length
    modifies dest
    ensures dest[..] == old(dest[..at]) + src + old(dest[at + |src|..])
  {
    for i := 0 to |src|
      invariant dest[..] == old(dest[..at]) + src[..i] + old(dest[at + i..])
    {
      dest[at + i] := src[i];
    }
  }

  // ---- reading integers back ------------------------------------------------------------------

  function Pow256(k: nat): (p: nat)
    ensures p >= 1
  {
    if k == 0 then 1 else 256 * Pow256(k - 1)
  }

  function Value(b: Byte): (v: nat)
    ensures v < 256
  {
    b.bits as nat
  }

  function LittleValue(b: seq<Byte>): nat {
    if b == [] then 0 else Value(b[0]) + 256 * LittleValue(b[1..])
  }

  lemma {:induction false} BackAndThere(b: bv8)
    ensures (b as nat) as bv8 == b
  {
  }

  lemma {:induction false} Successor(b: bv8)
    requires b < 255
    ensures (b + 1) as nat == b as nat + 1
  {
  }

  lemma {:induction false} NotLast(b: bv8)
    requires b as nat < 255
    ensures b < 255
  {
  }

  /** Every number below 256 is the number of some byte. */
  lemma {:induction false} ByteFor(m: nat) returns (b: bv8)
    requires m < 256
    ensures b as nat == m
  {
    if m == 0 {
      b := 0;
    } else {
      var before := ByteFor(m - 1);
      NotLast(before);
      Successor(before);
      b := before + 1;
    }
  }

  lemma {:induction false} ValueOfLowByte(n: nat)
    ensures Value(LowByte(n)) == n % 256
  {
    var b := ByteFor(n % 256);
    BackAndThere(b);
  }

  /** Reading back k bytes gives the number modulo 256^k. */
  lemma {:induction false} LittleValueOfLittleBytes(n: nat, k: nat)
    ensures LittleValue(LittleBytes(n, k)) == n % Pow256(k)
  {
    hide LowByte, Value;
    if k > 0 {
      LittleValueOfLittleBytes(n / 256, k - 1);
      ValueOfLowByte(n);
      ModStep(n, Pow256(k - 1));
    }
  }

  lemma {:induction false} DivideTwice(n: nat, p: nat)
    requires p >= 1
    ensures n / (256 * p) == n / 256 / p
  {
    var m, r := n / 256, n % 256;
    var q, s := m / p, m % p;
    assert m == q * p + s;
    assert n == q * (256 * p) + (256 * s + r);
    Quotient(q, 256 * p, 256 * s + r);
  }

  lemma {:induction false} Quotient(q: nat, m: nat, r: nat)
    requires r < m
    ensures (q * m + r) / m == q
  {
    Remainder(q, m, r);
    var d := (q * m + r) / m;
    assert d * m + r == q * m + r;
    if d > q {
      MoreMultiples(d, q, m);
    } else if d < q {
      MoreMultiples(q, d, m);
    }
  }

  lemma {:induction false} LastBlock(k: nat, low: nat)
    ensures (64 * k + low) % 64 == low % 64
  {
    Remainder(k + low / 64, 64, low % 64);
    assert 64 * k + low == (k + low / 64) * 64 + low % 64;
  }

  /** Each byte of a number, by its value. */
  lemma {:induction false} LittleBytesAt(n: nat, k: nat, j: nat)
    requires j < k
    ensures Value(LittleBytes(n, k)[j]) == n / Pow256(j) % 256
  {
    hide LowByte, Value;
    if j == 0 {
      ValueOfLowByte(n);
    } else {
      LittleBytesAt(n / 256, k - 1, j - 1);
      DivideTwice(n, Pow256(j - 1));
    }
  }

  /** The first k bytes, each times the power of 256 of its place. */
  function Weighed(b: seq<Byte>, k: nat): nat
    requires k <= |b|
  {
    if k == 0 then 0 else Weighed(b, k - 1) + Value(b[k - 1]) * Pow256(k - 1)
  }

  lemma {:induction false} WeighedFirst(b: seq<Byte>, k: nat)
    requires 1 <= k <= |b|
    ensures Weighed(b, k) == Value(b[0]) + 256 * Weighed(b[1..], k - 1)
  {
    hide Value;
    if k > 1 {
      WeighedFirst(b, k - 1);
      var v, p := Value(b[k - 1]), Pow256(k - 2);
      Distributes(v, p);
      assert Weighed(b[1..], k - 1) == Weighed(b[1..], k - 2) + v * p;
    }
  }

  lemma {:induction false} Distributes(v: nat, p: nat)
    ensures v * (256 * p) == 256 * (v * p)
  {
  }

  lemma {:induction false} LittleValueIsWeighed(b: seq<Byte>)
    ensures LittleValue(b) == Weighed(b, |b|)
  {
    hide Value;
    if b != [] {
      LittleValueIsWeighed(b[1..]);
      WeighedFirst(b, |b|);
    }
  }

  /** The bytes from k on only add multiples of 256^k. */
  lemma {:induction false} WeighedBelow(b: seq<Byte>, k: nat, n: nat) returns (q: nat)
    requires k <= n <= |b|
    ensures Weighed(b, n) == q * Pow256(k) + Weighed(b, k)
  {
    hide Value;
    if n == k {
      q := 0;
    } else {
      var before := WeighedBelow(b, k, n - 1);
      var p := PowerOver(k, n - 1);
      q := before + Value(b[n - 1]) * p;
      Regrouped(before, Value(b[n - 1]), p, Pow256(k));
    }
  }

  lemma {:induction false} Regrouped(a: nat, v: nat, p: nat, m: nat)
    ensures (a + v * p) * m == a * m + v * (p * m)
  {
  }

  lemma {:induction false} PowerOver(j: nat, k: nat) returns (q: nat)
    requires j <= k
    ensures Pow256(k) == q * Pow256(j)
  {
    if j == k {
      q := 1;
    } else {
      var before := PowerOver(j, k - 1);
      q := 256 * before;
      assert 256 * (before * Pow256(j)) == 256 * before * Pow256(j);
    }
  }

  lemma {:induction false} ModStep(n: nat, p: nat)
    requires p >= 1
    ensures n % (256 * p) == n % 256 + 256 * (n / 256 % p)
  {
    var q, r := n / 256 / p, n / 256 % p;
    assert n / 256 == q * p + r;
    assert n == q * (256 * p) + (256 * r + n % 256);
    Remainder(q, 256 * p, 256 * r + n % 256);
  }

  lemma {:induction false} Remainder(q: nat, m: nat, r: nat)
    requires r < m
    ensures (q * m + r) % m == r
  {
    var d, e := (q * m + r) / m, (q * m + r) % m;
    assert d * m + e == q * m + r;
    if d > q {
      MoreMultiples(d, q, m);
    } else if d < q {
      MoreMultiples(q, d, m);
    }
  }

  lemma {:induction false} MoreMultiples(d: nat, q: nat, m: nat)
    requires d > q
    ensures d * m >= q * m + m
  {
    assert d * m == q * m + (d - q - 1) * m + m;
  }
}
