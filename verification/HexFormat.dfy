/** CxStringC::hexsize, hexdump and hexpack: hexadecimal text laid out by a format. */
module HexFormat {
  import opened ByteOrder
  import opened Words

  // Counts are 32-bit unsigned; a format's numbers come from strtol, which stops at the largest long.
  const COUNTS := 0x1_0000_0000
  const LONG_MAX := 0x7fff_ffff_ffff_ffff

  // ---- Formats ----------------------------------------------------------------------------------------------

  predicate IsDigit(c: bv8) {
    0x30 <= c <= 0x39
  }

  function DigitValue(c: bv8): nat {
    if IsDigit(c) then (c - 0x30) as nat else 0
  }

  /** The length of the run of digits a format opens with. */
  function Run(f: seq<Byte>): (n: nat)
    ensures n <= |f| && (forall i :: 0 <= i < n ==> IsDigit(f[i].bits)) && (n < |f| ==> !IsDigit(f[n].bits))
    ensures f != [] && IsDigit(f[0].bits) ==> n > 0
  {
    if f == [] || !IsDigit(f[0].bits) then 0 else 1 + Run(f[1..])
  }

  function Decimal(d: seq<Byte>): nat {
    if d == [] then 0 else 10 * Decimal(d[..|d| - 1]) + DigitValue(d[|d| - 1].bits)
  }

  /** `(unsigned) strtol(...)` on a run of digits. */
  function Skip(d: seq<Byte>): nat {
    (if Decimal(d) <= LONG_MAX then Decimal(d) else LONG_MAX) % COUNTS
  }

  /** A format is a row of plain characters and byte counts. */
  datatype Item = Plain(c: Byte) | Bytes(n: nat)

  function Items(f: seq<Byte>): seq<Item>
    decreases |f|
  {
    if f == [] then []
    else if !IsDigit(f[0].bits) then [Plain(f[0])] + Items(f[1..])
    else [Bytes(Skip(f[..Run(f)]))] + Items(f[Run(f)..])
  }

  /** How many bytes a format takes. */
  function Taken(items: seq<Item>): nat {
    if items == [] then 0
    else (match items[0] case Plain(_) => 0 case Bytes(n) => n) + Taken(items[1..])
  }

  /** How many characters it makes of them. */
  function Width(items: seq<Item>): nat {
    if items == [] then 0
    else (match items[0] case Plain(_) => 1 case Bytes(n) => 2 * n) + Width(items[1..])
  }

  // ---- Text and bytes ---------------------------------------------------------------------------------------

  function HexDigit(v: bv8): bv8 {
    if v < 10 then v + 0x30 else v - 10 + 0x61
  }

  function HighDigit(b: bv8): bv8 {
    HexDigit(b >> 4)
  }

  function LowDigit(b: bv8): bv8 {
    HexDigit(b & 0x0f)
  }

  /** `%02x`. */
  function Pair(b: Byte): (p: seq<Byte>)
    ensures |p| == 2
  {
    [Byte(HighDigit(b.bits)), Byte(LowDigit(b.bits))]
  }

  function Upper(c: bv8): bv8 {
    if 0x61 <= c <= 0x7A then c - 0x20 else c
  }

  /** The static function hex, of which only the low eight bits matter. */
  function Hex(c: bv8): bv8 {
    if IsDigit(c) then c - 0x30 else Upper(c) - 0x41 + 10
  }

  function Combined(x: bv8, y: bv8): bv8 {
    Hex(x) * 16 + Hex(y)
  }

  function Unpair(x: Byte, y: Byte): Byte {
    Byte(Combined(x.bits, y.bits))
  }

  /** The pairs of some bytes, one after the other. */
  function Pairs(b: seq<Byte>): (t: seq<Byte>)
    ensures |t| == 2 * |b|
  {
    if b == [] then [] else Pair(b[0]) + Pairs(b[1..])
  }

  /** The text a format makes of some bytes. */
  function Dump(items: seq<Item>, b: seq<Byte>): (t: seq<Byte>)
    requires Taken(items) <= |b|
    ensures |t| == Width(items)
  {
    if items == [] then []
    else match items[0]
      case Plain(c) => [c] + Dump(items[1..], b)
      case Bytes(n) => Pairs(b[..n]) + Dump(items[1..], b[n..])
  }

  /** The bytes that pairs of characters stand for. */
  function Unpairs(t: seq<Byte>, n: nat): (b: seq<Byte>)
    requires 2 * n <= |t|
    ensures |b| == n
  {
    if n == 0 then [] else [Unpair(t[0], t[1])] + Unpairs(t[2..], n - 1)
  }

  /** Reading back stays inside memory: pairs are read without a check, plain characters stop at a difference. */
  predicate Readable(items: seq<Item>, t: seq<Byte>) {
    items == [] ||
    match items[0]
    case Plain(c) => t != [] && (t[0] == c ==> Readable(items[1..], t[1..]))
    case Bytes(n) => 2 * n <= |t| && Readable(items[1..], t[2 * n..])
  }

  /** The bytes read back up to the first plain character that differs. */
  function Parsed(items: seq<Item>, t: seq<Byte>): seq<Byte>
    requires Readable(items, t)
  {
    if items == [] then []
    else match items[0]
      case Plain(c) => if t[0] == c then Parsed(items[1..], t[1..]) else []
      case Bytes(n) => Unpairs(t, n) + Parsed(items[1..], t[2 * n..])
  }

  /** The number of characters accepted. */
  function Accepted(items: seq<Item>, t: seq<Byte>): nat
    requires Readable(items, t)
  {
    if items == [] then 0
    else match items[0]
      case Plain(c) => if t[0] == c then 1 + Accepted(items[1..], t[1..]) else 0
      case Bytes(n) => 2 * n + Accepted(items[1..], t[2 * n..])
  }

  // ---- What digits and numbers are --------------------------------------------------------------------------

  lemma {:induction false} Nibbles(b: bv8)
    ensures (b >> 4) as nat == b as nat / 16 && (b & 0x0f) as nat == b as nat % 16
    ensures b >> 4 < 16 && b & 0x0f < 16
  {
  }

  lemma {:induction false} DigitText(v: bv8)
    requires v < 16
    ensures HexDigit(v) as nat == "0123456789abcdef"[v as nat] as int
  {
  }

  /** A byte is printed as its two hexadecimal digits in lower case, the more significant one first. */
  lemma {:induction false} PairDigits(b: Byte)
    ensures Value(Pair(b)[0]) == "0123456789abcdef"[Value(b) / 16] as int
    ensures Value(Pair(b)[1]) == "0123456789abcdef"[Value(b) % 16] as int
  {
    hide HexDigit;
    Nibbles(b.bits);
    DigitText(b.bits >> 4);
    DigitText(b.bits & 0x0f);
  }

  lemma {:induction false} SixteenTimes(x: bv8)
    ensures Value(Byte(x * 16)) == 16 * Value(Byte(x)) % 256
  {
  }

  function Sum(x: bv8, y: bv8): bv8 {
    x + y
  }

  function Next(x: bv8): bv8 {
    x + 1
  }

  lemma {:induction false} NextNumber(x: bv8)
    ensures Value(Byte(Next(x))) == (Value(Byte(x)) + 1) % 256
  {
  }

  lemma {:induction false} Before(y: bv8) returns (z: bv8)
    requires y != 0
    ensures Value(Byte(z)) + 1 == Value(Byte(y)) && Next(z) == y
  {
    z := y - 1;
  }

  lemma {:induction false} SumNext(x: bv8, z: bv8)
    ensures Sum(x, Next(z)) == Next(Sum(x, z))
  {
  }

  lemma {:induction false} SumZero(x: bv8)
    ensures Sum(x, 0) == x && Value(Byte(0)) == 0
  {
  }

  lemma {:induction false} SumWraps(x: bv8, y: bv8)
    ensures Value(Byte(Sum(x, y))) == (Value(Byte(x)) + Value(Byte(y))) % 256
    decreases Value(Byte(y))
  {
    hide Sum, Next, Value;
    SumZero(x);
    if y != 0 {
      var z := Before(y);
      SumWraps(x, z);
      SumNext(x, z);
      NextNumber(Sum(x, z));
    }
  }

  /** The value of any character as `hex` takes it, letters of both cases and other characters alike. */
  function HexNumber(c: nat): int {
    if '0' as int <= c <= '9' as int then c - '0' as int
    else (if 'a' as int <= c <= 'z' as int then c - 32 else c) - 'A' as int + 10
  }

  lemma {:induction false} HexIsNumber(c: bv8)
    ensures (HexNumber(Value(Byte(c))) - Value(Byte(Hex(c)))) % 256 == 0
  {
  }

  /** Two characters are read as sixteen times the first and the second, modulo 256. */
  lemma {:induction false} UnpairNumber(x: Byte, y: Byte)
    ensures Value(Unpair(x, y)) == (16 * HexNumber(Value(x)) + HexNumber(Value(y))) % 256
  {
    hide Hex, HexNumber, Value;
    var a, b := Hex(x.bits), Hex(y.bits);
    HexIsNumber(x.bits);
    HexIsNumber(y.bits);
    SixteenTimes(a);
    SumWraps(a * 16, b);
    Congruent(HexNumber(Value(x)), Value(Byte(a)), HexNumber(Value(y)), Value(Byte(b)));
    assert Unpair(x, y) == Byte(Sum(a * 16, b));
  }

  lemma {:induction false} Congruent(p: int, a: nat, q: int, b: nat)
    requires (p - a) % 256 == 0 && (q - b) % 256 == 0
    ensures (16 * a % 256 + b) % 256 == (16 * p + q) % 256
  {
    var k, l, m := (p - a) / 256, (q - b) / 256, 16 * a / 256;
    assert p == a + 256 * k && q == b + 256 * l;
    assert 16 * p + q == 16 * a % 256 + b + 256 * (m + 16 * k + l);
  }

  /** The character c writes the digit i in lower or in upper case. */
  predicate Writes(c: nat, i: nat)
    requires i < 16
  {
    c == "0123456789abcdef"[i] as int || c == "0123456789ABCDEF"[i] as int
  }

  /** Hexadecimal digits of either case are read as the byte they write. */
  lemma {:induction false} UnpairDigits(x: Byte, y: Byte, i: nat, j: nat)
    requires i < 16 && j < 16 && Writes(Value(x), i) && Writes(Value(y), j)
    ensures Value(Unpair(x, y)) == 16 * i + j
  {
    hide Unpair, Value, HexNumber, Writes;
    UnpairNumber(x, y);
    NumberOfDigit(Value(x), i);
    NumberOfDigit(Value(y), j);
  }

  lemma {:induction false} NumberOfDigit(c: nat, i: nat)
    requires i < 16 && Writes(c, i)
    ensures HexNumber(c) == i
  {
  }

  /** The number that decimal digits write. */
  function Ten(d: seq<Byte>): int {
    if d == [] then 0 else 10 * Ten(d[..|d| - 1]) + (Value(d[|d| - 1]) - '0' as int)
  }

  predicate AreDigits(d: seq<Byte>) {
    forall i :: 0 <= i < |d| ==> '0' as int <= Value(d[i]) <= '9' as int
  }

  lemma {:induction false} DigitIs(c: bv8)
    ensures IsDigit(c) <==> '0' as int <= c as nat <= '9' as int
    ensures IsDigit(c) ==> DigitValue(c) == c as nat - '0' as int
  {
  }

  lemma {:induction false} DecimalIsTen(d: seq<Byte>)
    requires AreDigits(d)
    ensures Decimal(d) == Ten(d)
  {
    hide IsDigit, DigitValue;
    if d != [] {
      DecimalIsTen(d[..|d| - 1]);
      DigitIs(d[|d| - 1].bits);
    }
  }

  lemma {:induction false} RunIs(d: seq<Byte>, rest: seq<Byte>)
    requires AreDigits(d) && (rest == [] || !('0' as int <= Value(rest[0]) <= '9' as int))
    ensures Run(d + rest) == |d|
  {
    hide IsDigit;
    if d == [] {
      if rest != [] {
        DigitIs(rest[0].bits);
        assert (d + rest)[0] == rest[0];
      }
    } else {
      DigitIs(d[0].bits);
      RunIs(d[1..], rest);
      assert (d + rest)[1..] == d[1..] + rest;
    }
  }

  /** In a format, digits are a number of bytes, cut to an unsigned int, and any other character stands for itself. */
  lemma {:induction false} FormatMeans(d: seq<Byte>, rest: seq<Byte>, c: Byte)
    requires AreDigits(d) && d != [] && (rest == [] || !('0' as int <= Value(rest[0]) <= '9' as int))
    ensures Items(d + rest) ==
            [Bytes((if Ten(d) <= 0x7fff_ffff_ffff_ffff then Ten(d) else 0x7fff_ffff_ffff_ffff) % 0x1_0000_0000)]
            + Items(rest)
    ensures !('0' as int <= Value(c) <= '9' as int) ==> Items([c] + rest) == [Plain(c)] + Items(rest)
  {
    hide IsDigit;
    RunIs(d, rest);
    DigitIs(d[0].bits);
    DigitIs(c.bits);
    DecimalIsTen(d);
    assert (d + rest)[..|d|] == d && (d + rest)[|d|..] == rest;
    assert ([c] + rest)[1..] == rest;
  }

  /** Reading stops at the first plain character that differs, with the bytes and the characters before it. */
  lemma {:induction false} StopsAtDifference(items: seq<Item>, c: Byte, more: seq<Item>, b: seq<Byte>, x: Byte,
                                             rest: seq<Byte>)
    requires Taken(items) == |b| && x != c
    ensures var t := Dump(items, b) + ([x] + rest);
            && Readable(items + ([Plain(c)] + more), t)
            && Parsed(items + ([Plain(c)] + more), t) == b
            && Accepted(items + ([Plain(c)] + more), t) == Width(items)
  {
    hide Pairs, Unpairs;
    var all, t := items + ([Plain(c)] + more), Dump(items, b) + ([x] + rest);
    if items == [] {
      assert all == [Plain(c)] + more && t == [x] + rest;
    } else {
      assert all[0] == items[0] && all[1..] == items[1..] + ([Plain(c)] + more);
      if items[0].Plain? {
        StopsAtDifference(items[1..], c, more, b, x, rest);
        assert t[1..] == Dump(items[1..], b) + ([x] + rest);
      } else {
        var n := items[0].n;
        AfterCount(items, b, [x] + rest);
        hide Dump, Taken;
        StopsAtDifference(items[1..], c, more, b[n..], x, rest);
        assert b[..n] + b[n..] == b;
      }
    }
  }

  // ---- Round trips ------------------------------------------------------------------------------------------

  lemma {:induction false} PairReadsBack(b: Byte)
    ensures Unpair(Pair(b)[0], Pair(b)[1]) == b
  {
  }

  lemma {:induction false} PairsReadBack(b: seq<Byte>, rest: seq<Byte>)
    ensures Unpairs(Pairs(b) + rest, |b|) == b
  {
    hide Pair, Unpair;
    if b != [] {
      PairReadsBack(b[0]);
      PairsReadBack(b[1..], rest);
      assert (Pairs(b) + rest)[2..] == Pairs(b[1..]) + rest;
      assert [b[0]] + b[1..] == b;
    }
  }

  lemma {:induction false} Regrouped(x: seq<Byte>, y: seq<Byte>, z: seq<Byte>)
    ensures (x + y) + z == x + (y + z) && ((x + y) + z)[|x|..] == y + z
  {
  }

  lemma {:induction false} TakenTwice(b: seq<Byte>, n: nat, m: nat)
    requires n + m <= |b|
    ensures b[..n] + b[n..][..m] == b[..n + m]
  {
  }

  lemma {:induction false} AfterCount(items: seq<Item>, b: seq<Byte>, rest: seq<Byte>)
    requires items != [] && items[0].Bytes? && Taken(items) <= |b|
    ensures var n, t := items[0].n, Dump(items, b) + rest;
            && 2 * n <= |t| && n <= |b| && Taken(items) == n + Taken(items[1..]) && Taken(items[1..]) <= |b[n..]|
            && t[2 * n..] == Dump(items[1..], b[n..]) + rest
            && Unpairs(t, n) == b[..n]
            && b[..n] + b[n..][..Taken(items[1..])] == b[..Taken(items)]
  {
    hide Pairs, Unpairs;
    var n, m := items[0].n, Taken(items[1..]);
    var x, y := Pairs(b[..n]), Dump(items[1..], b[n..]);
    PairsReadBack(b[..n], y + rest);
    Regrouped(x, y, rest);
    TakenTwice(b, n, m);
  }

  /** Reading a dump with its own format consumes it whole and restores the bytes it took. */
  lemma {:induction false} DumpReadsBack(items: seq<Item>, b: seq<Byte>, rest: seq<Byte>)
    requires Taken(items) <= |b|
    ensures Readable(items, Dump(items, b) + rest)
    ensures Parsed(items, Dump(items, b) + rest) == b[..Taken(items)]
    ensures Accepted(items, Dump(items, b) + rest) == Width(items) == |Dump(items, b)|
  {
    hide Pairs, Unpairs;
    var t := Dump(items, b) + rest;
    if items != [] {
      if items[0].Plain? {
        DumpReadsBack(items[1..], b, rest);
        assert t[1..] == Dump(items[1..], b) + rest;
      } else {
        AfterCount(items, b, rest);
        hide Dump, Taken;
        DumpReadsBack(items[1..], b[items[0].n..], rest);
        assert Accepted(items, t) == Width(items);
      }
    }
  }

  predicate IsLowerHex(c: bv8) {
    0x30 <= c <= 0x39 || 0x61 <= c <= 0x66
  }

  lemma {:induction false} PairIsLower(x: bv8, y: bv8)
    ensures IsLowerHex(x) && IsLowerHex(y) <==> Pair(Unpair(Byte(x), Byte(y))) == [Byte(x), Byte(y)]
  {
    hide IsLowerHex, HighDigit, LowDigit, Combined;
    if IsLowerHex(x) && IsLowerHex(y) {
      CombinedHigh(x, y);
      CombinedLow(x, y);
    }
    DigitsAreLower(Combined(x, y));
  }

  lemma {:induction false} CombinedHigh(x: bv8, y: bv8)
    requires IsLowerHex(x) && IsLowerHex(y)
    ensures HighDigit(Combined(x, y)) == x
  {
  }

  lemma {:induction false} CombinedLow(x: bv8, y: bv8)
    requires IsLowerHex(x) && IsLowerHex(y)
    ensures LowDigit(Combined(x, y)) == y
  {
  }

  lemma {:induction false} DigitsAreLower(b: bv8)
    ensures IsLowerHex(HighDigit(b)) && IsLowerHex(LowDigit(b))
  {
  }

  predicate AllLower(t: seq<Byte>) {
    forall i :: 0 <= i < |t| ==> IsLowerHex(t[i].bits)
  }

  lemma {:induction false} PairsOfUnpairs(t: seq<Byte>, n: nat)
    requires 2 * n <= |t|
    ensures AllLower(t[..2 * n]) <==> Pairs(Unpairs(t, n)) == t[..2 * n]
  {
    hide IsLowerHex, Pair, Unpair;
    if n > 0 {
      var p, q := Pair(Unpair(t[0], t[1])), Pairs(Unpairs(t[2..], n - 1));
      PairIsLower(t[0].bits, t[1].bits);
      PairsOfUnpairs(t[2..], n - 1);
      assert t[..2 * n] == [t[0], t[1]] + t[2..][..2 * (n - 1)];
      assert Pairs(Unpairs(t, n)) == p + q;
      Cut([t[0], t[1]], t[2..][..2 * (n - 1)], p, q);
      AllLowerSplit([t[0], t[1]], t[2..][..2 * (n - 1)]);
    }
  }

  lemma {:induction false} Cut(x: seq<Byte>, y: seq<Byte>, p: seq<Byte>, q: seq<Byte>)
    requires |x| == |p|
    ensures x + y == p + q <==> x == p && y == q
  {
    if x + y == p + q {
      assert x == (x + y)[..|x|] && p == (p + q)[..|x|];
      assert y == (x + y)[|x|..] && q == (p + q)[|x|..];
    }
  }

  lemma {:induction false} AllLowerSplit(x: seq<Byte>, y: seq<Byte>)
    ensures AllLower(x + y) <==> AllLower(x) && AllLower(y)
  {
    hide IsLowerHex;
    assert forall i :: 0 <= i < |x| ==> (x + y)[i] == x[i];
    assert forall i :: 0 <= i < |y| ==> (x + y)[|x| + i] == y[i];
  }

  /** A text laid out by the format, with lower-case digits where the format counts bytes. */
  predicate WellWritten(items: seq<Item>, t: seq<Byte>) {
    items == [] ||
    match items[0]
    case Plain(c) => t != [] && t[0] == c && WellWritten(items[1..], t[1..])
    case Bytes(n) => 2 * n <= |t| && AllLower(t[..2 * n]) && WellWritten(items[1..], t[2 * n..])
  }

  /** Every plain character of the format was found. */
  predicate Complete(items: seq<Item>, t: seq<Byte>)
    requires Readable(items, t)
  {
    Accepted(items, t) == Width(items)
  }

  lemma {:induction false} CompleteParse(items: seq<Item>, t: seq<Byte>)
    requires Readable(items, t)
    ensures |Parsed(items, t)| <= Taken(items) && Accepted(items, t) <= Width(items) && Accepted(items, t) <= |t|
    ensures Complete(items, t) ==> |Parsed(items, t)| == Taken(items) && Width(items) <= |t|
  {
    hide Unpairs;
    if items != [] {
      if items[0].Plain? {
        if t[0] == items[0].c {
          CompleteParse(items[1..], t[1..]);
        }
      } else {
        CompleteParse(items[1..], t[2 * items[0].n..]);
      }
    }
  }

  /** Dumping what was read restores the text exactly when the text was laid out by the format in lower case. */
  lemma {:induction false} ParsedDumpsBack(items: seq<Item>, t: seq<Byte>)
    requires Readable(items, t)
    ensures |Parsed(items, t)| <= Taken(items)
    ensures Complete(items, t) ==> |Parsed(items, t)| == Taken(items) && Width(items) <= |t|
    ensures WellWritten(items, t) <==>
              Complete(items, t) && Dump(items, Parsed(items, t)) == t[..Width(items)]
  {
    hide Unpairs, Pairs;
    CompleteParse(items, t);
    if items != [] {
      if items[0].Plain? {
        if t[0] == items[0].c {
          ParsedDumpsBack(items[1..], t[1..]);
          assert Complete(items, t) <==> Complete(items[1..], t[1..]);
          if Complete(items, t) {
            Cut([t[0]], t[1..][..Width(items[1..])], [t[0]], Dump(items[1..], Parsed(items[1..], t[1..])));
            assert t[..Width(items)] == [t[0]] + t[1..][..Width(items[1..])];
          }
        }
      } else {
        ParsedDumpsBack(items[1..], t[2 * items[0].n..]);
        CountDumpsBack(items, t);
      }
    }
  }

  lemma {:induction false} CountDumpsBack(items: seq<Item>, t: seq<Byte>)
    requires Readable(items, t) && items != [] && items[0].Bytes?
    requires var u := t[2 * items[0].n..];
             && (Complete(items[1..], u) ==> |Parsed(items[1..], u)| == Taken(items[1..]) && Width(items[1..]) <= |u|)
             && (WellWritten(items[1..], u) <==>
                 Complete(items[1..], u) && Dump(items[1..], Parsed(items[1..], u)) == u[..Width(items[1..])])
    ensures Complete(items, t) ==> |Parsed(items, t)| == Taken(items) && Width(items) <= |t|
    ensures WellWritten(items, t) <==>
              Complete(items, t) && Dump(items, Parsed(items, t)) == t[..Width(items)]
  {
    hide Unpairs, Pairs, AllLower;
    var n := items[0].n;
    var u, w := t[2 * n..], Width(items[1..]);
    PairsOfUnpairs(t, n);
    assert Complete(items, t) <==> Complete(items[1..], u);
    if Complete(items, t) {
      var x, y := Unpairs(t, n), Parsed(items[1..], u);
      assert (x + y)[..n] == x && (x + y)[n..] == y;
      Cut(t[..2 * n], u[..w], Pairs(x), Dump(items[1..], y));
      TakenTwice(t, 2 * n, w);
    }
  }
}
