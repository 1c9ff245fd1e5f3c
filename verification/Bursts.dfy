/** Bit strings that differ in one burst, in an odd number of places, or in two. */
module Bursts {
  /** Every difference lies among n consecutive bits from i on. */
  ghost predicate Burst(p: seq<bool>, q: seq<bool>, i: nat, n: nat) {
    |p| == |q| && forall k :: 0 <= k < |p| && p[k] != q[k] ==> i <= k < i + n
  }

  /** What comes before the burst, its two forms, and what comes after it. */
  datatype Parts = Parts(before: seq<bool>, one: seq<bool>, other: seq<bool>, after: seq<bool>)

  lemma {:induction false} Divided(p: seq<bool>, q: seq<bool>, i: nat, n: nat) returns (d: Parts)
    requires Burst(p, q, i, n)
    ensures p == d.before + d.one + d.after && q == d.before + d.other + d.after
    ensures |d.one| == |d.other| <= n
  {
    hide Burst;
    SameLength(p, q, i, n);
    var from := if i < |p| then i else |p|;
    var to := if i + n < |p| then i + n else |p|;
    d := Parts(p[0..from], p[from..to], q[from..to], p[to..|p|]);
    InThree(p, from, to);
    InThree(q, from, to);
    Agree(p, q, i, n, 0, from);
    Agree(p, q, i, n, to, |p|);
  }

  lemma {:induction false} SameLength(p: seq<bool>, q: seq<bool>, i: nat, n: nat)
    requires Burst(p, q, i, n)
    ensures |p| == |q|
  {
  }

  lemma {:induction false} InThree(p: seq<bool>, i: nat, j: nat)
    requires i <= j <= |p|
    ensures p == p[0..i] + p[i..j] + p[j..|p|]
  {
  }

  lemma {:induction false} Agree(p: seq<bool>, q: seq<bool>, i: nat, n: nat, a: nat, b: nat)
    requires Burst(p, q, i, n) && a <= b <= |p| && (b <= i || a >= i + n || a == b)
    ensures p[a..b] == q[a..b]
  {
  }

  /** Whether an odd number of bits is set. */
  function OddOnes(bits: seq<bool>): bool {
    bits != [] && bits[0] != OddOnes(bits[1..])
  }

  /** The number of places in which they differ. */
  function Differences(p: seq<bool>, q: seq<bool>): nat
    requires |p| == |q|
  {
    if p == [] then 0 else (if p[0] != q[0] then 1 else 0) + Differences(p[1..], q[1..])
  }

  lemma {:induction false} OddDifferences(p: seq<bool>, q: seq<bool>)
    requires |p| == |q|
    ensures Differences(p, q) % 2 == 1 <==> OddOnes(p) != OddOnes(q)
  {
    if p != [] {
      OddDifferences(p[1..], q[1..]);
    }
  }

  /** They differ in the bits at i and at i + d, and in no others. */
  ghost predicate TwoFlips(p: seq<bool>, q: seq<bool>, i: nat, d: nat) {
    |p| == |q| && d > 0 && i + d < |p| && forall k :: 0 <= k < |p| ==> (p[k] != q[k] <==> k == i || k == i + d)
  }

  lemma {:induction false} Flipped(p: seq<bool>, q: seq<bool>, i: nat, d: nat)
    requires TwoFlips(p, q, i, d)
    ensures var mid, end := p[i + 1..i + d], p[i + d + 1..];
            && p == p[..i] + [p[i]] + mid + [p[i + d]] + end
            && q == p[..i] + [!p[i]] + mid + [!p[i + d]] + end
  {
    hide *;
    FlippedInRange(p, q, i, d);
    InFive(p, i, i + d);
    InFive(q, i, i + d);
    FlippedBits(p, q, i, d);
    Untouched(p, q, i, d, 0, i);
    Untouched(p, q, i, d, i + 1, i + d);
    Untouched(p, q, i, d, i + d + 1, |p|);
    assert p[..i] == p[0..i] && q[..i] == q[0..i];
    assert p[i + d + 1..] == p[i + d + 1..|p|] && q[i + d + 1..] == q[i + d + 1..|p|];
  }

  lemma {:induction false} FlippedBits(p: seq<bool>, q: seq<bool>, i: nat, d: nat)
    requires TwoFlips(p, q, i, d)
    ensures q[i] == !p[i] && q[i + d] == !p[i + d]
  {
  }

  lemma {:induction false} Untouched(p: seq<bool>, q: seq<bool>, i: nat, d: nat, a: nat, b: nat)
    requires TwoFlips(p, q, i, d) && a <= b <= |p| && !(a <= i < b) && !(a <= i + d < b)
    ensures p[a..b] == q[a..b]
  {
  }

  lemma {:induction false} InFive(p: seq<bool>, i: nat, j: nat)
    requires i < j < |p|
    ensures p == p[..i] + [p[i]] + p[i + 1..j] + [p[j]] + p[j + 1..]
  {
    assert p[..i] + [p[i]] == p[..i + 1];
    assert p[..i + 1] + p[i + 1..j] == p[..j];
    assert p[..j] + [p[j]] == p[..j + 1];
    assert p[..j + 1] + p[j + 1..] == p;
  }

  lemma {:induction false} Regrouped(a: seq<bool>, b: seq<bool>, mid: seq<bool>, c: seq<bool>, end: seq<bool>)
    ensures a + b + mid + c + end == a + (b + mid + c) + end
  {
  }

  lemma {:induction false} FlippedInRange(p: seq<bool>, q: seq<bool>, i: nat, d: nat)
    requires TwoFlips(p, q, i, d)
    ensures d > 0 && i + d < |p| == |q|
  {
  }
}
