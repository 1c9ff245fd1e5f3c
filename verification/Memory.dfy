/** A caller's buffer, seen as a value before and after a routine writes into it. */
module Memory {
  import opened Words

  /** Memory with `text` written over it from `p` on. */
  function Overwritten(memory: seq<Byte>, p: nat, text: seq<Byte>): (m: seq<Byte>)
    requires p + |text| <= |memory|
    ensures |m| == |memory|
  {
    memory[..p] + text + memory[p + |text|..]
  }

  lemma {:induction false} OverwrittenTwice(memory: seq<Byte>, x: seq<Byte>, y: seq<Byte>)
    requires |x| + |y| <= |memory|
    ensures |x + y| == |x| + |y|
    ensures Overwritten(Overwritten(memory, 0, x), |x|, y) == Overwritten(memory, 0, x + y)
  {
    assert |x + y| == |x| + |y|;
  }
}
