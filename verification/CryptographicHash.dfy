/** The hash object that wraps the three contexts, and the MD5 helpers built on it. */
module CryptographicHash {
  import opened Words
  import Md4Context
  import Md5Context
  import Sha1Context

  datatype Algorithm = Md4 | Md5 | Sha1

  /** What each algorithm's RFC assigns to a whole message. */
  function HashOf(algorithm: Algorithm, msg: seq<Byte>): (d: seq<Byte>)
    ensures |d| == if algorithm == Sha1 then 20 else 16
  {
    match algorithm
    case Md4 => Md4Context.Digest(msg)
    case Md5 => Md5Context.Digest(msg)
    case Sha1 => Sha1Context.Digest(msg)
  }

  method Md4Result(context: Md4Context.Context) returns (d: seq<Byte>)
    requires context.Valid()
    ensures d == HashOf(Md4, context.msg)
  {
    hide Md4Context.Digest;
    var copy := new Md4Context.Context.Copy(context);
    var out := new Byte[16];
    copy.Final(out);
    d := out[..];
  }

  method Md5Result(context: Md5Context.Context) returns (d: seq<Byte>)
    requires context.Valid()
    ensures d == HashOf(Md5, context.msg)
  {
    hide Md5Context.Digest;
    var copy := new Md5Context.Context.Copy(context);
    var out := new Byte[16];
    copy.Final(out);
    d := out[..];
  }

  method Sha1Result(context: Sha1Context.State) returns (d: seq<Byte>)
    requires context.Valid()
    ensures d == HashOf(Sha1, context.msg)
  {
    var copy := new Sha1Context.State.Copy(context);
    var out := new Byte[20];
    copy.Finalize();
    copy.ToHash(out);
    d := out[..];
  }

  class CryptographicHash {
    const algorithm: Algorithm
    // Only the context of the chosen algorithm is in use.
    var md4: Md4Context.Context?
    var md5: Md5Context.Context?
    var sha1: Sha1Context.State?
    /** The digest, once it has been asked for; empty until then. */
    var digest: seq<Byte>
    /** The data added since construction or the last reset. */
    ghost var msg: seq<Byte>

    ghost function Repr(): set<object>
      reads this, md4, md5, sha1
    {
      {this}
      + (if md4 != null then md4.Footprint() else {})
      + (if md5 != null then md5.Footprint() else {})
      + (if sha1 != null then sha1.Footprint() else {})
    }

    ghost predicate Valid()
      reads this, md4, md5, sha1, Repr()
    {
      && (digest != [] ==> digest == HashOf(algorithm, msg))
      && match algorithm
         case Md4 => md4 != null && md5 == null && sha1 == null && md4.Valid() && md4.msg == msg
         case Md5 => md5 != null && md4 == null && sha1 == null && md5.Valid() && md5.msg == msg
         case Sha1 => sha1 != null && md4 == null && md5 == null && sha1.Valid() && sha1.msg == msg
    }

    constructor (algorithm: Algorithm)
      ensures Valid() && fresh(Repr())
      ensures this.algorithm == algorithm && msg == []
    {
      hide HashOf, Md4Context.Context.Valid, Md5Context.Context.Valid, Sha1Context.State.Valid;
      this.algorithm := algorithm;
      md4, md5, sha1 := null, null, null;
      digest, msg := [], [];
      new;
      Reset();
    }

    method Reset()
      modifies this
      ensures Valid() && fresh(Repr() - {this})
      ensures msg == []
    {
      hide HashOf, Md4Context.Context.Valid, Md5Context.Context.Valid, Sha1Context.State.Valid;
      md4, md5, sha1 := null, null, null;
      digest := [];
      msg := [];
      if algorithm == Md4 {
        md4 := new Md4Context.Context();
      } else if algorithm == Md5 {
        md5 := new Md5Context.Context();
      } else {
        sha1 := new Sha1Context.State();
      }
    }

    method AddData(data: seq<Byte>)
      requires Valid() && |data| < 0x8000_0000
      modifies Repr()
      ensures Valid() && Repr() == old(Repr())
      ensures msg == old(msg) + data
    {
      hide HashOf;
      match algorithm {
        case Md4 => md4.Update(data);
        case Md5 => md5.Update(data);
        case Sha1 => sha1.Update(data);
      }
      digest := [];
      msg := msg + data;
    }

    /** Finalises a copy, so the object can be asked again and can go on absorbing. */
    method Result() returns (r: seq<Byte>)
      requires Valid()
      modifies this`digest
      ensures Valid() && msg == old(msg)
      ensures r == HashOf(algorithm, msg)
    {
      hide HashOf;
      if digest != [] {
        return digest;
      }
      if algorithm == Md4 {
        digest := Md4Result(md4);
      } else if algorithm == Md5 {
        digest := Md5Result(md5);
      } else {
        digest := Sha1Result(sha1);
      }
      r := digest;
    }

    /** The one-shot form. An empty vector is not passed on to AddData. */
    static method Hash(data: seq<Byte>, algorithm: Algorithm) returns (r: seq<Byte>)
      requires |data| < 0x8000_0000
      ensures r == HashOf(algorithm, data)
    {
      hide HashOf, Md4Context.Context.Valid, Md5Context.Context.Valid, Sha1Context.State.Valid;
      var hash := new CryptographicHash(algorithm);
      if data != [] {
        hash.AddData(data);
      }
      assert [] + data == data;
      r := hash.Result();
    }
  }

  function Concatenated(lines: seq<seq<Byte>>): seq<Byte> {
    if lines == [] then [] else lines[0] + Concatenated(lines[1..])
  }

  lemma {:induction false} ConcatenatedSnoc(lines: seq<seq<Byte>>, last: seq<Byte>)
    ensures Concatenated(lines + [last]) == Concatenated(lines) + last
  {
    if lines != [] {
      assert (lines + [last])[1..] == lines[1..] + [last];
      ConcatenatedSnoc(lines[1..], last);
    }
  }

  /** CxCrc::md5 of a list of pieces: the digest depends on the concatenation alone. */
  method Md5Lines(lines: seq<seq<Byte>>) returns (r: seq<Byte>)
    requires forall line | line in lines :: |line| < 0x8000_0000
    ensures r == if lines == [] then [] else HashOf(Md5, Concatenated(lines))
  {
    hide HashOf, Md4Context.Context.Valid, Md5Context.Context.Valid, Sha1Context.State.Valid;
    r := [];
    if lines != [] {
      var md := new CryptographicHash(Md5);
      for i := 0 to |lines|
        invariant md.Valid() && fresh(md.Repr()) && md.algorithm == Md5
        invariant md.msg == Concatenated(lines[..i])
      {
        ConcatenatedSnoc(lines[..i], lines[i]);
        assert lines[..i + 1] == lines[..i] + [lines[i]];
        if |lines[i]| > 0 {
          md.AddData(lines[i]);
        }
      }
      assert lines[..|lines|] == lines;
      r := md.Result();
    }
  }
}
