/**
 What is hashed for an id: each part after its byte length, an unsigned 64-bit big-endian integer.
 The digest itself is not part of this model; `Sha256` stands for it by the bytes it has taken in.
 */
module Framing {
  import opened Wrappers
  import opened Utf8
  import opened ApiIds

  function Pow256(k: nat): nat {
    if k == 0 then 1 else 256 * Pow256(k - 1)
  }

  function BigEndian(n: nat, width: nat): (bytes: seq<Byte>)
    ensures |bytes| == width
  {
    if width == 0 then [] else BigEndian(n / 256, width - 1) + [n % 256]
  }

  function BigEndianValue(bytes: seq<Byte>): nat {
    if bytes == [] then 0 else BigEndianValue(bytes[..|bytes| - 1]) * 256 + bytes[|bytes| - 1]
  }

  function U64Be(n: nat): (bytes: seq<Byte>)
    ensures |bytes| == 8
  {
    BigEndian(n, 8)
  }

  lemma {:induction false} BigEndianReadsBack(n: nat, width: nat)
    requires n < Pow256(width)
    ensures BigEndianValue(BigEndian(n, width)) == n
  {
    if width > 0 {
      BigEndianReadsBack(n / 256, width - 1);
      assert BigEndian(n, width)[..width - 1] == BigEndian(n / 256, width - 1);
    }
  }

  lemma {:induction false} ValueReadsBack(bytes: seq<Byte>)
    ensures BigEndian(BigEndianValue(bytes), |bytes|) == bytes
    ensures BigEndianValue(bytes) < Pow256(|bytes|)
  {
    if bytes != [] {
      ValueReadsBack(bytes[..|bytes| - 1]);
      assert bytes == bytes[..|bytes| - 1] + [bytes[|bytes| - 1]];
    }
  }

  lemma Pow256Of8()
    ensures Pow256(8) == U64_LIMIT
  {
    assert Pow256(4) == 0x1_0000_0000 by {
      assert Pow256(2) == 0x1_0000;
    }
    assert Pow256(6) == 0x1_0000_0000_0000;
  }

  /** Eight bytes and a number below 2^64 determine each other. */
  lemma U64RoundTrip(n: nat, bytes: seq<Byte>)
    requires n < U64_LIMIT && |bytes| == 8
    ensures U64Be(n) == bytes <==> BigEndianValue(bytes) == n
  {
    Pow256Of8();
    BigEndianReadsBack(n, 8);
    ValueReadsBack(bytes);
  }

  function Frame(parts: seq<seq<Byte>>): seq<Byte> {
    if parts == [] then [] else U64Be(|parts[0]|) + parts[0] + Frame(parts[1..])
  }

  /** Reading the parts back off the framed bytes. */
  function Unframe(bytes: seq<Byte>): Option<seq<seq<Byte>>> {
    if bytes == [] then Some([])
    else if |bytes| < 8 then None
    else
      var n := BigEndianValue(bytes[..8]);
      if |bytes| < 8 + n then None
      else
        match Unframe(bytes[8 + n..])
        case None => None
        case Some(rest) => Some([bytes[8..8 + n]] + rest)
  }

  /** The lengths of all parts fit in 64 bits. */
  ghost predicate Short(parts: seq<seq<Byte>>) {
    forall i :: 0 <= i < |parts| ==> |parts[i]| < U64_LIMIT
  }

  lemma {:induction false} FrameReadsBack(parts: seq<seq<Byte>>)
    requires Short(parts)
    ensures Unframe(Frame(parts)) == Some(parts)
  {
    if parts != [] {
      var part, rest, bytes := parts[0], parts[1..], Frame(parts);
      U64RoundTrip(|part|, U64Be(|part|));
      assert bytes[..8] == U64Be(|part|);
      assert bytes[8..8 + |part|] == part;
      assert bytes[8 + |part|..] == Frame(rest);
      FrameReadsBack(rest);
      assert parts == [part] + rest;
    }
  }

  lemma FrameFirst(part: seq<Byte>, rest: seq<seq<Byte>>)
    ensures Frame([part] + rest) == U64Be(|part|) + part + Frame(rest)
    ensures Short([part] + rest) <==> |part| < U64_LIMIT && Short(rest)
  {
    assert ([part] + rest)[1..] == rest;
    assert forall i :: 0 <= i < |rest| ==> ([part] + rest)[i + 1] == rest[i];
  }

  lemma CutAt(bytes: seq<Byte>, i: nat, j: nat)
    requires i <= j <= |bytes|
    ensures bytes == bytes[..i] + bytes[i..j] + bytes[j..]
  {
  }

  /** Bytes that read back as parts are exactly those parts framed: the framing has no second form. */
  lemma {:induction false} UnframedFramesBack(bytes: seq<Byte>)
    requires Unframe(bytes).Some?
    ensures Frame(Unframe(bytes).value) == bytes && Short(Unframe(bytes).value)
    decreases |bytes|
  {
    if bytes != [] {
      var n := BigEndianValue(bytes[..8]);
      UnframedFramesBack(bytes[8 + n..]);
      ValueReadsBack(bytes[..8]);
      Pow256Of8();
      FrameFirst(bytes[8..8 + n], Unframe(bytes[8 + n..]).value);
      CutAt(bytes, 8, 8 + n);
    }
  }

  /** Two lists of parts have the same framing only if they are the same list. */
  lemma FrameInjective(a: seq<seq<Byte>>, b: seq<seq<Byte>>)
    requires Short(a) && Short(b)
    ensures Frame(a) == Frame(b) <==> a == b
  {
    FrameReadsBack(a);
    FrameReadsBack(b);
  }

  lemma {:induction false} FrameAppend(parts: seq<seq<Byte>>, part: seq<Byte>)
    ensures Frame(parts + [part]) == Frame(parts) + U64Be(|part|) + part
  {
    if parts == [] {
      assert Frame([part][1..]) == [];
    } else {
      assert (parts + [part])[1..] == parts[1..] + [part];
      FrameAppend(parts[1..], part);
    }
  }

  /** A running digest: all it depends on is the bytes given to it so far. */
  class Sha256 {
    var absorbed: seq<Byte>

    constructor ()
      ensures absorbed == []
    {
      absorbed := [];
    }

    method Update(bytes: seq<Byte>)
      modifies this
      ensures absorbed == old(absorbed) + bytes
    {
      absorbed := absorbed + bytes;
    }
  }

  /** The loop over the parts, each length first. */
  method Absorb(digest: Sha256, parts: seq<seq<Byte>>)
    requires digest.absorbed == []
    modifies digest
    ensures digest.absorbed == Frame(parts)
  {
    for i := 0 to |parts|
      invariant digest.absorbed == Frame(parts[..i])
    {
      FrameAppend(parts[..i], parts[i]);
      assert parts[..i + 1] == parts[..i] + [parts[i]];
      digest.Update(U64Be(|parts[i]|));
      digest.Update(parts[i]);
    }
    assert parts[..|parts|] == parts;
  }
}
