/**
 The UTF-8 encoding form, section 3 of RFC 3629, and the prefix that
 `truncate_utf8` keeps of a text.
 */
module Utf8 {
  import opened Wrappers

  type Byte = n: nat | n < 0x100

  /** A Unicode scalar value: any code point but a surrogate. */
  type Scalar = n: nat | n < 0xD800 || 0xE000 <= n < 0x110000

  type Text = seq<Scalar>

  /** The character `…` that marks a cut. */
  const ELLIPSIS: Scalar := 0x2026

  predicate IsContinuation(b: Byte) {
    0x80 <= b < 0xC0
  }

  function EncodeScalar(c: Scalar): (bytes: seq<Byte>)
    ensures 1 <= |bytes| <= 4
    ensures !IsContinuation(bytes[0])
    ensures forall i :: 1 <= i < |bytes| ==> IsContinuation(bytes[i])
  {
    if c < 0x80 then [c]
    else if c < 0x800 then [0xC0 + c / 0x40, 0x80 + c % 0x40]
    else if c < 0x10000 then [0xE0 + c / 0x40 / 0x40, 0x80 + c / 0x40 % 0x40, 0x80 + c % 0x40]
    else [0xF0 + c / 0x40 / 0x40 / 0x40, 0x80 + c / 0x40 / 0x40 % 0x40, 0x80 + c / 0x40 % 0x40, 0x80 + c % 0x40]
  }

  function Encode(text: Text): (bytes: seq<Byte>)
  {
    if text == [] then [] else EncodeScalar(text[0]) + Encode(text[1..])
  }

  /** The first scalar of well-formed bytes and how many bytes it took. */
  function DecodeFirst(bytes: seq<int>): Option<(int, nat)> {
    if |bytes| >= 1 && bytes[0] < 0x80 then Some((bytes[0], 1))
    else if |bytes| >= 2 && 0xC0 <= bytes[0] < 0xE0 then
      Some(((bytes[0] - 0xC0) * 0x40 + (bytes[1] - 0x80), 2))
    else if |bytes| >= 3 && 0xE0 <= bytes[0] < 0xF0 then
      Some((((bytes[0] - 0xE0) * 0x40 + (bytes[1] - 0x80)) * 0x40 + (bytes[2] - 0x80), 3))
    else if |bytes| >= 4 && 0xF0 <= bytes[0] then
      Some(((((bytes[0] - 0xF0) * 0x40 + (bytes[1] - 0x80)) * 0x40 + (bytes[2] - 0x80)) * 0x40 + (bytes[3] - 0x80), 4))
    else None
  }

  lemma DecodeEncoded(c: Scalar, rest: seq<Byte>)
    ensures DecodeFirst(EncodeScalar(c) + rest) == Some((c, |EncodeScalar(c)|))
  {
    var bytes := EncodeScalar(c) + rest;
    assert forall i :: 0 <= i < |EncodeScalar(c)| ==> bytes[i] == EncodeScalar(c)[i];
  }

  /** No two texts share an encoding. */
  lemma {:induction false} EncodeInjective(a: Text, b: Text)
    requires Encode(a) == Encode(b)
    ensures a == b
  {
    if a != [] && b != [] {
      DecodeEncoded(a[0], Encode(a[1..]));
      DecodeEncoded(b[0], Encode(b[1..]));
      var n := |EncodeScalar(a[0])|;
      assert Encode(a[1..]) == Encode(a)[n..] == Encode(b)[n..] == Encode(b[1..]);
      EncodeInjective(a[1..], b[1..]);
      assert a == [a[0]] + a[1..] && b == [b[0]] + b[1..];
    }
  }

  lemma {:induction false} EncodeAppend(a: Text, b: Text)
    ensures Encode(a + b) == Encode(a) + Encode(b)
  {
    if a == [] {
      assert a + b == b;
    } else {
      assert (a + b)[1..] == a[1..] + b;
      EncodeAppend(a[1..], b);
    }
  }

  /** Rust's `str::is_char_boundary`. */
  predicate IsCharBoundary(bytes: seq<Byte>, index: nat) {
    index == 0 || index == |bytes| || (index < |bytes| && !IsContinuation(bytes[index]))
  }

  /** How many leading characters of `text` fit in `maxBytes`. */
  function Fitting(text: Text, maxBytes: nat): (k: nat)
    ensures k <= |text|
  {
    if text == [] || |EncodeScalar(text[0])| > maxBytes then 0
    else 1 + Fitting(text[1..], maxBytes - |EncodeScalar(text[0])|)
  }

  function Truncated(text: Text, maxBytes: nat): Text {
    if |Encode(text)| <= maxBytes then text else text[..Fitting(text, maxBytes)] + [ELLIPSIS]
  }

  /** `Fitting` is the longest prefix that fits, and it leaves fewer than four bytes unused. */
  lemma {:induction false} FittingIsLongest(text: Text, maxBytes: nat, k: nat)
    requires k <= |text|
    ensures |Encode(text[..k])| <= maxBytes <==> k <= Fitting(text, maxBytes)
    ensures |Encode(text)| > maxBytes ==> maxBytes < |Encode(text[..Fitting(text, maxBytes)])| + 4
  {
    if text != [] {
      var n := |EncodeScalar(text[0])|;
      if n > maxBytes {
        if k > 0 { assert text[..k][1..] == text[1..][..k-1]; }
      } else if k == 0 {
        FittingIsLongest(text[1..], maxBytes - n, 0);
        assert text[..1 + Fitting(text[1..], maxBytes - n)][1..] == text[1..][..Fitting(text[1..], maxBytes - n)];
      } else {
        assert text[..k][1..] == text[1..][..k-1];
        FittingIsLongest(text[1..], maxBytes - n, k - 1);
        assert text[..1 + Fitting(text[1..], maxBytes - n)][1..] == text[1..][..Fitting(text[1..], maxBytes - n)];
      }
    }
  }

  /** A byte offset is a boundary exactly when some prefix of the characters ends there. */
  lemma {:induction false} BoundaryIsPrefixEnd(text: Text, index: nat)
    requires index <= |Encode(text)|
    ensures IsCharBoundary(Encode(text), index) <==> exists k :: 0 <= k <= |text| && index == |Encode(text[..k])|
  {
    hide EncodeScalar;
    if text == [] || index == 0 {
      assert text[..0] == [];
    } else {
      var head := EncodeScalar(text[0]);
      var rest := text[1..];
      if index < |head| {
        forall k | 0 <= k <= |text| ensures index != |Encode(text[..k])| {
          if k > 0 { assert text[..k][1..] == rest[..k-1]; }
        }
      } else {
        BoundaryIsPrefixEnd(rest, index - |head|);
        if index < |Encode(text)| {
          assert Encode(text)[index] == Encode(rest)[index - |head|];
        }
        if index == |head| && rest != [] {
          assert Encode(rest)[0] == EncodeScalar(rest[0])[0];
        }
        if exists k :: 0 <= k <= |rest| && index - |head| == |Encode(rest[..k])| {
          var k :| 0 <= k <= |rest| && index - |head| == |Encode(rest[..k])|;
          assert text[..k+1][1..] == rest[..k];
        }
        forall k | 0 <= k <= |text| && index == |Encode(text[..k])|
          ensures k > 0 && index - |head| == |Encode(rest[..k-1])|
        {
          if k > 0 { assert text[..k][1..] == rest[..k-1]; }
        }
      }
    }
  }

  /** A text cut to `maxBytes`: what it keeps is itself text, as long as it can be, with a mark. */
  lemma TruncatedIsLongestPrefix(text: Text, maxBytes: nat)
    ensures |Encode(text)| <= maxBytes ==> Truncated(text, maxBytes) == text
    ensures |Encode(text)| > maxBytes ==>
              exists k ::
                && 0 <= k < |text|
                && Truncated(text, maxBytes) == text[..k] + [0x2026]
                && |Encode(text[..k])| <= maxBytes < |Encode(text[..k + 1])|
    ensures |Encode(text)| > maxBytes ==>
              maxBytes < |Encode(Truncated(text, maxBytes))| + 1 <= maxBytes + 4
  {
    if |Encode(text)| > maxBytes {
      var k := Fitting(text, maxBytes);
      FittingIsLongest(text, maxBytes, k);
      FittingIsLongest(text, maxBytes, |text|);
      assert text[..|text|] == text;
      FittingIsLongest(text, maxBytes, k + 1);
      EncodeAppend(text[..k], [ELLIPSIS]);
      assert |Encode([ELLIPSIS])| == 3;
    }
  }

  /**
   The loop steps back from `maxBytes` to a character boundary. It stops after at most three steps,
   so `end` cannot fall below zero, and what it keeps is the longest prefix that fits.
   */
  method TruncateUtf8(value: seq<Byte>, maxBytes: nat, ghost text: Text) returns (r: seq<Byte>, steps: nat)
    requires value == Encode(text)
    ensures r == Encode(Truncated(text, maxBytes))
    ensures steps <= 3
    ensures |r| <= maxBytes + 3
  {
    steps := 0;
    if |value| <= maxBytes {
      return value, steps;
    }
    ghost var k := Fitting(text, maxBytes);
    FittingIsLongest(text, maxBytes, k);
    ghost var kept := |Encode(text[..k])|;
    BoundaryIsPrefixEnd(text, kept);
    var end := maxBytes;
    while !IsCharBoundary(value, end)
      invariant kept <= end == maxBytes - steps
      invariant forall i :: end < i <= maxBytes ==> !IsCharBoundary(value, i)
      decreases end
    {
      end := end - 1;
      steps := steps + 1;
    }
    EndIsFitting(text, maxBytes, end);
    EncodeAppend(text[..k], text[k..]);
    assert text[..k] + text[k..] == text;
    assert value[..end] == Encode(text[..k]);
    EncodeAppend(text[..k], [ELLIPSIS]);
    assert Encode([ELLIPSIS]) == EncodeScalar(ELLIPSIS);
    r := value[..end] + EncodeScalar(ELLIPSIS);
  }

  lemma EndIsFitting(text: Text, maxBytes: nat, end: nat)
    requires |Encode(text)| > maxBytes
    requires |Encode(text[..Fitting(text, maxBytes)])| <= end <= maxBytes
    requires IsCharBoundary(Encode(text), end)
    ensures end == |Encode(text[..Fitting(text, maxBytes)])|
    ensures maxBytes < end + 4
  {
    var k := Fitting(text, maxBytes);
    BoundaryIsPrefixEnd(text, end);
    var j :| 0 <= j <= |text| && end == |Encode(text[..j])|;
    FittingIsLongest(text, maxBytes, j);
    EncodeAppend(text[..j], text[j..k]);
    assert text[..j] + text[j..k] == text[..k];
  }
}
