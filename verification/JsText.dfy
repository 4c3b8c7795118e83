/**
 The strings of the TypeScript client: sequences of UTF-16 code units, which need not be well formed.
 `TextEncoder` puts the replacement character for each lone surrogate.
 */
module JsText {
  import opened Utf8

  type Unit = n: nat | n < 0x10000

  type JsString = seq<Unit>

  const REPLACEMENT: Scalar := 0xFFFD

  predicate High(u: Unit) {
    0xD800 <= u < 0xDC00
  }

  predicate Low(u: Unit) {
    0xDC00 <= u < 0xE000
  }

  /** A string starts with a pair of surrogates, which are one scalar. */
  predicate StartsWithPair(s: JsString) {
    |s| >= 2 && High(s[0]) && Low(s[1])
  }

  function Paired(high: Unit, low: Unit): Scalar
    requires High(high) && Low(low)
  {
    var h: int, l: int := high, low;
    0x10000 + (h - 0xD800) * 0x400 + (l - 0xDC00)
  }

  function ToScalars(s: JsString): Text {
    if s == [] then []
    else if StartsWithPair(s) then [Paired(s[0], s[1])] + ToScalars(s[2..])
    else if High(s[0]) || Low(s[0]) then [REPLACEMENT] + ToScalars(s[1..])
    else [s[0]] + ToScalars(s[1..])
  }

  function UnitsOf(c: Scalar): JsString {
    if c < 0x10000 then [c] else [0xD800 + (c - 0x10000) / 0x400, 0xDC00 + (c - 0x10000) % 0x400]
  }

  function FromScalars(text: Text): JsString {
    if text == [] then [] else UnitsOf(text[0]) + FromScalars(text[1..])
  }

  /** The bytes `TextEncoder` gives. */
  function Utf8Of(s: JsString): seq<Byte> {
    Encode(ToScalars(s))
  }

  /** The string with each lone surrogate replaced. */
  function ToWellFormed(s: JsString): JsString {
    FromScalars(ToScalars(s))
  }

  predicate WellFormed(s: JsString) {
    s != [] ==>
      if StartsWithPair(s) then WellFormed(s[2..]) else !High(s[0]) && !Low(s[0]) && WellFormed(s[1..])
  }

  lemma {:induction false} ScalarsRoundTrip(text: Text)
    ensures ToScalars(FromScalars(text)) == text
  {
    if text != [] {
      var c, rest := text[0], FromScalars(text[1..]);
      ScalarsRoundTrip(text[1..]);
      assert (UnitsOf(c) + rest)[|UnitsOf(c)|..] == rest;
      assert text == [c] + text[1..];
    }
  }

  lemma {:induction false} WellFormedIsUnchanged(s: JsString)
    ensures ToWellFormed(s) == s <==> WellFormed(s)
    ensures |ToWellFormed(s)| == |s|
  {
    if StartsWithPair(s) {
      WellFormedIsUnchanged(s[2..]);
      var c := Paired(s[0], s[1]);
      assert ToScalars(s) == [c] + ToScalars(s[2..]);
      assert UnitsOf(c) == s[..2];
      assert ToWellFormed(s) == s[..2] + ToWellFormed(s[2..]);
      assert ToWellFormed(s)[2..] == ToWellFormed(s[2..]);
      assert s == s[..2] + s[2..];
    } else if s != [] {
      WellFormedIsUnchanged(s[1..]);
      var c := if High(s[0]) || Low(s[0]) then REPLACEMENT else s[0];
      assert ToScalars(s) == [c] + ToScalars(s[1..]);
      assert ToWellFormed(s) == [c] + ToWellFormed(s[1..]);
      assert ToWellFormed(s)[1..] == ToWellFormed(s[1..]);
      assert s == [s[0]] + s[1..];
    }
  }

  /** Two strings have the same bytes exactly when they differ in lone surrogates at most. */
  lemma Utf8Agrees(a: JsString, b: JsString)
    ensures Utf8Of(a) == Utf8Of(b) <==> ToWellFormed(a) == ToWellFormed(b)
  {
    ScalarsRoundTrip(ToScalars(a));
    ScalarsRoundTrip(ToScalars(b));
    if Utf8Of(a) == Utf8Of(b) {
      EncodeInjective(ToScalars(a), ToScalars(b));
    }
  }

  predicate IsAscii(s: JsString) {
    forall i :: 0 <= i < |s| ==> s[i] < 0x80
  }

  /** ASCII is encoded as it stands, and nothing else becomes ASCII. */
  lemma {:induction false} AsciiIsUnchanged(s: JsString)
    requires IsAscii(s)
    ensures ToScalars(s) == s && Utf8Of(s) == s && ToWellFormed(s) == s
  {
    if s != [] {
      AsciiIsUnchanged(s[1..]);
      assert s == [s[0]] + s[1..];
    }
  }

  lemma {:induction false} ScalarsNotAscii(s: JsString)
    requires !IsAscii(s)
    ensures exists i :: 0 <= i < |ToScalars(s)| && ToScalars(s)[i] >= 0x80
  {
    if StartsWithPair(s) || High(s[0]) || Low(s[0]) || s[0] >= 0x80 {
      assert ToScalars(s)[0] >= 0x80;
    } else {
      assert ToScalars(s) == [s[0]] + ToScalars(s[1..]);
      assert !IsAscii(s[1..]) by {
        var i :| 0 <= i < |s| && s[i] >= 0x80;
        assert s[1..][i - 1] == s[i];
      }
      ScalarsNotAscii(s[1..]);
      var i :| 0 <= i < |ToScalars(s[1..])| && ToScalars(s[1..])[i] >= 0x80;
      assert ToScalars(s)[i + 1] == ToScalars(s[1..])[i];
    }
  }

  /** An ASCII literal of the source. */
  function Ascii(s: string): (r: JsString)
    requires forall i :: 0 <= i < |s| ==> s[i] < 128 as char
    ensures |r| == |s| && forall i :: 0 <= i < |s| ==> r[i] == s[i] as int
    ensures IsAscii(r)
  {
    seq(|s|, i requires 0 <= i < |s| => s[i] as int)
  }
}
