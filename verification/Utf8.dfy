/** Strings as sequences of Unicode scalar values, and their UTF-8 bytes
 (RFC 3629). */
module Utf8 {
  import opened Types

  type Byte = n: int | 0 <= n < 256

  type Scalar = n: int | 0 <= n < 0xD800 || 0xE000 <= n <= 0x10FFFF

  // ---- `str::as_bytes` ----

  function EncodeScalar(c: Scalar): (r: seq<Byte>)
    ensures 1 <= |r| <= 4
  {
    if c < 0x80 then [c]
    else if c < 0x800 then [0xC0 + c / 64, 0x80 + c % 64]
    else if c < 0x10000 then [0xE0 + c / 4096, 0x80 + c / 64 % 64, 0x80 + c % 64]
    else [0xF0 + c / 262144, 0x80 + c / 4096 % 64, 0x80 + c / 64 % 64, 0x80 + c % 64]
  }

  function Encode(s: seq<Scalar>): seq<Byte> {
    if s == [] then [] else EncodeScalar(s[0]) + Encode(s[1..])
  }

  // ---- `String::from_utf8` ----

  predicate IsTail(b: Byte) {
    0x80 <= b <= 0xBF
  }

  function Value2(a: int, b: int): int {
    (a - 0xC0) * 64 + (b - 0x80)
  }

  function Value3(a: int, b: int, c: int): int {
    (a - 0xE0) * 4096 + (b - 0x80) * 64 + (c - 0x80)
  }

  function Value4(a: int, b: int, c: int, d: int): int {
    (a - 0xF0) * 262144 + (b - 0x80) * 4096 + (c - 0x80) * 64 + (d - 0x80)
  }

  /** The first scalar of `b` and the length of its bytes: assemble the value, then
      refuse overlong forms, surrogates and what lies beyond Unicode. */
  function DecodeFirst(b: seq<Byte>): (r: Option<(Scalar, nat)>)
    ensures r.Some? ==> 1 <= r.value.1 <= |b|
  {
    if |b| >= 1 && b[0] < 0x80 then Some((b[0], 1))
    else if |b| >= 2 && 0xC0 <= b[0] < 0xE0 && IsTail(b[1]) then
      var v := Value2(b[0], b[1]);
      if v >= 0x80 then Some((v, 2)) else None
    else if |b| >= 3 && 0xE0 <= b[0] < 0xF0 && IsTail(b[1]) && IsTail(b[2]) then
      var v := Value3(b[0], b[1], b[2]);
      if v >= 0x800 && !(0xD800 <= v < 0xE000) then Some((v, 3)) else None
    else if |b| >= 4 && 0xF0 <= b[0] < 0xF8 && IsTail(b[1]) && IsTail(b[2]) && IsTail(b[3]) then
      var v := Value4(b[0], b[1], b[2], b[3]);
      if 0x10000 <= v <= 0x10FFFF then Some((v, 4)) else None
    else None
  }

  function Decode(b: seq<Byte>): Option<seq<Scalar>> {
    if b == [] then Some([])
    else
      match DecodeFirst(b)
      case None => None
      case Some((c, n)) =>
        match Decode(b[n..])
        case None => None
        case Some(rest) => Some([c] + rest)
  }

  // ---- Section 4 of RFC 3629, by byte ranges ----

  predicate IsUtf8Char(u: seq<Byte>) {
    || (|u| == 1 && u[0] <= 0x7F)
    || (|u| == 2 && 0xC2 <= u[0] <= 0xDF && IsTail(u[1]))
    || (|u| == 3 && IsTail(u[2]) &&
        (|| (u[0] == 0xE0 && 0xA0 <= u[1] <= 0xBF)
         || (0xE1 <= u[0] <= 0xEC && IsTail(u[1]))
         || (u[0] == 0xED && 0x80 <= u[1] <= 0x9F)
         || (0xEE <= u[0] <= 0xEF && IsTail(u[1]))))
    || (|u| == 4 && IsTail(u[2]) && IsTail(u[3]) &&
        (|| (u[0] == 0xF0 && 0x90 <= u[1] <= 0xBF)
         || (0xF1 <= u[0] <= 0xF3 && IsTail(u[1]))
         || (u[0] == 0xF4 && 0x80 <= u[1] <= 0x8F)))
  }

  /** UTF8-octets = *( UTF8-char ) */
  ghost predicate IsUtf8(b: seq<Byte>) {
    b == [] || exists n :: 1 <= n <= |b| && IsUtf8Char(b[..n]) && IsUtf8(b[n..])
  }

  // ---- Round trips ----

  lemma DecodesEncodedScalar(c: Scalar, rest: seq<Byte>)
    ensures DecodeFirst(EncodeScalar(c) + rest) == Some((c, |EncodeScalar(c)|))
  {
    var b := EncodeScalar(c) + rest;
    assert forall i :: 0 <= i < |EncodeScalar(c)| ==> b[i] == EncodeScalar(c)[i];
    assert c / 64 / 64 == c / 4096 && c / 4096 / 64 == c / 262144;
  }

  lemma Digits2(a: int, b: int)
    requires 0x80 <= b < 0xC0
    ensures Value2(a, b) / 64 == a - 0xC0 && Value2(a, b) % 64 == b - 0x80
  {
  }

  lemma Digits3(a: int, b: int, c: int)
    requires 0x80 <= b < 0xC0 && 0x80 <= c < 0xC0
    ensures var v := Value3(a, b, c);
      v / 4096 == a - 0xE0 && v / 64 % 64 == b - 0x80 && v % 64 == c - 0x80
  {
    var high := (a - 0xE0) * 64 + (b - 0x80);
    assert Value3(a, b, c) == high * 64 + (c - 0x80);
    assert Value3(a, b, c) / 64 == high;
  }

  lemma Digits4(a: int, b: int, c: int, d: int)
    requires 0x80 <= b < 0xC0 && 0x80 <= c < 0xC0 && 0x80 <= d < 0xC0
    ensures var v := Value4(a, b, c, d);
      && v / 262144 == a - 0xF0 && v / 4096 % 64 == b - 0x80
      && v / 64 % 64 == c - 0x80 && v % 64 == d - 0x80
  {
    var v := Value4(a, b, c, d);
    var high := (a - 0xF0) * 64 + (b - 0x80);
    var mid := high * 64 + (c - 0x80);
    assert v == mid * 64 + (d - 0x80);
    assert v / 64 == mid;
    assert v / 4096 == high;
  }

  lemma EncodesTwo(a: Byte, b: Byte)
    requires 0xC0 <= a < 0xE0 && IsTail(b) && Value2(a, b) >= 0x80
    ensures EncodeScalar(Value2(a, b)) == [a, b]
  {
    Digits2(a, b);
  }

  lemma EncodesThree(a: Byte, b: Byte, c: Byte)
    requires 0xE0 <= a < 0xF0 && IsTail(b) && IsTail(c)
    requires Value3(a, b, c) >= 0x800 && !(0xD800 <= Value3(a, b, c) < 0xE000)
    ensures EncodeScalar(Value3(a, b, c)) == [a, b, c]
  {
    Digits3(a, b, c);
  }

  lemma EncodesFour(a: Byte, b: Byte, c: Byte, d: Byte)
    requires 0xF0 <= a < 0xF8 && IsTail(b) && IsTail(c) && IsTail(d)
    requires 0x10000 <= Value4(a, b, c, d) <= 0x10FFFF
    ensures EncodeScalar(Value4(a, b, c, d)) == [a, b, c, d]
  {
    Digits4(a, b, c, d);
  }

  lemma EncodesDecodedScalar(b: seq<Byte>)
    ensures match DecodeFirst(b) case Some((c, n)) => EncodeScalar(c) == b[..n] case None => true
  {
    match DecodeFirst(b)
    case None =>
    case Some((c, n)) =>
      if n == 2 {
        EncodesTwo(b[0], b[1]);
        assert b[..2] == [b[0], b[1]];
      } else if n == 3 {
        EncodesThree(b[0], b[1], b[2]);
        assert b[..3] == [b[0], b[1], b[2]];
      } else if n == 4 {
        EncodesFour(b[0], b[1], b[2], b[3]);
        assert b[..4] == [b[0], b[1], b[2], b[3]];
      }
  }

  lemma {:induction false} DecodeEncode(s: seq<Scalar>)
    ensures Decode(Encode(s)) == Some(s)
  {
    if s == [] {
    } else {
      DecodesEncodedScalar(s[0], Encode(s[1..]));
      assert Encode(s) == EncodeScalar(s[0]) + Encode(s[1..]);
      assert Encode(s)[|EncodeScalar(s[0])|..] == Encode(s[1..]);
      DecodeEncode(s[1..]);
      assert s == [s[0]] + s[1..];
    }
  }

  lemma EncodeCons(c: Scalar, rest: seq<Scalar>)
    ensures Encode([c] + rest) == EncodeScalar(c) + Encode(rest)
  {
    assert ([c] + rest)[1..] == rest;
  }

  lemma FirstStep(b: seq<Byte>, s: seq<Scalar>) returns (n: nat, rest: seq<Scalar>)
    requires b != [] && Decode(b) == Some(s)
    ensures 1 <= n <= |b| && Decode(b[n..]) == Some(rest)
    ensures Encode(s) == b[..n] + Encode(rest)
  {
    var first := DecodeFirst(b).value;
    n, rest := first.1, Decode(b[first.1..]).value;
    EncodesDecodedScalar(b);
    EncodeCons(first.0, rest);
  }

  lemma TakeDrop(x: seq<Byte>, y: seq<Byte>, b: seq<Byte>, n: nat)
    requires n <= |b| && x == b[..n] + y && y == b[n..]
    ensures x == b
  {
  }

  lemma {:induction false} EncodeDecode(b: seq<Byte>, s: seq<Scalar>)
    requires Decode(b) == Some(s)
    ensures Encode(s) == b
    decreases |b|
  {
    if b == [] {
    } else {
      var n, rest := FirstStep(b, s);
      EncodeDecode(b[n..], rest);
      TakeDrop(Encode(s), Encode(rest), b, n);
    }
  }

  // ---- Acceptance ----

  /** Assembling and refusing accepts the same byte sequences as the ranges do. */
  lemma FirstIsUtf8Char(b: seq<Byte>, n: nat)
    requires 1 <= n <= |b|
    ensures IsUtf8Char(b[..n]) <==> DecodeFirst(b).Some? && DecodeFirst(b).value.1 == n
  {
  }

  lemma {:induction false} DecodesExactlyUtf8(b: seq<Byte>)
    ensures Decode(b).Some? <==> IsUtf8(b)
  {
    if b == [] {
    } else {
      if DecodeFirst(b).Some? {
        var n := DecodeFirst(b).value.1;
        FirstIsUtf8Char(b, n);
        DecodesExactlyUtf8(b[n..]);
      }
      forall n | 1 <= n <= |b| && IsUtf8Char(b[..n]) && IsUtf8(b[n..]) ensures Decode(b).Some? {
        FirstIsUtf8Char(b, n);
        DecodesExactlyUtf8(b[n..]);
      }
    }
  }

  // ---- Order ----

  /** `x` comes before `y` at the first byte in which they differ. */
  predicate Before(x: seq<Byte>, y: seq<Byte>) {
    exists k :: 0 <= k < |x| && k < |y| && x[k] < y[k] && x[..k] == y[..k]
  }

  lemma BeforeAt(x: seq<Byte>, y: seq<Byte>, k: nat)
    requires k < |x| && k < |y| && x[k] < y[k] && x[..k] == y[..k]
    ensures Before(x, y)
  {
  }

  /** The order of the code points is the order of their bytes (section 1 of RFC 3629),
      so no two values of one length are exchanged. */
  lemma EncodingKeepsOrder(c: Scalar, d: Scalar)
    requires c < d
    ensures Before(EncodeScalar(c), EncodeScalar(d))
  {
    var x, y := EncodeScalar(c), EncodeScalar(d);
    if |x| < |y| || c / 262144 < d / 262144 {
      BeforeAt(x, y, 0);
    } else if |x| == 1 {
      BeforeAt(x, y, 0);
    } else if |x| == 2 {
      OrderOfTwo(c, d);
    } else if |x| == 3 {
      OrderOfThree(c, d);
    } else {
      OrderOfFour(c, d);
    }
  }

  lemma OrderOfTwo(c: Scalar, d: Scalar)
    requires c < d && |EncodeScalar(c)| == 2 && |EncodeScalar(d)| == 2
    ensures Before(EncodeScalar(c), EncodeScalar(d))
  {
    BeforeAt(EncodeScalar(c), EncodeScalar(d), if c / 64 < d / 64 then 0 else 1);
  }

  lemma OrderOfThree(c: Scalar, d: Scalar)
    requires c < d && |EncodeScalar(c)| == 3 && |EncodeScalar(d)| == 3
    ensures Before(EncodeScalar(c), EncodeScalar(d))
  {
    assert c / 64 / 64 == c / 4096 && d / 64 / 64 == d / 4096;
    BeforeAt(EncodeScalar(c), EncodeScalar(d),
             if c / 4096 < d / 4096 then 0 else if c / 64 < d / 64 then 1 else 2);
  }

  lemma OrderOfFour(c: Scalar, d: Scalar)
    requires c < d && |EncodeScalar(c)| == 4 && |EncodeScalar(d)| == 4
    ensures Before(EncodeScalar(c), EncodeScalar(d))
  {
    assert c / 64 / 64 == c / 4096 && d / 64 / 64 == d / 4096;
    assert c / 4096 / 64 == c / 262144 && d / 4096 / 64 == d / 262144;
    BeforeAt(EncodeScalar(c), EncodeScalar(d),
             if c / 262144 < d / 262144 then 0 else if c / 4096 < d / 4096 then 1
             else if c / 64 < d / 64 then 2 else 3);
  }
}
