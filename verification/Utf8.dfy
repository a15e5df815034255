/** The names the parser accepts are exactly the UTF-8 encodings of sequences of Unicode scalar values. */
module Utf8 {
  import opened Base
  import opened HeaderCodec

  /** A code point that is not a surrogate. */
  predicate Scalar(c: nat) {
    c < 0xD800 || 0xE000 <= c < 0x110000
  }

  function Encoded(c: nat): Bytes
    requires Scalar(c)
  {
    if c < 0x80 then [c]
    else if c < 0x800 then [0xC0 + c / 0x40, 0x80 + c % 0x40]
    else if c < 0x10000 then [0xE0 + c / 0x1000, 0x80 + c / 0x40 % 0x40, 0x80 + c % 0x40]
    else [0xF0 + c / 0x40000, 0x80 + c / 0x1000 % 0x40, 0x80 + c / 0x40 % 0x40, 0x80 + c % 0x40]
  }

  function EncodedAll(cs: seq<nat>): Bytes
    requires forall i :: 0 <= i < |cs| ==> Scalar(cs[i])
  {
    if cs == [] then [] else Encoded(cs[0]) + EncodedAll(cs[1..])
  }

  /** The scalar value at the front of bytes that begin with a well-formed sequence. */
  function FirstScalar(s: Bytes): nat
    requires SequenceLength(s) > 0
  {
    var a: int := s[0];
    if SequenceLength(s) == 1 then a
    else
      var b: int := s[1] - 0x80;
      if SequenceLength(s) == 2 then (a - 0xC0) * 0x40 + b
      else
        var c: int := s[2] - 0x80;
        if SequenceLength(s) == 3 then (a - 0xE0) * 0x1000 + b * 0x40 + c
        else (a - 0xF0) * 0x40000 + b * 0x1000 + c * 0x40 + (s[3] as int - 0x80)
  }

  lemma ReadsFirst(c: nat, rest: Bytes)
    requires Scalar(c)
    ensures SequenceLength(Encoded(c) + rest) == |Encoded(c)| > 0
    ensures (Encoded(c) + rest)[|Encoded(c)|..] == rest
  {
    var s := Encoded(c) + rest;
    assert forall i :: 0 <= i < |Encoded(c)| ==> s[i] == Encoded(c)[i];
  }

  lemma WritesFirst(s: Bytes)
    requires SequenceLength(s) > 0
    ensures Scalar(FirstScalar(s)) && Encoded(FirstScalar(s)) == s[..SequenceLength(s)]
  {
    match SequenceLength(s)
    case 1 => assert s[..1] == [s[0]];
    case 2 => WritesTwo(s);
    case 3 => WritesThree(s);
    case _ => WritesFour(s);
  }

  lemma WritesTwo(s: Bytes)
    requires SequenceLength(s) == 2
    ensures Scalar(FirstScalar(s)) && Encoded(FirstScalar(s)) == s[..2]
  {
    Two(s[0] as int - 0xC0, s[1] as int - 0x80);
    assert s[..2] == [s[0], s[1]];
  }

  lemma WritesThree(s: Bytes)
    requires SequenceLength(s) == 3
    ensures Scalar(FirstScalar(s)) && Encoded(FirstScalar(s)) == s[..3]
  {
    Three(s[0] as int - 0xE0, s[1] as int - 0x80, s[2] as int - 0x80);
    assert s[..3] == [s[0], s[1], s[2]];
  }

  lemma WritesFour(s: Bytes)
    requires SequenceLength(s) > 3
    ensures SequenceLength(s) == 4 && Scalar(FirstScalar(s)) && Encoded(FirstScalar(s)) == s[..4]
  {
    Four(s[0] as int - 0xF0, s[1] as int - 0x80, s[2] as int - 0x80, s[3] as int - 0x80);
    assert s[..4] == [s[0], s[1], s[2], s[3]];
  }

  lemma Two(a: nat, b: nat)
    requires 2 <= a < 0x20 && b < 0x40
    ensures var v := a * 0x40 + b; 0x80 <= v < 0x800 && v / 0x40 == a && v % 0x40 == b
  {
  }

  lemma Three(a: nat, b: nat, c: nat)
    requires a < 0x10 && b < 0x40 && c < 0x40 && (a == 0 ==> b >= 0x20)
    ensures var v := a * 0x1000 + b * 0x40 + c;
      0x800 <= v < 0x10000 && v / 0x1000 == a && v / 0x40 % 0x40 == b && v % 0x40 == c
  {
    var v := a * 0x1000 + b * 0x40 + c;
    assert v == (a * 0x40 + b) * 0x40 + c;
    assert v / 0x40 == a * 0x40 + b;
  }

  lemma Four(a: nat, b: nat, c: nat, d: nat)
    requires a < 5 && b < 0x40 && c < 0x40 && d < 0x40 && (a == 0 ==> b >= 0x10) && (a == 4 ==> b < 0x10)
    ensures var v := a * 0x40000 + b * 0x1000 + c * 0x40 + d;
      && 0x10000 <= v < 0x110000 && v / 0x40000 == a && v / 0x1000 % 0x40 == b && v / 0x40 % 0x40 == c && v % 0x40 == d
  {
    var v := a * 0x40000 + b * 0x1000 + c * 0x40 + d;
    var x := a * 0x40 + b;
    assert v == (x * 0x40 + c) * 0x40 + d;
    assert v / 0x40 == x * 0x40 + c;
    assert v / 0x1000 == x;
  }

  lemma {:induction false} EncodedIsValid(cs: seq<nat>)
    requires forall i :: 0 <= i < |cs| ==> Scalar(cs[i])
    ensures ValidUtf8(EncodedAll(cs))
    decreases |cs|
  {
    hide Encoded, SequenceLength;
    if cs != [] {
      ReadsFirst(cs[0], EncodedAll(cs[1..]));
      EncodedIsValid(cs[1..]);
    }
  }

  lemma {:induction false} ValidIsEncoded(s: Bytes) returns (cs: seq<nat>)
    requires ValidUtf8(s)
    ensures (forall i :: 0 <= i < |cs| ==> Scalar(cs[i])) && EncodedAll(cs) == s
    decreases |s|
  {
    hide Encoded, SequenceLength, FirstScalar;
    if s == [] {
      cs := [];
    } else {
      var n := SequenceLength(s);
      WritesFirst(s);
      var more := ValidIsEncoded(s[n..]);
      cs := [FirstScalar(s)] + more;
      assert cs[1..] == more && s == s[..n] + s[n..];
    }
  }

  ghost predicate Encodes(s: Bytes, cs: seq<nat>) {
    (forall i :: 0 <= i < |cs| ==> Scalar(cs[i])) && EncodedAll(cs) == s
  }

  /** Main result: bytes pass the check of the names if and only if they encode some scalar values. */
  lemma ValidExactlyWhen(s: Bytes)
    ensures ValidUtf8(s) <==> exists cs: seq<nat> :: Encodes(s, cs)
  {
    hide ValidUtf8;
    if ValidUtf8(s) {
      var cs := ValidIsEncoded(s);
      assert Encodes(s, cs);
    }
    if exists cs: seq<nat> :: Encodes(s, cs) {
      var cs: seq<nat> :| Encodes(s, cs);
      EncodedIsValid(cs);
    }
  }
}
