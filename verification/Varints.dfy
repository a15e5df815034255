/** The base-128 varints, tags and sizes of the Protocol Buffers wire encoding, as the generated parser reads them. */
module Varints {
  import opened Base

  const TWO_32: int := 0x1_0000_0000
  const TWO_64: int := 0x1_0000_0000_0000_0000

  type Uint64 = x: int | 0 <= x < TWO_64
  type Int64 = x: int | -0x8000_0000_0000_0000 <= x < 0x8000_0000_0000_0000
  type Int32 = x: int | -0x8000_0000 <= x < 0x8000_0000

  /** A value read from the front of some bytes, and the bytes after it; or a failure. */
  datatype Parsed<+T> = Fail | Got(value: T, rest: Bytes)

  /** Least significant group first, high bit set on all bytes but the last. */
  function Encode(n: nat): Bytes {
    if n < 128 then [n] else [n % 128 + 128] + Encode(n / 128)
  }

  /** Reads a varint of at most `k` bytes, without truncation. */
  function ReadGroups(s: Bytes, k: nat): (r: Parsed<nat>)
    ensures r.Got? ==> |r.rest| < |s|
    decreases k
  {
    if k == 0 || s == [] then Fail
    else if s[0] < 128 then Got(s[0], s[1..])
    else match ReadGroups(s[1..], k - 1)
      case Fail => Fail
      case Got(v, rest) => Got(s[0] - 128 + 128 * v, rest)
  }

  /** Ten bytes at most; bits beyond the 64th are dropped. */
  function ReadVarint64(s: Bytes): (r: Parsed<Uint64>)
    ensures r.Got? ==> |r.rest| < |s|
  {
    match ReadGroups(s, 10)
    case Fail => Fail
    case Got(v, rest) => Got(v % TWO_64, rest)
  }

  /** Ten bytes at most; bits beyond the 32nd are dropped. */
  function ReadVarint32(s: Bytes): (r: Parsed<nat>)
    ensures r.Got? ==> |r.rest| < |s| && r.value < TWO_32
  {
    match ReadGroups(s, 10)
    case Fail => Fail
    case Got(v, rest) => Got(v % TWO_32, rest)
  }

  /** A tag has five bytes at most. */
  function ReadTag(s: Bytes): (r: Parsed<nat>)
    ensures r.Got? ==> |r.rest| < |s| && r.value < TWO_32
  {
    match ReadGroups(s, 5)
    case Fail => Fail
    case Got(v, rest) => Got(v % TWO_32, rest)
  }

  /** The largest length of a length-delimited field that the parser accepts. */
  const MAX_SIZE: nat := 0x7FFF_FFFF - 16

  function ReadSize(s: Bytes): (r: Parsed<nat>)
    ensures r.Got? ==> |r.rest| < |s|
  {
    match ReadGroups(s, 5)
    case Fail => Fail
    case Got(v, rest) => if v > MAX_SIZE then Fail else Got(v, rest)
  }

  // Two's complement.

  function ToUnsigned(x: Int64): (u: Uint64) {
    if x < 0 then x + TWO_64 else x
  }

  function ToInt64(u: Uint64): Int64 {
    if u < TWO_64 / 2 then u else u - TWO_64
  }

  /** The low 32 bits as a signed number. */
  function ToInt32(u: nat): Int32 {
    var low := u % TWO_32;
    if low < TWO_32 / 2 then low else low - TWO_32
  }

  lemma SignedRoundTrip(x: Int64)
    ensures ToInt64(ToUnsigned(x)) == x
    ensures -0x8000_0000 <= x < 0x8000_0000 ==> ToInt32(ToUnsigned(x)) == x
    ensures -0x8000_0000 <= x < 0x8000_0000 ==> ToInt32(ToUnsigned(x) % TWO_32) == x
  {
  }

  // ---------------------------------------------------------------- reading what was written

  function Power128(k: nat): (p: nat)
    ensures p > 0
  {
    if k == 0 then 1 else 128 * Power128(k - 1)
  }

  lemma Powers()
    ensures Power128(5) == 0x8_0000_0000 && Power128(10) == 0x40_0000_0000_0000_0000
  {
    assert Power128(2) == 0x4000;
    assert Power128(4) == 128 * (128 * Power128(2)) == 0x1000_0000;
    assert Power128(5) == 128 * Power128(4);
    assert Power128(7) == 128 * (128 * Power128(5));
    assert Power128(9) == 128 * (128 * Power128(7));
  }

  /** A varint of at most `k` groups is read back, whatever follows it. */
  lemma {:induction false} GroupsRoundTrip(n: nat, k: nat, rest: Bytes)
    requires k > 0 && n < Power128(k)
    ensures ReadGroups(Encode(n) + rest, k) == Got(n, rest)
    decreases k
  {
    if n < 128 {
      assert (Encode(n) + rest)[1..] == rest;
    } else {
      assert n / 128 < Power128(k - 1);
      GroupsRoundTrip(n / 128, k - 1, rest);
      assert (Encode(n) + rest)[1..] == Encode(n / 128) + rest;
    }
  }

  lemma Varint64RoundTrip(n: Uint64, rest: Bytes)
    ensures ReadVarint64(Encode(n) + rest) == Got(n, rest)
    ensures ReadVarint32(Encode(n) + rest) == Got(n % TWO_32, rest)
  {
    Powers();
    GroupsRoundTrip(n, 10, rest);
  }

  lemma SizeRoundTrip(n: nat, rest: Bytes)
    requires n <= MAX_SIZE
    ensures ReadSize(Encode(n) + rest) == Got(n, rest)
  {
    Powers();
    GroupsRoundTrip(n, 5, rest);
  }

  /** A one-byte tag is read back. */
  lemma TagRoundTrip(tag: Byte, rest: Bytes)
    requires tag < 128
    ensures ReadTag([tag] + rest) == Got(tag, rest)
  {
    assert ([tag] + rest)[1..] == rest;
  }

  // ---------------------------------------------------------------- which bytes a varint is

  lemma Monotone(d: nat, x: int, y: int)
    ensures x <= y ==> d * x <= d * y
  {
  }

  lemma Quotient(n: nat, d: nat, q: nat, r: nat)
    requires d > 0 && r < d && n == d * q + r
    ensures n / d == q
  {
    Monotone(d, n / d + 1, q);
    Monotone(d, q + 1, n / d);
  }

  lemma NextGroup(n: nat, p: nat)
    requires p > 0
    ensures n / (128 * p) == n / 128 / p
  {
    var x, m := n / 128, n % 128;
    var q, r := x / p, x % p;
    var pq := p * q;
    assert x == pq + r && n == 128 * pq + (128 * r + m);
    assert 128 * p * q == 128 * pq;
    Quotient(n, 128 * p, q, 128 * r + m);
  }

  /** Byte `i` of a varint is its i-th group of seven bits, the lowest first, with the high bit set on all but the last. */
  lemma {:induction false} EncodeBytes(n: nat, i: nat)
    requires i < |Encode(n)|
    ensures Encode(n)[i] == n / Power128(i) % 128 + (if i + 1 < |Encode(n)| then 128 else 0)
    decreases i
  {
    if i > 0 {
      EncodeBytes(n / 128, i - 1);
      NextGroup(n, Power128(i - 1));
    }
  }

  /** A varint has no more bytes than it needs. */
  lemma {:induction false} EncodeShortest(n: nat)
    ensures n < Power128(|Encode(n)|) && (|Encode(n)| > 1 ==> n >= Power128(|Encode(n)| - 1))
  {
    if n < 128 {
      assert Power128(1) == 128;
    } else {
      EncodeShortest(n / 128);
      var k := |Encode(n / 128)|;
      assert Power128(k + 1) == 128 * Power128(k);
      if k > 1 { assert Power128(k) == 128 * Power128(k - 1); }
    }
  }

  /** The first byte below 128 of `s` is byte `j`, among the first `k`. */
  predicate EndsAtByte(s: Bytes, k: nat, j: nat) {
    j < k && j < |s| && s[j] < 128 && forall i :: 0 <= i < j ==> s[i] >= 128
  }

  /** The number whose groups of seven bits are the low bits of the first `j` + 1 bytes. */
  function GroupSum(s: Bytes, j: nat): nat
    requires j < |s|
  {
    s[j] % 128 * Power128(j) + if j == 0 then 0 else GroupSum(s, j - 1)
  }

  lemma {:induction false} GroupSumShift(s: Bytes, j: nat)
    requires 0 < j < |s|
    ensures GroupSum(s, j) == s[0] % 128 + 128 * GroupSum(s[1..], j - 1)
    decreases j
  {
    assert Power128(j) == 128 * Power128(j - 1);
    if j == 1 {
      assert GroupSum(s, 0) == s[0] % 128 * Power128(0);
      assert Power128(0) == 1;
    } else {
      GroupSumShift(s, j - 1);
      var d, p := s[j] % 128, Power128(j - 1);
      assert d * (128 * p) == 128 * (d * p);
    }
  }

  /**
   Reading any bytes at all: it succeeds if and only if one of the first `k` is below 128, and then takes the bytes up
   to the first such one and gives the number they are the groups of.
   */
  lemma {:induction false} GroupsExactly(s: Bytes, k: nat)
    ensures ReadGroups(s, k).Got? <==> exists j :: EndsAtByte(s, k, j)
    ensures forall j :: EndsAtByte(s, k, j) ==> ReadGroups(s, k) == Got(GroupSum(s, j), s[j + 1..])
    decreases k
  {
    if k == 0 || s == [] {
    } else if s[0] < 128 {
      assert EndsAtByte(s, k, 0) && GroupSum(s, 0) == s[0] * Power128(0) && Power128(0) == 1;
    } else {
      var rest := s[1..];
      GroupsExactly(rest, k - 1);
      forall j | EndsAtByte(s, k, j)
        ensures ReadGroups(s, k) == Got(GroupSum(s, j), s[j + 1..])
      {
        OneByteEarlier(s, k, j);
      }
      if ReadGroups(s, k).Got? {
        var j :| EndsAtByte(rest, k - 1, j);
        OneByteLater(s, k, j);
      }
    }
  }

  lemma OneByteEarlier(s: Bytes, k: nat, j: nat)
    requires s != [] && k > 0 && s[0] >= 128 && EndsAtByte(s, k, j)
    ensures j > 0 && EndsAtByte(s[1..], k - 1, j - 1)
    ensures GroupSum(s, j) == s[0] - 128 + 128 * GroupSum(s[1..], j - 1) && s[1..][j..] == s[j + 1..]
  {
    if j > 0 { GroupSumShift(s, j); }
  }

  lemma OneByteLater(s: Bytes, k: nat, j: nat)
    requires s != [] && k > 0 && s[0] >= 128 && EndsAtByte(s[1..], k - 1, j)
    ensures EndsAtByte(s, k, j + 1)
  {
    forall i | 0 <= i < j + 1 ensures s[i] >= 128 {
      if i > 0 { assert s[1..][i - 1] >= 128; }
    }
  }

  /** The readers of the generated parser, on any bytes: how many they look at, and what they keep of the number. */
  lemma ReadersExactly(s: Bytes, j: nat)
    ensures EndsAtByte(s, 10, j) ==>
      ReadVarint64(s) == Got(GroupSum(s, j) % TWO_64, s[j + 1..]) && ReadVarint32(s) == Got(GroupSum(s, j) % TWO_32, s[j + 1..])
    ensures (forall i: nat :: !EndsAtByte(s, 10, i)) ==> ReadVarint64(s) == Fail && ReadVarint32(s) == Fail
    ensures EndsAtByte(s, 5, j) ==> ReadTag(s) == Got(GroupSum(s, j) % TWO_32, s[j + 1..])
    ensures EndsAtByte(s, 5, j) ==> ReadSize(s) == if GroupSum(s, j) > MAX_SIZE then Fail else Got(GroupSum(s, j), s[j + 1..])
    ensures (forall i: nat :: !EndsAtByte(s, 5, i)) ==> ReadTag(s) == Fail && ReadSize(s) == Fail
  {
    GroupsExactly(s, 10);
    GroupsExactly(s, 5);
  }

  // ---------------------------------------------------------------- sizes

  /** The position of the highest bit. */
  function Log2Floor(n: nat): nat
    requires n > 0
  {
    if n == 1 then 0 else 1 + Log2Floor(n / 2)
  }

  /** The number of bytes of a varint, computed from the position of the highest bit. */
  function VarintSize(n: Uint64): nat {
    var log := if n == 0 then 0 else Log2Floor(n);
    (log * 9 + 73) / 64
  }

  lemma {:induction false} LogOfQuotient(n: nat)
    requires n >= 128
    ensures Log2Floor(n) == 7 + Log2Floor(n / 128)
  {
    var a := n / 2;
    var b := a / 2;
    var c := b / 2;
    var d := c / 2;
    var e := d / 2;
    var f := e / 2;
    assert f / 2 == n / 128;
    assert Log2Floor(n) == 1 + Log2Floor(a) && Log2Floor(a) == 1 + Log2Floor(b);
    assert Log2Floor(b) == 1 + Log2Floor(c) && Log2Floor(c) == 1 + Log2Floor(d);
    assert Log2Floor(d) == 1 + Log2Floor(e) && Log2Floor(e) == 1 + Log2Floor(f);
    assert Log2Floor(f) == 1 + Log2Floor(f / 2);
  }

  lemma {:induction false} SmallLog(n: nat)
    requires 0 < n < 128
    ensures Log2Floor(n) < 7
  {
    SmallLogOf(n, 7);
  }

  lemma {:induction false} SmallLogOf(n: nat, k: nat)
    requires 0 < n && k > 0 && n < Power2(k)
    ensures Log2Floor(n) < k
    decreases k
  {
    if n > 1 { SmallLogOf(n / 2, k - 1); }
  }

  function Power2(k: nat): nat {
    if k == 0 then 1 else 2 * Power2(k - 1)
  }

  lemma Powers2()
    ensures Power2(7) == 128 && Power2(64) == TWO_64
  {
    assert Power2(2) == 4 && Power2(4) == 16 && Power2(6) == 64 && Power2(7) == 2 * Power2(6);
    Power2Sum(8, 8);
    Power2Sum(16, 16);
    Power2Sum(32, 32);
    assert Power2(8) == 2 * Power2(7);
  }

  lemma {:induction false} Power2Sum(a: nat, b: nat)
    ensures Power2(a + b) == Power2(a) * Power2(b)
  {
    if b > 0 { Power2Sum(a, b - 1); }
  }

  lemma {:induction false} EncodeLength(n: nat)
    ensures |Encode(n)| == (if n == 0 then 0 else Log2Floor(n)) / 7 + 1
    decreases n
  {
    Powers2();
    if n >= 128 {
      EncodeLength(n / 128);
      LogOfQuotient(n);
    } else if n > 0 {
      SmallLog(n);
    }
  }

  /** The computed size is the length of the encoding: one to ten bytes. */
  lemma SizeIsLength(n: Uint64)
    ensures VarintSize(n) == |Encode(n)| && 1 <= |Encode(n)| <= 10
  {
    Powers2();
    if n > 0 { SmallLogOf(n, 64); }
    EncodeLength(n);
  }
}
