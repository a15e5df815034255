/**
 The message `Header` of proto/message.proto and the code generated for it in proto/message.pb.cc:
 parsing, serializing, sizing and merging.
 */
module HeaderCodec {
  import opened Base
  import opened Varints

  /** The six fields. The two names have explicit presence; an enum is open and held as an int. */
  datatype Header = Header(
    magic: Uint64, version: Int32, messageType: Int32, requestId: Int64,
    serviceName: Option<Bytes>, methodName: Option<Bytes>)

  const DefaultHeader: Header := Header(0, 0, 0, 0, None, None)

  // ---------------------------------------------------------------- UTF-8

  predicate Continues(s: Bytes, i: nat, low: int, high: int) {
    i < |s| && low <= s[i] <= high
  }

  /** The length of the well-formed UTF-8 sequence at the front, or 0. */
  function SequenceLength(s: Bytes): (n: nat)
    ensures n <= |s|
  {
    if s == [] then 0
    else if s[0] < 0x80 then 1
    else if 0xC2 <= s[0] <= 0xDF then (if Continues(s, 1, 0x80, 0xBF) then 2 else 0)
    else if 0xE0 <= s[0] <= 0xEF then
      var low, high := if s[0] == 0xE0 then 0xA0 else 0x80, if s[0] == 0xED then 0x9F else 0xBF;
      if Continues(s, 1, low, high) && Continues(s, 2, 0x80, 0xBF) then 3 else 0
    else if 0xF0 <= s[0] <= 0xF4 then
      var low, high := if s[0] == 0xF0 then 0x90 else 0x80, if s[0] == 0xF4 then 0x8F else 0xBF;
      if Continues(s, 1, low, high) && Continues(s, 2, 0x80, 0xBF) && Continues(s, 3, 0x80, 0xBF) then 4 else 0
    else 0
  }

  predicate ValidUtf8(s: Bytes) {
    s == [] || (SequenceLength(s) > 0 && ValidUtf8(s[SequenceLength(s)..]))
  }

  /** A name that the parser accepts. */
  predicate GoodName(name: Option<Bytes>) {
    name.Some? ==> ValidUtf8(name.value) && |name.value| <= MAX_SIZE
  }

  predicate GoodNames(h: Header) {
    GoodName(h.serviceName) && GoodName(h.methodName)
  }

  // ---------------------------------------------------------------- serializing

  function VarintField(tag: Byte, v: Uint64): Bytes {
    if v != 0 then [tag] + Encode(v) else []
  }

  function NameField(tag: Byte, name: Option<Bytes>): Bytes {
    if name.Some? then [tag] + (Encode(|name.value|) + name.value) else []
  }

  /** Fields in order of number; zero scalars and absent names are left out. */
  function Serialize(h: Header): Bytes {
    VarintField(8, h.magic) + (VarintField(16, ToUnsigned(h.version)) + (VarintField(24, ToUnsigned(h.messageType))
      + (VarintField(32, ToUnsigned(h.requestId)) + (NameField(42, h.serviceName) + NameField(50, h.methodName)))))
  }

  // ---------------------------------------------------------------- parsing

  /** Bytes after a length-delimited value, and the value. */
  function ReadString(s: Bytes): (r: Parsed<Bytes>)
    ensures r.Got? ==> |r.rest| < |s|
  {
    match ReadSize(s)
    case Fail => Fail
    case Got(n, rest) => if n <= |rest| then Got(rest[..n], rest[n..]) else Fail
  }

  const GROUP_DEPTH: nat := 100

  /** Skips the value of a field that is not one of the six; the bytes after it. */
  function SkipField(tag: nat, s: Bytes, depth: nat): (r: Option<Bytes>)
    ensures r.Some? ==> |r.value| <= |s|
    decreases |s|, 1
  {
    if tag / 8 == 0 then None
    else match tag % 8
      case 0 => (match ReadVarint64(s) case Fail => None case Got(_, rest) => Some(rest))
      case 1 => if |s| >= 8 then Some(s[8..]) else None
      case 2 => (match ReadString(s) case Fail => None case Got(_, rest) => Some(rest))
      case 3 => if depth == 0 then None else SkipGroup(tag, s, depth - 1)
      case 5 => if |s| >= 4 then Some(s[4..]) else None
      case _ => None
  }

  /** Skips fields up to the end tag of the group that `start` began. */
  function SkipGroup(start: nat, s: Bytes, depth: nat): (r: Option<Bytes>)
    ensures r.Some? ==> |r.value| <= |s|
    decreases |s|, 0
  {
    match ReadTag(s)
    case Fail => None
    case Got(tag, rest) =>
      if tag == 0 then None
      else if tag % 8 == 4 then (if tag == start + 1 then Some(rest) else None)
      else match SkipField(tag, rest, depth)
        case None => None
        case Some(more) => SkipGroup(start, more, depth)
  }

  /** One field read into `h`, and the bytes after it; nothing if parsing fails here. */
  function ParseField(h: Header, s: Bytes): (r: Option<(Header, Bytes)>)
    ensures r.Some? ==> |r.value.1| < |s|
  {
    match ReadTag(s)
    case Fail => None
    case Got(tag, rest) =>
      if tag / 8 == 1 && tag % 256 == 8 then
        match ReadVarint64(rest) case Fail => None case Got(v, more) => Some((h.(magic := v), more))
      else if tag / 8 == 2 && tag % 256 == 16 then
        match ReadVarint32(rest) case Fail => None case Got(v, more) => Some((h.(version := ToInt32(v)), more))
      else if tag / 8 == 3 && tag % 256 == 24 then
        match ReadVarint64(rest) case Fail => None case Got(v, more) => Some((h.(messageType := ToInt32(v)), more))
      else if tag / 8 == 4 && tag % 256 == 32 then
        match ReadVarint64(rest) case Fail => None case Got(v, more) => Some((h.(requestId := ToInt64(v)), more))
      else if tag / 8 == 5 && tag % 256 == 42 then
        match ReadString(rest) case Fail => None
        case Got(v, more) => if ValidUtf8(v) then Some((h.(serviceName := Some(v)), more)) else None
      else if tag / 8 == 6 && tag % 256 == 50 then
        match ReadString(rest) case Fail => None
        case Got(v, more) => if ValidUtf8(v) then Some((h.(methodName := Some(v)), more)) else None
      else if tag == 0 || tag % 8 == 4 then None
      else match SkipField(tag, rest, GROUP_DEPTH) case None => None case Some(more) => Some((h, more))
  }

  /** Reads fields into `h` until the bytes are used up. */
  function ParseInto(h: Header, s: Bytes): Option<Header>
    decreases |s|
  {
    if s == [] then Some(h)
    else match ParseField(h, s)
      case None => None
      case Some(p) => ParseInto(p.0, p.1)
  }

  function Parse(s: Bytes): Option<Header> {
    ParseInto(DefaultHeader, s)
  }

  // ---------------------------------------------------------------- merging

  /** `from` merged into `to`: its non-zero scalars and present names win. */
  function Merge(to: Header, from: Header): Header {
    Header(
      if from.magic != 0 then from.magic else to.magic,
      if from.version != 0 then from.version else to.version,
      if from.messageType != 0 then from.messageType else to.messageType,
      if from.requestId != 0 then from.requestId else to.requestId,
      if from.serviceName.Some? then from.serviceName else to.serviceName,
      if from.methodName.Some? then from.methodName else to.methodName)
  }

  // ---------------------------------------------------------------- one field of each kind

  lemma VarintFieldRead(tag: Byte, v: Uint64, rest: Bytes)
    requires tag < 128 && v != 0
    ensures var s := VarintField(tag, v) + rest;
      && s != [] && ReadTag(s).Got? && ReadTag(s).value == tag
      && ReadVarint64(ReadTag(s).rest) == Got(v, rest) && ReadVarint32(ReadTag(s).rest) == Got(v % TWO_32, rest)
  {
    assert VarintField(tag, v) + rest == [tag] + (Encode(v) + rest);
    TagRoundTrip(tag, Encode(v) + rest);
    Varint64RoundTrip(v, rest);
  }

  lemma NameFieldRead(tag: Byte, name: Bytes, rest: Bytes)
    requires tag < 128 && |name| <= MAX_SIZE
    ensures var s := NameField(tag, Some(name)) + rest;
      s != [] && ReadTag(s).Got? && ReadTag(s).value == tag && ReadString(ReadTag(s).rest) == Got(name, rest)
  {
    assert NameField(tag, Some(name)) + rest == [tag] + (Encode(|name|) + (name + rest));
    TagRoundTrip(tag, Encode(|name|) + (name + rest));
    SizeRoundTrip(|name|, name + rest);
    assert (name + rest)[..|name|] == name && (name + rest)[|name|..] == rest;
  }

  lemma OneField(h: Header, s: Bytes, h': Header, rest: Bytes)
    requires s != [] && ParseField(h, s) == Some((h', rest))
    ensures ParseInto(h, s) == ParseInto(h', rest)
  {
  }

  lemma NoField(tag: Byte, rest: Bytes)
    ensures VarintField(tag, 0) + rest == rest && NameField(tag, None) + rest == rest
  {
  }

  lemma MagicRead(h: Header, v: Uint64, rest: Bytes)
    ensures ParseInto(h, VarintField(8, v) + rest) == ParseInto(if v != 0 then h.(magic := v) else h, rest)
  {
    hide ReadTag, ReadVarint64, ReadVarint32, ReadString, SkipField, ValidUtf8, VarintField, NameField, ParseInto;
    var s := VarintField(8, v) + rest;
    if v != 0 {
      VarintFieldRead(8, v, rest);
      OneField(h, s, h.(magic := v), rest);
    } else {
      NoField(8, rest);
    }
  }

  lemma VersionRead(h: Header, v: Int32, rest: Bytes)
    ensures ParseInto(h, VarintField(16, ToUnsigned(v)) + rest) == ParseInto(if v != 0 then h.(version := v) else h, rest)
  {
    hide ReadTag, ReadVarint64, ReadVarint32, ReadString, SkipField, ValidUtf8, VarintField, NameField, ParseInto;
    SignedRoundTrip(v);
    var s := VarintField(16, ToUnsigned(v)) + rest;
    if v != 0 {
      VarintFieldRead(16, ToUnsigned(v), rest);
      OneField(h, s, h.(version := v), rest);
    } else {
      NoField(16, rest);
    }
  }

  lemma MessageTypeRead(h: Header, v: Int32, rest: Bytes)
    ensures ParseInto(h, VarintField(24, ToUnsigned(v)) + rest) == ParseInto(if v != 0 then h.(messageType := v) else h, rest)
  {
    hide ReadTag, ReadVarint64, ReadVarint32, ReadString, SkipField, ValidUtf8, VarintField, NameField, ParseInto;
    SignedRoundTrip(v);
    var s := VarintField(24, ToUnsigned(v)) + rest;
    if v != 0 {
      VarintFieldRead(24, ToUnsigned(v), rest);
      OneField(h, s, h.(messageType := v), rest);
    } else {
      NoField(24, rest);
    }
  }

  lemma RequestIdRead(h: Header, v: Int64, rest: Bytes)
    ensures ParseInto(h, VarintField(32, ToUnsigned(v)) + rest) == ParseInto(if v != 0 then h.(requestId := v) else h, rest)
  {
    hide ReadTag, ReadVarint64, ReadVarint32, ReadString, SkipField, ValidUtf8, VarintField, NameField, ParseInto;
    SignedRoundTrip(v);
    var s := VarintField(32, ToUnsigned(v)) + rest;
    if v != 0 {
      VarintFieldRead(32, ToUnsigned(v), rest);
      OneField(h, s, h.(requestId := v), rest);
    } else {
      NoField(32, rest);
    }
  }

  lemma ServiceNameRead(h: Header, name: Option<Bytes>, rest: Bytes)
    requires GoodName(name)
    ensures ParseInto(h, NameField(42, name) + rest) == ParseInto(if name.Some? then h.(serviceName := name) else h, rest)
  {
    hide ReadTag, ReadVarint64, ReadVarint32, ReadString, SkipField, ValidUtf8, VarintField, NameField, ParseInto;
    var s := NameField(42, name) + rest;
    if name.Some? {
      NameFieldRead(42, name.value, rest);
      OneField(h, s, h.(serviceName := name), rest);
    } else {
      NoField(42, rest);
    }
  }

  lemma MethodNameRead(h: Header, name: Option<Bytes>, rest: Bytes)
    requires GoodName(name)
    ensures ParseInto(h, NameField(50, name) + rest) == ParseInto(if name.Some? then h.(methodName := name) else h, rest)
  {
    hide ReadTag, ReadVarint64, ReadVarint32, ReadString, SkipField, ValidUtf8, VarintField, NameField, ParseInto;
    var s := NameField(50, name) + rest;
    if name.Some? {
      NameFieldRead(50, name.value, rest);
      OneField(h, s, h.(methodName := name), rest);
    } else {
      NoField(50, rest);
    }
  }

  // ---------------------------------------------------------------- main results

  /** Main result: reading a serialized header, whatever follows it, is merging that header. */
  lemma ParseMerges(h: Header, from: Header, rest: Bytes)
    requires GoodNames(from)
    ensures ParseInto(h, Serialize(from) + rest) == ParseInto(Merge(h, from), rest)
  {
    hide ParseInto, VarintField, NameField, ValidUtf8;
    var f1, f2 := VarintField(8, from.magic), VarintField(16, ToUnsigned(from.version));
    var f3, f4 := VarintField(24, ToUnsigned(from.messageType)), VarintField(32, ToUnsigned(from.requestId));
    var f5, f6 := NameField(42, from.serviceName), NameField(50, from.methodName);
    Nested(f1, f2, f3, f4, f5, f6, rest);
    var h1 := if from.magic != 0 then h.(magic := from.magic) else h;
    var h2 := if from.version != 0 then h1.(version := from.version) else h1;
    var h3 := if from.messageType != 0 then h2.(messageType := from.messageType) else h2;
    var h4 := if from.requestId != 0 then h3.(requestId := from.requestId) else h3;
    var h5 := if from.serviceName.Some? then h4.(serviceName := from.serviceName) else h4;
    MagicRead(h, from.magic, f2 + (f3 + (f4 + (f5 + (f6 + rest)))));
    VersionRead(h1, from.version, f3 + (f4 + (f5 + (f6 + rest))));
    MessageTypeRead(h2, from.messageType, f4 + (f5 + (f6 + rest)));
    RequestIdRead(h3, from.requestId, f5 + (f6 + rest));
    ServiceNameRead(h4, from.serviceName, f6 + rest);
    MethodNameRead(h5, from.methodName, rest);
  }

  lemma Nested(a: Bytes, b: Bytes, c: Bytes, d: Bytes, e: Bytes, f: Bytes, rest: Bytes)
    ensures a + (b + (c + (d + (e + f)))) + rest == a + (b + (c + (d + (e + (f + rest)))))
  {
    Assoc(e, f, rest);
    Assoc(d, e + f, rest);
    Assoc(c, d + (e + f), rest);
    Assoc(b, c + (d + (e + f)), rest);
    Assoc(a, b + (c + (d + (e + f))), rest);
  }

  /** Main result: parsing inverts serializing, for all field values. */
  lemma ParseInvertsSerialize(h: Header)
    requires GoodNames(h)
    ensures Parse(Serialize(h)) == Some(h)
  {
    ParseMerges(DefaultHeader, h, []);
    assert Serialize(h) + [] == Serialize(h);
  }

  /** Main result: the concatenation of two serialized headers parses to the second merged into the first. */
  lemma ConcatenationMerges(a: Header, b: Header)
    requires GoodNames(a) && GoodNames(b)
    ensures Parse(Serialize(a) + Serialize(b)) == Some(Merge(a, b))
  {
    ParseMerges(DefaultHeader, a, Serialize(b));
    ParseMerges(a, b, []);
    assert Serialize(b) + [] == Serialize(b);
    assert Merge(DefaultHeader, a) == a;
  }

  // ---------------------------------------------------------------- the generated class

  method WriteScalar(tag: Byte, v: Uint64, target: Bytes) returns (out: Bytes)
    ensures out == target + VarintField(tag, v)
  {
    out := target;
    if v != 0 {
      out := out + [tag] + Encode(v);
    }
  }

  method WriteName(tag: Byte, name: Option<Bytes>, target: Bytes) returns (out: Bytes)
    ensures out == target + NameField(tag, name)
  {
    out := target;
    if name.Some? {
      out := out + [tag] + Encode(|name.value|);
      out := out + name.value;
    }
  }

  /** `UInt64SizePlusOne` and its relatives, for a field that is left out when zero. */
  method AddScalar(ghost tag: Byte, v: Uint64, size: nat) returns (total: nat)
    ensures total == size + |VarintField(tag, v)|
  {
    total := size;
    if v != 0 {
      total := total + VarintSize(v) + 1;
    }
    SizeIsLength(v);
  }

  method AddName(ghost tag: Byte, name: Option<Bytes>, size: nat) returns (total: nat)
    requires name.Some? ==> |name.value| < TWO_32
    ensures total == size + |NameField(tag, name)|
  {
    total := size;
    if name.Some? {
      total := total + 1 + VarintSize(|name.value|) + |name.value|;
      SizeIsLength(|name.value|);
    }
  }

  class HeaderMessage {
    var magic: Uint64
    var version: Int32
    var messageType: Int32
    var requestId: Int64
    var serviceName: Option<Bytes>
    var methodName: Option<Bytes>

    constructor ()
      ensures Value() == DefaultHeader
    {
      magic, version, messageType, requestId, serviceName, methodName := 0, 0, 0, 0, None, None;
    }

    function Value(): Header
      reads this
    {
      Header(magic, version, messageType, requestId, serviceName, methodName)
    }

    /** Reads fields until the bytes are used up or something does not parse. */
    method InternalParse(s: Bytes) returns (ok: bool)
      modifies this
      ensures ok <==> ParseInto(old(Value()), s).Some?
      ensures ok ==> ParseInto(old(Value()), s) == Some(Value())
    {
      var ptr := s;
      while ptr != []
        invariant ParseInto(Value(), ptr) == ParseInto(old(Value()), s)
        decreases |ptr|
      {
        var tag := ReadTag(ptr);
        if tag == Fail {
          return false;
        }
        var t, rest := tag.value, tag.rest;
        ghost var before := Value();
        if t / 8 == 1 && t % 256 == 8 {
          var v := ReadVarint64(rest);
          if v == Fail { return false; }
          magic, ptr := v.value, v.rest;
        } else if t / 8 == 2 && t % 256 == 16 {
          var v := ReadVarint32(rest);
          if v == Fail { return false; }
          version, ptr := ToInt32(v.value), v.rest;
        } else if t / 8 == 3 && t % 256 == 24 {
          var v := ReadVarint64(rest);
          if v == Fail { return false; }
          messageType, ptr := ToInt32(v.value), v.rest;
        } else if t / 8 == 4 && t % 256 == 32 {
          var v := ReadVarint64(rest);
          if v == Fail { return false; }
          requestId, ptr := ToInt64(v.value), v.rest;
        } else if t / 8 == 5 && t % 256 == 42 {
          var v := ReadString(rest);
          if v == Fail { return false; }
          serviceName := Some(v.value);
          if !ValidUtf8(v.value) { return false; }
          ptr := v.rest;
        } else if t / 8 == 6 && t % 256 == 50 {
          var v := ReadString(rest);
          if v == Fail { return false; }
          methodName := Some(v.value);
          if !ValidUtf8(v.value) { return false; }
          ptr := v.rest;
        } else {
          if t == 0 || t % 8 == 4 { return false; }
          var more := SkipField(t, rest, GROUP_DEPTH);
          if more == None { return false; }
          ptr := more.value;
        }
      }
      return true;
    }

    /** Writes the fields in order after `target`. */
    method InternalSerialize(target: Bytes) returns (out: Bytes)
      ensures out == target + Serialize(Value())
    {
      hide Serialize, VarintField, NameField;
      out := WriteScalar(8, magic, target);
      out := WriteScalar(16, ToUnsigned(version), out);
      out := WriteScalar(24, ToUnsigned(messageType), out);
      out := WriteScalar(32, ToUnsigned(requestId), out);
      out := WriteName(42, serviceName, out);
      out := WriteName(50, methodName, out);
      InOrder(target, Value());
    }

    /** Adds up the sizes of the fields; the sum is the length of the serialization, ten-byte negatives included. */
    method ByteSizeLong() returns (size: nat)
      requires serviceName.Some? ==> |serviceName.value| < TWO_32
      requires methodName.Some? ==> |methodName.value| < TWO_32
      ensures size == |Serialize(Value())|
    {
      hide VarintField, NameField;
      size := 0;
      size := AddName(42, serviceName, size);
      size := AddName(50, methodName, size);
      size := AddScalar(8, magic, size);
      size := AddScalar(16, ToUnsigned(version), size);
      size := AddScalar(24, ToUnsigned(messageType), size);
      size := AddScalar(32, ToUnsigned(requestId), size);
    }

    /** Overwrites fields with those of `from` that are set. */
    method MergeFrom(from: HeaderMessage)
      modifies this
      ensures from != this ==> from.Value() == old(from.Value())
      ensures Value() == Merge(old(Value()), old(from.Value()))
    {
      if from.serviceName.Some? { serviceName := from.serviceName; }
      if from.methodName.Some? { methodName := from.methodName; }
      if from.magic != 0 { magic := from.magic; }
      if from.version != 0 { version := from.version; }
      if from.messageType != 0 { messageType := from.messageType; }
      if from.requestId != 0 { requestId := from.requestId; }
    }
  }

  /** Appending the fields one after the other is appending the serialization. */
  lemma InOrder(target: Bytes, h: Header)
    ensures target + Serialize(h) ==
      target + VarintField(8, h.magic) + VarintField(16, ToUnsigned(h.version)) + VarintField(24, ToUnsigned(h.messageType))
        + VarintField(32, ToUnsigned(h.requestId)) + NameField(42, h.serviceName) + NameField(50, h.methodName)
  {
    hide VarintField, NameField;
    Nested(target, VarintField(8, h.magic), VarintField(16, ToUnsigned(h.version)), VarintField(24, ToUnsigned(h.messageType)),
      VarintField(32, ToUnsigned(h.requestId)), NameField(42, h.serviceName), NameField(50, h.methodName));
  }
}
