/**
 The header message as the Protocol Buffers encoding describes it: records of a field number and a value, with
 nothing taken from the generated code. What the generated code writes is read as exactly its fields.
 */
module WireFormat {
  import opened Base
  import opened Varints
  import opened HeaderCodec

  datatype Value = Number(n: nat) | Text(bytes: Bytes)

  datatype Record = Record(field: nat, value: Value)

  /** A tag is the field number and, in its three lowest bits, the wire type: 0 a varint, 2 a length and that many bytes. */
  function ReadRecord(s: Bytes): (r: Parsed<Record>)
    ensures r.Got? ==> |r.rest| < |s|
  {
    match ReadGroups(s, 5)
    case Fail => Fail
    case Got(tag, rest) =>
      if tag % 8 == 0 then
        match ReadGroups(rest, 10) case Fail => Fail case Got(n, more) => Got(Record(tag / 8, Number(n)), more)
      else if tag % 8 == 2 then
        match ReadGroups(rest, 5)
        case Fail => Fail
        case Got(n, more) => if n <= |more| then Got(Record(tag / 8, Text(more[..n])), more[n..]) else Fail
      else Fail
  }

  function ReadRecords(s: Bytes): Option<seq<Record>>
    decreases |s|
  {
    if s == [] then Some([])
    else match ReadRecord(s)
      case Fail => None
      case Got(record, rest) =>
        match ReadRecords(rest) case None => None case Some(records) => Some([record] + records)
  }

  function NumberRecord(field: nat, n: nat): seq<Record> {
    if n == 0 then [] else [Record(field, Number(n))]
  }

  function TextRecord(field: nat, name: Option<Bytes>): seq<Record> {
    if name == None then [] else [Record(field, Text(name.value))]
  }

  /** The fields of proto/message.proto by number; negative numbers as their two's complement in 64 bits. */
  function FieldsOf(h: Header): seq<Record> {
    NumberRecord(1, h.magic) + (NumberRecord(2, h.version % TWO_64) + (NumberRecord(3, h.messageType % TWO_64)
      + (NumberRecord(4, h.requestId % TWO_64) + (TextRecord(5, h.serviceName) + TextRecord(6, h.methodName)))))
  }

  /** Records in front of `rest`. */
  ghost predicate ReadsAs(s: Bytes, records: seq<Record>, rest: Bytes) {
    ReadRecords(s) == match ReadRecords(rest) case None => None case Some(more) => Some(records + more)
  }

  lemma ScalarReadsAs(tag: Byte, v: Uint64, rest: Bytes)
    requires tag < 128 && tag % 8 == 0
    ensures ReadsAs(VarintField(tag, v) + rest, NumberRecord(tag / 8, v), rest)
  {
    if v == 0 {
      assert VarintField(tag, v) + rest == rest;
      NoRecord(rest);
    } else {
      Powers();
      GroupsRoundTrip(v, 10, rest);
      TagFirst(tag, Encode(v) + rest);
      hide ReadGroups, Encode, Power128, ReadRecords;
      Assoc([tag], Encode(v), rest);
      OneRecord(VarintField(tag, v) + rest, Record(tag / 8, Number(v)), rest);
    }
  }

  lemma TagFirst(tag: Byte, rest: Bytes)
    requires tag < 128
    ensures ReadGroups([tag] + rest, 5) == Got(tag, rest)
  {
    assert ([tag] + rest)[1..] == rest;
  }

  lemma OneRecord(s: Bytes, record: Record, rest: Bytes)
    requires s != [] && ReadRecord(s) == Got(record, rest)
    ensures ReadsAs(s, [record], rest)
  {
    hide ReadRecord;
  }

  lemma NameReadsAs(tag: Byte, name: Option<Bytes>, rest: Bytes)
    requires tag < 128 && tag % 8 == 2 && (name.Some? ==> |name.value| <= MAX_SIZE)
    ensures ReadsAs(NameField(tag, name) + rest, TextRecord(tag / 8, name), rest)
  {
    if name == None {
      assert NameField(tag, name) + rest == rest;
      NoRecord(rest);
    } else {
      var text := name.value;
      Powers();
      GroupsRoundTrip(|text|, 5, text + rest);
      TagFirst(tag, Encode(|text|) + (text + rest));
      assert (text + rest)[..|text|] == text && (text + rest)[|text|..] == rest;
      hide ReadGroups, Encode, Power128, ReadRecords;
      Assoc(Encode(|text|), text, rest);
      Assoc([tag], Encode(|text|) + text, rest);
      assert ReadRecord([tag] + (Encode(|text|) + (text + rest))) == Got(Record(tag / 8, Text(text)), rest);
      OneRecord(NameField(tag, name) + rest, Record(tag / 8, Text(text)), rest);
    }
  }

  lemma NoRecord(rest: Bytes)
    ensures ReadsAs(rest, [], rest)
  {
    if ReadRecords(rest).Some? { assert [] + ReadRecords(rest).value == ReadRecords(rest).value; }
  }

  lemma ReadsBoth(s: Bytes, a: seq<Record>, mid: Bytes, b: seq<Record>, rest: Bytes)
    requires ReadsAs(s, a, mid) && ReadsAs(mid, b, rest)
    ensures ReadsAs(s, a + b, rest)
  {
    if ReadRecords(rest).Some? {
      assert a + (b + ReadRecords(rest).value) == a + b + ReadRecords(rest).value;
    }
  }

  lemma TwosComplement(x: Int64, u: Uint64)
    ensures ToUnsigned(x) == x % TWO_64
    ensures (ToInt64(u) - u) % TWO_64 == 0 && (ToInt32(u) - u) % TWO_32 == 0
  {
    assert ToInt32(u) - u == -TWO_32 * (u / TWO_32) || ToInt32(u) - u == -TWO_32 * (u / TWO_32 + 1);
  }

  /** Main result: a serialized header is a sequence of records that are exactly its fields, by number and value. */
  lemma SerializedFields(h: Header)
    requires GoodNames(h)
    ensures ReadRecords(Serialize(h)) == Some(FieldsOf(h))
  {
    hide VarintField, NameField, ReadRecords, ReadsAs, NumberRecord, TextRecord, ValidUtf8;
    TwosComplement(h.version, 0);
    TwosComplement(h.messageType, 0);
    TwosComplement(h.requestId, 0);
    var a, b := VarintField(8, h.magic), VarintField(16, ToUnsigned(h.version));
    var c, d := VarintField(24, ToUnsigned(h.messageType)), VarintField(32, ToUnsigned(h.requestId));
    var e, f := NameField(42, h.serviceName), NameField(50, h.methodName);
    ScalarReadsAs(8, h.magic, b + (c + (d + (e + f))));
    ScalarReadsAs(16, ToUnsigned(h.version), c + (d + (e + f)));
    ScalarReadsAs(24, ToUnsigned(h.messageType), d + (e + f));
    ScalarReadsAs(32, ToUnsigned(h.requestId), e + f);
    NameReadsAs(42, h.serviceName, f);
    NameReadsAs(50, h.methodName, []);
    assert f + [] == f;
    var r5, r6 := TextRecord(5, h.serviceName), TextRecord(6, h.methodName);
    ReadsBoth(e + f, r5, f, r6, []);
    ReadsBoth(d + (e + f), NumberRecord(4, h.requestId % TWO_64), e + f, r5 + r6, []);
    ReadsBoth(c + (d + (e + f)), NumberRecord(3, h.messageType % TWO_64), d + (e + f), NumberRecord(4, h.requestId % TWO_64) + (r5 + r6), []);
    ReadsBoth(b + (c + (d + (e + f))), NumberRecord(2, h.version % TWO_64), c + (d + (e + f)),
      NumberRecord(3, h.messageType % TWO_64) + (NumberRecord(4, h.requestId % TWO_64) + (r5 + r6)), []);
    ReadsBoth(Serialize(h), NumberRecord(1, h.magic), b + (c + (d + (e + f))),
      NumberRecord(2, h.version % TWO_64) + (NumberRecord(3, h.messageType % TWO_64) + (NumberRecord(4, h.requestId % TWO_64) + (r5 + r6))), []);
    AllRead(Serialize(h), FieldsOf(h));
  }

  lemma AllRead(s: Bytes, records: seq<Record>)
    requires ReadsAs(s, records, [])
    ensures ReadRecords(s) == Some(records)
  {
    assert records + [] == records;
  }

  // ---------------------------------------------------------------- fields the parser does not know

  /** The tag of one of the six fields, with the wire type the parser expects. */
  predicate Known(tag: nat) {
    tag in {8, 16, 24, 32, 42, 50}
  }

  /** The bytes of a value of the wire type of `tag`. */
  ghost predicate Payload(tag: nat, s: Bytes) {
    match tag % 8
    case 0 => exists n: Uint64 :: s == Encode(n)
    case 1 => |s| == 8
    case 2 => exists text: Bytes :: |text| <= MAX_SIZE && s == Encode(|text|) + text
    case 5 => |s| == 4
    case _ => false
  }

  lemma TagRead(tag: nat, rest: Bytes)
    requires tag < TWO_32
    ensures ReadTag(Encode(tag) + rest) == Got(tag, rest)
  {
    Powers();
    GroupsRoundTrip(tag, 5, rest);
    hide ReadGroups, Encode, Power128;
    assert tag % TWO_32 == tag;
  }

  lemma PayloadSkipped(tag: nat, value: Bytes, rest: Bytes)
    requires 8 <= tag && Payload(tag, value)
    ensures SkipField(tag, value + rest, GROUP_DEPTH) == Some(rest)
  {
    if tag % 8 == 0 {
      var n: Uint64 :| value == Encode(n);
      Varint64RoundTrip(n, rest);
      hide ReadVarint64, Encode;
      assert SkipField(tag, value + rest, GROUP_DEPTH) == Some(rest);
    } else if tag % 8 == 2 {
      var text: Bytes :| |text| <= MAX_SIZE && value == Encode(|text|) + text;
      SizeRoundTrip(|text|, text + rest);
      hide ReadSize, Encode;
      Assoc(Encode(|text|), text, rest);
      assert (text + rest)[..|text|] == text && (text + rest)[|text|..] == rest;
    } else {
      assert (value + rest)[|value|..] == rest;
    }
  }

  /** A field that is not one of the six, or not of its wire type, is skipped wherever it comes. */
  lemma UnknownSkipped(h: Header, tag: nat, value: Bytes, rest: Bytes)
    requires 8 <= tag < TWO_32 && !Known(tag) && Payload(tag, value)
    ensures ParseInto(h, Encode(tag) + (value + rest)) == ParseInto(h, rest)
  {
    var s := Encode(tag) + (value + rest);
    TagRead(tag, value + rest);
    PayloadSkipped(tag, value, rest);
    NoPayloadEnds(tag, value);
    hide *;
    NotOneOfSix(tag);
    OtherField(h, s, tag, value + rest);
    OneFieldSkipped(h, s, rest);
  }

  /** The conditions of the parser's six cases. */
  predicate OneOfSix(tag: nat) {
    || (tag / 8 == 1 && tag % 256 == 8) || (tag / 8 == 2 && tag % 256 == 16) || (tag / 8 == 3 && tag % 256 == 24)
    || (tag / 8 == 4 && tag % 256 == 32) || (tag / 8 == 5 && tag % 256 == 42) || (tag / 8 == 6 && tag % 256 == 50)
  }

  lemma NotOneOfSix(tag: nat)
    ensures OneOfSix(tag) <==> Known(tag)
  {
  }

  lemma OtherField(h: Header, s: Bytes, tag: nat, rest: Bytes)
    requires ReadTag(s) == Got(tag, rest) && !OneOfSix(tag)
    ensures ParseField(h, s) ==
      if tag == 0 || tag % 8 == 4 then None
      else match SkipField(tag, rest, GROUP_DEPTH) case None => None case Some(more) => Some((h, more))
  {
    hide ReadTag, ReadVarint64, ReadVarint32, ReadString, ValidUtf8, SkipField, ToInt32, ToInt64;
  }

  lemma NoSuchField(tag: nat, rest: Bytes)
    requires tag / 8 == 0 || tag % 8 in {4, 6, 7}
    ensures !Known(tag) && (tag == 0 || tag % 8 == 4 || SkipField(tag, rest, GROUP_DEPTH) == None)
  {
    hide ReadVarint64, ReadString, SkipGroup;
  }

  lemma OneFieldSkipped(h: Header, s: Bytes, rest: Bytes)
    requires ParseField(h, s) == Some((h, rest))
    ensures ParseInto(h, s) == ParseInto(h, rest)
  {
    hide ParseField;
    assert ParseField(h, s).value.1 == rest && |rest| < |s|;
  }

  lemma NoPayloadEnds(tag: nat, value: Bytes)
    requires Payload(tag, value)
    ensures tag % 8 != 4
  {
  }

  /** A tag of no field number, an end tag, or one of no wire type makes parsing fail. */
  lemma BadTagFails(h: Header, tag: nat, rest: Bytes)
    requires tag < TWO_32 && (tag / 8 == 0 || tag % 8 in {4, 6, 7})
    ensures ParseInto(h, Encode(tag) + rest) == None
  {
    var s := Encode(tag) + rest;
    TagRead(tag, rest);
    assert s != [];
    NotOneOfSix(tag);
    NoSuchField(tag, rest);
    hide *;
    OtherField(h, s, tag, rest);
    FieldFails(h, s);
  }

  lemma FieldFails(h: Header, s: Bytes)
    requires s != [] && ParseField(h, s) == None
    ensures ParseInto(h, s) == None
  {
    hide ParseField;
  }
}
