/**
 The wire and its limits in plain numbers: examples of RFC 8949, the bytes of
 every kind of tagged value, and how deep and how wide an item may be.
 */
module WireFormat {
  import opened Bytes
  import opened Cbor
  import opened Cursor
  import opened Walk
  import opened FirestoreValue

  lemma {:induction false} OneByte(n: nat)
    requires n < 0x100
    ensures BigEndian(n, 1) == [n]
  {
    assert BigEndian(n / 256, 0) == [];
  }

  lemma {:induction false} TwoBytes(n: nat)
    requires n < 0x1_0000
    ensures BigEndian(n, 2) == [n / 256, n % 256]
  {
    OneByte(n / 256);
  }

  lemma {:induction false} FourBytes(a: Byte, b: Byte, c: Byte, d: Byte)
    ensures BigEndian(((a * 256 + b) * 256 + c) * 256 + d, 4) == [a, b, c, d]
  {
    var n := ((a * 256 + b) * 256 + c) * 256 + d;
    assert n / 256 == (a * 256 + b) * 256 + c && n % 256 == d;
    assert n / 256 / 256 == a * 256 + b && n / 256 % 256 == c;
    TwoBytes(a * 256 + b);
    assert BigEndian(n / 256, 3) == BigEndian(n / 256 / 256, 2) + [c];
  }

  /** Integers and simple values, among the examples of RFC 8949, Appendix A. */
  lemma {:induction false} ScalarExamples()
    ensures Wire(UInt(0)) == [0x00] && Wire(UInt(10)) == [0x0A] && Wire(UInt(23)) == [0x17]
    ensures Wire(UInt(24)) == [0x18, 0x18] && Wire(UInt(100)) == [0x18, 0x64]
    ensures Wire(UInt(1000)) == [0x19, 0x03, 0xE8] && Wire(UInt(1_000_000)) == [0x1A, 0x00, 0x0F, 0x42, 0x40]
    ensures Wire(NInt(0)) == [0x20] && Wire(NInt(9)) == [0x29] && Wire(NInt(99)) == [0x38, 0x63]
    ensures Wire(Bool(false)) == [0xF4] && Wire(Bool(true)) == [0xF5]
    ensures Wire(Item.Null) == [0xF6] && Wire(Undefined) == [0xF7]
  {
    OneByte(24);
    OneByte(100);
    OneByte(99);
    TwoBytes(1000);
    FourBytes(0x00, 0x0F, 0x42, 0x40);
  }

  lemma {:induction false} ShortHead(major: Major, n: nat)
    requires n < 24
    ensures HeadBytes(major, n) == [major * 32 + n]
  {
  }

  /** Floats of each width, likewise. */
  lemma {:induction false} FloatExamples()
    ensures Wire(Half(0x3E00)) == [0xF9, 0x3E, 0x00]
    ensures Wire(Single(0x47C3_5000)) == [0xFA, 0x47, 0xC3, 0x50, 0x00]
    ensures Wire(Item.Double(0)) == [0xFB, 0, 0, 0, 0, 0, 0, 0, 0]
  {
    TwoBytes(0x3E00);
    FourBytes(0x47, 0xC3, 0x50, 0x00);
    FourBytes(0, 0, 0, 0);
    assert BigEndian(0, 8) == [0, 0, 0, 0, 0, 0, 0, 0];
    hide BigEndian;
  }

  /** Strings and tags. */
  lemma {:induction false} TextExamples()
    ensures Wire(Blob([1, 2, 3, 4])) == [0x44, 0x01, 0x02, 0x03, 0x04]
    ensures Wire(Text([])) == [0x60] && Wire(Text([0x61])) == [0x61, 0x61]
    ensures Wire(Tagged(32, Text([]))) == [0xD8, 0x20, 0x60]
  {
    ShortHead(2, 4);
    ShortHead(3, 0);
    ShortHead(3, 1);
    OneByte(32);
    assert HeadBytes(6, 32) == [0xD8, 0x20];
    hide BigEndian, HeadBytes;
  }

  /** Short containers of both length forms: what stands around their items. */
  lemma {:induction false} ContainerBytes(ts: seq<Item>)
    requires |ts| < 24 && AllSized(ts)
    ensures Wire(Array(ts, false)) == [0x80 + |ts|] + WireAll(ts)
    ensures Wire(Array(ts, true)) == [0x9F] + WireAll(ts) + [0xFF]
    ensures |ts| % 2 == 0 ==> Wire(Map(ts, false)) == [0xA0 + |ts| / 2] + WireAll(ts)
    ensures |ts| % 2 == 0 ==> Wire(Map(ts, true)) == [0xBF] + WireAll(ts) + [0xFF]
  {
    hide WireAll;
    var n := |ts|;
    ShortHead(4, n);
    ShortHead(5, n / 2);
    hide HeadBytes;
    assert WireAll(ts) + [] == WireAll(ts);
    assert [0x9F] + (WireAll(ts) + [0xFF]) == [0x9F] + WireAll(ts) + [0xFF];
    assert [0xBF] + (WireAll(ts) + [0xFF]) == [0xBF] + WireAll(ts) + [0xFF];
  }

  lemma {:induction false} ContainerExamples()
    ensures AllSized([]) && Wire(Array([], false)) == [0x80] && Wire(Array([], true)) == [0x9F, 0xFF]
    ensures Wire(Map([], false)) == [0xA0] && Wire(Map([], true)) == [0xBF, 0xFF]
    ensures AllSized([UInt(1), UInt(2)])
    ensures Wire(Array([UInt(1), UInt(2)], false)) == [0x82, 0x01, 0x02]
    ensures Wire(Array([UInt(1), UInt(2)], true)) == [0x9F, 0x01, 0x02, 0xFF]
    ensures Wire(Map([UInt(1), UInt(2)], false)) == [0xA1, 0x01, 0x02]
  {
    assert AllSized([]) && WireAll([]) == [];
    assert Wire(UInt(1)) == [1] && Wire(UInt(2)) == [2] by { ShortHead(0, 1); ShortHead(0, 2); }
    hide Wire, WireAll, HeadBytes;
    TwoWire(UInt(1), UInt(2));
    ContainerBytes([]);
    ContainerBytes([UInt(1), UInt(2)]);
  }

  // ---- heads the writer does not write -----------------------------------------------------

  /** An argument in more bytes than it needs is the same argument. */
  lemma {:induction false} WideHead(major: Major, info: Byte, n: U64, tail: Octets)
    requires 24 <= info <= 27 && n < Pow256(ArgWidth(info)) && major != 7
    ensures ReadHead([major * 32 + info] + BigEndian(n, ArgWidth(info)) + tail)
         == Some(Head(major, info, n, 1 + ArgWidth(info)))
  {
    hide BigEndian, FromBigEndian, Pow256;
    var w, first: Byte := ArgWidth(info), major * 32 + info;
    var b, s := BigEndian(n, w), [first] + BigEndian(n, w) + tail;
    assert s[0] == first && s[1..] == b + tail;
    DropPrefix(b, tail);
    BigEndianRoundTrip(n, w);
    assert first / 32 == major && first % 32 == info;
  }

  /** A magnitude of 2^63 or more wraps into the 64 bits of a signed integer. */
  lemma {:induction false} Wraps(negative: bool, n: U64)
    ensures (ToI64(negative, n) - (if negative then -1 - n else n)) % 0x1_0000_0000_0000_0000 == 0
  {
  }

  /** Nothing is read from no bytes, from a reserved length, from an open length
      of a type that has none, from a simple value below 32 in two bytes, or from
      an argument that is cut off. */
  lemma {:induction false} NoHead(major: Major, info: Byte, k: Byte, tail: Octets)
    ensures ReadHead([]) == None
    ensures 28 <= info <= 30 ==> ReadHead([major * 32 + info] + tail) == None
    ensures major <= 1 || major >= 6 ==> ReadHead([major * 32 + 31] + tail) == None
    ensures k < 32 ==> ReadHead([0xF8, k] + tail) == None
    ensures info == 24 && |tail| < 1 ==> ReadHead([major * 32 + info] + tail) == None
    ensures info == 25 && |tail| < 2 ==> ReadHead([major * 32 + info] + tail) == None
    ensures info == 26 && |tail| < 4 ==> ReadHead([major * 32 + info] + tail) == None
    ensures info == 27 && |tail| < 8 ==> ReadHead([major * 32 + info] + tail) == None
  {
    var two: Octets := [0xF8, k] + tail;
    assert two[0] == 0xF8 && two[1..] == [k] + tail && (([k] + tail)[..1]) == [k];
    assert FromBigEndian([k]) == k by { assert [k][..0] == [] && FromBigEndian([]) == 0; }
    forall b: Byte ensures ([b] + tail)[0] == b && ([b] + tail)[1..] == tail {}
  }

  // ---- tagged values ---------------------------------------------------------------------

  /** What follows the head of a tag between 40000 and 40015, which is three bytes. */
  lemma {:induction false} TagBytes(tag: U64, x: Item)
    requires 0x9C40 <= tag <= 0x9C4F && Sized(x)
    ensures Wire(Tagged(tag, x)) == [0xD9, 0x9C, tag - 0x9C00] + Wire(x)
  {
    TwoBytes(tag);
    assert Lead(Tagged(tag, x)) == [0xD9, 0x9C, tag - 0x9C00];
  }

  lemma {:induction false} PairBytes(tag: U64, a: Item, b: Item)
    requires 0x9C40 <= tag <= 0x9C4F && Sized(a) && Sized(b)
    ensures Sized(Array([a, b], false))
    ensures Wire(Tagged(tag, Array([a, b], false))) == [0xD9, 0x9C, tag - 0x9C00, 0x82] + Wire(a) + Wire(b)
  {
    hide Sized, Wire, WireAll;
    assert Sized(Array([a, b], false)) by { PairSized(a, b); }
    TagBytes(tag, Array([a, b], false));
    TwoWire(a, b);
    ContainerBytes([a, b]);
    var head: Octets := [0xD9, 0x9C, tag - 0x9C00];
    assert head + ([0x82] + (Wire(a) + Wire(b))) == head + [0x82] + Wire(a) + Wire(b);
  }

  lemma {:induction false} SingletonBytes(tag: U64, a: Item)
    requires 0x9C40 <= tag <= 0x9C4F && Sized(a)
    ensures Sized(Array([a], false))
    ensures Wire(Tagged(tag, Array([a], false))) == [0xD9, 0x9C, tag - 0x9C00, 0x81] + Wire(a)
  {
    hide Sized, Wire, WireAll;
    OneSized(a);
    OneWire(a);
    TagBytes(tag, Array([a], false));
    ContainerBytes([a]);
    var head: Octets := [0xD9, 0x9C, tag - 0x9C00];
    assert head + ([0x81] + Wire(a)) == head + [0x81] + Wire(a);
  }

  /** The bytes of every kind of tagged value: which number says what, and in
      which order its parts stand. First those with two parts. */
  lemma {:induction false} TimestampBytes(seconds: I64, nanos: I32)
    ensures Sized(ItemOf(Timestamp(seconds, nanos)))
    ensures Wire(ItemOf(Timestamp(seconds, nanos)))
         == [0xD9, 0x9C, 0x40, 0x82] + Wire(IntItem(seconds)) + Wire(IntItem(nanos))
  {
    hide Wire;
    PairBytes(40000, IntItem(seconds), IntItem(nanos));
  }

  lemma {:induction false} GeoPointBytes(latitude: Number, longitude: Number)
    ensures Sized(NumberItem(latitude)) && Sized(NumberItem(longitude))
    ensures Sized(ItemOf(GeoPoint(latitude, longitude)))
    ensures Wire(ItemOf(GeoPoint(latitude, longitude)))
         == [0xD9, 0x9C, 0x41, 0x82] + Wire(NumberItem(latitude)) + Wire(NumberItem(longitude))
  {
    hide Wire;
    PairBytes(40001, NumberItem(latitude), NumberItem(longitude));
  }

  lemma {:induction false} ReferenceBytes(path: Octets)
    requires |path| <= MAX_SIZE
    ensures Wire(ItemOf(Reference(path))) == [0xD9, 0x9C, 0x42] + Wire(Text(path))
  {
    hide Wire;
    TagBytes(40002, Text(path));
  }

  lemma {:induction false} NullByte()
    ensures Wire(Item.Null) == [0xF6]
  {
    ShortHead(7, 22);
  }

  /** Then the two that have none. */
  lemma {:induction false} SentinelBytes()
    ensures Wire(ItemOf(Delete)) == [0xD9, 0x9C, 0x4A, 0xF6]
    ensures Wire(ItemOf(ServerTimestamp)) == [0xD9, 0x9C, 0x4B, 0xF6]
  {
    hide Wire;
    NullByte();
    TagBytes(40010, Item.Null);
    TagBytes(40011, Item.Null);
  }

  /** An increment is a list of one. */
  lemma {:induction false} IncrementBytes(n: I64, d: Number)
    ensures Sized(NumberItem(d)) && Sized(ItemOf(IncrementInt(n))) && Sized(ItemOf(IncrementDouble(d)))
    ensures Wire(ItemOf(IncrementInt(n))) == [0xD9, 0x9C, 0x4E, 0x81] + Wire(IntItem(n))
    ensures Wire(ItemOf(IncrementDouble(d))) == [0xD9, 0x9C, 0x4F, 0x81] + Wire(NumberItem(d))
  {
    hide Wire;
    SingletonBytes(40014, IntItem(n));
    SingletonBytes(40015, NumberItem(d));
  }

  /** The array transforms, whatever their values. */
  lemma {:induction false} TransformBytes(vs: seq<FieldValue>)
    requires |vs| <= MAX_SIZE && AllValid(vs)
    ensures Sized(Array(ItemsOf(vs), false))
    ensures Wire(ItemOf(ArrayUnion(vs))) == [0xD9, 0x9C, 0x4C] + Wire(Array(ItemsOf(vs), false))
    ensures Wire(ItemOf(ArrayRemove(vs))) == [0xD9, 0x9C, 0x4D] + Wire(Array(ItemsOf(vs), false))
  {
    hide Wire;
    ItemOfSized(ArrayValue(vs));
    TagBytes(40012, Array(ItemsOf(vs), false));
    TagBytes(40013, Array(ItemsOf(vs), false));
  }

  // ---- limits ------------------------------------------------------------------------------

  /** Containers inside containers; a tag is not a level. */
  function Depth(t: Item): nat
    decreases t, 0
  {
    match t
    case Array(ts, _) => 1 + DepthAll(ts)
    case Map(ts, _) => 1 + DepthAll(ts)
    case Tagged(_, x) => Depth(x)
    case _ => 0
  }

  function DepthAll(ts: seq<Item>): nat
    decreases ts, 1
  {
    if ts == [] then 0 else if Depth(ts[0]) >= DepthAll(ts[1..]) then Depth(ts[0]) else DepthAll(ts[1..])
  }

  /** Counted arrays below 2^32 - 1 items and maps below 2^31 entries, throughout. */
  predicate Narrow(t: Item)
    decreases t, 0
  {
    match t
    case Array(ts, open) => (open || |ts| <= 4_294_967_294) && AllNarrow(ts)
    case Map(ts, open) => (open || |ts| / 2 <= 2_147_483_647) && AllNarrow(ts)
    case Tagged(_, x) => Narrow(x)
    case _ => true
  }

  predicate AllNarrow(ts: seq<Item>)
    decreases ts, 1
  {
    ts == [] || (Narrow(ts[0]) && AllNarrow(ts[1..]))
  }

  lemma {:induction false} SkippableWithin(t: Item, level: nat)
    ensures Skippable(t, level) <==> Depth(t) <= level && Narrow(t)
    decreases t, 0
  {
    match t {
      case Array(ts, _) => if level > 0 { AllSkippableWithin(ts, level - 1); }
      case Map(ts, _) => if level > 0 { AllSkippableWithin(ts, level - 1); }
      case Tagged(_, x) => SkippableWithin(x, level);
      case _ =>
    }
  }

  lemma {:induction false} AllSkippableWithin(ts: seq<Item>, level: nat)
    ensures AllSkippable(ts, level) <==> DepthAll(ts) <= level && AllNarrow(ts)
    decreases ts, 1
  {
    if ts != [] {
      SkippableWithin(ts[0], level);
      AllSkippableWithin(ts[1..], level);
    }
  }

  /** At any untagged item, in any container, before any bytes: it is stepped over
      exactly when it nests at most 1024 levels deep and no count in it is too
      large for the reader. */
  lemma {:induction false} StepsOver(c: Cursor, t: Item, tail: Octets)
    requires c.At? && Sized(t) && !t.Tagged? && c.rest == Wire(t) + tail
    ensures Advance(c) == if Depth(t) <= 1024 && Narrow(t) then Past(c, tail) else None
  {
    hide Wire, ReadHead, WireAll, Past, Skip, Skippable;
    SkipStep(c, t, tail, MAX_RECURSIONS);
    SkippableWithin(t, 1024);
  }

  /** And a container is entered exactly when its own count is small enough. */
  lemma {:induction false} Enters(c: Cursor, t: Item, tail: Octets)
    requires c.At? && Sized(t) && (t.Array? || t.Map?) && c.rest == Wire(t) + tail
    ensures Enter(c).Some? <==> t.open || (if t.Array? then |t.items| <= 4_294_967_294 else |t.items| / 2 <= 2_147_483_647)
  {
    hide Wire, ReadHead, WireAll, Enter;
    EnterStep(c, t, tail);
  }
}
