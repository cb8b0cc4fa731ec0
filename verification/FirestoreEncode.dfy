/**
 Firestore's encoder and the buffer it fills: one pass that stops at the first
 overflow, repeated over doubling buffers.
 */
module FirestoreEncode {
  import opened Bytes
  import opened Cbor
  import opened FirestoreValue
  import opened Encoder

  /** The bytes of a value as the encoder writes it. */
  function Encoding(v: FieldValue): Octets
    requires Valid(v)
  {
    NulledValid(v);
    ItemOfSized(Nulled(v));
    Wire(ItemOf(Nulled(v)))
  }

  /** The bytes of a map's entries, and of an array's items, in iteration order. */
  function EntryBytes(fs: seq<Field>): Octets
    requires EachValid(fs)
  {
    NulledFieldsValid(fs);
    FlatOfSized(NulledFields(fs));
    WireAll(FlatOf(NulledFields(fs)))
  }

  function ItemBytes(vs: seq<FieldValue>): Octets
    requires AllValid(vs)
  {
    NulledAllValid(vs);
    ItemsOfSized(NulledAll(vs));
    WireAll(ItemsOf(NulledAll(vs)))
  }

  function KeyBytes(key: Octets): Octets
    requires |key| <= MAX_SIZE
  {
    HeadBytes(3, |key|) + key
  }

  lemma {:induction false} KeyWire(key: Octets)
    requires |key| <= MAX_SIZE
    ensures Wire(Text(key)) == KeyBytes(key)
  {
  }

  lemma {:induction false} EntryBytesNone(fs: seq<Field>)
    requires fs == []
    ensures EntryBytes(fs) == []
  {
  }

  lemma {:induction false} ItemBytesNone(vs: seq<FieldValue>)
    requires vs == []
    ensures ItemBytes(vs) == []
  {
  }

  lemma {:induction false} EntryBytesStep(fs: seq<Field>)
    requires EachValid(fs) && fs != []
    ensures EntryBytes(fs) == KeyBytes(fs[0].key) + (Encoding(fs[0].value) + EntryBytes(fs[1..]))
  {
    hide Wire, ItemOf, Nulled, Sized;
    NulledValid(fs[0].value);
    ItemOfSized(Nulled(fs[0].value));
    var key, value := Text(fs[0].key), ItemOf(Nulled(fs[0].value));
    var ts := FlatOf(NulledFields(fs));
    NulledFieldsValid(fs);
    FlatOfSized(NulledFields(fs));
    NulledFieldsValid(fs[1..]);
    FlatOfSized(NulledFields(fs[1..]));
    var us := FlatOf(NulledFields(fs[1..]));
    assert ts == [key, value] + us;
    assert ts[0] == key && ts[1..] == [value] + us && ts[1..][0] == value && ts[1..][1..] == us;
    assert WireAll(ts[1..]) == Wire(value) + WireAll(us);
    KeyWire(fs[0].key);
  }

  lemma {:induction false} ItemBytesStep(vs: seq<FieldValue>)
    requires AllValid(vs) && vs != []
    ensures ItemBytes(vs) == Encoding(vs[0]) + ItemBytes(vs[1..])
  {
    NulledAllValid(vs);
    ItemsOfSized(NulledAll(vs));
    assert ItemsOf(NulledAll(vs))[1..] == ItemsOf(NulledAll(vs)[1..]);
    assert NulledAll(vs)[1..] == NulledAll(vs[1..]);
  }

  // ---- the encoder ------------------------------------------------------------------

  /** An integer or a double, in the source's one call for it. */
  method EncodeScalar(t: Item, enc: CborEncoder) returns (ok: bool)
    requires enc.Valid() && (t.UInt? || t.NInt? || t.Double?)
    modifies enc`place, enc`remaining, enc.buf
    ensures enc.Valid() && enc.remaining == SatDec(old(enc.remaining))
    ensures enc.place == old(enc.place).Move(|Wire(t)|, enc.buf.Length) && ok == enc.place.Room?
    ensures ok ==> enc.Written() == old(enc.Written()) + Wire(t)
  {
    match t {
      case UInt(n) => ok := enc.Head(0, n);
      case NInt(n) => ok := enc.Head(1, n);
      case Double(d) => ok := enc.Double(d);
    }
    assert Wire(t) == Lead(t);
  }

  function PairBytes(tag: U64, a: Item, b: Item): Octets
    requires Sized(a) && Sized(b)
  {
    HeadBytes(6, tag) + (HeadBytes(4, 2) + (Wire(a) + Wire(b)))
  }

  lemma {:induction false} PairWire(tag: U64, a: Item, b: Item)
    requires Sized(a) && Sized(b)
    ensures Sized(Tagged(tag, Array([a, b], false)))
    ensures Wire(Tagged(tag, Array([a, b], false))) == PairBytes(tag, a, b)
  {
    PairSized(a, b);
    hide Sized;
    var t := Array([a, b], false);
    assert [a, b][1..] == [b] && [b][1..] == [];
    assert WireAll([b]) == Wire(b);
    assert WireAll([a, b]) == Wire(a) + Wire(b);
    assert Body(t) == Wire(a) + Wire(b);
    assert Wire(t) == HeadBytes(4, 2) + Body(t);
  }

  method EncodeTwo(a: Item, b: Item, enc: CborEncoder) returns (ok: bool)
    requires enc.Valid() && (a.UInt? || a.NInt? || a.Double?) && (b.UInt? || b.NInt? || b.Double?)
    modifies enc`place, enc`remaining, enc.buf
    ensures enc.Valid() && ok == enc.place.Room?
    ensures ok <==> old(enc.place.Room?) && old(enc.place).ptr + |Wire(a) + Wire(b)| <= enc.buf.Length
    ensures ok ==> enc.Written() == old(enc.Written()) + (Wire(a) + Wire(b))
    ensures ok ==> enc.remaining == SatDec(SatDec(old(enc.remaining)))
  {
    hide Wire;
    ok := EncodeScalar(a, enc);
    if !ok { return; }
    ok := EncodeScalar(b, enc);
  }

  /** A tagged array of two scalars: a timestamp or a geopoint. */
  method EncodePair(tag: U64, a: Item, b: Item, enc: CborEncoder) returns (ok: bool)
    requires enc.Valid() && enc.place.Room?
    requires (a.UInt? || a.NInt? || a.Double?) && (b.UInt? || b.NInt? || b.Double?)
    modifies enc`place, enc`remaining, enc.buf
    ensures enc.Valid()
    ensures ok <==> old(enc.place.ptr) + |PairBytes(tag, a, b)| <= enc.buf.Length
    ensures ok ==> enc.place.Room? && enc.Written() == old(enc.Written()) + PairBytes(tag, a, b)
    ensures ok ==> enc.remaining == SatDec(old(enc.remaining))
  {
    hide Wire, BigEndian, HeadBytes;
    ghost var t, h, xy, done := HeadBytes(6, tag), HeadBytes(4, 2), Wire(a) + Wire(b), enc.Written();
    assert ((done + t) + h) + xy == done + (t + (h + xy));
    ok := enc.Tag(tag);
    if !ok { return; }
    var pair;
    ok, pair := enc.Create(false, 2, false);
    if !ok { return; }
    ok := EncodeTwo(a, b, pair);
    if !ok { return; }
    ok := enc.Close(pair);
  }

  lemma {:induction false} MapWire(fs: seq<Field>)
    requires Valid(MapValue(fs))
    ensures Encoding(MapValue(fs)) == HeadBytes(5, |fs|) + EntryBytes(fs)
  {
    hide WireAll, FlatOf, NulledFields, HeadBytes;
    var t := ItemOf(Nulled(MapValue(fs)));
    NulledValid(MapValue(fs));
    ItemOfSized(Nulled(MapValue(fs)));
    assert t == Map(FlatOf(NulledFields(fs)), false);
    assert EntryBytes(fs) + Cbor.Close(false) == EntryBytes(fs);
    assert Wire(t) == HeadBytes(5, |fs|) + (EntryBytes(fs) + Cbor.Close(false));
  }

  lemma {:induction false} ArrayWire(vs: seq<FieldValue>)
    requires Valid(ArrayValue(vs))
    ensures Encoding(ArrayValue(vs)) == HeadBytes(4, |vs|) + ItemBytes(vs)
  {
    hide WireAll, ItemsOf, NulledAll, HeadBytes;
    var t := ItemOf(Nulled(ArrayValue(vs)));
    NulledValid(ArrayValue(vs));
    ItemOfSized(Nulled(ArrayValue(vs)));
    assert t == Array(ItemsOf(NulledAll(vs)), false);
    assert ItemBytes(vs) + Cbor.Close(false) == ItemBytes(vs);
    assert Wire(t) == HeadBytes(4, |vs|) + (ItemBytes(vs) + Cbor.Close(false));
  }

  method EncodeMap(fs: seq<Field>, enc: CborEncoder) returns (ok: bool)
    requires enc.Valid() && enc.place.Room? && Valid(MapValue(fs)) && EachPlain(fs)
    modifies enc`place, enc`remaining, enc.buf
    ensures enc.Valid()
    ensures ok <==> old(enc.place.ptr) + |Encoding(MapValue(fs))| <= enc.buf.Length
    ensures ok ==> enc.place.Room? && enc.Written() == old(enc.Written()) + Encoding(MapValue(fs))
    ensures ok ==> enc.remaining == SatDec(old(enc.remaining))
    decreases fs, 0
  {
    hide Encoding, EntryBytes, HeadBytes, BigEndian, EachValid, EachPlain, DistinctKeys, KeyBytes;
    MapWire(fs);
    var map_;
    ok, map_ := enc.Create(true, |fs|, false);
    if !ok { return; }
    ghost var base := map_.Written();
    EachAt(fs, 0);
    assert fs[0..] == fs;
    for i := 0 to |fs|
      invariant fresh(map_) && map_.buf == enc.buf && map_.Valid() && map_.place.Room? && !map_.open
      invariant map_.remaining == 2 * (|fs| - i) + 1
      invariant enc.Valid() && enc.remaining == SatDec(old(enc.remaining))
      invariant EachValid(fs[i..]) && EachPlain(fs[i..])
      invariant map_.Written() + EntryBytes(fs[i..]) == base + EntryBytes(fs)
    {
      EachAt(fs, i);
      EntryBytesStep(fs[i..]);
      ghost var done, k, v, rest := map_.Written(), KeyBytes(fs[i].key), Encoding(fs[i].value), EntryBytes(fs[i + 1..]);
      assert done + (k + (v + rest)) == done + k + v + rest;
      ok := EncodeEntry(fs[i], map_);
      if !ok { return; }
    }
    EntryBytesNone(fs[|fs|..]);
    ok := enc.Close(map_);
  }

  /** One key and its value. */
  method EncodeEntry(f: Field, enc: CborEncoder) returns (ok: bool)
    requires enc.Valid() && enc.place.Room? && |f.key| <= MAX_SIZE && Valid(f.value) && Plain(f.value)
    modifies enc`place, enc`remaining, enc.buf
    ensures enc.Valid()
    ensures ok <==> old(enc.place.ptr) + |KeyBytes(f.key)| + |Encoding(f.value)| <= enc.buf.Length
    ensures ok ==> enc.place.Room? && enc.Written() == old(enc.Written()) + KeyBytes(f.key) + Encoding(f.value)
    ensures ok ==> enc.remaining == SatDec(SatDec(old(enc.remaining)))
    decreases f, 2
  {
    hide Encoding, HeadBytes, BigEndian;
    ok := enc.String(3, f.key);
    if !ok { return; }
    ok := EncodeValue(f.value, enc);
  }

  lemma {:induction false} EachAt(fs: seq<Field>, i: nat)
    requires i < |fs| ==> EachValid(fs[i..]) && EachPlain(fs[i..])
    ensures i < |fs| ==> |fs[i].key| <= MAX_SIZE && Valid(fs[i].value) && Plain(fs[i].value)
    ensures i < |fs| ==> fs[i..][0] == fs[i] && fs[i..][1..] == fs[i + 1..] && EachValid(fs[i + 1..]) && EachPlain(fs[i + 1..])
  {
  }

  lemma {:induction false} AllAt(vs: seq<FieldValue>, i: nat)
    requires i < |vs| ==> AllValid(vs[i..]) && AllPlain(vs[i..])
    ensures i < |vs| ==> Valid(vs[i]) && Plain(vs[i])
    ensures i < |vs| ==> vs[i..][0] == vs[i] && vs[i..][1..] == vs[i + 1..] && AllValid(vs[i + 1..]) && AllPlain(vs[i + 1..])
  {
  }

  method EncodeArray(vs: seq<FieldValue>, enc: CborEncoder) returns (ok: bool)
    requires enc.Valid() && enc.place.Room? && Valid(ArrayValue(vs)) && AllPlain(vs)
    modifies enc`place, enc`remaining, enc.buf
    ensures enc.Valid()
    ensures ok <==> old(enc.place.ptr) + |Encoding(ArrayValue(vs))| <= enc.buf.Length
    ensures ok ==> enc.place.Room? && enc.Written() == old(enc.Written()) + Encoding(ArrayValue(vs))
    ensures ok ==> enc.remaining == SatDec(old(enc.remaining))
    decreases vs, 0
  {
    hide Encoding, ItemBytes, HeadBytes, BigEndian, AllValid, AllPlain;
    ArrayWire(vs);
    var array_;
    ok, array_ := enc.Create(false, |vs|, false);
    if !ok { return; }
    ghost var base := array_.Written();
    assert vs[0..] == vs;
    for i := 0 to |vs|
      invariant fresh(array_) && array_.buf == enc.buf && array_.Valid() && array_.place.Room? && !array_.open
      invariant array_.remaining == |vs| - i + 1
      invariant enc.Valid() && enc.remaining == SatDec(old(enc.remaining))
      invariant AllValid(vs[i..]) && AllPlain(vs[i..])
      invariant array_.Written() + ItemBytes(vs[i..]) == base + ItemBytes(vs)
    {
      AllAt(vs, i);
      ItemBytesStep(vs[i..]);
      ok := EncodeValue(vs[i], array_);
      if !ok { return; }
    }
    ItemBytesNone(vs[|vs|..]);
    ok := enc.Close(array_);
  }

  method EncodeValue(v: FieldValue, enc: CborEncoder) returns (ok: bool)
    requires enc.Valid() && enc.place.Room? && Valid(v) && Plain(v)
    modifies enc`place, enc`remaining, enc.buf
    ensures enc.Valid()
    ensures ok <==> old(enc.place.ptr) + |Encoding(v)| <= enc.buf.Length
    ensures ok ==> enc.place.Room? && enc.Written() == old(enc.Written()) + Encoding(v)
    ensures ok ==> enc.remaining == SatDec(old(enc.remaining))
    decreases v, 1
  {
    hide Encoding, BigEndian, HeadBytes;
    ScalarEncoding(v);
    match v {
      case NullValue => ok := enc.Head(7, 22);
      case Boolean(b) => ok := enc.Head(7, if b then 21 else 20);
      case Integer(i) => ok := EncodeScalar(IntItem(i), enc);
      case DoubleValue(d) => ok := EncodeScalar(Item.Double(d.d), enc);
      case StringValue(s) => ok := enc.String(3, s);
      case BlobValue(s) => ok := enc.String(2, s);
      case Timestamp(s, n) => ok := EncodePair(TAG_TIMESTAMP, IntItem(s), IntItem(n), enc);
      case GeoPoint(a, b) => ok := EncodePair(TAG_GEOPOINT, Item.Double(a.d), Item.Double(b.d), enc);
      case Reference(path) =>
        ghost var done := enc.Written();
        ok := enc.Tag(TAG_REFERENCE);
        if !ok { return; }
        ok := enc.String(3, path);
        assert (done + HeadBytes(6, TAG_REFERENCE)) + KeyBytes(path) == done + (HeadBytes(6, TAG_REFERENCE) + KeyBytes(path));
      case ArrayValue(vs) => ok := EncodeArray(vs, enc);
      case MapValue(fs) => ok := EncodeMap(fs, enc);
      case _ => ok := enc.Head(7, 22);
    }
  }

  /** The bytes of every value that is not a container of values. */
  lemma {:induction false} ScalarEncoding(v: FieldValue)
    requires Valid(v) && Plain(v)
    ensures match v
            case Boolean(b) => Encoding(v) == HeadBytes(7, if b then 21 else 20)
            case Integer(i) => Encoding(v) == Wire(IntItem(i))
            case DoubleValue(d) => Encoding(v) == Wire(Item.Double(d.d))
            case StringValue(s) => Encoding(v) == HeadBytes(3, |s|) + s
            case BlobValue(s) => Encoding(v) == HeadBytes(2, |s|) + s
            case Timestamp(s, n) => Encoding(v) == PairBytes(TAG_TIMESTAMP, IntItem(s), IntItem(n))
            case GeoPoint(a, b) => Encoding(v) == PairBytes(TAG_GEOPOINT, Item.Double(a.d), Item.Double(b.d))
            case Reference(path) => Encoding(v) == HeadBytes(6, TAG_REFERENCE) + KeyBytes(path)
            case ArrayValue(_) => true
            case MapValue(_) => true
            case _ => Encoding(v) == HeadBytes(7, 22)
  {
    match v {
      case Timestamp(s, n) => PairWire(TAG_TIMESTAMP, IntItem(s), IntItem(n));
      case GeoPoint(a, b) => PairWire(TAG_GEOPOINT, Item.Double(a.d), Item.Double(b.d));
      case Reference(path) => KeyWire(path);
      case ArrayValue(_) =>
      case MapValue(_) =>
      case _ => assert Wire(ItemOf(Nulled(v))) == Lead(ItemOf(Nulled(v))) + Body(ItemOf(Nulled(v)));
    }
  }
}
