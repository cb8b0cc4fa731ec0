/**
 Firestore field values and the wire the ABI gives them: the private tags of
 firebase_bridge.h, and the CBOR item of every value, sentinels included.
 */
module FirestoreValue {
  import opened Bytes
  import opened Cbor
  import opened Cursor

  const TAG_TIMESTAMP := 40000
  const TAG_GEOPOINT := 40001
  const TAG_REFERENCE := 40002
  const TAG_DELETE := 40010
  const TAG_SERVER_TIMESTAMP := 40011
  const TAG_ARRAY_UNION := 40012
  const TAG_ARRAY_REMOVE := 40013
  const TAG_INCREMENT_INT := 40014
  const TAG_INCREMENT_DOUBLE := 40015

  predicate KnownTag(n: int) {
    TAG_TIMESTAMP <= n <= TAG_REFERENCE || TAG_DELETE <= n <= TAG_INCREMENT_DOUBLE
  }

  /** An unordered_map is its entries in iteration order; any order may come. */
  datatype Field = Field(key: Octets, value: FieldValue)

  datatype FieldValue =
    | NullValue
    | Boolean(b: bool)
    | Integer(i: I64)
    | DoubleValue(d: Number)
    | StringValue(s: Octets)
    | BlobValue(s: Octets)
    | Timestamp(seconds: I64, nanos: I32)
    | GeoPoint(latitude: Number, longitude: Number)
    | Reference(path: Octets)
    | ArrayValue(items: seq<FieldValue>)
    | MapValue(fields: seq<Field>)
    | Delete
    | ServerTimestamp
    | ArrayUnion(items: seq<FieldValue>)
    | ArrayRemove(items: seq<FieldValue>)
    | IncrementInt(n: I64)
    | IncrementDouble(x: Number)

  predicate HasKey(fields: seq<Field>, key: Octets) {
    exists i :: 0 <= i < |fields| && fields[i].key == key
  }

  /** MapFieldValue::emplace: a key already there keeps its value. */
  function Emplace(fields: seq<Field>, key: Octets, value: FieldValue): seq<Field> {
    if HasKey(fields, key) then fields else fields + [Field(key, value)]
  }

  predicate DistinctKeys(fields: seq<Field>) {
    forall i, j :: 0 <= i < j < |fields| ==> fields[i].key != fields[j].key
  }

  /** Lengths a C++ process can hold (PTRDIFF_MAX), and maps that are maps. */
  predicate Valid(v: FieldValue) {
    match v
    case DoubleValue(d) => !d.FromInt?  // an integer item is an Integer value
    case StringValue(s) => |s| <= MAX_SIZE
    case BlobValue(s) => |s| <= MAX_SIZE
    case Reference(s) => |s| <= MAX_SIZE
    case ArrayValue(vs) => |vs| <= MAX_SIZE && AllValid(vs)
    case ArrayUnion(vs) => |vs| <= MAX_SIZE && AllValid(vs)
    case ArrayRemove(vs) => |vs| <= MAX_SIZE && AllValid(vs)
    case MapValue(fs) => |fs| <= MAX_SIZE / 2 && DistinctKeys(fs) && EachValid(fs)
    case _ => true
  }

  predicate AllValid(vs: seq<FieldValue>) {
    vs == [] || (Valid(vs[0]) && AllValid(vs[1..]))
  }

  predicate EachValid(fs: seq<Field>) {
    fs == [] || (|fs[0].key| <= MAX_SIZE && Valid(fs[0].value) && EachValid(fs[1..]))
  }

  // ---- the item of a value --------------------------------------------------------

  function NumberItem(n: Number): Item {
    match n
    case Bits(d) => Item.Double(d)
    case FromSingle(s) => Single(s)
    case FromHalf(h) => Half(h)
    case FromInt(i) => IntItem(i)
  }

  function ItemOf(v: FieldValue): Item
    decreases v, 0
  {
    match v
    case NullValue => Item.Null
    case Boolean(b) => Bool(b)
    case Integer(i) => IntItem(i)
    case DoubleValue(d) => NumberItem(d)
    case StringValue(s) => Text(s)
    case BlobValue(s) => Blob(s)
    case Timestamp(s, n) => Tagged(TAG_TIMESTAMP, Array([IntItem(s), IntItem(n)], false))
    case GeoPoint(a, b) => Tagged(TAG_GEOPOINT, Array([NumberItem(a), NumberItem(b)], false))
    case Reference(p) => Tagged(TAG_REFERENCE, Text(p))
    case ArrayValue(vs) => Array(ItemsOf(vs), false)
    case MapValue(fs) => Map(FlatOf(fs), false)
    case Delete => Tagged(TAG_DELETE, Item.Null)
    case ServerTimestamp => Tagged(TAG_SERVER_TIMESTAMP, Item.Null)
    case ArrayUnion(vs) => Tagged(TAG_ARRAY_UNION, Array(ItemsOf(vs), false))
    case ArrayRemove(vs) => Tagged(TAG_ARRAY_REMOVE, Array(ItemsOf(vs), false))
    case IncrementInt(i) => Tagged(TAG_INCREMENT_INT, Array([IntItem(i)], false))
    case IncrementDouble(d) => Tagged(TAG_INCREMENT_DOUBLE, Array([NumberItem(d)], false))
  }

  function ItemsOf(vs: seq<FieldValue>): (ts: seq<Item>)
    ensures |ts| == |vs|
    decreases vs, 1
  {
    if vs == [] then [] else [ItemOf(vs[0])] + ItemsOf(vs[1..])
  }

  function FlatOf(fs: seq<Field>): (ts: seq<Item>)
    ensures |ts| == 2 * |fs|
    decreases fs, 1
  {
    if fs == [] then [] else [Text(fs[0].key), ItemOf(fs[0].value)] + FlatOf(fs[1..])
  }

  lemma {:induction false} ItemOfSized(v: FieldValue)
    requires Valid(v)
    ensures Sized(ItemOf(v))
    decreases v, 0
  {
    match v {
      case Timestamp(s, n) => PairSized(IntItem(s), IntItem(n));
      case GeoPoint(a, b) => PairSized(NumberItem(a), NumberItem(b));
      case ArrayValue(vs) => ItemsOfSized(vs);
      case ArrayUnion(vs) => ItemsOfSized(vs);
      case ArrayRemove(vs) => ItemsOfSized(vs);
      case MapValue(fs) => FlatOfSized(fs);
      case IncrementInt(n) => OneSized(IntItem(n));
      case IncrementDouble(x) => OneSized(NumberItem(x));
      case _ =>
    }
  }

  lemma {:induction false} OneSized(a: Item)
    requires Sized(a)
    ensures Sized(Array([a], false))
  {
    assert [a][1..] == [];
  }

  lemma {:induction false} PairSized(a: Item, b: Item)
    requires Sized(a) && Sized(b)
    ensures Sized(Array([a, b], false))
  {
    AllSizedPair(a, b, []);
    assert [a, b] + [] == [a, b];
  }

  lemma {:induction false} ItemsOfSized(vs: seq<FieldValue>)
    requires AllValid(vs)
    ensures AllSized(ItemsOf(vs))
    decreases vs, 1
  {
    if vs != [] {
      ItemOfSized(vs[0]);
      ItemsOfSized(vs[1..]);
      assert ItemsOf(vs)[1..] == ItemsOf(vs[1..]);
    }
  }

  lemma {:induction false} FlatOfSized(fs: seq<Field>)
    requires EachValid(fs)
    ensures AllSized(FlatOf(fs))
    decreases fs, 1
  {
    if fs != [] {
      ItemOfSized(fs[0].value);
      FlatOfSized(fs[1..]);
      AllSizedPair(Text(fs[0].key), ItemOf(fs[0].value), FlatOf(fs[1..]));
    }
  }

  // ---- what the encoder can write ---------------------------------------------------

  /** The value with every sentinel at any depth replaced by null: Firestore
      never returns one, and the encoder writes null if it ever does. */
  function Nulled(v: FieldValue): (r: FieldValue)
    decreases v, 0
  {
    match v
    case ArrayValue(vs) => ArrayValue(NulledAll(vs))
    case MapValue(fs) => MapValue(NulledFields(fs))
    case Delete => NullValue
    case ServerTimestamp => NullValue
    case ArrayUnion(_) => NullValue
    case ArrayRemove(_) => NullValue
    case IncrementInt(_) => NullValue
    case IncrementDouble(_) => NullValue
    case _ => v
  }

  function NulledAll(vs: seq<FieldValue>): (r: seq<FieldValue>)
    ensures |r| == |vs|
    decreases vs, 1
  {
    if vs == [] then [] else [Nulled(vs[0])] + NulledAll(vs[1..])
  }

  function NulledFields(fs: seq<Field>): (r: seq<Field>)
    ensures |r| == |fs|
    ensures forall i :: 0 <= i < |fs| ==> r[i].key == fs[i].key
    decreases fs, 1
  {
    if fs == [] then [] else [Field(fs[0].key, Nulled(fs[0].value))] + NulledFields(fs[1..])
  }

  lemma {:induction false} NulledValid(v: FieldValue)
    requires Valid(v)
    ensures Valid(Nulled(v))
    decreases v, 0
  {
    match v {
      case ArrayValue(vs) => NulledAllValid(vs);
      case MapValue(fs) => NulledFieldsValid(fs);
      case _ =>
    }
  }

  lemma {:induction false} NulledAllValid(vs: seq<FieldValue>)
    requires AllValid(vs)
    ensures AllValid(NulledAll(vs))
    decreases vs, 1
  {
    if vs != [] {
      NulledValid(vs[0]);
      NulledAllValid(vs[1..]);
    }
  }

  lemma {:induction false} NulledFieldsValid(fs: seq<Field>)
    requires EachValid(fs)
    ensures EachValid(NulledFields(fs))
    decreases fs, 1
  {
    if fs != [] {
      NulledValid(fs[0].value);
      NulledFieldsValid(fs[1..]);
    }
  }

  /** Doubles in memory are 64-bit patterns, whatever they were read from. */
  predicate Plain(v: FieldValue) {
    match v
    case DoubleValue(d) => d.Bits?
    case GeoPoint(a, b) => a.Bits? && b.Bits?
    case ArrayValue(vs) => AllPlain(vs)
    case MapValue(fs) => EachPlain(fs)
    case _ => true
  }

  predicate AllPlain(vs: seq<FieldValue>) {
    vs == [] || (Plain(vs[0]) && AllPlain(vs[1..]))
  }

  predicate EachPlain(fs: seq<Field>) {
    fs == [] || (Plain(fs[0].value) && EachPlain(fs[1..]))
  }
}
