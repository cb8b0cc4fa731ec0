/**
 Firestore's codec read as a pair: what the decoder makes of the wire form of a
 value, which tags can travel, and which sentinel payloads slip past the checks.
 */
module FirestoreRoundTrip {
  import opened Bytes
  import opened Cbor
  import opened Cursor
  import opened Walk
  import opened FirestoreValue
  import opened FirestoreDecode
  import opened FirestoreMeaning

  /** No array or map in it has more entries than a cursor can count. */
  predicate Fits(v: FieldValue) {
    match v
    case ArrayValue(vs) => |vs| < UNKNOWN && AllFit(vs)
    case ArrayUnion(vs) => |vs| < UNKNOWN && AllFit(vs)
    case ArrayRemove(vs) => |vs| < UNKNOWN && AllFit(vs)
    case MapValue(fs) => |fs| <= UNKNOWN / 2 && EachFits(fs)
    case _ => true
  }

  predicate AllFit(vs: seq<FieldValue>) {
    vs == [] || (Fits(vs[0]) && AllFit(vs[1..]))
  }

  predicate EachFits(fs: seq<Field>) {
    fs == [] || (Fits(fs[0].value) && EachFits(fs[1..]))
  }

  /** A value's own item means that value, or is refused for its width alone. */
  lemma {:induction false} InterpItemOf(v: FieldValue)
    requires Valid(v)
    ensures Interp(ItemOf(v)) == if Fits(v) then Means(v) else Refuses
    decreases v, 0
  {
    hide Interp, InterpAll, InterpFields, ItemOf, ItemsOf, FlatOf;
    match v {
      case ArrayValue(vs) => InterpItemsOf(vs); ListMeaning(vs);
      case ArrayUnion(vs) => InterpItemsOf(vs); ListMeaning(vs);
      case ArrayRemove(vs) => InterpItemsOf(vs); ListMeaning(vs);
      case MapValue(fs) => InterpFlatOf(fs, []); MapMeaning(fs); assert [] + fs == fs;
      case Timestamp(_, _) => PairMeaning(v);
      case GeoPoint(_, _) => PairMeaning(v);
      case IncrementInt(_) => IncrementMeaning(v);
      case IncrementDouble(_) => IncrementMeaning(v);
      case _ => PlainMeaning(v);
    }
  }

  lemma {:induction false} PlainMeaning(v: FieldValue)
    requires Valid(v) && !v.ArrayValue? && !v.ArrayUnion? && !v.ArrayRemove? && !v.MapValue?
    requires !v.Timestamp? && !v.GeoPoint? && !v.IncrementInt? && !v.IncrementDouble?
    ensures Interp(ItemOf(v)) == Means(v)
  {
    hide InterpAll, InterpFields, ItemsOf, FlatOf;
  }

  lemma {:induction false} PairMeaning(v: FieldValue)
    requires Valid(v) && (v.Timestamp? || v.GeoPoint?)
    ensures Interp(ItemOf(v)) == Means(v)
  {
    hide InterpAll, InterpFields, ItemsOf, FlatOf, Skippable, Wrapped, Mapped;
  }

  lemma {:induction false} IncrementMeaning(v: FieldValue)
    requires Valid(v) && (v.IncrementInt? || v.IncrementDouble?)
    ensures Interp(ItemOf(v)) == Means(v)
  {
    hide InterpAll, InterpFields, ItemsOf, FlatOf, Skippable, Wrapped, Mapped;
  }

  lemma {:induction false} ListMeaning(vs: seq<FieldValue>)
    ensures Interp(ItemOf(ArrayValue(vs))) == Counted(vs, ArrayKind)
    ensures Interp(ItemOf(ArrayUnion(vs))) == Counted(vs, UnionKind)
    ensures Interp(ItemOf(ArrayRemove(vs))) == Counted(vs, RemoveKind)
  {
    hide InterpAll, InterpFields, ItemsOf, FlatOf, Wrapped;
  }

  function Counted(vs: seq<FieldValue>, kind: ListKind): Meaning<FieldValue> {
    if |vs| < UNKNOWN then Wrapped(InterpAll(ItemsOf(vs)), kind) else Refuses
  }

  lemma {:induction false} MapMeaning(fs: seq<Field>)
    ensures Interp(ItemOf(MapValue(fs)))
         == if |fs| <= UNKNOWN / 2 then Mapped(InterpFields(FlatOf(fs), [])) else Refuses
  {
    hide InterpAll, InterpFields, ItemsOf, FlatOf, Mapped;
  }

  lemma {:induction false} NothingLeft(v: FieldValue)
    ensures Left(ItemOf(v)).None?
  {
  }

  lemma {:induction false} InterpItemsOf(vs: seq<FieldValue>)
    requires AllValid(vs)
    ensures InterpAll(ItemsOf(vs)) == if AllFit(vs) then Means(vs) else Refuses
    decreases vs, 1
  {
    if vs != [] {
      InterpItemOf(vs[0]);
      NothingLeft(vs[0]);
      InterpItemsOf(vs[1..]);
      assert ItemsOf(vs)[1..] == ItemsOf(vs[1..]);
      assert [vs[0]] + vs[1..] == vs;
    }
  }

  lemma {:induction false} InterpFlatOf(fs: seq<Field>, acc: seq<Field>)
    requires EachValid(fs) && DistinctKeys(acc + fs)
    ensures InterpFields(FlatOf(fs), acc) == if EachFits(fs) then Means(acc + fs) else Refuses
    decreases fs, 1
  {
    if fs == [] {
      assert acc + fs == acc;
    } else {
      var ts := FlatOf(fs);
      assert ts[2..] == FlatOf(fs[1..]) && ts[0] == Text(fs[0].key) && ts[1] == ItemOf(fs[0].value);
      InterpItemOf(fs[0].value);
      NothingLeft(fs[0].value);
      assert ts[1..][1..] == ts[2..];
      forall i | 0 <= i < |acc| ensures acc[i].key != fs[0].key {
        assert (acc + fs)[i] == acc[i] && (acc + fs)[|acc|] == fs[0];
      }
      assert acc + [fs[0]] + fs[1..] == acc + fs;
      InterpFlatOf(fs[1..], acc + [fs[0]]);
    }
  }

  /** Decoding the wire form of any value, sentinels included, in front of any
      further bytes: the same value, and the cursor right behind it. */
  lemma {:induction false} WriteRoundTrip(v: FieldValue, tail: Octets)
    requires Valid(v)
    ensures Sized(ItemOf(v))
    ensures Start(Wire(ItemOf(v)) + tail) == Some(At(Wire(ItemOf(v)) + tail, 1, false, false))
    ensures Value(At(Wire(ItemOf(v)) + tail, 1, false, false))
         == if Fits(v) then Got(v, End(tail, false)) else Refused
  {
    hide Wire, ReadHead, Value, Interp, ItemOf, Valid, Fits;
    ItemOfSized(v);
    WireSplit(ItemOf(v), tail);
    InterpItemOf(v);
    NothingLeft(v);
    ValueOnWire(At(Wire(ItemOf(v)) + tail, 1, false, false), ItemOf(v), tail);
  }

  /** What the encoder writes reads back as the value with its sentinels nulled. */
  lemma {:induction false} ReadRoundTrip(v: FieldValue, tail: Octets)
    requires Valid(v)
    ensures Valid(Nulled(v)) && Sized(ItemOf(Nulled(v)))
    ensures ReadHead(Wire(ItemOf(Nulled(v))) + tail).Some?
    ensures Value(At(Wire(ItemOf(Nulled(v))) + tail, 1, false, false))
         == if Fits(Nulled(v)) then Got(Nulled(v), End(tail, false)) else Refused
  {
    NulledValid(v);
    WriteRoundTrip(Nulled(v), tail);
  }

  /** No value that only a write can carry, at any depth. */
  predicate Settled(v: FieldValue) {
    match v
    case ArrayValue(vs) => AllSettled(vs)
    case MapValue(fs) => EachSettled(fs)
    case Delete => false
    case ServerTimestamp => false
    case ArrayUnion(_) => false
    case ArrayRemove(_) => false
    case IncrementInt(_) => false
    case IncrementDouble(_) => false
    case _ => true
  }

  predicate AllSettled(vs: seq<FieldValue>) {
    vs == [] || (Settled(vs[0]) && AllSettled(vs[1..]))
  }

  predicate EachSettled(fs: seq<Field>) {
    fs == [] || (Settled(fs[0].value) && EachSettled(fs[1..]))
  }

  /** What is encoded is the value itself exactly when it holds no sentinel, and a
      sentinel is encoded as null. */
  lemma {:induction false} NulledExact(v: FieldValue)
    ensures Nulled(v) == v <==> Settled(v)
    ensures !v.ArrayValue? && !v.MapValue? && !Settled(v) ==> Nulled(v) == NullValue
    decreases v, 0
  {
    match v {
      case ArrayValue(vs) => NulledAllExact(vs);
      case MapValue(fs) => NulledFieldsExact(fs);
      case _ =>
    }
  }

  lemma {:induction false} NulledAllExact(vs: seq<FieldValue>)
    ensures NulledAll(vs) == vs <==> AllSettled(vs)
    decreases vs, 1
  {
    hide Nulled, Settled;
    if vs != [] {
      NulledExact(vs[0]);
      NulledAllExact(vs[1..]);
      assert vs == [vs[0]] + vs[1..];
      assert NulledAll(vs)[0] == Nulled(vs[0]) && NulledAll(vs)[1..] == NulledAll(vs[1..]);
    }
  }

  lemma {:induction false} NulledFieldsExact(fs: seq<Field>)
    ensures NulledFields(fs) == fs <==> EachSettled(fs)
    decreases fs, 1
  {
    hide Nulled, Settled;
    if fs != [] {
      NulledExact(fs[0].value);
      NulledFieldsExact(fs[1..]);
      assert fs == [fs[0]] + fs[1..] && fs[0] == Field(fs[0].key, fs[0].value);
      assert NulledFields(fs)[0] == Field(fs[0].key, Nulled(fs[0].value)) && NulledFields(fs)[1..] == NulledFields(fs[1..]);
    }
  }

  // ---- which tags travel -----------------------------------------------------------

  /** Every tag anywhere in the item is one of the three read tags. */
  predicate OnlyReadTags(t: Item) {
    match t
    case Array(ts, _) => AllOnlyReadTags(ts)
    case Map(ts, _) => AllOnlyReadTags(ts)
    case Tagged(n, x) => TAG_TIMESTAMP <= n <= TAG_REFERENCE && OnlyReadTags(x)
    case _ => true
  }

  predicate AllOnlyReadTags(ts: seq<Item>) {
    ts == [] || (OnlyReadTags(ts[0]) && AllOnlyReadTags(ts[1..]))
  }

  lemma {:induction false} EncoderTags(v: FieldValue)
    ensures OnlyReadTags(ItemOf(Nulled(v)))
    decreases v, 0
  {
    match v {
      case ArrayValue(vs) => EncoderTagsAll(vs);
      case MapValue(fs) => EncoderTagsEach(fs);
      case Timestamp(s, n) => TwoScalars(IntItem(s), IntItem(n));
      case GeoPoint(a, b) => TwoScalars(NumberItem(a), NumberItem(b));
      case _ =>
    }
  }

  lemma {:induction false} TwoScalars(a: Item, b: Item)
    requires OnlyReadTags(a) && OnlyReadTags(b)
    ensures AllOnlyReadTags([a, b])
  {
    assert [a, b][1..] == [b] && [b][1..] == [];
  }

  lemma {:induction false} EncoderTagsAll(vs: seq<FieldValue>)
    ensures AllOnlyReadTags(ItemsOf(NulledAll(vs)))
    decreases vs, 1
  {
    if vs != [] {
      EncoderTags(vs[0]);
      EncoderTagsAll(vs[1..]);
      assert ItemsOf(NulledAll(vs))[1..] == ItemsOf(NulledAll(vs[1..]));
    }
  }

  lemma {:induction false} EncoderTagsEach(fs: seq<Field>)
    ensures AllOnlyReadTags(FlatOf(NulledFields(fs)))
    decreases fs, 1
  {
    if fs != [] {
      EncoderTags(fs[0].value);
      EncoderTagsEach(fs[1..]);
      var ts := FlatOf(NulledFields(fs));
      assert ts[1..][0] == ItemOf(Nulled(fs[0].value));
      assert ts[1..][1..] == FlatOf(NulledFields(fs[1..]));
    }
  }

  // ---- the grammar of the wire -----------------------------------------------------

  /** The items the decoder gives a value to: text-keyed maps, the nine tags with
      their payloads, no unassigned simple value, counts the reader can hold. A
      container is read through what its sentinels leave behind. */
  predicate InGrammar(t: Item)
    decreases Size(t), 0
  {
    match t
    case Array(ts, _) => Countable(t) && AllInGrammar(ts)
    case Map(ts, _) => Countable(t) && PairsInGrammar(ts)
    case Tagged(n, x) => KnownTag(n) && GoodPayload(n, x)
    case Simple(_) => false
    case Undefined => false
    case _ => true
  }

  predicate AllInGrammar(ts: seq<Item>)
    decreases SizeAll(ts), 1
  {
    ts == [] || (InGrammar(ts[0]) && AllInGrammar(Rest(ts)))
  }

  predicate PairsInGrammar(ts: seq<Item>)
    decreases SizeAll(ts), 1
  {
    ts == [] || (|ts| > 1 && ts[0].Text? && InGrammar(ts[1..][0]) && PairsInGrammar(Rest(ts[1..])))
  }

  predicate GoodPayload(tag: U64, x: Item)
    decreases Size(x), 2
  {
    if IsSentinel(tag) then x.Tagged? || Skippable(x, MAX_RECURSIONS)
    else if tag == TAG_REFERENCE then x.Text?
    else
      x.Array? && Countable(x) &&
      if tag == TAG_TIMESTAMP then |x.items| == 2 && IntOf(x.items[0]).Some? && IntOf(x.items[1]).Some?
      else if tag == TAG_GEOPOINT then |x.items| == 2 && NumberOf(x.items[0]).Some? && NumberOf(x.items[1]).Some?
      else if tag == TAG_INCREMENT_INT then |x.items| == 1 && IntOf(x.items[0]).Some?
      else if tag == TAG_INCREMENT_DOUBLE then |x.items| == 1 && NumberOf(x.items[0]).Some?
      else AllInGrammar(x.items)
  }

  /** Exactly the items of the grammar mean something. */
  lemma {:induction false} MeansExact(t: Item)
    ensures Interp(t).Means? <==> InGrammar(t)
    decreases Size(t), 0
  {
    hide InterpAll, InterpFields, AllInGrammar, PairsInGrammar, Skippable, NumberOf, IntOf;
    match t {
      case Array(ts, _) => AllExact(ts);
      case Map(ts, _) => PairsExact(ts, []);
      case Tagged(n, x) =>
        if x.Array? {
          assert SizeAll(x.items) < Size(x) < Size(t);
          AllExact(x.items);
        }
      case _ =>
    }
  }

  lemma {:induction false} AllExact(ts: seq<Item>)
    ensures InterpAll(ts).Means? <==> AllInGrammar(ts)
    ensures InterpAll(ts).Means? ==> (InterpAll(ts).value == [] <==> ts == [])
    decreases SizeAll(ts), 1
  {
    hide Interp, InGrammar, Rest;
    if ts != [] {
      MeansExact(ts[0]);
      AllExact(Rest(ts));
    }
  }

  lemma {:induction false} PairsExact(ts: seq<Item>, acc: seq<Field>)
    ensures InterpFields(ts, acc).Means? <==> PairsInGrammar(ts)
    decreases SizeAll(ts), 1
  {
    hide Interp, InGrammar, Emplace, Rest;
    if |ts| > 1 && ts[0].Text? {
      var us := ts[1..];
      MeansExact(us[0]);
      match Interp(us[0]) {
        case Means(v) => PairsExact(Rest(us), Emplace(acc, ts[0].bytes, v));
        case _ =>
      }
    }
  }

  /** At any item, in any container, before any bytes: the decoder answers with a
      value exactly when the item is in the grammar and what follows it can be
      looked at, and then it stands right behind the item unless that is a
      sentinel over a tag. */
  lemma {:induction false} GrammarExact(c: Cursor, t: Item, tail: Octets)
    requires c.At? && Sized(t) && c.rest == Wire(t) + tail
    ensures Value(c).Got? <==> InGrammar(t) && Behind(c, t, tail).Some?
    ensures Left(t).None? && Value(c).Got? ==> Some(Value(c).next) == Past(c, tail)
    ensures Left(t).Some? && Value(c).Got? ==> Value(c).next.rest == Wire(Left(t).value) + tail
  {
    hide Wire, ReadHead, WireAll, Here, Past, Value, Interp, InGrammar;
    ValueOnWire(c, t, tail);
    MeansExact(t);
  }

  /** The payloads on which the library's contract is left rather than the item
      refused: no text for a reference, no two integers for a timestamp, no one
      integer for an integer increment, and entries behind those that are read. */
  lemma {:induction false} Breaches(c: Cursor, tag: U64, x: Item, tail: Octets)
    requires c.At? && Sized(x) && c.rest == Wire(Tagged(tag, x)) + tail
    ensures tag == 40002 && !x.Text? ==> Value(c) == OutOfContract
    ensures tag == 40000 && x.Array? && Countable(x) ==>
              (Value(c) == OutOfContract <==> |x.items| != 2 || IntOf(x.items[0]).None? || IntOf(x.items[1]).None?)
    ensures tag == 40001 && x.Array? && Countable(x) ==>
              (Value(c) == OutOfContract <==>
                 |x.items| > 2 && NumberOf(x.items[0]).Some? && NumberOf(x.items[1]).Some?)
    ensures tag == 40014 && x.Array? && Countable(x) ==>
              (Value(c) == OutOfContract <==> |x.items| != 1 || IntOf(x.items[0]).None?)
    ensures tag == 40015 && x.Array? && Countable(x) ==>
              (Value(c) == OutOfContract <==> |x.items| > 1 && NumberOf(x.items[0]).Some?)
    ensures (tag == 40000 || tag == 40001 || 40012 <= tag <= 40015) && !x.Array? ==> Value(c) == Refused
    ensures !(40000 <= tag <= 40002) && !(40010 <= tag <= 40015) ==> Value(c) == Refused
  {
    hide Wire, ReadHead, WireAll, Here, Past, Value, Countable, NumberOf, IntOf, Behind, InterpAll;
    ValueOnWire(c, Tagged(tag, x), tail);
  }

  // ---- foreign tags ---------------------------------------------------------------------

  /** A tag outside the nine stands somewhere the decoder reads: not below
      delete or server timestamp, but in what those leave behind. */
  predicate Foreign(t: Item)
    decreases Size(t), 0
  {
    match t
    case Array(ts, _) => AnyForeign(ts)
    case Map(ts, _) => AnyForeign(ts)
    case Tagged(n, x) => !KnownTag(n) || (!IsSentinel(n) && Foreign(x))
    case _ => false
  }

  predicate AnyForeign(ts: seq<Item>)
    decreases SizeAll(ts), 1
  {
    ts != [] && (Foreign(ts[0]) || AnyForeign(Rest(ts)))
  }

  /** No item with one in it is in the grammar. */
  lemma {:induction false} ForeignOutside(t: Item)
    requires InGrammar(t)
    ensures !Foreign(t)
    decreases Size(t), 0
  {
    hide AllInGrammar, PairsInGrammar, AnyForeign, NumberOf, IntOf;
    match t {
      case Array(ts, _) => NoneForeign(ts);
      case Map(ts, _) => NoPairForeign(ts);
      case Tagged(n, x) =>
        if !IsSentinel(n) && n != TAG_REFERENCE {
          assert SizeAll(x.items) < Size(x) < Size(t);
          if n == TAG_ARRAY_UNION || n == TAG_ARRAY_REMOVE { NoneForeign(x.items); } else { FewNumbers(n, x); }
        }
      case _ =>
    }
  }

  lemma {:induction false} NoneForeign(ts: seq<Item>)
    requires AllInGrammar(ts)
    ensures !AnyForeign(ts)
    decreases SizeAll(ts), 1
  {
    hide InGrammar, Foreign, Rest;
    if ts != [] {
      ForeignOutside(ts[0]);
      NoneForeign(Rest(ts));
    }
  }

  lemma {:induction false} NoPairForeign(ts: seq<Item>)
    requires PairsInGrammar(ts)
    ensures !AnyForeign(ts)
    decreases SizeAll(ts), 1
  {
    hide InGrammar;
    if ts != [] {
      var us := ts[1..];
      ForeignOutside(us[0]);
      NoPairForeign(Rest(us));
    }
  }

  lemma {:induction false} FewNumbers(tag: U64, x: Item)
    requires TAG_TIMESTAMP <= tag && KnownTag(tag) && GoodPayload(tag, x) && !IsSentinel(tag)
    requires tag != TAG_REFERENCE && tag != TAG_ARRAY_UNION && tag != TAG_ARRAY_REMOVE
    ensures !AnyForeign(x.items)
  {
    hide AnyForeign;
    NumbersOnly(x.items);
  }

  lemma {:induction false} NumbersOnly(ts: seq<Item>)
    requires forall i :: 0 <= i < |ts| ==> NumberOf(ts[i]).Some?
    ensures !AnyForeign(ts)
    decreases |ts|
  {
    if ts != [] { NumbersOnly(ts[1..]); }
  }

  /** A foreign tag, at any depth where the decoder reads, keeps the decoder from
      answering with a value: in any container and before any bytes. */
  lemma {:induction false} ForeignRefused(c: Cursor, t: Item, tail: Octets)
    requires c.At? && Sized(t) && c.rest == Wire(t) + tail
    requires Foreign(t)
    ensures !Value(c).Got?
  {
    hide Wire, ReadHead, WireAll, Value, InGrammar, Foreign, Behind;
    if InGrammar(t) { ForeignOutside(t); }
    GrammarExact(c, t, tail);
  }

  // ---- sentinels ----------------------------------------------------------------------

  /** A sentinel's payload is skipped unread, and skipped only up to a tag: the
      decoder ends behind the sentinel exactly when the payload is an untagged
      item that can be skipped. */
  lemma {:induction false} SentinelExact(c: Cursor, tag: U64, x: Item, tail: Octets)
    requires IsSentinel(tag) && c.At? && Sized(x) && c.rest == Wire(Tagged(tag, x)) + tail
    requires Past(c, tail).Some?
    ensures Value(c) == Got(Sentinel(tag), Past(c, tail).value) <==> !x.Tagged? && Skippable(x, MAX_RECURSIONS)
  {
    hide Wire, ReadHead, WireAll, Here, Value, Skippable;
    if x.Tagged? {
      SentinelLeak(c, tag, x.tag, x.content, tail);
      WireNonEmpty(x.content);
    } else {
      ValueOnWire(c, Tagged(tag, x), tail);
    }
  }

  /** Below a tagged payload the cursor comes to rest on what is tagged, in the
      sentinel's own place: the container hands it out as one more element. */
  lemma {:induction false} SentinelLeak(c: Cursor, tag: U64, inner: U64, y: Item, tail: Octets)
    requires IsSentinel(tag) && c.At? && Sized(y) && c.rest == Wire(Tagged(tag, Tagged(inner, y))) + tail
    ensures ReadHead(Wire(y) + tail).Some?
    ensures Value(c) == Got(Sentinel(tag), At(Wire(y) + tail, c.left, c.inMap, c.odd))
  {
    hide Wire, ReadHead, WireAll, Here, Past, Value;
    var t := Tagged(tag, Tagged(inner, y));
    assert Sized(t.content) && Left(t) == Some(y);
    WireSplit(y, tail);
    HereAtItem(y, tail, c.left, c.inMap, c.odd, true);
    ValueOnWire(c, t, tail);
  }

  lemma {:induction false} AloneMeans(y: Item)
    requires Left(y).None? && InterpAll([y]).Means?
    ensures Interp(y).Means? && InterpAll([y]) == Means([Interp(y).value])
  {
    hide Interp, Left;
    assert Rest([y]) == [];
    if Interp(y).Means? {
      assert InterpAll(Rest([y])) == Means([]);
      assert [Interp(y).value] + [] == [Interp(y).value];
    }
  }

  /** So an array of one delete decodes as more than one value when the delete's
      payload is tagged: the tagged item is read after it. */
  lemma {:induction false} LeakedElement(c: Cursor, y: Item, tail: Octets)
    requires Sized(y) && InterpAll([y]).Means?
    requires c.At? && Sized(Array([Tagged(TAG_DELETE, Tagged(5, y))], false))
    requires c.rest == Wire(Array([Tagged(TAG_DELETE, Tagged(5, y))], false)) + tail
    ensures Value(c) == Then(ArrayValue([Delete] + InterpAll([y]).value), Past(c, tail))
    ensures Left(y).None? ==> InterpAll([y]) == Means([Interp(y).value])
  {
    hide Wire, ReadHead, WireAll, Here, Past, Value;
    var e := Tagged(TAG_DELETE, Tagged(5, y));
    assert Rest([e]) == [y];
    assert Interp(e) == Means(Delete);
    if Left(y).None? { AloneMeans(y); }
    assert InterpAll([e]) == Means([Delete] + InterpAll([y]).value);
    ValueOnWire(c, Array([e], false), tail);
  }

  /** And a foreign tag travels below a sentinel: this delete is accepted. */
  lemma {:induction false} SkippedForeignTag(tail: Octets)
    ensures var t := Tagged(TAG_DELETE, Array([Tagged(49999, UInt(0))], false));
            Sized(t) && ReadHead(Wire(t) + tail).Some?
            && Value(At(Wire(t) + tail, 1, false, false)) == Got(Delete, End(tail, false))
  {
    hide Wire, ReadHead, WireAll, Here;
    var e := Tagged(49999, UInt(0));
    var x := Array([e], false);
    OneSized(e);
    assert [e][1..] == [];
    assert AllSkippable([e], 1023);
    WireSplit(Tagged(TAG_DELETE, x), tail);
    ValueOnWire(At(Wire(Tagged(TAG_DELETE, x)) + tail, 1, false, false), Tagged(TAG_DELETE, x), tail);
  }

  // ---- documents ----------------------------------------------------------------------

  /** A document survives the wire in every iteration order of its map. */
  lemma {:induction false} DocumentRoundTrip(fs: seq<Field>, tail: Octets)
    requires Valid(MapValue(fs))
    ensures Sized(ItemOf(MapValue(fs)))
    ensures ParseDocument(Wire(ItemOf(MapValue(fs))) + tail) == if Fits(MapValue(fs)) then Some(fs) else None
  {
    hide Wire, ReadHead, WireAll, AllSized, Here, Document, Value, InterpFields, FlatOf;
    var t := ItemOf(MapValue(fs));
    WriteRoundTrip(MapValue(fs), tail);
    assert [] + fs == fs;
    InterpFlatOf(fs, []);
    var c: Cursor := At(Wire(t) + tail, 1, false, false);
    hide EachValid, EachFits, DistinctKeys;
    DocumentOnWire(c, t, tail);
  }

  /** A field that no earlier one shares its key with. */
  predicate First(fs: seq<Field>, f: Field) {
    exists i :: 0 <= i < |fs| && fs[i] == f && forall j :: 0 <= j < i ==> fs[j].key != f.key
  }

  lemma {:induction false} FirstStep(fs: seq<Field>, f: Field)
    requires fs != []
    ensures First(fs, f) <==> f == fs[0] || (First(fs[1..], f) && f.key != fs[0].key)
  {
    if First(fs[1..], f) && f.key != fs[0].key {
      var i :| 0 <= i < |fs[1..]| && fs[1..][i] == f && forall j :: 0 <= j < i ==> fs[1..][j].key != f.key;
      forall j | 0 <= j < i + 1 ensures fs[j].key != f.key {
        if j > 0 { assert fs[1..][j - 1] == fs[j]; }
      }
      assert fs[i + 1] == f;
    }
    if First(fs, f) && f != fs[0] {
      var i :| 0 <= i < |fs| && fs[i] == f && forall j :: 0 <= j < i ==> fs[j].key != f.key;
      assert fs[1..][i - 1] == f;
    }
  }

  lemma {:induction false} FirstKept(fs: seq<Field>, acc: seq<Field>)
    requires EachValid(fs) && EachFits(fs) && DistinctKeys(acc)
    ensures InterpFields(FlatOf(fs), acc).Means? && DistinctKeys(InterpFields(FlatOf(fs), acc).value)
    ensures forall f :: f in InterpFields(FlatOf(fs), acc).value <==> f in acc || (First(fs, f) && !HasKey(acc, f.key))
    decreases fs, 1
  {
    if fs != [] {
      var ts, next := FlatOf(fs), Emplace(acc, fs[0].key, fs[0].value);
      assert ts[1..][1..] == ts[2..] == FlatOf(fs[1..]) && ts[0] == Text(fs[0].key) && ts[1] == ItemOf(fs[0].value);
      InterpItemOf(fs[0].value);
      NothingLeft(fs[0].value);
      hide Interp, ItemOf, Valid, Fits, Left, First;
      FirstKept(fs[1..], next);
      assert fs[0] == Field(fs[0].key, fs[0].value);
      forall f ensures f in next || (First(fs[1..], f) && !HasKey(next, f.key))
                  <==> f in acc || (First(fs, f) && !HasKey(acc, f.key)) {
        FirstStep(fs, f);
        NextHas(acc, fs[0], f);
      }
    }
  }

  lemma {:induction false} NextHas(acc: seq<Field>, g: Field, f: Field)
    ensures var next := Emplace(acc, g.key, g.value);
            && (HasKey(next, f.key) <==> HasKey(acc, f.key) || f.key == g.key)
            && (f in next <==> f in acc || (f == g && !HasKey(acc, g.key)))
  {
    var next := Emplace(acc, g.key, g.value);
    if HasKey(acc, f.key) {
      var i :| 0 <= i < |acc| && acc[i].key == f.key;
      assert next[i] == acc[i];
    }
    if !HasKey(acc, g.key) { assert next[|acc|] == g; }
  }

  /** A map with repeated keys, before any bytes: each key once, with the value of
      its first occurrence. */
  lemma {:induction false} FirstWins(fs: seq<Field>, tail: Octets)
    requires EachValid(fs) && EachFits(fs) && |fs| <= 2_147_483_647
    ensures Sized(Map(FlatOf(fs), false))
    ensures var doc := ParseDocument(Wire(Map(FlatOf(fs), false)) + tail);
            doc.Some? && DistinctKeys(doc.value) && forall f :: f in doc.value <==> First(fs, f)
  {
    hide Wire, ReadHead, WireAll, AllSized, Here, Document, InterpFields, FlatOf, EachValid, EachFits, First, DistinctKeys;
    var t := Map(FlatOf(fs), false);
    FlatOfSized(fs);
    assert Sized(t);
    assert DistinctKeys([]) by { NoKeys(); }
    FirstKept(fs, []);
    WireSplit(t, tail);
    var c: Cursor := At(Wire(t) + tail, 1, false, false);
    DocumentOnWire(c, t, tail);
    assert Past(c, tail) == Some(End(tail, false));
  }

  lemma {:induction false} NoKeys()
    ensures DistinctKeys([])
  {
  }
}
