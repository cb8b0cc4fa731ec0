/**
 What a CBOR item means to Firestore's decoder, read off the item alone, and the
 proof that the decoder does exactly that at any cursor.
 */
module FirestoreMeaning {
  import opened Bytes
  import opened Cbor
  import opened Cursor
  import opened Walk
  import opened FirestoreValue
  import opened FirestoreDecode

  /** Outside is where the decoder leaves the library's contract. */
  datatype Meaning<+T> = Means(value: T) | Refuses | Outside

  function NumberOf(t: Item): Option<Number> {
    match t
    case Double(d) => Some(Bits(d))
    case Single(s) => Some(FromSingle(s))
    case Half(h) => Some(FromHalf(h))
    case UInt(n) => Some(FromInt(ToI64(false, n)))
    case NInt(n) => Some(FromInt(ToI64(true, n)))
    case _ => None
  }

  function IntOf(t: Item): Option<I64> {
    match t
    case UInt(n) => Some(ToI64(false, n))
    case NInt(n) => Some(ToI64(true, n))
    case _ => None
  }

  // ---- what a sentinel leaves behind ---------------------------------------------------

  function Size(t: Item): (n: nat)
    ensures n > 0
  {
    match t
    case Array(ts, _) => 1 + SizeAll(ts)
    case Map(ts, _) => 1 + SizeAll(ts)
    case Tagged(_, x) => 1 + Size(x)
    case _ => 1
  }

  function SizeAll(ts: seq<Item>): (n: nat)
    ensures ts != [] ==> n >= Size(ts[0])
  {
    if ts == [] then 0 else Size(ts[0]) + SizeAll(ts[1..])
  }

  predicate IsSentinel(tag: U64) {
    tag == TAG_DELETE || tag == TAG_SERVER_TIMESTAMP
  }

  function Sentinel(tag: U64): FieldValue {
    if tag == TAG_DELETE then Delete else ServerTimestamp
  }

  /** A sentinel steps over its payload unread, and over a tag the step is the
      tag alone: what is tagged is left in the sentinel's own place. */
  function Left(t: Item): (y: Option<Item>)
    ensures y.Some? ==> Size(y.value) < Size(t)
    ensures y.Some? && Sized(t) ==> Sized(y.value)
  {
    if t.Tagged? && IsSentinel(t.tag) && t.content.Tagged? then
      assert Sized(t) ==> Sized(t.content);
      Some(t.content.content)
    else None
  }

  /** What is still to be read of a container behind the value of its first item. */
  function Rest(ts: seq<Item>): (r: seq<Item>)
    requires ts != []
    ensures SizeAll(r) < SizeAll(ts)
    ensures AllSized(ts) ==> AllSized(r)
    ensures Left(ts[0]).None? ==> r == ts[1..]
  {
    match Left(ts[0])
    case None => ts[1..]
    case Some(y) =>
      var r := [y] + ts[1..];
      assert r[1..] == ts[1..];
      r
  }

  // ---- meanings ------------------------------------------------------------------------

  datatype ListKind = ArrayKind | UnionKind | RemoveKind

  function Wrapped(m: Meaning<seq<FieldValue>>, kind: ListKind): Meaning<FieldValue> {
    match m
    case Means(vs) =>
      Means(if kind == ArrayKind then ArrayValue(vs) else if kind == UnionKind then ArrayUnion(vs) else ArrayRemove(vs))
    case Refuses => Refuses
    case Outside => Outside
  }

  function Mapped(m: Meaning<seq<Field>>): Meaning<FieldValue> {
    match m
    case Means(fs) => Means(MapValue(fs))
    case Refuses => Refuses
    case Outside => Outside
  }

  function Interp(t: Item): Meaning<FieldValue>
    decreases Size(t), 0
  {
    match t
    case UInt(n) => Means(Integer(ToI64(false, n)))
    case NInt(n) => Means(Integer(ToI64(true, n)))
    case Blob(s) => Means(BlobValue(s))
    case Text(s) => Means(StringValue(s))
    case Array(ts, _) =>
      if Countable(t) then Wrapped(InterpAll(ts), ArrayKind) else Refuses
    case Map(ts, _) =>
      if Countable(t) then Mapped(InterpFields(ts, [])) else Refuses
    case Tagged(n, x) => InterpTagged(n, x)
    case Simple(_) => Refuses
    case Bool(b) => Means(Boolean(b))
    case Null => Means(NullValue)
    case Undefined => Refuses
    case Half(h) => Means(DoubleValue(FromHalf(h)))
    case Single(s) => Means(DoubleValue(FromSingle(s)))
    case Double(d) => Means(DoubleValue(Bits(d)))
  }

  /** Left to right; the first item without a value decides. */
  function InterpAll(ts: seq<Item>): Meaning<seq<FieldValue>>
    decreases SizeAll(ts), 1
  {
    if ts == [] then Means([])
    else
      match Interp(ts[0])
      case Means(v) =>
        (match InterpAll(Rest(ts))
         case Means(vs) => Means([v] + vs)
         case Refuses => Refuses
         case Outside => Outside)
      case Refuses => Refuses
      case Outside => Outside
  }

  /** Keys and values alternating; keys are text, and the first of a key wins. */
  function InterpFields(ts: seq<Item>, acc: seq<Field>): Meaning<seq<Field>>
    decreases SizeAll(ts), 1
  {
    if ts == [] then Means(acc)
    else if !ts[0].Text? || |ts| == 1 then Refuses
    else
      var us := ts[1..];
      match Interp(us[0])
      case Means(v) => InterpFields(Rest(us), Emplace(acc, ts[0].bytes, v))
      case Refuses => Refuses
      case Outside => Outside
  }

  function InterpTagged(tag: U64, x: Item): Meaning<FieldValue>
    decreases Size(x), 2
  {
    if IsSentinel(tag) then
      if x.Tagged? || Skippable(x, MAX_RECURSIONS) then Means(Sentinel(tag)) else Refuses
    else if tag == TAG_REFERENCE then
      if x.Text? then Means(Reference(x.bytes)) else Outside
    else if !KnownTag(tag) || !x.Array? || !Countable(x) then Refuses
    else if tag == TAG_TIMESTAMP then
      if |x.items| == 2 && IntOf(x.items[0]).Some? && IntOf(x.items[1]).Some?
      then Means(Timestamp(IntOf(x.items[0]).value, ToI32(IntOf(x.items[1]).value)))
      else Outside
    else if tag == TAG_GEOPOINT then
      if |x.items| == 0 || NumberOf(x.items[0]).None? then Refuses
      else if |x.items| == 1 || NumberOf(x.items[1]).None? then Refuses
      else if |x.items| > 2 then Outside
      else Means(GeoPoint(NumberOf(x.items[0]).value, NumberOf(x.items[1]).value))
    else if tag == TAG_INCREMENT_INT then
      if |x.items| == 1 && IntOf(x.items[0]).Some? then Means(IncrementInt(IntOf(x.items[0]).value)) else Outside
    else if tag == TAG_INCREMENT_DOUBLE then
      if |x.items| == 0 || NumberOf(x.items[0]).None? then Refuses
      else if |x.items| > 1 then Outside
      else Means(IncrementDouble(NumberOf(x.items[0]).value))
    else Wrapped(InterpAll(x.items), if tag == TAG_ARRAY_UNION then UnionKind else RemoveKind)
  }

  // ---- the decoder does what the item means -----------------------------------------

  /** Where the cursor stands behind the value of an item. */
  function Behind(c: Cursor, t: Item, tail: Octets): Option<Cursor>
    requires c.At? && Sized(t)
  {
    match Left(t)
    case None => Past(c, tail)
    case Some(y) => Here(Wire(y) + tail, c.left, c.inMap, c.odd, true)
  }

  function Answer<T>(m: Meaning<T>, next: Option<Cursor>): Out<T> {
    match m
    case Means(v) => Then(v, next)
    case Refuses => Refused
    case Outside => OutOfContract
  }

  function Prefixed<T>(acc: seq<T>, m: Meaning<seq<T>>): Meaning<seq<T>> {
    match m
    case Means(vs) => Means(acc + vs)
    case Refuses => Refuses
    case Outside => Outside
  }

  lemma {:induction false} PrefixedNone<T>(m: Meaning<seq<T>>)
    ensures Prefixed([], m) == m
  {
    match m { case Means(vs) => assert [] + vs == vs; case _ => }
  }

  lemma {:induction false} AdvanceNumber(c: Cursor, t: Item, tail: Octets)
    requires c.At? && Sized(t) && c.rest == Wire(t) + tail
    requires NumberOf(t).Some?
    ensures Advance(c) == Past(c, tail)
  {
    hide Wire, ReadHead, WireAll, AllSized, StringAt, Enter, Past, Here, Width, Info, ToI64, SkipAll;
    AtItem(c, t, tail);
    ScalarStep(c, t, tail);
  }

  lemma {:induction false} IntAt(c: Cursor, t: Item, tail: Octets)
    requires c.At? && Sized(t) && c.rest == Wire(t) + tail
    ensures c.IsInt() <==> IntOf(t).Some?
    ensures c.IsInt() ==> GetInt(c) == IntOf(t).value && Advance(c) == Past(c, tail)
  {
    hide Wire, ReadHead, WireAll, Past, Width, Info, ToI64, Advance;
    AtItem(c, t, tail);
    if IntOf(t).Some? { AdvanceNumber(c, t, tail); }
  }

  lemma {:induction false} NumberAt(c: Cursor, t: Item, tail: Octets)
    requires c.At? && Sized(t) && c.rest == Wire(t) + tail
    ensures ReadNumber(c) == NumberOf(t)
    ensures ReadNumber(c).Some? ==> Advance(c) == Past(c, tail)
  {
    hide Wire, ReadHead, WireAll, AllSized, Past, ToI64, Advance;
    AtItem(c, t, tail);
    if NumberOf(t).Some? { AdvanceNumber(c, t, tail); }
  }

  lemma {:induction false} IntegerOnWire(c: Cursor, t: Item, tail: Octets)
    requires c.At? && Sized(t) && c.rest == Wire(t) + tail
    requires t.UInt? || t.NInt?
    ensures Value(c) == Answer(Interp(t), Past(c, tail))
  {
    hide Wire, ReadHead, WireAll, AllSized, StringAt, TakeString, Enter, Here, Past, Elements, Document, TaggedValue;
    hide InterpAll, InterpFields, InterpTagged, ToI64, Width, Info, GetFloat;
    AtItem(c, t, tail);
    ScalarStep(c, t, tail);
  }

  lemma {:induction false} FloatOnWire(c: Cursor, t: Item, tail: Octets)
    requires c.At? && Sized(t) && c.rest == Wire(t) + tail
    requires t.Half? || t.Single? || t.Double?
    ensures Value(c) == Answer(Interp(t), Past(c, tail))
  {
    hide Wire, ReadHead, WireAll, AllSized, StringAt, TakeString, Enter, Here, Past, Elements, Document, TaggedValue;
    hide InterpAll, InterpFields, InterpTagged;
    AtItem(c, t, tail);
    ScalarStep(c, t, tail);
  }

  lemma {:induction false} SimpleOnWire(c: Cursor, t: Item, tail: Octets)
    requires c.At? && Sized(t) && c.rest == Wire(t) + tail
    requires t.Simple? || t.Bool? || t.Null? || t.Undefined?
    ensures Value(c) == Answer(Interp(t), Past(c, tail))
  {
    hide Wire, ReadHead, WireAll, AllSized, StringAt, TakeString, Enter, Here, Past, Elements, Document, TaggedValue;
    hide InterpAll, InterpFields, InterpTagged;
    AtItem(c, t, tail);
    ScalarStep(c, t, tail);
  }

  lemma {:induction false} StringOnWire(c: Cursor, t: Item, tail: Octets)
    requires c.At? && Sized(t) && c.rest == Wire(t) + tail
    requires t.Text? || t.Blob?
    ensures Value(c) == Answer(Interp(t), Past(c, tail))
  {
    hide Wire, ReadHead, WireAll, StringAt, TakeString, Enter, Here, Past, InterpAll, InterpFields, InterpTagged;
    hide Elements, Document, TaggedValue;
    AtItem(c, t, tail);
    StringStep(c, t, tail);
  }

  /** The decoder gives an item its meaning and stops right behind it, or inside
      it at what a sentinel leaves behind. */
  lemma {:induction false} ValueOnWire(c: Cursor, t: Item, tail: Octets)
    requires c.At? && Sized(t) && c.rest == Wire(t) + tail
    ensures Value(c) == Answer(Interp(t), Behind(c, t, tail))
    decreases Size(t), 0
  {
    hide Wire, ReadHead, WireAll, StringAt, Enter, Here, Past, Elements, Document, TaggedValue, InterpAll;
    hide InterpFields, InterpTagged;
    match t {
      case Array(_, _) => ElementsOnWire(c, t, tail);
      case Map(_, _) => DocumentOnWire(c, t, tail);
      case Tagged(_, _) => TaggedOnWire(c, t, tail);
      case Blob(_) => StringOnWire(c, t, tail);
      case Text(_) => StringOnWire(c, t, tail);
      case UInt(_) => IntegerOnWire(c, t, tail);
      case NInt(_) => IntegerOnWire(c, t, tail);
      case Half(_) => FloatOnWire(c, t, tail);
      case Single(_) => FloatOnWire(c, t, tail);
      case Double(_) => FloatOnWire(c, t, tail);
      case _ => SimpleOnWire(c, t, tail);
    }
  }

  lemma {:induction false} ElementsOnWire(c: Cursor, t: Item, tail: Octets)
    requires c.At? && Sized(t) && t.Array? && c.rest == Wire(t) + tail
    ensures c.IsArray()
    ensures Elements(c) == Answer(if Countable(t) then InterpAll(t.items) else Refuses, Past(c, tail))
    decreases SizeAll(t.items), 2
  {
    hide Wire, ReadHead, WireAll, Enter, Here, Values, InterpAll, Past, Prefixed, Over, Leave, Countable;
    EnterStep(c, t, tail);
    if Countable(t) {
      ValuesOnWire(Enter(c).value, t.items, t.open, tail, []);
      LeaveStep(c, t, tail);
      PrefixedNone(InterpAll(t.items));
    }
  }

  /** The container goes on with what is left of it. */
  lemma {:induction false} BehindStep(c: Cursor, ts: seq<Item>, open: bool, tail: Octets)
    requires AllSized(ts) && ts != [] && Over(c, ts, open, tail)
    ensures c.rest == Wire(ts[0]) + Remaining(ts[1..], open, tail)
    ensures Behind(c, ts[0], Remaining(ts[1..], open, tail)).Some?
    ensures Over(Behind(c, ts[0], Remaining(ts[1..], open, tail)).value, Rest(ts), open, tail)
  {
    hide Wire, ReadHead, WireAll, Here, Past;
    OverStep(c, ts, open, tail);
    match Left(ts[0]) {
      case None =>
      case Some(y) =>
        var us := Rest(ts);
        assert us[1..] == ts[1..];
        RemainingStep(us, open, tail);
        HereAtItem(y, Remaining(ts[1..], open, tail), c.left, c.inMap, c.odd, true);
    }
  }

  lemma {:induction false} ValuesOnWire(c: Cursor, ts: seq<Item>, open: bool, tail: Octets, acc: seq<FieldValue>)
    requires AllSized(ts) && Over(c, ts, open, tail)
    ensures Values(c, acc) == Answer(Prefixed(acc, InterpAll(ts)), Some(End(Close(open) + tail, open)))
    decreases SizeAll(ts), 1
  {
    hide Wire, ReadHead, WireAll, Here, Value, Rest, Behind;
    if ts == [] {
      assert acc + [] == acc;
    } else {
      BehindStep(c, ts, open, tail);
      var rest := Remaining(ts[1..], open, tail);
      ValueOnWire(c, ts[0], rest);
      match Interp(ts[0]) {
        case Means(v) =>
          ValuesOnWire(Behind(c, ts[0], rest).value, Rest(ts), open, tail, acc + [v]);
          match InterpAll(Rest(ts)) { case Means(vs) => assert acc + [v] + vs == acc + ([v] + vs); case _ => }
        case _ =>
      }
    }
  }

  /** DecodeMap takes an array of alternating keys and values for a map, too. */
  lemma {:induction false} DocumentOnWire(c: Cursor, t: Item, tail: Octets)
    requires c.At? && Sized(t) && (t.Map? || t.Array?) && c.rest == Wire(t) + tail
    ensures c.IsContainer() && (c.IsMap() <==> t.Map?)
    ensures Document(c) == Answer(if Countable(t) then InterpFields(t.items, []) else Refuses, Past(c, tail))
    decreases SizeAll(t.items), 2
  {
    hide Wire, ReadHead, WireAll, Enter, Here, Fields, InterpFields, Past, Over, Leave, Countable;
    EnterStep(c, t, tail);
    if Countable(t) {
      FieldsOnWire(Enter(c).value, t.items, t.open, tail, []);
      LeaveStep(c, t, tail);
    }
  }

  lemma {:induction false} FieldsOnWire(c: Cursor, ts: seq<Item>, open: bool, tail: Octets, acc: seq<Field>)
    requires AllSized(ts) && Over(c, ts, open, tail)
    ensures Fields(c, acc) == Answer(InterpFields(ts, acc), Some(End(Close(open) + tail, open)))
    decreases SizeAll(ts), 1
  {
    hide Wire, ReadHead, WireAll, Here, TakeString, Past, Emplace, Rest, Interp, Behind, Value;
    if ts != [] {
      OverStep(c, ts, open, tail);
      KeyAt(c, ts[0], Remaining(ts[1..], open, tail));
      if ts[0].Text? && |ts| > 1 { PairOnWire(c, ts, open, tail, acc); }
      if |ts| == 1 { NoValueAtEnd(End(Close(open) + tail, open)); }
    }
  }

  lemma {:induction false} NoValueAtEnd(c: Cursor)
    requires c.End?
    ensures Value(c) == Refused
  {
  }

  lemma {:induction false} PairOnWire(c: Cursor, ts: seq<Item>, open: bool, tail: Octets, acc: seq<Field>)
    requires AllSized(ts) && |ts| > 1 && ts[0].Text? && Over(c, ts, open, tail)
    ensures Fields(c, acc) == Answer(InterpFields(ts, acc), Some(End(Close(open) + tail, open)))
    decreases SizeAll(ts), 0
  {
    hide Wire, ReadHead, WireAll, Here, Value, TakeString, Past, Emplace, Rest, Interp, Behind;
    OverStep(c, ts, open, tail);
    var rest := Remaining(ts[1..], open, tail);
    KeyAt(c, ts[0], rest);
    var d := Past(c, rest).value;
    var us := ts[1..];
    assert us != [] && us[0] == ts[1];
    BehindStep(d, us, open, tail);
    var rest2 := Remaining(us[1..], open, tail);
    ValueOnWire(d, ts[1], rest2);
    match Interp(ts[1]) {
      case Means(v) =>
        FieldsOnWire(Behind(d, ts[1], rest2).value, Rest(us), open, tail, Emplace(acc, ts[0].bytes, v));
      case _ =>
    }
  }

  lemma {:induction false} KeyAt(c: Cursor, t: Item, tail: Octets)
    requires c.At? && Sized(t) && c.rest == Wire(t) + tail
    ensures c.IsText() <==> t.Text?
    ensures t.Text? ==> TakeString(c) == Then(t.bytes, Past(c, tail))
  {
    hide Wire, ReadHead, WireAll, StringAt, TakeString, Past;
    AtItem(c, t, tail);
    if t.Text? { StringStep(c, t, tail); }
  }

  lemma {:induction false} ArrayAt(c: Cursor, t: Item, tail: Octets)
    requires c.At? && Sized(t) && c.rest == Wire(t) + tail
    ensures c.IsArray() <==> t.Array?
  {
    hide Wire, ReadHead, WireAll;
    AtItem(c, t, tail);
  }

  lemma {:induction false} TimestampOnWire(c: Cursor, x: Item, tail: Octets)
    requires c.At? && Sized(x) && c.rest == Wire(x) + tail
    ensures TimestampAt(c) == Answer(InterpTagged(TAG_TIMESTAMP, x), Past(c, tail))
  {
    hide Wire, ReadHead, WireAll, Here, Enter, Leave, Skip, Past, Interp, InterpAll, ReadNumber, NumberOf, IntOf, GetInt;
    ArrayAt(c, x, tail);
    if !x.Array? { return; }
    EnterStep(c, x, tail);
    var ts := x.items;
    if Countable(x) && ts != [] {
      var p := Enter(c).value;
      var rest := Remaining(ts[1..], x.open, tail);
      OverStep(p, ts, x.open, tail);
      IntAt(p, ts[0], rest);
      if IntOf(ts[0]).Some? && |ts| >= 2 {
        SecondStep(p, ts, x.open, tail);
        IntAt(Past(p, rest).value, ts[1], Remaining(ts[2..], x.open, tail));
        if |ts| == 2 {
          RemainingNone(x.open, tail);
          LeaveStep(c, x, tail);
        }
      }
    }
  }

  lemma {:induction false} GeoPointOnWire(c: Cursor, x: Item, tail: Octets)
    requires c.At? && Sized(x) && c.rest == Wire(x) + tail
    ensures GeoPointAt(c) == Answer(InterpTagged(TAG_GEOPOINT, x), Past(c, tail))
  {
    hide Wire, ReadHead, WireAll, Here, Enter, Leave, Skip, Past, Interp, InterpAll, ReadNumber, NumberOf, IntOf, GetInt;
    ArrayAt(c, x, tail);
    if !x.Array? { return; }
    EnterStep(c, x, tail);
    var ts := x.items;
    if Countable(x) && ts != [] {
      var p := Enter(c).value;
      var rest := Remaining(ts[1..], x.open, tail);
      OverStep(p, ts, x.open, tail);
      NumberAt(p, ts[0], rest);
      if NumberOf(ts[0]).Some? && |ts| >= 2 {
        SecondStep(p, ts, x.open, tail);
        NumberAt(Past(p, rest).value, ts[1], Remaining(ts[2..], x.open, tail));
        if |ts| == 2 {
          RemainingNone(x.open, tail);
          LeaveStep(c, x, tail);
        }
      }
    }
  }

  lemma {:induction false} IncrementOnWire(c: Cursor, x: Item, tail: Octets, tag: U64)
    requires c.At? && Sized(x) && c.rest == Wire(x) + tail
    requires tag == TAG_INCREMENT_INT || tag == TAG_INCREMENT_DOUBLE
    ensures IncrementAt(c, tag == TAG_INCREMENT_INT) == Answer(InterpTagged(tag, x), Past(c, tail))
  {
    hide Wire, ReadHead, WireAll, Here, Enter, Leave, Skip, Past, Interp, InterpAll, ReadNumber, NumberOf, IntOf, GetInt;
    ArrayAt(c, x, tail);
    if !x.Array? { return; }
    EnterStep(c, x, tail);
    var ts := x.items;
    if Countable(x) && ts != [] {
      var p := Enter(c).value;
      OverStep(p, ts, x.open, tail);
      NumberAt(p, ts[0], Remaining(ts[1..], x.open, tail));
      IntAt(p, ts[0], Remaining(ts[1..], x.open, tail));
      RemainingNone(x.open, tail);
      LeaveStep(c, x, tail);
    }
  }

  lemma {:induction false} TaggedOnWire(c: Cursor, t: Item, tail: Octets)
    requires c.At? && Sized(t) && t.Tagged? && c.rest == Wire(t) + tail
    ensures c.IsTag() && TaggedValue(c) == Answer(InterpTagged(t.tag, t.content), Behind(c, t, tail))
    decreases Size(t.content), 4
  {
    hide Wire, ReadHead, WireAll, Payload, InterpTagged, Here;
    TagStep(c, t, tail);
    var d := AdvanceFixed(c).value;
    assert Behind(d, t, tail) == Behind(c, t, tail);
    PayloadOnWire(d, t, tail);
  }

  lemma {:induction false} PayloadOnWire(d: Cursor, t: Item, tail: Octets)
    requires d.At? && Sized(t) && t.Tagged? && d.rest == Wire(t.content) + tail
    ensures Payload(t.tag, d) == Answer(InterpTagged(t.tag, t.content), Behind(d, t, tail))
    decreases Size(t.content), 2
  {
    hide Wire, ReadHead, WireAll, Here, Past, Skip, Enter, TimestampAt, GeoPointAt, IncrementAt, ReferenceAt, Elements;
    hide Interp, InterpAll, Countable, Skippable, StringAt;
    var tag, x := t.tag, t.content;
    if IsSentinel(tag) {
      SentinelOnWire(d, t, tail);
    } else if tag == TAG_REFERENCE {
      ReferenceOnWire(d, x, tail);
    } else if tag == TAG_TIMESTAMP {
      TimestampOnWire(d, x, tail);
    } else if tag == TAG_GEOPOINT {
      GeoPointOnWire(d, x, tail);
    } else if tag == TAG_INCREMENT_INT || tag == TAG_INCREMENT_DOUBLE {
      IncrementOnWire(d, x, tail, tag);
    } else if tag == TAG_ARRAY_UNION || tag == TAG_ARRAY_REMOVE {
      AtItem(d, x, tail);
      if x.Array? { ElementsOnWire(d, x, tail); }
    }
  }

  lemma {:induction false} SentinelOnWire(d: Cursor, t: Item, tail: Octets)
    requires d.At? && Sized(t) && t.Tagged? && IsSentinel(t.tag) && d.rest == Wire(t.content) + tail
    ensures Payload(t.tag, d) == Answer(InterpTagged(t.tag, t.content), Behind(d, t, tail))
  {
    hide Wire, ReadHead, WireAll, Here, Past, Skippable;
    var x := t.content;
    if x.Tagged? {
      TagStep(d, x, tail);
      HereAtItem(x.content, tail, d.left, d.inMap, d.odd, true);
    } else {
      SkipStep(d, x, tail, MAX_RECURSIONS);
    }
  }

  lemma {:induction false} ReferenceOnWire(c: Cursor, x: Item, tail: Octets)
    requires c.At? && Sized(x) && c.rest == Wire(x) + tail
    ensures ReferenceAt(c) == Answer(InterpTagged(TAG_REFERENCE, x), Past(c, tail))
  {
    hide Wire, ReadHead, WireAll, StringAt, TakeString, Past, Interp, InterpAll;
    KeyAt(c, x, tail);
  }
}
