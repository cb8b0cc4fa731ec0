/**
 Firestore's decoder: what it does to a cursor, what that means for the item the
 cursor stands at, and the source's own loops, which compute it.
 */
module FirestoreDecode {
  import opened Bytes
  import opened Cursor
  import opened FirestoreValue

  // ---- on a cursor ------------------------------------------------------------------

  /** ReadCborDouble: a float of any width, or an integer. Does not advance. */
  function ReadNumber(c: Cursor): (r: Option<Number>)
    ensures r.Some? ==> c.At?
  {
    if c.IsFloat() then Some(GetFloat(c)) else if c.IsInt() then Some(FromInt(GetInt(c))) else None
  }

  function Value(c: Cursor): (r: Out<FieldValue>)
    ensures r.Got? ==> |r.next.rest| < |c.rest|
    decreases |c.rest|, 1
  {
    if c.IsTag() then TaggedValue(c)
    else if c.IsSimple(22) then Then(NullValue, AdvanceFixed(c))
    else if c.IsBool() then Then(Boolean(c.IsSimple(21)), AdvanceFixed(c))
    else if c.IsInt() then Then(Integer(GetInt(c)), AdvanceFixed(c))
    else if c.IsFloat() then Then(DoubleValue(GetFloat(c)), AdvanceFixed(c))
    else if c.IsText() then
      match TakeString(c)
      case Got(s, d) => Got(StringValue(s), d)
      case _ => Refused
    else if c.IsBytes() then
      match TakeString(c)
      case Got(s, d) => Got(BlobValue(s), d)
      case _ => Refused
    else if c.IsArray() then
      match Elements(c)
      case Got(vs, d) => Got(ArrayValue(vs), d)
      case Refused => Refused
      case OutOfContract => OutOfContract
    else if c.IsMap() then
      match Document(c)
      case Got(fs, d) => Got(MapValue(fs), d)
      case Refused => Refused
      case OutOfContract => OutOfContract
    else Refused
  }

  /** The values of the container at the cursor, left behind it. */
  function Elements(c: Cursor): (r: Out<seq<FieldValue>>)
    requires c.IsContainer()
    ensures r.Got? ==> |r.next.rest| < |c.rest|
    decreases |c.rest|, 0
  {
    match Enter(c)
    case None => Refused
    case Some(inner) =>
      match Values(inner, [])
      case Got(vs, end) => Then(vs, Leave(c, end))
      case Refused => Refused
      case OutOfContract => OutOfContract
  }

  /** Decodes to the end of the container, in order, after `acc`. */
  function Values(c: Cursor, acc: seq<FieldValue>): (r: Out<seq<FieldValue>>)
    ensures r.Got? ==> r.next.End? && |r.next.rest| <= |c.rest|
    decreases |c.rest|, 2
  {
    if c.End? then Got(acc, c)
    else
      match Value(c)
      case Got(v, d) => Values(d, acc + [v])
      case Refused => Refused
      case OutOfContract => OutOfContract
  }

  /** DecodeMap, which asks for a container without asking for a map. */
  function Document(c: Cursor): (r: Out<seq<Field>>)
    ensures r.Got? ==> |r.next.rest| < |c.rest|
    decreases |c.rest|, 0
  {
    if !c.IsContainer() then OutOfContract
    else
      match Enter(c)
      case None => Refused
      case Some(inner) =>
        match Fields(inner, [])
        case Got(fs, end) => Then(fs, Leave(c, end))
        case Refused => Refused
        case OutOfContract => OutOfContract
  }

  function Fields(c: Cursor, acc: seq<Field>): (r: Out<seq<Field>>)
    ensures r.Got? ==> r.next.End? && |r.next.rest| <= |c.rest|
    decreases |c.rest|, 2
  {
    if c.End? then Got(acc, c)
    else if !c.IsText() then Refused
    else
      match TakeString(c)
      case Got(key, d) =>
        (match Value(d)
         case Got(v, e) => Fields(e, Emplace(acc, key, v))
         case Refused => Refused
         case OutOfContract => OutOfContract)
      case _ => Refused
  }

  /** DecodeTagged, dispatched on the tag at the cursor. */
  function TaggedValue(c: Cursor): (r: Out<FieldValue>)
    requires c.IsTag()
    ensures r.Got? ==> |r.next.rest| < |c.rest|
    decreases |c.rest|, 0
  {
    match AdvanceFixed(c)
    case None => Refused
    case Some(d) => Payload(c.Head().arg, d)
  }

  function Payload(tag: U64, d: Cursor): (r: Out<FieldValue>)
    requires d.At?
    ensures r.Got? ==> |r.next.rest| < |d.rest|
    decreases |d.rest|, 1
  {
    if tag == TAG_DELETE then Then(Delete, Advance(d))
    else if tag == TAG_SERVER_TIMESTAMP then Then(ServerTimestamp, Advance(d))
    else if tag == TAG_TIMESTAMP then TimestampAt(d)
    else if tag == TAG_GEOPOINT then GeoPointAt(d)
    else if tag == TAG_REFERENCE then ReferenceAt(d)
    else if tag == TAG_INCREMENT_INT || tag == TAG_INCREMENT_DOUBLE then IncrementAt(d, tag == TAG_INCREMENT_INT)
    else if tag == TAG_ARRAY_UNION || tag == TAG_ARRAY_REMOVE then
      if !d.IsArray() then Refused
      else
        match Elements(d)
        case Got(vs, e) => Got(if tag == TAG_ARRAY_UNION then ArrayUnion(vs) else ArrayRemove(vs), e)
        case Refused => Refused
        case OutOfContract => OutOfContract
    else Refused
  }

  function ReferenceAt(c: Cursor): (r: Out<FieldValue>)
    ensures r.Got? ==> |r.next.rest| < |c.rest|
  {
    if !c.IsText() then OutOfContract
    else
      match TakeString(c)
      case Got(path, e) => Got(Reference(path), e)
      case _ => Refused
  }

  /** Leaving a container before its end is outside the library's contract. */
  function Finish(v: FieldValue, c: Cursor, inner: Option<Cursor>): (r: Out<FieldValue>)
    requires c.IsContainer()
    requires inner.Some? ==> |inner.value.rest| < |c.rest|
    ensures r.Got? ==> |r.next.rest| < |c.rest|
  {
    match inner
    case None => Refused
    case Some(e) => if e.End? then Then(v, Leave(c, e)) else OutOfContract
  }

  function TimestampAt(c: Cursor): (r: Out<FieldValue>)
    ensures r.Got? ==> |r.next.rest| < |c.rest|
  {
    if !c.IsArray() then Refused
    else
      match Enter(c)
      case None => Refused
      case Some(p) =>
        if !p.IsInt() then OutOfContract
        else
          match Advance(p)
          case None => Refused
          case Some(q) =>
            if !q.IsInt() then OutOfContract
            else Finish(Timestamp(GetInt(p), ToI32(GetInt(q))), c, Advance(q))
  }

  function GeoPointAt(c: Cursor): (r: Out<FieldValue>)
    ensures r.Got? ==> |r.next.rest| < |c.rest|
  {
    if !c.IsArray() then Refused
    else
      match Enter(c)
      case None => Refused
      case Some(p) =>
        if ReadNumber(p).None? then Refused
        else
          match Advance(p)
          case None => Refused
          case Some(q) =>
            if ReadNumber(q).None? then Refused
            else Finish(GeoPoint(ReadNumber(p).value, ReadNumber(q).value), c, Advance(q))
  }

  function IncrementAt(c: Cursor, byInt: bool): (r: Out<FieldValue>)
    ensures r.Got? ==> |r.next.rest| < |c.rest|
  {
    if !c.IsArray() then Refused
    else
      match Enter(c)
      case None => Refused
      case Some(p) =>
        if byInt && !p.IsInt() then OutOfContract
        else if !byInt && ReadNumber(p).None? then Refused
        else Finish(if byInt then IncrementInt(GetInt(p)) else IncrementDouble(ReadNumber(p).value), c, Advance(p))
  }

  /** fdb::ParseDocumentCbor: one map, and nothing after it is looked at. */
  function ParseDocument(cbor: Octets): Option<seq<Field>> {
    match Start(cbor)
    case None => None
    case Some(it) =>
      if !it.IsMap() then None
      else
        match Document(it)
        case Got(fs, _) => Some(fs)
        case _ => None
  }

  // ---- the source's loops --------------------------------------------------------------

  method DecodeValue(it: Cursor) returns (r: Out<FieldValue>)
    ensures r == Value(it)
    decreases |it.rest|, 1
  {
    if it.IsTag() {
      r := DecodeTagged(it);
    } else if it.IsSimple(22) {
      r := Then(NullValue, AdvanceFixed(it));
    } else if it.IsBool() {
      r := Then(Boolean(it.IsSimple(21)), AdvanceFixed(it));
    } else if it.IsInt() {
      r := Then(Integer(GetInt(it)), AdvanceFixed(it));
    } else if it.IsFloat() {
      r := Then(DoubleValue(GetFloat(it)), AdvanceFixed(it));
    } else if it.IsString() {
      var s := TakeString(it);
      if s.Refused? { return Refused; }
      r := Got(if it.IsText() then StringValue(s.value) else BlobValue(s.value), s.next);
    } else if it.IsArray() {
      var items := DecodeElements(it);
      match items {
        case Got(vs, next) => r := Got(ArrayValue(vs), next);
        case Refused => r := Refused;
        case OutOfContract => r := OutOfContract;
      }
    } else if it.IsMap() {
      var m := DecodeMap(it);
      match m {
        case Got(fs, next) => r := Got(MapValue(fs), next);
        case Refused => r := Refused;
        case OutOfContract => r := OutOfContract;
      }
    } else {
      r := Refused;
    }
  }

  /** The loop arrays and array transforms share: push_back until the end. */
  method DecodeElements(it: Cursor) returns (r: Out<seq<FieldValue>>)
    requires it.IsContainer()
    ensures r == Elements(it)
    decreases |it.rest|, 0
  {
    var entered := Enter(it);
    if entered.None? { return Refused; }
    var elem: Cursor, items := entered.value, [];
    while !elem.End?
      invariant |elem.rest| <= |entered.value.rest| < |it.rest|
      invariant Values(entered.value, []) == Values(elem, items)
      decreases |elem.rest|
    {
      var v := DecodeValue(elem);
      if v.Refused? { return Refused; }
      if v.OutOfContract? { return OutOfContract; }
      items := items + [v.value];
      elem := v.next;
    }
    r := Then(items, Leave(it, elem));
  }

  method DecodeMap(it: Cursor) returns (r: Out<seq<Field>>)
    ensures r == Document(it)
    decreases |it.rest|, 0
  {
    if !it.IsContainer() { return OutOfContract; }
    var entered := Enter(it);
    if entered.None? { return Refused; }
    var entry: Cursor, m := entered.value, [];
    while !entry.End?
      invariant |entry.rest| <= |entered.value.rest| < |it.rest|
      invariant Fields(entered.value, []) == Fields(entry, m)
      decreases |entry.rest|
    {
      if !entry.IsText() { return Refused; }
      var key := TakeString(entry);
      if key.Refused? { return Refused; }
      var value := DecodeValue(key.next);
      if value.Refused? { return Refused; }
      if value.OutOfContract? { return OutOfContract; }
      m := Emplace(m, key.value, value.value);
      entry := value.next;
    }
    r := Then(m, Leave(it, entry));
  }

  method DecodeTagged(it: Cursor) returns (r: Out<FieldValue>)
    requires it.IsTag()
    ensures r == TaggedValue(it)
    decreases |it.rest|, 0
  {
    var tag, advanced := it.Head().arg, AdvanceFixed(it);
    if advanced.None? { return Refused; }
    var d := advanced.value;
    if tag == TAG_DELETE || tag == TAG_SERVER_TIMESTAMP {
      var next := Advance(d);
      if next.None? { return Refused; }
      r := Got(if tag == TAG_DELETE then Delete else ServerTimestamp, next.value);
    } else if tag == TAG_TIMESTAMP || tag == TAG_GEOPOINT {
      r := DecodePair(d, tag == TAG_TIMESTAMP);
    } else if tag == TAG_REFERENCE {
      if !d.IsText() { return OutOfContract; }
      var path := TakeString(d);
      if path.Refused? { return Refused; }
      r := Got(Reference(path.value), path.next);
    } else if tag == TAG_INCREMENT_INT || tag == TAG_INCREMENT_DOUBLE {
      r := DecodeIncrement(d, tag == TAG_INCREMENT_INT);
    } else if tag == TAG_ARRAY_UNION || tag == TAG_ARRAY_REMOVE {
      if !d.IsArray() { return Refused; }
      var items := DecodeElements(d);
      match items {
        case Got(vs, next) => r := Got(if tag == TAG_ARRAY_UNION then ArrayUnion(vs) else ArrayRemove(vs), next);
        case Refused => r := Refused;
        case OutOfContract => r := OutOfContract;
      }
    } else {
      r := Refused;
    }
  }

  /** The payload of a timestamp, whose library calls need integers, or of a
      geopoint, whose reads check for numbers. */
  method DecodePair(it: Cursor, timestamp: bool) returns (r: Out<FieldValue>)
    ensures r == if timestamp then TimestampAt(it) else GeoPointAt(it)
  {
    if !it.IsArray() { return Refused; }
    var entered := Enter(it);
    if entered.None? { return Refused; }
    var pair: Cursor := entered.value;
    var value: FieldValue;
    if timestamp {
      if !pair.IsInt() { return OutOfContract; }
      var seconds, second := GetInt(pair), Advance(pair);
      if second.None? { return Refused; }
      pair := second.value;
      if !pair.IsInt() { return OutOfContract; }
      value := Timestamp(seconds, ToI32(GetInt(pair)));
    } else {
      var latitude := ReadNumber(pair);
      if latitude.None? { return Refused; }
      var second := Advance(pair);
      if second.None? { return Refused; }
      pair := second.value;
      var longitude := ReadNumber(pair);
      if longitude.None? { return Refused; }
      value := GeoPoint(latitude.value, longitude.value);
    }
    var end := Advance(pair);
    if end.None? { return Refused; }
    if !end.value.End? { return OutOfContract; }
    r := Then(value, Leave(it, end.value));
  }

  method DecodeIncrement(it: Cursor, byInt: bool) returns (r: Out<FieldValue>)
    ensures r == IncrementAt(it, byInt)
  {
    if !it.IsArray() { return Refused; }
    var entered := Enter(it);
    if entered.None? { return Refused; }
    var elem: Cursor, value := entered.value, NullValue;
    if byInt {
      if !elem.IsInt() { return OutOfContract; }
      value := IncrementInt(GetInt(elem));
    } else {
      var amount := ReadNumber(elem);
      if amount.None? { return Refused; }
      value := IncrementDouble(amount.value);
    }
    var end := Advance(elem);
    if end.None? { return Refused; }
    if !end.value.End? { return OutOfContract; }
    r := Then(value, Leave(it, end.value));
  }
}
