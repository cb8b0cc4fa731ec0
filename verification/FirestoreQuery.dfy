/**
 Firestore's query spec: what the native parser makes of its bytes, clause by
 clause, and the source's own loops, which compute it. The SDK's query builder
 may throw; `sdk` says which queries it lets through.
 */
module FirestoreQuery {
  import opened Bytes
  import opened Cursor
  import opened FirestoreValue
  import opened FirestoreDecode

  // ---- queries ------------------------------------------------------------------------

  datatype FieldRef = DocumentId | Named(name: Octets)

  datatype Operator =
    | Equal | NotEqual | Less | LessOrEqual | Greater | GreaterOrEqual
    | ArrayContains | ArrayContainsAny | In | NotIn

  datatype CursorKind = StartAt | StartAfter | EndAt | EndBefore

  datatype Clause =
    | Where(field: FieldRef, operator: Operator, value: FieldValue)
    | OrderBy(field: FieldRef, descending: bool)
    | Bound(kind: CursorKind, values: seq<FieldValue>)
    | Limit(n: I32)
    | LimitToLast(n: I32)

  datatype Base = Collection(path: Octets) | Group(path: Octets)

  /** A query is a value: a base and the calls made on it, in order. */
  datatype Query = Query(base: Base, clauses: seq<Clause>)

  function FieldOf(name: Octets): FieldRef {
    if name == Ascii("__name__") then DocumentId else Named(name)
  }

  function OperatorOf(op: Octets): Option<Operator> {
    if op == Ascii("==") then Some(Equal)
    else if op == Ascii("!=") then Some(NotEqual)
    else if op == Ascii("<") then Some(Less)
    else if op == Ascii("<=") then Some(LessOrEqual)
    else if op == Ascii(">") then Some(Greater)
    else if op == Ascii(">=") then Some(GreaterOrEqual)
    else if op == Ascii("array-contains") then Some(ArrayContains)
    else if op == Ascii("array-contains-any") then Some(ArrayContainsAny)
    else if op == Ascii("in") then Some(In)
    else if op == Ascii("not-in") then Some(NotIn)
    else None
  }

  /** The document id takes two operators; a list operator takes an array. */
  predicate LegalWhere(field: FieldRef, op: Operator, v: FieldValue) {
    && (field == DocumentId ==> op == Equal || op == In)
    && (op == ArrayContainsAny || op == In || op == NotIn ==> v.ArrayValue?)
  }

  function WhereOf(name: Octets, op: Octets, v: FieldValue): Option<Clause> {
    match OperatorOf(op)
    case None => None
    case Some(o) => if LegalWhere(FieldOf(name), o, v) then Some(Where(FieldOf(name), o, v)) else None
  }

  function KindOf(key: Octets): Option<CursorKind> {
    if key == Ascii("startAt") then Some(StartAt)
    else if key == Ascii("startAfter") then Some(StartAfter)
    else if key == Ascii("endAt") then Some(EndAt)
    else if key == Ascii("endBefore") then Some(EndBefore)
    else None
  }

  const INT32_MAX: int := 0x7FFF_FFFF

  // ---- on a cursor ------------------------------------------------------------------

  /** Malformed is the code -3; Thrown is -4; Breach leaves the library's
      contract. */
  datatype Built = Go(q: Query) | Malformed | Thrown | Breach

  type Sdk = Query -> bool

  function Add(q: Query, c: Clause, sdk: Sdk): Built {
    var r := Query(q.base, q.clauses + [c]);
    if sdk(r) then Go(r) else Thrown
  }

  function ReadText(c: Cursor): (r: Out<Octets>)
    ensures r.Got? ==> |r.next.rest| < |c.rest|
    ensures !r.OutOfContract?
  {
    if c.IsText() then TakeString(c) else Refused
  }

  /** One [field, op, value] triple; what comes after the value is not looked at. */
  function WhereClause(c: Cursor, q: Query, sdk: Sdk): Built
    requires c.IsContainer()
  {
    match Enter(c)
    case None => Malformed
    case Some(it) =>
      match ReadText(it)
      case Got(name, it1) =>
        (match ReadText(it1)
         case Got(op, it2) =>
           (match Value(it2)
            case Got(v, _) =>
              (match WhereOf(name, op, v)
               case None => Malformed
               case Some(clause) => Add(q, clause, sdk))
            case Refused => Malformed
            case OutOfContract => Breach)
         case _ => Malformed)
      case _ => Malformed
  }

  /** One [field, "asc"|"desc"] pair. */
  function OrderClause(c: Cursor, q: Query, sdk: Sdk): Built
    requires c.IsContainer()
  {
    match Enter(c)
    case None => Malformed
    case Some(it) =>
      match ReadText(it)
      case Got(name, it1) =>
        (match ReadText(it1)
         case Got(dir, _) =>
           if dir != Ascii("asc") && dir != Ascii("desc") then Malformed
           else Add(q, OrderBy(FieldOf(name), dir == Ascii("desc")), sdk)
         case _ => Malformed)
      case _ => Malformed
  }

  function Apply(where_: bool, c: Cursor, q: Query, sdk: Sdk): Built
    requires c.IsContainer()
  {
    if where_ then WhereClause(c, q, sdk) else OrderClause(c, q, sdk)
  }

  function ClauseArray(where_: bool, c: Cursor, q: Query, sdk: Sdk): Built {
    if !c.IsArray() then Malformed
    else
      match Enter(c)
      case None => Malformed
      case Some(elem) => Clauses(where_, elem, q, sdk)
  }

  function Clauses(where_: bool, elem: Cursor, q: Query, sdk: Sdk): Built
    decreases |elem.rest|
  {
    if elem.End? then Go(q)
    else if !elem.IsArray() then Malformed
    else
      match Apply(where_, elem, q, sdk)
      case Go(r) => (match Advance(elem) case None => Malformed case Some(d) => Clauses(where_, d, r, sdk))
      case b => b
  }

  function CursorValues(c: Cursor): Out<seq<FieldValue>> {
    if !c.IsArray() then Refused
    else
      match Enter(c)
      case None => Refused
      case Some(inner) => Values(inner, [])
  }

  /** What the main loop does with one entry's value. */
  function Entry(key: Octets, c: Cursor, q: Query, sdk: Sdk): Built {
    if key == Ascii("where") then ClauseArray(true, c, q, sdk)
    else if key == Ascii("orderBy") then ClauseArray(false, c, q, sdk)
    else if KindOf(key).Some? then
      match CursorValues(c)
      case Got(vs, _) => if vs == [] then Malformed else Add(q, Bound(KindOf(key).value, vs), sdk)
      case Refused => Malformed
      case OutOfContract => Breach
    else if key == Ascii("collectionGroup") then Go(q)
    else if key == Ascii("limit") || key == Ascii("limitToLast") then
      if c.IsInt() && 0 < GetInt(c) <= INT32_MAX
      then Add(q, if key == Ascii("limit") then Limit(GetInt(c)) else LimitToLast(GetInt(c)), sdk)
      else Malformed
    else Malformed
  }

  function Entries(entry: Cursor, q: Query, sdk: Sdk): Built
    decreases |entry.rest|
  {
    if entry.End? then Go(q)
    else
      match ReadText(entry)
      case Got(key, c) =>
        (match Entry(key, c, q, sdk)
         case Go(r) =>
           if c.End? then Breach
           else (match Advance(c) case None => Malformed case Some(d) => Entries(d, r, sdk))
         case b => b)
      case _ => Malformed
  }

  /** The entries of the map the bytes begin with. */
  function SpecEntries(spec: Octets): Option<Cursor> {
    match Start(spec)
    case None => None
    case Some(map_) => if map_.IsMap() then Enter(map_) else None
  }

  /** SpecWantsCollectionGroup; None where it leaves the library's contract. */
  function WantsGroup(spec: Octets): Option<bool> {
    match SpecEntries(spec) case None => Some(false) case Some(entry) => GroupIn(entry)
  }

  function GroupIn(entry: Cursor): Option<bool>
    decreases |entry.rest|
  {
    if entry.End? then Some(false)
    else
      match ReadText(entry)
      case Got(key, c) =>
        if key == Ascii("collectionGroup") then Some(c.IsBool() && c.IsSimple(21))
        else if c.End? then None
        else (match Advance(c) case None => Some(false) case Some(d) => GroupIn(d))
      case _ => Some(false)
  }

  function Build(path: Octets, spec: Octets, sdk: Sdk): Built {
    if WantsGroup(spec).None? then Breach
    else
      var q := Query(if WantsGroup(spec).value then Group(path) else Collection(path), []);
      if !sdk(q) then Thrown
      else if spec == [] then Go(q)
      else match SpecEntries(spec) case None => Malformed case Some(entry) => Entries(entry, q, sdk)
  }

  // ---- the source's loops --------------------------------------------------------------

  method ApplyClauseArray(where_: bool, array_: Cursor, query: Query, sdk: Sdk) returns (r: Built)
    ensures r == ClauseArray(where_, array_, query, sdk)
  {
    if !array_.IsArray() { return Malformed; }
    var entered := Enter(array_);
    if entered.None? { return Malformed; }
    var elem: Cursor, q := entered.value, query;
    while !elem.End?
      invariant Clauses(where_, entered.value, query, sdk) == Clauses(where_, elem, q, sdk)
      decreases |elem.rest|
    {
      if !elem.IsArray() { return Malformed; }
      var applied := Apply(where_, elem, q, sdk);
      if !applied.Go? { return applied; }
      q := applied.q;
      var d := Advance(elem);
      if d.None? { return Malformed; }
      elem := d.value;
    }
    r := Go(q);
  }

  method ReadCursorValues(array_: Cursor) returns (r: Out<seq<FieldValue>>)
    ensures r == CursorValues(array_)
  {
    if !array_.IsArray() { return Refused; }
    var entered := Enter(array_);
    if entered.None? { return Refused; }
    var elem: Cursor, out := entered.value, [];
    while !elem.End?
      invariant Values(entered.value, []) == Values(elem, out)
      decreases |elem.rest|
    {
      var v := DecodeValue(elem);
      if v.Refused? { return Refused; }
      if v.OutOfContract? { return OutOfContract; }
      out := out + [v.value];
      elem := v.next;
    }
    r := Got(out, elem);
  }

  method SpecWantsCollectionGroup(spec: Octets) returns (r: Option<bool>)
    ensures r == WantsGroup(spec)
  {
    var map_ := Start(spec);
    if map_.None? || !map_.value.IsMap() { return Some(false); }
    var entered := Enter(map_.value);
    if entered.None? { return Some(false); }
    var entry: Cursor := entered.value;
    while !entry.End?
      invariant GroupIn(entered.value) == GroupIn(entry)
      decreases |entry.rest|
    {
      var key := ReadText(entry);
      if !key.Got? { return Some(false); }
      if key.value == Ascii("collectionGroup") { return Some(key.next.IsBool() && key.next.IsSimple(21)); }
      if key.next.End? { return None; }
      var d := Advance(key.next);
      if d.None? { return Some(false); }
      entry := d.value;
    }
    r := Some(false);
  }

  method BuildQuery(path: Octets, spec: Octets, sdk: Sdk) returns (r: Built)
    ensures r == Build(path, spec, sdk)
  {
    var wants := SpecWantsCollectionGroup(spec);
    if wants.None? { return Breach; }
    var query := Query(if wants.value then Group(path) else Collection(path), []);
    if !sdk(query) { return Thrown; }
    if spec == [] { return Go(query); }
    var map_ := Start(spec);
    if map_.None? || !map_.value.IsMap() { return Malformed; }
    var entered := Enter(map_.value);
    if entered.None? { return Malformed; }
    ghost var q0 := query;
    var entry: Cursor := entered.value;
    while !entry.End?
      invariant Entries(entered.value, q0, sdk) == Entries(entry, query, sdk)
      decreases |entry.rest|
    {
      var key := ReadText(entry);
      if !key.Got? { return Malformed; }
      var applied := ApplyEntry(key.value, key.next, query, sdk);
      if !applied.Go? { return applied; }
      query := applied.q;
      if key.next.End? { return Breach; }
      var d := Advance(key.next);
      if d.None? { return Malformed; }
      entry := d.value;
    }
    r := Go(query);
  }

  method ApplyEntry(key: Octets, c: Cursor, query: Query, sdk: Sdk) returns (r: Built)
    ensures r == Entry(key, c, query, sdk)
  {
    if key == Ascii("where") {
      r := ApplyClauseArray(true, c, query, sdk);
    } else if key == Ascii("orderBy") {
      r := ApplyClauseArray(false, c, query, sdk);
    } else if KindOf(key).Some? {
      var values := ReadCursorValues(c);
      match values {
        case Got(vs, _) => r := if vs == [] then Malformed else Add(query, Bound(KindOf(key).value, vs), sdk);
        case Refused => r := Malformed;
        case OutOfContract => r := Breach;
      }
    } else {
      r := Entry(key, c, query, sdk);
    }
  }
}
