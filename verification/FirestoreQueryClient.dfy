/** The client's own specs build exactly the query that was asked for. */
module FirestoreQueryClient {
  import opened Bytes
  import opened Cbor
  import opened Cursor
  import opened Walk
  import opened FirestoreValue
  import opened FirestoreMeaning
  import opened FirestoreRoundTrip
  import opened FirestoreQuery
  import opened FirestoreQueryMeaning

  datatype Filter = Filter(field: FieldRef, operator: Operator, value: FieldValue)

  datatype Order = Order(field: FieldRef, descending: bool)

  /** How the client spells an operator. */
  function Spelling(op: Operator): string {
    match op
    case Equal => "=="
    case NotEqual => "!="
    case Less => "<"
    case LessOrEqual => "<="
    case Greater => ">"
    case GreaterOrEqual => ">="
    case ArrayContains => "array-contains"
    case ArrayContainsAny => "array-contains-any"
    case In => "in"
    case NotIn => "not-in"
  }

  /** The document id has a name of its own. */
  function Spelled(f: FieldRef): Octets {
    match f case DocumentId => Ascii("__name__") case Named(name) => name
  }

  predicate LegalField(f: FieldRef) {
    f.Named? ==> f.name != Ascii("__name__")
  }

  function FilterValue(f: Filter): FieldValue {
    ArrayValue([StringValue(Spelled(f.field)), StringValue(Ascii(Spelling(f.operator))), f.value])
  }

  function OrderValue(o: Order): FieldValue {
    ArrayValue([StringValue(Spelled(o.field)), StringValue(Ascii(if o.descending then "desc" else "asc"))])
  }

  /** The arguments of the client's query calls. */
  datatype Request = Request(
    group: bool, filters: seq<Filter>, orders: seq<Order>, limit: Option<I64>, limitToLast: Option<I64>,
    startAt: Option<seq<FieldValue>>, startAfter: Option<seq<FieldValue>>,
    endAt: Option<seq<FieldValue>>, endBefore: Option<seq<FieldValue>>)

  function FilterValues(fs: seq<Filter>): (vs: seq<FieldValue>)
    ensures |vs| == |fs|
  {
    if fs == [] then [] else [FilterValue(fs[0])] + FilterValues(fs[1..])
  }

  function OrderValues(os: seq<Order>): (vs: seq<FieldValue>)
    ensures |vs| == |os|
  {
    if os == [] then [] else [OrderValue(os[0])] + OrderValues(os[1..])
  }

  predicate Short(fs: seq<Field>, n: nat) {
    forall i :: 0 <= i < |fs| ==> |fs[i].key| <= n
  }

  function IfInt(key: string, n: Option<I64>): (fs: seq<Field>)
    ensures |fs| <= 1 && Short(fs, |key|)
  {
    if n.None? then [] else [Field(Ascii(key), Integer(n.value))]
  }

  function IfList(key: string, vs: Option<seq<FieldValue>>): (fs: seq<Field>)
    ensures |fs| <= 1 && Short(fs, |key|)
  {
    if vs.None? then [] else [Field(Ascii(key), ArrayValue(vs.value))]
  }

  function IfAny(key: string, vs: seq<FieldValue>): (fs: seq<Field>)
    ensures |fs| <= 1 && Short(fs, |key|)
  {
    if vs == [] then [] else [Field(Ascii(key), ArrayValue(vs))]
  }

  function Cursors(r: Request): (fs: seq<Field>)
    ensures |fs| <= 4 && Short(fs, 15)
  {
    IfList("startAt", r.startAt) + (IfList("startAfter", r.startAfter)
    + (IfList("endAt", r.endAt) + IfList("endBefore", r.endBefore)))
  }

  function Limiting(r: Request): (fs: seq<Field>)
    ensures |fs| <= 6 && Short(fs, 15)
  {
    IfInt("limit", r.limit) + (IfInt("limitToLast", r.limitToLast) + Cursors(r))
  }

  /** The entries behind the collection group's. */
  function Tail(r: Request): (fs: seq<Field>)
    ensures |fs| <= 8 && Short(fs, 15)
  {
    var where_, order := IfAny("where", FilterValues(r.filters)), IfAny("orderBy", OrderValues(r.orders));
    where_ + (order + Limiting(r))
  }

  /** _querySpec: what is absent or empty has no entry. */
  function Spec(r: Request): (fs: seq<Field>)
    ensures |fs| <= 9 && Short(fs, 15)
  {
    (if r.group then [Field(Ascii("collectionGroup"), Boolean(true))] else []) + Tail(r)
  }

  // ---- and what they ask for

  /** The document id takes two operators, and a list operator takes a list. */
  predicate LegalFilter(f: Filter) {
    && LegalField(f.field)
    && (f.field.DocumentId? ==> f.operator.Equal? || f.operator.In?)
    && (f.operator.ArrayContainsAny? || f.operator.In? || f.operator.NotIn? ==> f.value.ArrayValue?)
  }

  function Wheres(fs: seq<Filter>): seq<Clause> {
    seq(|fs|, i requires 0 <= i < |fs| => Where(fs[i].field, fs[i].operator, fs[i].value))
  }

  function Orders(os: seq<Order>): seq<Clause> {
    seq(|os|, i requires 0 <= i < |os| => OrderBy(os[i].field, os[i].descending))
  }

  predicate LegalLimit(n: Option<I64>) {
    n.Some? ==> 1 <= n.value <= 2_147_483_647
  }

  predicate LegalBound(vs: Option<seq<FieldValue>>) {
    vs.Some? ==> vs.value != []
  }

  predicate Legal(r: Request) {
    && (forall i :: 0 <= i < |r.filters| ==> LegalFilter(r.filters[i]))
    && (forall i :: 0 <= i < |r.orders| ==> LegalField(r.orders[i].field))
    && LegalLimit(r.limit) && LegalLimit(r.limitToLast)
    && LegalBound(r.startAt) && LegalBound(r.startAfter) && LegalBound(r.endAt) && LegalBound(r.endBefore)
  }

  function Limits(n: Option<I64>, last: bool): seq<Clause>
    requires LegalLimit(n)
  {
    if n.None? then [] else [if last then LimitToLast(n.value) else Limit(n.value)]
  }

  function Bounds(kind: CursorKind, vs: Option<seq<FieldValue>>): seq<Clause> {
    if vs.None? then [] else [Bound(kind, vs.value)]
  }

  function AskedBounds(r: Request): seq<Clause> {
    Bounds(StartAt, r.startAt) + (Bounds(StartAfter, r.startAfter)
    + (Bounds(EndAt, r.endAt) + Bounds(EndBefore, r.endBefore)))
  }

  function Asked(r: Request): seq<Clause>
    requires Legal(r)
  {
    Wheres(r.filters) + (Orders(r.orders) + (Limits(r.limit, false) + (Limits(r.limitToLast, true) + AskedBounds(r))))
  }

  // ---- reading them back

  /** Entries that read as these clauses, and ask for no collection group. */
  predicate Reads(fs: seq<Field>, cs: seq<Clause>) {
    && SpecMeaning(FlatOf(fs)) == Reading(cs, Complete)
    && forall i :: 0 <= i < |fs| ==> fs[i].key != Ascii("collectionGroup")
  }

  /** An entry the parser can step over. */
  predicate Steppable(f: Field) {
    Valid(f.value) && Fits(f.value) && !ItemOf(f.value).Tagged? && Skippable(ItemOf(f.value), MAX_RECURSIONS)
  }

  predicate AllSteppable(fs: seq<Field>) {
    forall i :: 0 <= i < |fs| ==> Steppable(fs[i])
  }

  lemma {:induction false} OneMeaning(f: Field, cs: seq<Clause>)
    requires Steppable(f) && EntryMeaning(f.key, ItemOf(f.value)) == Reading(cs, Complete)
    ensures SpecMeaning(FlatOf([f])) == Reading(cs, Complete)
  {
    hide EntryMeaning, Skippable, Ascii, ItemOf;
    var ts := FlatOf([f]);
    assert [f][1..] == [];
    assert ts == [Text(f.key), ItemOf(f.value)] && ts[2..] == [];
    assert SpecMeaning(ts[2..]) == Reading([], Complete);
    assert Passed(ts[1]) == Complete;
    assert Chain(Reading([], Complete), Reading([], Complete)) == Reading([], Complete);
    assert cs + [] == cs;
  }

  lemma {:induction false} FlatConcat(a: seq<Field>, b: seq<Field>)
    ensures FlatOf(a + b) == FlatOf(a) + FlatOf(b)
  {
    if a == [] {
      assert a + b == b;
    } else {
      assert (a + b)[1..] == a[1..] + b;
      FlatConcat(a[1..], b);
    }
  }

  lemma {:induction false} SpecConcat(ts: seq<Item>, us: seq<Item>)
    requires |ts| % 2 == 0
    ensures SpecMeaning(ts + us) == Chain(SpecMeaning(ts), SpecMeaning(us))
  {
    hide EntryMeaning, Skippable;
    if ts == [] {
      assert ts + us == us;
      assert [] + SpecMeaning(us).clauses == SpecMeaning(us).clauses;
    } else {
      assert (ts + us)[2..] == ts[2..] + us;
      SpecConcat(ts[2..], us);
      if !ts[0].Text? { return; }
      var e, m, n := EntryMeaning(ts[0].bytes, ts[1]), SpecMeaning(ts[2..]), SpecMeaning(us);
      assert e.clauses + ([] + m.clauses) + n.clauses == e.clauses + ([] + (m.clauses + n.clauses));
    }
  }

  lemma {:induction false} ReadsConcat(a: seq<Field>, ca: seq<Clause>, b: seq<Field>, cb: seq<Clause>)
    requires Reads(a, ca) && Reads(b, cb)
    ensures Reads(a + b, ca + cb)
  {
    hide SpecMeaning, Ascii, FlatOf;
    FlatConcat(a, b);
    SpecConcat(FlatOf(a), FlatOf(b));
  }

  /** Without an entry for it the spec asks for no collection group. */
  lemma {:induction false} NoGroup(fs: seq<Field>)
    requires SpecMeaning(FlatOf(fs)).ending == Complete
    requires forall i :: 0 <= i < |fs| ==> fs[i].key != Ascii("collectionGroup")
    ensures GroupMeaning(FlatOf(fs)) == Means(false)
  {
    hide EntryMeaning, Skippable, Ascii, ItemOf;
    if fs != [] {
      var ts := FlatOf(fs);
      assert ts == [Text(fs[0].key), ItemOf(fs[0].value)] + FlatOf(fs[1..]);
      assert ts[0] == Text(fs[0].key) && ts[2..] == FlatOf(fs[1..]);
      assert Passed(ts[1]) == Complete;
      NoGroup(fs[1..]);
    }
  }

  // ---- the entries of a request

  /** The keys whose values are no lists of clauses. */
  function PlainKeys(): seq<Octets> {
    [Ascii("startAt"), Ascii("startAfter"), Ascii("endAt"), Ascii("endBefore"), Ascii("limit"), Ascii("limitToLast")]
  }

  /** The keys of a spec are told apart by their lengths and first letters. */
  lemma {:induction false} Names()
    ensures Ascii("where") != Ascii("orderBy") && KindOf(Ascii("where")).None? && KindOf(Ascii("orderBy")).None?
    ensures KindOf(Ascii("startAt")) == Some(StartAt) && KindOf(Ascii("startAfter")) == Some(StartAfter)
    ensures KindOf(Ascii("endAt")) == Some(EndAt) && KindOf(Ascii("endBefore")) == Some(EndBefore)
    ensures KindOf(Ascii("limit")).None? && KindOf(Ascii("limitToLast")).None?
    ensures Ascii("limit") != Ascii("limitToLast") && Ascii("asc") != Ascii("desc")
    ensures forall key :: key in PlainKeys() ==>
              key != Ascii("where") && key != Ascii("orderBy") && key != Ascii("collectionGroup")
    ensures Ascii("where") != Ascii("collectionGroup") && Ascii("orderBy") != Ascii("collectionGroup")
  {
    assert |Ascii("where")| == 5 && Ascii("where")[0] == 'w' as int;
    assert |Ascii("orderBy")| == 7 && Ascii("orderBy")[0] == 'o' as int;
    assert |Ascii("startAt")| == 7 && Ascii("startAt")[0] == 's' as int;
    assert |Ascii("startAfter")| == 10 && |Ascii("endBefore")| == 9 && |Ascii("limitToLast")| == 11;
    assert |Ascii("endAt")| == 5 && Ascii("endAt")[0] == 'e' as int;
    assert |Ascii("limit")| == 5 && Ascii("limit")[0] == 'l' as int;
    assert |Ascii("collectionGroup")| == 15 && |Ascii("asc")| == 3 && |Ascii("desc")| == 4;
  }

  /** The parser's table of operators is the client's. */
  lemma {:induction false} OperatorTable(op: Operator)
    ensures OperatorOf(Ascii(Spelling(op))) == Some(op)
  {
    assert |Ascii("==")| == 2 && Ascii("==")[0] == '=' as int && |Ascii("!=")| == 2 && Ascii("!=")[0] == '!' as int;
    assert |Ascii("<=")| == 2 && Ascii("<=")[0] == '<' as int && |Ascii(">=")| == 2 && Ascii(">=")[0] == '>' as int;
    assert |Ascii("<")| == 1 && Ascii("<")[0] == '<' as int && |Ascii(">")| == 1 && Ascii(">")[0] == '>' as int;
    assert |Ascii("in")| == 2 && Ascii("in")[0] == 'i' as int && |Ascii("not-in")| == 6;
    assert |Ascii("array-contains")| == 14 && |Ascii("array-contains-any")| == 18;
    hide Ascii;
  }

  /** And nothing else is an operator. */
  lemma {:induction false} OperatorsOnly(name: Octets)
    ensures OperatorOf(name).Some? ==> name == Ascii(Spelling(OperatorOf(name).value))
  {
    hide Ascii;
  }

  lemma {:induction false} FieldTable(f: FieldRef)
    requires LegalField(f)
    ensures FieldOf(Spelled(f)) == f
  {
    hide Ascii;
  }

  lemma {:induction false} FilterReads(f: Filter)
    requires LegalFilter(f) && Valid(f.value) && Fits(f.value)
    ensures var x := ItemOf(FilterValue(f)); x.Array? && WhereMeaning(x) == Means(Where(f.field, f.operator, f.value))
  {
    OperatorTable(f.operator);
    FieldTable(f.field);
    hide Interp, Fits, Valid, OperatorOf, FieldOf, Ascii, Spelled, Spelling;
    InterpItemOf(f.value);
    var a, b, v := StringValue(Spelled(f.field)), StringValue(Ascii(Spelling(f.operator))), f.value;
    assert [a, b, v][1..] == [b, v] && [b, v][1..] == [v] && [v][1..] == [];
    assert ItemsOf([v]) == [ItemOf(v)];
    assert ItemsOf([b, v]) == [ItemOf(b), ItemOf(v)];
    assert ItemsOf([a, b, v]) == [ItemOf(a), ItemOf(b), ItemOf(v)];
  }

  lemma {:induction false} OrderReads(o: Order)
    requires LegalField(o.field)
    ensures var x := ItemOf(OrderValue(o)); x.Array? && OrderMeaning(x) == Means(OrderBy(o.field, o.descending))
  {
    Names();
    FieldTable(o.field);
    hide Ascii, FieldOf, KindOf, Spelled;
    var a, b := StringValue(Spelled(o.field)), StringValue(Ascii(if o.descending then "desc" else "asc"));
    assert [a, b][1..] == [b] && [b][1..] == [];
    assert ItemsOf([b]) == [ItemOf(b)];
    assert ItemsOf([a, b]) == [ItemOf(a), ItemOf(b)];
  }

  lemma {:induction false} FiltersRead(fs: seq<Filter>)
    requires forall i :: 0 <= i < |fs| ==> LegalFilter(fs[i])
    requires AllValid(FilterValues(fs)) && AllFit(FilterValues(fs))
    requires AllSkippable(ItemsOf(FilterValues(fs)), MAX_RECURSIONS - 1)
    ensures ClausesMeaning(true, ItemsOf(FilterValues(fs))) == Reading(Wheres(fs), Complete)
  {
    hide Skippable, LegalFilter, WhereMeaning, ItemOf, FilterValue;
    if fs == [] {
      assert Wheres(fs) == [];
    } else {
      var v, ts := FilterValues(fs)[0], ItemsOf(FilterValues(fs));
      FilterParts(fs[0], v);
      FilterReads(fs[0]);
      SkippableMore(ts[0], MAX_RECURSIONS - 1);
      assert FilterValues(fs)[1..] == FilterValues(fs[1..]) && ts[1..] == ItemsOf(FilterValues(fs[1..]));
      FiltersRead(fs[1..]);
      var w := Wheres(fs)[0];
      assert Wheres(fs) == [w] + Wheres(fs[1..]);
      assert [w] + ([] + Wheres(fs[1..])) == [w] + Wheres(fs[1..]);
    }
  }

  lemma {:induction false} FilterParts(f: Filter, v: FieldValue)
    requires v == FilterValue(f) && Valid(v) && Fits(v)
    ensures Valid(f.value) && Fits(f.value)
  {
    var vs := v.items;
    assert vs[1..][1..][0] == f.value;
    assert AllValid(vs[1..]) && AllFit(vs[1..]);
    assert AllValid(vs[1..][1..]) && AllFit(vs[1..][1..]);
  }

  lemma {:induction false} OrdersRead(os: seq<Order>)
    requires forall i :: 0 <= i < |os| ==> LegalField(os[i].field)
    requires AllSkippable(ItemsOf(OrderValues(os)), MAX_RECURSIONS - 1)
    ensures ClausesMeaning(false, ItemsOf(OrderValues(os))) == Reading(Orders(os), Complete)
  {
    hide Skippable, OrderMeaning, ItemOf, OrderValue, LegalField;
    if os == [] {
      assert Orders(os) == [];
    } else {
      var ts := ItemsOf(OrderValues(os));
      OrderReads(os[0]);
      SkippableMore(ts[0], MAX_RECURSIONS - 1);
      assert OrderValues(os)[1..] == OrderValues(os[1..]) && ts[1..] == ItemsOf(OrderValues(os[1..]));
      OrdersRead(os[1..]);
      var w := OrderBy(os[0].field, os[0].descending);
      assert Orders(os) == [w] + Orders(os[1..]);
      assert [w] + ([] + Orders(os[1..])) == [w] + Orders(os[1..]);
    }
  }

  lemma {:induction false} ListEntry(key: Octets, vs: seq<FieldValue>)
    requires Steppable(Field(key, ArrayValue(vs)))
    ensures AllValid(vs) && AllFit(vs) && AllSkippable(ItemsOf(vs), MAX_RECURSIONS - 1)
    ensures ItemOf(ArrayValue(vs)) == Array(ItemsOf(vs), false) && Countable(ItemOf(ArrayValue(vs)))
  {
  }

  lemma {:induction false} WhereEntry(fs: seq<Filter>)
    requires (forall i :: 0 <= i < |fs| ==> LegalFilter(fs[i])) && AllSteppable(IfAny("where", FilterValues(fs)))
    ensures Reads(IfAny("where", FilterValues(fs)), Wheres(fs))
  {
    Names();
    hide Ascii, ClausesMeaning, Steppable, LegalFilter, KindOf;
    if fs == [] {
      assert Wheres(fs) == [];
    } else {
      var f := Field(Ascii("where"), ArrayValue(FilterValues(fs)));
      assert IfAny("where", FilterValues(fs))[0] == f;
      ListEntry(f.key, FilterValues(fs));
      FiltersRead(fs);
      OneMeaning(f, Wheres(fs));
    }
  }

  lemma {:induction false} OrderEntry(os: seq<Order>)
    requires (forall i :: 0 <= i < |os| ==> LegalField(os[i].field)) && AllSteppable(IfAny("orderBy", OrderValues(os)))
    ensures Reads(IfAny("orderBy", OrderValues(os)), Orders(os))
  {
    Names();
    hide Ascii, ClausesMeaning, Steppable, KindOf;
    if os == [] {
      assert Orders(os) == [];
    } else {
      var f := Field(Ascii("orderBy"), ArrayValue(OrderValues(os)));
      assert IfAny("orderBy", OrderValues(os))[0] == f;
      ListEntry(f.key, OrderValues(os));
      OrdersRead(os);
      OneMeaning(f, Orders(os));
    }
  }

  lemma {:induction false} LimitEntry(n: Option<I64>, last: bool)
    requires LegalLimit(n)
    ensures Reads(IfInt(if last then "limitToLast" else "limit", n), Limits(n, last))
  {
    Names();
    hide Ascii, KindOf;
    if n.Some? {
      var f := Field(Ascii(if last then "limitToLast" else "limit"), Integer(n.value));
      assert f.key == PlainKeys()[4] || f.key == PlainKeys()[5];
      assert f.key in PlainKeys();
      assert IntOf(ItemOf(f.value)) == Some(n.value);
      assert Steppable(f);
      OneMeaning(f, Limits(n, last));
    }
  }

  lemma {:induction false} BoundEntry(key: string, kind: CursorKind, vs: Option<seq<FieldValue>>)
    requires KindOf(Ascii(key)) == Some(kind) && LegalBound(vs) && AllSteppable(IfList(key, vs))
    requires Ascii(key) != Ascii("where") && Ascii(key) != Ascii("orderBy") && Ascii(key) != Ascii("collectionGroup")
    ensures Reads(IfList(key, vs), Bounds(kind, vs))
  {
    hide Ascii, KindOf, Steppable, InterpAll;
    if vs.Some? {
      var f := Field(Ascii(key), ArrayValue(vs.value));
      assert IfList(key, vs)[0] == f;
      ListEntry(f.key, vs.value);
      InterpItemsOf(vs.value);
      OneMeaning(f, Bounds(kind, vs));
    }
  }

  lemma {:induction false} SteppableParts(a: seq<Field>, b: seq<Field>)
    requires AllSteppable(a + b)
    ensures AllSteppable(a) && AllSteppable(b)
  {
    forall i | 0 <= i < |a| ensures Steppable(a[i]) { assert (a + b)[i] == a[i]; }
    forall i | 0 <= i < |b| ensures Steppable(b[i]) { assert (a + b)[|a| + i] == b[i]; }
  }

  lemma {:induction false} BoundsRead(r: Request)
    requires Legal(r) && AllSteppable(Cursors(r))
    ensures Reads(Cursors(r), AskedBounds(r))
  {
    Names();
    hide Ascii, KindOf, IfList, Bounds, Reads, AllSteppable, LegalFilter;
    var a, b := IfList("startAt", r.startAt), IfList("startAfter", r.startAfter);
    var c, d := IfList("endAt", r.endAt), IfList("endBefore", r.endBefore);
    SteppableParts(a, b + (c + d));
    SteppableParts(b, c + d);
    SteppableParts(c, d);
    var keys := PlainKeys();
    assert keys[0] in keys && keys[1] in keys && keys[2] in keys && keys[3] in keys;
    BoundEntry("startAt", StartAt, r.startAt);
    BoundEntry("startAfter", StartAfter, r.startAfter);
    BoundEntry("endAt", EndAt, r.endAt);
    BoundEntry("endBefore", EndBefore, r.endBefore);
    ReadsConcat(c, Bounds(EndAt, r.endAt), d, Bounds(EndBefore, r.endBefore));
    ReadsConcat(b, Bounds(StartAfter, r.startAfter), c + d, Bounds(EndAt, r.endAt) + Bounds(EndBefore, r.endBefore));
    ReadsConcat(a, Bounds(StartAt, r.startAt), b + (c + d),
                Bounds(StartAfter, r.startAfter) + (Bounds(EndAt, r.endAt) + Bounds(EndBefore, r.endBefore)));
  }

  lemma {:induction false} TailReads(r: Request)
    requires Legal(r) && AllSteppable(Tail(r))
    ensures Reads(Tail(r), Asked(r))
  {
    hide Ascii, KindOf, IfInt, IfAny, Cursors, AskedBounds, Limits, Wheres, Orders, Reads, AllSteppable, LegalFilter, Short;
    var w, o := IfAny("where", FilterValues(r.filters)), IfAny("orderBy", OrderValues(r.orders));
    var l, m := IfInt("limit", r.limit), IfInt("limitToLast", r.limitToLast);
    var b, cb := Cursors(r), AskedBounds(r);
    SteppableParts(w, o + (l + (m + b)));
    SteppableParts(o, l + (m + b));
    SteppableParts(l, m + b);
    SteppableParts(m, b);
    WhereEntry(r.filters);
    OrderEntry(r.orders);
    LimitEntry(r.limit, false);
    LimitEntry(r.limitToLast, true);
    BoundsRead(r);
    ReadsConcat(m, Limits(r.limitToLast, true), b, cb);
    ReadsConcat(l, Limits(r.limit, false), m + b, Limits(r.limitToLast, true) + cb);
    ReadsConcat(o, Orders(r.orders), l + (m + b), Limits(r.limit, false) + (Limits(r.limitToLast, true) + cb));
    ReadsConcat(w, Wheres(r.filters), o + (l + (m + b)),
                Orders(r.orders) + (Limits(r.limit, false) + (Limits(r.limitToLast, true) + cb)));
  }

  lemma {:induction false} SpecReads(r: Request)
    requires Legal(r) && AllSteppable(Spec(r))
    ensures SpecMeaning(FlatOf(Spec(r))) == Reading(Asked(r), Complete)
    ensures GroupMeaning(FlatOf(Spec(r))) == Means(r.group)
    ensures EachValid(Spec(r)) && |Spec(r)| <= 9
  {
    hide Legal, Asked, Tail, SpecMeaning, GroupMeaning, FlatOf, EachValid, AllSteppable, Ascii;
    var g: seq<Field> := if r.group then [Field(Ascii("collectionGroup"), Boolean(true))] else [];
    assert Spec(r) == g + Tail(r);
    SteppableParts(g, Tail(r));
    TailReads(r);
    NoGroup(Tail(r));
    SteppableValid(Spec(r));
    FlatConcat(g, Tail(r));
    if r.group {
      GroupFirst(FlatOf(Tail(r)), Asked(r));
    } else {
      assert FlatOf(g) + FlatOf(Tail(r)) == FlatOf(Tail(r));
    }
  }

  lemma {:induction false} GroupFirst(us: seq<Item>, cs: seq<Clause>)
    requires SpecMeaning(us) == Reading(cs, Complete)
    ensures var f := Field(Ascii("collectionGroup"), Boolean(true));
            && SpecMeaning(FlatOf([f]) + us) == Reading(cs, Complete)
            && GroupMeaning(FlatOf([f]) + us) == Means(true)
  {
    hide Ascii;
    GroupEntry();
    var ts := FlatOf([Field(Ascii("collectionGroup"), Boolean(true))]);
    SpecConcat(ts, us);
    assert [] + cs == cs;
    assert (ts + us)[0] == ts[0] && (ts + us)[1] == ts[1];
  }

  lemma {:induction false} GroupEntry()
    ensures var f := Field(Ascii("collectionGroup"), Boolean(true));
            FlatOf([f]) == [Text(f.key), Bool(true)] && SpecMeaning(FlatOf([f])) == Reading([], Complete)
  {
    var f := Field(Ascii("collectionGroup"), Boolean(true));
    assert [f][1..] == [];
    assert f.key != Ascii("where") && f.key != Ascii("orderBy") && KindOf(f.key).None? by {
      assert |Ascii("collectionGroup")| == 15 && |Ascii("where")| == 5 && |Ascii("orderBy")| == 7;
      assert |Ascii("startAt")| == 7 && |Ascii("startAfter")| == 10 && |Ascii("endAt")| == 5 && |Ascii("endBefore")| == 9;
    }
    hide Ascii, KindOf;
    assert Steppable(f);
    OneMeaning(f, []);
  }

  lemma {:induction false} SteppableValid(fs: seq<Field>)
    requires AllSteppable(fs) && Short(fs, 15)
    ensures EachValid(fs)
  {
    if fs != [] {
      assert Steppable(fs[0]);
      forall i | 0 <= i < |fs[1..]| ensures Steppable(fs[1..][i]) && |fs[1..][i].key| <= 15 {
        assert fs[1..][i] == fs[i + 1];
      }
      SteppableValid(fs[1..]);
    }
  }

  lemma {:induction false} SpecSeen(fs: seq<Field>)
    requires AllSteppable(fs)
    ensures Unwrapped(FlatOf(fs)) == FlatOf(fs)
  {
    hide Unwrapped, Skippable, Valid, Fits;
    forall i | 0 <= i < |fs| ensures !FlatOf(fs)[2 * i + 1].Tagged? {
      FlatItem(fs, i);
      assert Steppable(fs[i]);
    }
    SeenAsItIs(FlatOf(fs));
  }

  lemma {:induction false} FlatItem(fs: seq<Field>, i: nat)
    requires i < |fs|
    ensures FlatOf(fs)[2 * i + 1] == ItemOf(fs[i].value)
  {
    hide ItemOf;
    assert FlatOf(fs) == [Text(fs[0].key), ItemOf(fs[0].value)] + FlatOf(fs[1..]);
    if i > 0 {
      FlatItem(fs[1..], i - 1);
      assert FlatOf(fs)[2 * i + 1] == FlatOf(fs[1..])[2 * (i - 1) + 1];
    }
  }

  /** The bytes the client sends: none at all for a plain read. */
  function SpecBytes(r: Request): Octets
    requires Sized(Map(FlatOf(Spec(r)), false))
  {
    if Spec(r) == [] then [] else Wire(Map(FlatOf(Spec(r)), false))
  }

  /** What was asked for is what is built: every filter, ordering, limit and
      bound, once and in order, on the base that was asked for, unless the SDK
      throws on the way. Steppable excludes values too deep or too wide. */
  lemma {:induction false} ClientQuery(path: Octets, r: Request, sdk: Sdk)
    requires Legal(r) && AllSteppable(Spec(r))
    ensures Sized(Map(FlatOf(Spec(r)), false))
    ensures var base, b := BaseOf(path, r.group), Build(path, SpecBytes(r), sdk);
            && (b.Go? <==> forall k :: 0 <= k <= |Asked(r)| ==> sdk(Query(base, Asked(r)[..k])))
            && (if b.Go? then b.q == Query(base, Asked(r)) else b == Thrown)
  {
    hide Build, Wire, Legal, SpecMeaning, GroupMeaning, Asked, Spec, AllSteppable, AddAll, Unwrapped;
    SpecReads(r);
    SpecSeen(Spec(r));
    FlatOfSized(Spec(r));
    var t := Map(FlatOf(Spec(r)), false);
    var base, cs := BaseOf(path, r.group), Asked(r);
    var q := Query(base, []);
    AddAllExact(q, cs, sdk);
    forall k | 0 <= k <= |cs| ensures [] + cs[..k] == cs[..k] {}
    assert [] + cs == cs && cs[..0] == [];
    if Spec(r) == [] {
      PlainRead(path, r, sdk);
    } else {
      assert Wire(t) + [] == Wire(t);
      BuildOnWire(path, t, [], sdk);
    }
  }

  lemma {:induction false} PlainRead(path: Octets, r: Request, sdk: Sdk)
    requires Legal(r) && Spec(r) == []
    ensures !r.group && Asked(r) == []
    ensures Build(path, [], sdk) == var q := Query(Collection(path), []); if sdk(q) then Go(q) else Thrown
  {
    hide Ascii;
    assert Tail(r) == [];
    assert FilterValues(r.filters) == [] && OrderValues(r.orders) == [];
  }
}
