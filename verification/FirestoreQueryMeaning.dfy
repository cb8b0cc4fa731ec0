/**
 What a query spec means, read off its item: the clauses it asks for, in order,
 or that it is to be refused. The native parser builds exactly that query.
 */
module FirestoreQueryMeaning {
  import opened Bytes
  import opened Cbor
  import opened Cursor
  import opened Walk
  import opened FirestoreDecode
  import opened FirestoreMeaning
  import opened FirestoreQuery

  /** How reading ended: at the end of the spec, at something malformed, or where
      the library's contract is left. */
  datatype Ending = Complete | Bad | Breached

  datatype Reading = Reading(clauses: seq<Clause>, ending: Ending)

  function One(m: Meaning<Clause>): Reading {
    match m
    case Means(c) => Reading([c], Complete)
    case Refuses => Reading([], Bad)
    case Outside => Reading([], Breached)
  }

  function Chain(a: Reading, b: Reading): Reading {
    if a.ending == Complete then Reading(a.clauses + b.clauses, b.ending) else a
  }

  function WhereMeaning(x: Item): Meaning<Clause>
    requires x.Array?
  {
    var ts := x.items;
    if !Countable(x) || |ts| < 3 || !ts[0].Text? || !ts[1].Text? then Refuses
    else
      match Interp(ts[2])
      case Refuses => Refuses
      case Outside => Outside
      case Means(v) =>
        match WhereOf(ts[0].bytes, ts[1].bytes, v)
        case None => Refuses
        case Some(c) => Means(c)
  }

  function OrderMeaning(x: Item): Meaning<Clause>
    requires x.Array?
  {
    var ts := x.items;
    if !Countable(x) || |ts| < 2 || !ts[0].Text? || !ts[1].Text? then Refuses
    else if ts[1].bytes == Ascii("asc") then Means(OrderBy(FieldOf(ts[0].bytes), false))
    else if ts[1].bytes == Ascii("desc") then Means(OrderBy(FieldOf(ts[0].bytes), true))
    else Refuses
  }

  function ClauseMeaning(where_: bool, x: Item): Meaning<Clause>
    requires x.Array?
  {
    if where_ then WhereMeaning(x) else OrderMeaning(x)
  }

  /** An untagged value behind which the parser can go on: cbor_value_advance is
      bounded. */
  function Passed(x: Item): Ending {
    if Skippable(x, MAX_RECURSIONS) then Complete else Bad
  }

  function ClausesMeaning(where_: bool, ts: seq<Item>): Reading {
    if ts == [] then Reading([], Complete)
    else if !ts[0].Array? then Reading([], Bad)
    else
      Chain(One(ClauseMeaning(where_, ts[0])), Chain(Reading([], Passed(ts[0])), ClausesMeaning(where_, ts[1..])))
  }

  function EntryMeaning(key: Octets, x: Item): Reading {
    if key == Ascii("where") || key == Ascii("orderBy") then
      if x.Array? && Countable(x) then ClausesMeaning(key == Ascii("where"), x.items) else Reading([], Bad)
    else if KindOf(key).Some? then
      if !x.Array? || !Countable(x) then Reading([], Bad)
      else
        match InterpAll(x.items)
        case Means(vs) => if vs == [] then Reading([], Bad) else Reading([Bound(KindOf(key).value, vs)], Complete)
        case Refuses => Reading([], Bad)
        case Outside => Reading([], Breached)
    else if key == Ascii("collectionGroup") then Reading([], Complete)
    else if key == Ascii("limit") || key == Ascii("limitToLast") then
      if IntOf(x).Some? && 0 < IntOf(x).value <= INT32_MAX
      then Reading([if key == Ascii("limit") then Limit(IntOf(x).value) else LimitToLast(IntOf(x).value)], Complete)
      else Reading([], Bad)
    else Reading([], Bad)
  }

  /** Keys and values alternating. Stepping over a value that is not there leaves
      the library's contract; only collectionGroup gets that far. */
  function SpecMeaning(ts: seq<Item>): Reading {
    if ts == [] then Reading([], Complete)
    else if !ts[0].Text? then Reading([], Bad)
    else if |ts| == 1 then Reading([], if ts[0].bytes == Ascii("collectionGroup") then Breached else Bad)
    else Chain(EntryMeaning(ts[0].bytes, ts[1]), Chain(Reading([], Passed(ts[1])), SpecMeaning(ts[2..])))
  }

  /** The first collectionGroup entry decides, and only `true` asks for one. */
  function GroupMeaning(ts: seq<Item>): Meaning<bool> {
    if ts == [] || !ts[0].Text? then Means(false)
    else if ts[0].bytes == Ascii("collectionGroup") then Means(|ts| > 1 && ts[1] == Bool(true))
    else if |ts| == 1 then Outside
    else if !Skippable(ts[1], MAX_RECURSIONS) then Means(false)
    else GroupMeaning(ts[2..])
  }

  /** What the parser sees of a spec. Stepping over a tagged value passes the tag
      only: the tagged item then stands where the next key should, and all that
      follows trades places. No such value is legal but under collectionGroup,
      where any is, so the tag itself counts as a null. */
  function Unwrapped(ts: seq<Item>): seq<Item> {
    if ts == [] then [] else From(ts[0], ts[1..])
  }

  function From(key: Item, vs: seq<Item>): (r: seq<Item>)
    ensures r != [] && r[0] == key
    decreases vs
  {
    if vs == [] then [key]
    else if vs[0].Tagged? then [key, Item.Null] + From(vs[0].content, vs[1..])
    else [key, vs[0]] + Unwrapped(vs[1..])
  }

  /** A spec without tagged values is seen as it is. */
  lemma {:induction false} SeenAsItIs(ts: seq<Item>)
    requires |ts| % 2 == 0 && forall i :: 0 <= i < |ts| / 2 ==> !ts[2 * i + 1].Tagged?
    ensures Unwrapped(ts) == ts
    decreases |ts|
  {
    if ts != [] {
      var us := ts[2..];
      assert ts[1..][0] == ts[2 * 0 + 1] && ts[1..][1..] == us;
      forall i | 0 <= i < |us| / 2 ensures !us[2 * i + 1].Tagged? { assert us[2 * i + 1] == ts[2 * (i + 1) + 1]; }
      SeenAsItIs(us);
      assert ts == [ts[0], ts[1]] + us;
    }
  }

  // ---- putting clauses on a query -----------------------------------------------------

  /** The clauses one by one, until the SDK throws. */
  function AddAll(q: Query, cs: seq<Clause>, sdk: Sdk): (r: Built)
    ensures r.Go? || r == Thrown
    decreases cs
  {
    if cs == [] then Go(q)
    else match Add(q, cs[0], sdk) case Go(r) => AddAll(r, cs[1..], sdk) case _ => Thrown
  }

  /** What is built from what was read. */
  function Outcome(q: Query, m: Reading, sdk: Sdk): Built {
    match AddAll(q, m.clauses, sdk)
    case Go(r) =>
      (match m.ending
       case Complete => Go(r)
       case Bad => Malformed
       case Breached => Breach)
    case b => b
  }

  lemma {:induction false} AddAllConcat(q: Query, a: seq<Clause>, b: seq<Clause>, sdk: Sdk)
    ensures AddAll(q, a + b, sdk) == match AddAll(q, a, sdk) case Go(r) => AddAll(r, b, sdk) case x => x
    decreases a
  {
    if a == [] {
      assert a + b == b;
    } else {
      assert (a + b)[1..] == a[1..] + b;
      match Add(q, a[0], sdk) { case Go(r) => AddAllConcat(r, a[1..], b, sdk); case _ => }
    }
  }

  lemma {:induction false} AddAllOne(q: Query, c: Clause, sdk: Sdk)
    ensures AddAll(q, [c], sdk) == Add(q, c, sdk)
  {
    assert [c][1..] == [];
  }

  /** Going on from what was built so far. */
  lemma {:induction false} OutcomeChain(d: Built, q: Query, m: Reading, n: Reading, sdk: Sdk)
    requires var b := Outcome(q, m, sdk); d == if b.Go? then Outcome(b.q, n, sdk) else b
    ensures d == Outcome(q, Chain(m, n), sdk)
  {
    AddAllConcat(q, m.clauses, n.clauses, sdk);
  }

  /** AddAll only puts clauses at the end, and needs the SDK at every step. */
  lemma {:induction false} AddAllExact(q: Query, cs: seq<Clause>, sdk: Sdk)
    ensures AddAll(q, cs, sdk).Go? <==>
            forall k :: 1 <= k <= |cs| ==> sdk(Query(q.base, q.clauses + cs[..k]))
    ensures AddAll(q, cs, sdk).Go? ==> AddAll(q, cs, sdk).q == Query(q.base, q.clauses + cs)
    decreases cs
  {
    if cs == [] {
      assert q.clauses + cs == q.clauses;
    } else {
      var r := Query(q.base, q.clauses + [cs[0]]);
      AddAllExact(r, cs[1..], sdk);
      assert q.clauses + cs == r.clauses + cs[1..];
      assert cs[..1] == [cs[0]];
      if AddAll(q, cs, sdk).Go? {
        forall k | 1 <= k <= |cs| ensures sdk(Query(q.base, q.clauses + cs[..k])) {
          assert q.clauses + cs[..k] == r.clauses + cs[1..][..k - 1];
        }
      } else if sdk(r) {
        var k :| 1 <= k <= |cs[1..]| && !sdk(Query(r.base, r.clauses + cs[1..][..k]));
        assert q.clauses + cs[..k + 1] == r.clauses + cs[1..][..k];
      }
    }
  }

  // ---- the parser does what the spec means ----------------------------------------------

  lemma {:induction false} TextStep(c: Cursor, ts: seq<Item>, open: bool, tail: Octets)
    requires AllSized(ts) && Over(c, ts, open, tail)
    ensures ReadText(c).Got? <==> ts != [] && ts[0].Text?
    ensures ReadText(c).Got? ==> ReadText(c).value == ts[0].bytes && Over(ReadText(c).next, ts[1..], open, tail)
  {
    hide Wire, ReadHead, WireAll, Here, Past, TakeString;
    if ts != [] {
      OverStep(c, ts, open, tail);
      KeyAt(c, ts[0], Remaining(ts[1..], open, tail));
    }
  }

  lemma {:induction false} ValueStep(c: Cursor, ts: seq<Item>, open: bool, tail: Octets)
    requires AllSized(ts) && Over(c, ts, open, tail)
    ensures ts == [] ==> Value(c) == Refused
    ensures ts != [] ==> match Interp(ts[0])
                         case Means(v) => Value(c).Got? && Value(c).value == v
                         case Refuses => Value(c) == Refused
                         case Outside => Value(c) == OutOfContract
  {
    if ts != [] {
      hide Wire, ReadHead, WireAll, Here, Past, Value, Interp, Behind;
      BehindStep(c, ts, open, tail);
      ValueOnWire(c, ts[0], Remaining(ts[1..], open, tail));
    }
  }

  /** The two texts every clause begins with. */
  lemma {:induction false} TwoTexts(c: Cursor, x: Item, tail: Octets)
    requires c.At? && Sized(x) && x.Array? && c.rest == Wire(x) + tail
    ensures c.IsArray() && (Enter(c).Some? <==> Countable(x))
    ensures Countable(x) ==>
              var ts, r0 := x.items, ReadText(Enter(c).value);
              && (r0.Got? <==> |ts| > 0 && ts[0].Text?)
              && (r0.Got? ==> r0.value == ts[0].bytes && (ReadText(r0.next).Got? <==> |ts| > 1 && ts[1].Text?))
              && (r0.Got? && ReadText(r0.next).Got? ==>
                    ReadText(r0.next).value == ts[1].bytes && AllSized(ts[2..])
                    && Over(ReadText(r0.next).next, ts[2..], x.open, tail))
  {
    hide Wire, ReadHead, WireAll, Here, Past, ReadText, Enter;
    EnterStep(c, x, tail);
    var ts := x.items;
    if Countable(x) {
      var it := Enter(c).value;
      TextStep(it, ts, x.open, tail);
      if ReadText(it).Got? {
        TextStep(ReadText(it).next, ts[1..], x.open, tail);
        assert |ts| > 1 ==> ts[1..][0] == ts[1] && ts[1..][1..] == ts[2..];
      }
    }
  }

  lemma {:induction false} WhereOnWire(c: Cursor, x: Item, tail: Octets, q: Query, sdk: Sdk)
    requires c.At? && Sized(x) && x.Array? && c.rest == Wire(x) + tail && c.IsContainer()
    ensures WhereClause(c, q, sdk) == Outcome(q, One(WhereMeaning(x)), sdk)
  {
    hide Wire, ReadHead, WireAll, Here, Past, Value, Interp, ReadText, Enter, WhereOf, Over, AllSized;
    TwoTexts(c, x, tail);
    NoClauses(q, sdk);
    if Countable(x) && ReadText(Enter(c).value).Got? && ReadText(ReadText(Enter(c).value).next).Got? {
      ValueStep(ReadText(ReadText(Enter(c).value).next).next, x.items[2..], x.open, tail);
    }
    match WhereMeaning(x) { case Means(clause) => AddAllOne(q, clause, sdk); case _ => }
  }

  lemma {:induction false} OrderOnWire(c: Cursor, x: Item, tail: Octets, q: Query, sdk: Sdk)
    requires c.At? && Sized(x) && x.Array? && c.rest == Wire(x) + tail && c.IsContainer()
    ensures OrderClause(c, q, sdk) == Outcome(q, One(OrderMeaning(x)), sdk)
  {
    hide Wire, ReadHead, WireAll, Here, Past, ReadText, Enter, Over, AllSized, FieldOf;
    TwoTexts(c, x, tail);
    NoClauses(q, sdk);
    assert Ascii("asc") != Ascii("desc") by { assert |Ascii("asc")| == 3 && |Ascii("desc")| == 4; }
    match OrderMeaning(x) { case Means(clause) => AddAllOne(q, clause, sdk); case _ => }
  }

  lemma {:induction false} ClauseOnWire(where_: bool, c: Cursor, x: Item, tail: Octets, q: Query, sdk: Sdk)
    requires c.At? && Sized(x) && x.Array? && c.rest == Wire(x) + tail && c.IsContainer()
    ensures Apply(where_, c, q, sdk) == Outcome(q, One(ClauseMeaning(where_, x)), sdk)
  {
    hide Outcome, WhereMeaning, OrderMeaning, WhereClause, OrderClause;
    if where_ { WhereOnWire(c, x, tail, q, sdk); } else { OrderOnWire(c, x, tail, q, sdk); }
  }

  lemma {:induction false} PassedStep(c: Cursor, ts: seq<Item>, open: bool, tail: Octets)
    requires AllSized(ts) && ts != [] && !ts[0].Tagged? && Over(c, ts, open, tail)
    ensures Passed(ts[0]) == Complete ==> Advance(c).Some? && Over(Advance(c).value, ts[1..], open, tail)
    ensures Passed(ts[0]) == Bad ==> Advance(c).None?
  {
    hide Wire, ReadHead, WireAll, Here, Past, Skip;
    OverStep(c, ts, open, tail);
    SkipStep(c, ts[0], Remaining(ts[1..], open, tail), MAX_RECURSIONS);
  }

  /** Advancing from a tag leaves the cursor before the tagged item. */
  lemma {:induction false} UntagStep(c: Cursor, ts: seq<Item>, open: bool, tail: Octets)
    requires AllSized(ts) && ts != [] && ts[0].Tagged? && Over(c, ts, open, tail)
    ensures AllSized([ts[0].content] + ts[1..])
    ensures Advance(c).Some? && Over(Advance(c).value, [ts[0].content] + ts[1..], open, tail)
  {
    hide Wire, ReadHead, WireAll, Here, Past;
    OverStep(c, ts, open, tail);
    TagStep(c, ts[0], Remaining(ts[1..], open, tail));
    var us := [ts[0].content] + ts[1..];
    assert us[1..] == ts[1..];
    RemainingStep(us, open, tail);
  }

  lemma {:induction false} ClausesOnWire(where_: bool, c: Cursor, ts: seq<Item>, open: bool, tail: Octets, q: Query, sdk: Sdk)
    requires AllSized(ts) && Over(c, ts, open, tail)
    ensures Clauses(where_, c, q, sdk) == Outcome(q, ClausesMeaning(where_, ts), sdk)
    decreases ts
  {
    hide Wire, ReadHead, WireAll, Here, Past, Apply, ClauseMeaning, Skip, Advance, AddAll, Skippable;
    if ts == [] {
      assert AddAll(q, [], sdk) == Go(q) by { AddAllExact(q, [], sdk); assert q.clauses + [] == q.clauses; }
    } else {
      OverStep(c, ts, open, tail);
      ArrayAt(c, ts[0], Remaining(ts[1..], open, tail));
      if ts[0].Array? {
        ClauseOnWire(where_, c, ts[0], Remaining(ts[1..], open, tail), q, sdk);
        PassedStep(c, ts, open, tail);
        var b := Apply(where_, c, q, sdk);
        var rest := Chain(Reading([], Passed(ts[0])), ClausesMeaning(where_, ts[1..]));
        if b.Go? && Passed(ts[0]) == Complete {
          ClausesOnWire(where_, Advance(c).value, ts[1..], open, tail, b.q, sdk);
          assert [] + ClausesMeaning(where_, ts[1..]).clauses == ClausesMeaning(where_, ts[1..]).clauses;
        }
        if b.Go? { NoClauses(b.q, sdk); }
        OutcomeChain(Clauses(where_, c, q, sdk), q, One(ClauseMeaning(where_, ts[0])), rest, sdk);
      } else {
        NoClauses(q, sdk);
      }
    }
  }

  lemma {:induction false} NoClauses(q: Query, sdk: Sdk)
    ensures AddAll(q, [], sdk) == Go(q)
  {
  }

  lemma {:induction false} ArrayOnWire(where_: bool, c: Cursor, x: Item, tail: Octets, q: Query, sdk: Sdk)
    requires c.At? && Sized(x) && c.rest == Wire(x) + tail
    ensures ClauseArray(where_, c, q, sdk)
         == Outcome(q, if x.Array? && Countable(x) then ClausesMeaning(where_, x.items) else Reading([], Bad), sdk)
  {
    hide Wire, ReadHead, WireAll, Here, Past, Enter, Clauses;
    ArrayAt(c, x, tail);
    if x.Array? {
      EnterStep(c, x, tail);
      if Countable(x) { ClausesOnWire(where_, Enter(c).value, x.items, x.open, tail, q, sdk); }
    }
    NoClauses(q, sdk);
  }

  lemma {:induction false} BoundOnWire(c: Cursor, x: Item, tail: Octets)
    requires c.At? && Sized(x) && c.rest == Wire(x) + tail
    ensures !x.Array? || !Countable(x) ==> CursorValues(c) == Refused
    ensures x.Array? && Countable(x) ==> match InterpAll(x.items)
                                         case Means(vs) => CursorValues(c).Got? && CursorValues(c).value == vs
                                         case Refuses => CursorValues(c) == Refused
                                         case Outside => CursorValues(c) == OutOfContract
  {
    hide Wire, ReadHead, WireAll, Here, Past, Enter, Values, InterpAll;
    ArrayAt(c, x, tail);
    if x.Array? {
      EnterStep(c, x, tail);
      if Countable(x) {
        ValuesOnWire(Enter(c).value, x.items, x.open, tail, []);
        match InterpAll(x.items) { case Means(vs) => assert [] + vs == vs; case _ => }
      }
    }
  }

  lemma {:induction false} EntryOnWire(key: Octets, c: Cursor, x: Item, tail: Octets, q: Query, sdk: Sdk)
    requires c.At? && Sized(x) && c.rest == Wire(x) + tail
    ensures Entry(key, c, q, sdk) == Outcome(q, EntryMeaning(key, x), sdk)
  {
    hide Wire, ReadHead, WireAll, Here, Past, Enter, ClauseArray, ClausesMeaning, CursorValues, InterpAll;
    hide Ascii, GetInt, IntOf, KindOf;
    NoClauses(q, sdk);
    if key == Ascii("where") {
      ArrayOnWire(true, c, x, tail, q, sdk);
    } else if key == Ascii("orderBy") {
      ArrayOnWire(false, c, x, tail, q, sdk);
    } else if KindOf(key).Some? {
      BoundOnWire(c, x, tail);
      if x.Array? && Countable(x) {
        match InterpAll(x.items) { case Means(vs) => AddAllOne(q, Bound(KindOf(key).value, vs), sdk); case _ => }
      }
    } else if key != Ascii("collectionGroup") {
      IntAt(c, x, tail);
      match EntryMeaning(key, x) { case Reading(cs, _) => if cs != [] { AddAllOne(q, cs[0], sdk); } }
    }
  }

  /** At the end of the map there is no value to read, and none to step over. */
  lemma {:induction false} EntryAtEnd(key: Octets, c: Cursor, q: Query, sdk: Sdk)
    requires c.End?
    ensures Entry(key, c, q, sdk) == if key == Ascii("collectionGroup") then Go(q) else Malformed
  {
    assert Ascii("collectionGroup") != Ascii("where") && Ascii("collectionGroup") != Ascii("orderBy") by {
      assert |Ascii("collectionGroup")| == 15 && |Ascii("where")| == 5 && |Ascii("orderBy")| == 7;
    }
    assert KindOf(Ascii("collectionGroup")).None? by {
      assert |Ascii("collectionGroup")| == 15 && |Ascii("startAt")| == 7 && |Ascii("startAfter")| == 10;
      assert |Ascii("endAt")| == 5 && |Ascii("endBefore")| == 9;
    }
    hide Ascii, KindOf;
  }

  lemma {:induction false} TagMeaning(key: Octets, x: Item)
    requires x.Tagged?
    ensures EntryMeaning(key, x) == EntryMeaning(key, Item.Null)
  {
    hide Ascii, KindOf;
  }

  lemma {:induction false} EntriesOnWire(c: Cursor, ts: seq<Item>, open: bool, tail: Octets, q: Query, sdk: Sdk)
    requires AllSized(ts) && Over(c, ts, open, tail)
    ensures Entries(c, q, sdk) == Outcome(q, SpecMeaning(Unwrapped(ts)), sdk)
    decreases |ts|, 1
  {
    hide Wire, ReadHead, WireAll, Here, Past, Entry, EntryMeaning, Skip, Advance, Passed, ReadText;
    NoClauses(q, sdk);
    if ts != [] {
      TextStep(c, ts, open, tail);
      if ts[0].Text? {
        var d := ReadText(c).next;
        if |ts| == 1 {
          EntryAtEnd(ts[0].bytes, d, q, sdk);
        } else {
          EntryThenRest(c, ts, open, tail, q, sdk);
        }
      }
    }
  }

  lemma {:induction false} EntryThenRest(c: Cursor, ts: seq<Item>, open: bool, tail: Octets, q: Query, sdk: Sdk)
    requires AllSized(ts) && |ts| > 1 && ts[0].Text? && Over(c, ts, open, tail)
    ensures Entries(c, q, sdk) == Outcome(q, SpecMeaning(Unwrapped(ts)), sdk)
    decreases |ts|, 0
  {
    hide Wire, ReadHead, WireAll, Here, Past, Entry, EntryMeaning, Skip, Advance, AddAll, ReadText;
    hide Skippable, Over, AllSized;
    OverAt(c, ts, open, tail);
    TextStep(c, ts, open, tail);
    var key, x, vs, d := ts[0].bytes, ts[1], ts[1..], ReadText(c).next;
    assert vs[0] == x && vs[1..] == ts[2..] && AllSized(vs) by { SizedAt(ts, 1); }
    SizedAt(vs, 0);
    OverAt(d, vs, open, tail);
    EntryOnWire(key, d, x, Remaining(vs[1..], open, tail), q, sdk);
    var b := Entry(key, d, q, sdk);
    if b.Go? { NoClauses(b.q, sdk); }
    if x.Tagged? {
      TagMeaning(key, x);
      UntagStep(d, vs, open, tail);
      var us := [x.content] + vs[1..];
      var m := SpecMeaning(From(x.content, vs[1..]));
      assert us[0] == x.content && us[1..] == vs[1..];
      if b.Go? { EntriesOnWire(Advance(d).value, us, open, tail, b.q, sdk); }
      var seen := [ts[0], Item.Null] + From(x.content, vs[1..]);
      assert seen[2..] == From(x.content, vs[1..]);
      assert Unwrapped(ts) == seen;
      assert [] + m.clauses == m.clauses;
      assert Passed(Item.Null) == Complete by { assert Skippable(Item.Null, MAX_RECURSIONS) by { NullSkips(); } }
      OutcomeChain(Entries(c, q, sdk), q, EntryMeaning(key, Item.Null), m, sdk);
    } else {
      PassedStep(d, vs, open, tail);
      var m := SpecMeaning(Unwrapped(vs[1..]));
      if b.Go? && Passed(x) == Complete {
        EntriesOnWire(Advance(d).value, vs[1..], open, tail, b.q, sdk);
        assert [] + m.clauses == m.clauses;
      }
      var seen := [ts[0], x] + Unwrapped(vs[1..]);
      assert seen[2..] == Unwrapped(vs[1..]);
      assert Unwrapped(ts) == seen;
      OutcomeChain(Entries(c, q, sdk), q, EntryMeaning(key, x), Chain(Reading([], Passed(x)), m), sdk);
    }
  }

  lemma {:induction false} NullSkips()
    ensures Skippable(Item.Null, MAX_RECURSIONS)
  {
  }

  lemma {:induction false} OverAt(c: Cursor, ts: seq<Item>, open: bool, tail: Octets)
    requires AllSized(ts) && ts != [] && Over(c, ts, open, tail)
    ensures c.At? && Sized(ts[0]) && AllSized(ts[1..])
    ensures c.rest == Wire(ts[0]) + Remaining(ts[1..], open, tail)
  {
    hide Wire, ReadHead, WireAll, Here, Past;
    OverStep(c, ts, open, tail);
  }

  lemma {:induction false} GroupOnWire(c: Cursor, ts: seq<Item>, open: bool, tail: Octets)
    requires AllSized(ts) && Over(c, ts, open, tail)
    ensures GroupIn(c) == match GroupMeaning(Unwrapped(ts)) case Means(g) => Some(g) case _ => None
    decreases |ts|
  {
    hide Wire, ReadHead, WireAll, Here, Past, Skip, Advance, ReadText, Ascii, BigEndian, Skippable, Remaining;
    if ts == [] { return; }
    TextStep(c, ts, open, tail);
    if !ts[0].Text? || |ts| == 1 { return; }
    var x, vs, d := ts[1], ts[1..], ReadText(c).next;
    assert vs[0] == x && vs[1..] == ts[2..];
    OverAt(d, vs, open, tail);
    var seen := Unwrapped(ts);
    if x.Tagged? {
      assert seen == [ts[0], Item.Null] + From(x.content, vs[1..]);
      assert seen[1] == Item.Null && seen[2..] == From(x.content, vs[1..]);
    } else {
      assert seen == [ts[0], x] + Unwrapped(vs[1..]);
      assert seen[1] == x && seen[2..] == Unwrapped(vs[1..]);
    }
    if ts[0].bytes == Ascii("collectionGroup") {
      BoolAt(d, x, Remaining(vs[1..], open, tail));
    } else if x.Tagged? {
      UntagStep(d, vs, open, tail);
      NullSkips();
      var us := [x.content] + vs[1..];
      assert us[0] == x.content && us[1..] == vs[1..];
      GroupOnWire(Advance(d).value, us, open, tail);
    } else {
      PassedStep(d, vs, open, tail);
      if Passed(x) == Complete { GroupOnWire(Advance(d).value, vs[1..], open, tail); }
    }
  }

  lemma {:induction false} BoolAt(c: Cursor, x: Item, tail: Octets)
    requires c.At? && Sized(x) && c.rest == Wire(x) + tail
    ensures c.IsBool() && c.IsSimple(21) <==> x == Bool(true)
  {
    hide Wire, ReadHead, WireAll;
    AtItem(c, x, tail);
  }

  /** The base the pre-pass chooses for a spec. */
  function BaseOf(path: Octets, group: bool): Base {
    if group then Group(path) else Collection(path)
  }

  /** The entries of a map are found exactly when its count can be held. */
  lemma {:induction false} SpecOnWire(t: Item, tail: Octets)
    requires Sized(t)
    ensures Wire(t) + tail != []
    ensures SpecEntries(Wire(t) + tail).Some? <==> t.Map? && Countable(t)
    ensures SpecEntries(Wire(t) + tail).Some? ==> Over(SpecEntries(Wire(t) + tail).value, t.items, t.open, tail)
  {
    hide Wire, ReadHead, WireAll, Here, Past, Enter;
    var s := Wire(t) + tail;
    WireSplit(t, tail);
    var c: Cursor := At(s, 1, false, false);
    assert Start(s) == Some(c);
    if t.Map? { EnterStep(c, t, tail); } else { AtItem(c, t, tail); }
  }

  /** On the bytes of any map, the query built is the base the first
      collectionGroup entry asks for with the clauses of the spec, in order;
      nothing is built when the spec is malformed, the SDK throws, or the
      library's contract is left. */
  lemma {:induction false} BuildOnWire(path: Octets, t: Item, tail: Octets, sdk: Sdk)
    requires Sized(t) && t.Map? && Countable(t)
    ensures Build(path, Wire(t) + tail, sdk)
         == match GroupMeaning(Unwrapped(t.items))
            case Means(g) =>
              (var q := Query(BaseOf(path, g), []);
               if sdk(q) then Outcome(q, SpecMeaning(Unwrapped(t.items)), sdk) else Thrown)
            case _ => Breach
  {
    hide Wire, Entries, GroupIn, SpecMeaning, GroupMeaning, SpecEntries, Over, Countable, Unwrapped;
    SpecOnWire(t, tail);
    var c := SpecEntries(Wire(t) + tail).value;
    GroupOnWire(c, t.items, t.open, tail);
    match GroupMeaning(Unwrapped(t.items)) {
      case Means(g) => EntriesOnWire(c, t.items, t.open, tail, Query(BaseOf(path, g), []), sdk);
      case _ =>
    }
  }

  /** A spec that is no map, or one too wide to enter, builds nothing. */
  lemma {:induction false} NoMapNoQuery(path: Octets, t: Item, tail: Octets, sdk: Sdk)
    requires Sized(t) && (!t.Map? || !Countable(t))
    ensures Build(path, Wire(t) + tail, sdk) == if sdk(Query(Collection(path), [])) then Malformed else Thrown
  {
    hide Wire, Entries, GroupIn, SpecEntries;
    SpecOnWire(t, tail);
  }
}
