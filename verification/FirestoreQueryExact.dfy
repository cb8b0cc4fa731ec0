/** Exactly when the bytes of a spec build a query, and which query it is. */
module FirestoreQueryExact {
  import opened Bytes
  import opened Cbor
  import opened Cursor
  import opened Walk
  import opened FirestoreValue
  import opened FirestoreMeaning
  import opened FirestoreRoundTrip
  import opened FirestoreQuery
  import opened FirestoreQueryMeaning

  // ---- well-formed specs ----------------------------------------------------------------

  /** A clause: two texts that mean something, for a filter a value in the
      grammar that suits the operator, and no deeper than can be skipped. */
  predicate LegalClause(where_: bool, x: Item) {
    && x.Array? && Countable(x) && Skippable(x, MAX_RECURSIONS)
    && |x.items| >= (if where_ then 3 else 2) && x.items[0].Text? && x.items[1].Text?
    && (if where_ then
          InGrammar(x.items[2])
          && OperatorOf(x.items[1].bytes).Some?
          && Suits(FieldOf(x.items[0].bytes), OperatorOf(x.items[1].bytes).value, x.items[2])
        else x.items[1].bytes == Ascii("asc") || x.items[1].bytes == Ascii("desc"))
  }

  predicate Suits(field: FieldRef, op: Operator, t: Item) {
    && (field == DocumentId ==> op == Equal || op == In)
    && (op == ArrayContainsAny || op == In || op == NotIn ==> t.Array?)
  }

  predicate ListOf(x: Item) {
    x.Array? && Countable(x)
  }

  predicate LegalEntry(key: Octets, x: Item) {
    if key == Ascii("where") || key == Ascii("orderBy") then
      ListOf(x) && forall i :: 0 <= i < |x.items| ==> LegalClause(key == Ascii("where"), x.items[i])
    else if KindOf(key).Some? then
      ListOf(x) && x.items != [] && AllInGrammar(x.items)
    else
      key == Ascii("collectionGroup")
      || ((key == Ascii("limit") || key == Ascii("limitToLast")) && IntOf(x).Some? && 1 <= IntOf(x).value <= 2_147_483_647)
  }

  /** Keys and values in pairs, text keys only, each of them known, each value
      legal under its key and no deeper than can be skipped. */
  predicate WellFormed(ts: seq<Item>) {
    |ts| % 2 == 0 && forall i :: 0 <= i < |ts| / 2 ==> LegalPair(ts, i)
  }

  predicate LegalPair(ts: seq<Item>, i: nat)
    requires i < |ts| / 2
  {
    ts[2 * i].Text? && LegalEntry(ts[2 * i].bytes, ts[2 * i + 1]) && Skippable(ts[2 * i + 1], MAX_RECURSIONS)
  }

  lemma {:induction false} ClauseComplete(where_: bool, x: Item)
    requires x.Array?
    ensures ClauseMeaning(where_, x).Means? && Passed(x) == Complete <==> LegalClause(where_, x)
  {
    hide Interp, InGrammar, Skippable, OperatorOf, Ascii, FieldOf;
    if where_ && |x.items| >= 3 {
      MeansExact(x.items[2]);
      if Interp(x.items[2]).Means? { ArrayMeans(x.items[2]); }
    }
  }

  lemma {:induction false} ArrayMeans(t: Item)
    requires Interp(t).Means?
    ensures Interp(t).value.ArrayValue? <==> t.Array?
  {
    hide InterpAll, InterpFields;
  }

  lemma {:induction false} ClausesComplete(where_: bool, ts: seq<Item>)
    ensures ClausesMeaning(where_, ts).ending == Complete <==>
            forall i :: 0 <= i < |ts| ==> LegalClause(where_, ts[i])
  {
    hide LegalClause, ClauseMeaning, Passed;
    if ts != [] {
      ClausesComplete(where_, ts[1..]);
      if ts[0].Array? { ClauseComplete(where_, ts[0]); } else { ArraysOnly(where_, ts[0]); }
      assert ClausesMeaning(where_, ts).ending == Complete <==>
             LegalClause(where_, ts[0]) && ClausesMeaning(where_, ts[1..]).ending == Complete;
      if forall i :: 0 <= i < |ts| ==> LegalClause(where_, ts[i]) {
        forall i | 0 <= i < |ts[1..]| ensures LegalClause(where_, ts[1..][i]) { assert ts[1..][i] == ts[i + 1]; }
      } else if LegalClause(where_, ts[0]) {
        var i :| 0 <= i < |ts| && !LegalClause(where_, ts[i]);
        assert ts[1..][i - 1] == ts[i];
      }
    }
  }

  lemma {:induction false} ArraysOnly(where_: bool, x: Item)
    requires !x.Array?
    ensures !LegalClause(where_, x)
  {
  }

  lemma {:induction false} EntryComplete(key: Octets, x: Item)
    ensures EntryMeaning(key, x).ending == Complete <==> LegalEntry(key, x)
  {
    hide Ascii, KindOf, LegalClause, InterpAll, AllInGrammar, ClausesMeaning, IntOf;
    if x.Array? {
      ClausesComplete(key == Ascii("where"), x.items);
      AllExact(x.items);
    }
  }

  /** A spec is read to its end exactly when what the parser sees of it is well
      formed. */
  lemma {:induction false} SpecComplete(ts: seq<Item>)
    ensures SpecMeaning(ts).ending == Complete <==> WellFormed(ts)
    decreases |ts|
  {
    hide LegalEntry, Skippable, EntryMeaning;
    if |ts| > 1 {
      var us := ts[2..];
      SpecComplete(us);
      if ts[0].Text? {
        EntryComplete(ts[0].bytes, ts[1]);
      }
      forall i | 0 <= i < |us| / 2 ensures LegalPair(us, i) <==> LegalPair(ts, i + 1) {}
      if WellFormed(us) && LegalPair(ts, 0) {
        forall i | 0 <= i < |ts| / 2 ensures LegalPair(ts, i) {
          if i > 0 { assert LegalPair(us, i - 1); }
        }
      }
    }
  }

  lemma {:induction false} WellFormedGroup(ts: seq<Item>)
    requires WellFormed(ts)
    ensures GroupMeaning(ts).Means?
    decreases |ts|
  {
    hide LegalEntry, Skippable, Ascii;
    if ts != [] {
      assert LegalPair(ts, 0);
      var us := ts[2..];
      forall i | 0 <= i < |us| / 2 ensures LegalPair(us, i) { assert LegalPair(ts, i + 1); }
      WellFormedGroup(us);
    }
  }

  /** The SDK lets the base through, and every step from there. */
  predicate Lets(sdk: Sdk, base: Base, cs: seq<Clause>) {
    forall k :: 0 <= k <= |cs| ==> sdk(Query(base, cs[..k]))
  }

  /** On the bytes of any map, a query is built exactly when what the parser sees
      of the spec is well formed and the SDK lets every step through; it is then
      the base with the spec's clauses, all of them, once each and in order. */
  lemma {:induction false} BuiltExactly(path: Octets, t: Item, tail: Octets, sdk: Sdk)
    requires Sized(t) && t.Map? && Countable(t)
    ensures var ts := Unwrapped(t.items);
            var base, m := BaseOf(path, GroupMeaning(ts) == Means(true)), SpecMeaning(ts);
            var b := Build(path, Wire(t) + tail, sdk);
            && (b.Go? <==> WellFormed(ts) && Lets(sdk, base, m.clauses))
            && (b.Go? ==> b.q == Query(base, m.clauses))
            && (b == Malformed <==> GroupMeaning(ts).Means? && m.ending == Bad && Lets(sdk, base, m.clauses))
            && (b == Thrown <==> GroupMeaning(ts).Means? && !Lets(sdk, base, m.clauses))
  {
    hide Build, Wire, WellFormed, SpecMeaning, GroupMeaning, Unwrapped, AddAll;
    var ts := Unwrapped(t.items);
    var base, cs := BaseOf(path, GroupMeaning(ts) == Means(true)), SpecMeaning(ts).clauses;
    var q := Query(base, []);
    BuildOnWire(path, t, tail, sdk);
    SpecComplete(ts);
    if WellFormed(ts) { WellFormedGroup(ts); }
    AddAllExact(q, cs, sdk);
    forall k | 0 <= k <= |cs| ensures [] + cs[..k] == cs[..k] {}
    assert [] + cs == cs && cs[..0] == [];
    assert sdk(q) && (forall k :: 1 <= k <= |cs| ==> sdk(Query(base, cs[..k]))) <==> Lets(sdk, base, cs);
  }

  // ---- a sentinel over a tag ----------------------------------------------------------------

  /** A filter whose value is a delete over a tagged item. */
  function LeakedFilter(name: Octets, y: Item): Item {
    Array([Text(name), Text(Ascii("==")), Tagged(TAG_DELETE, Tagged(5, y))], false)
  }

  function LeakedSpec(name: Octets, y: Item): Item {
    Map([Text(Ascii("where")), Array([LeakedFilter(name, y)], false)], false)
  }

  lemma {:induction false} LeakedSteps(name: Octets, y: Item)
    requires Skippable(y, MAX_RECURSIONS - 2)
    ensures Skippable(LeakedFilter(name, y), MAX_RECURSIONS)
    ensures Skippable(Array([LeakedFilter(name, y)], false), MAX_RECURSIONS)
  {
    hide Ascii;
    var f, x := LeakedFilter(name, y), Tagged(TAG_DELETE, Tagged(5, y));
    assert Skippable(x, MAX_RECURSIONS - 2);
    assert [x] + [] == [x];
    SkippableCons(x, [], MAX_RECURSIONS - 2);
    SkippableCons(Text(Ascii("==")), [x], MAX_RECURSIONS - 2);
    SkippableCons(Text(name), [Text(Ascii("==")), x], MAX_RECURSIONS - 2);
    assert Skippable(f, MAX_RECURSIONS - 1);
    SkippableMore(f, MAX_RECURSIONS - 1);
    assert [f] + [] == [f];
    SkippableCons(f, [], MAX_RECURSIONS - 1);
  }

  lemma {:induction false} SkippableCons(t: Item, ts: seq<Item>, level: nat)
    requires Skippable(t, level) && AllSkippable(ts, level)
    ensures AllSkippable([t] + ts, level)
  {
    hide Skippable;
    assert ([t] + ts)[1..] == ts;
  }

  lemma {:induction false} LeakedMeaning(name: Octets, y: Item)
    requires Skippable(y, MAX_RECURSIONS - 2) && FieldOf(name) != DocumentId
    ensures WhereMeaning(LeakedFilter(name, y)) == Means(Where(FieldOf(name), Equal, Delete))
  {
    assert OperatorOf(Ascii("==")) == Some(Equal);
    hide Ascii, OperatorOf, FieldOf, Skippable;
    var x := Tagged(TAG_DELETE, Tagged(5, y));
    assert LeakedFilter(name, y).items[2] == x && Interp(x) == Means(Delete);
  }

  lemma {:induction false} LeakedReading(name: Octets, y: Item)
    requires Skippable(y, MAX_RECURSIONS - 2) && FieldOf(name) != DocumentId
    ensures var ts := LeakedSpec(name, y).items;
            && Unwrapped(ts) == ts && GroupMeaning(ts) == Means(false)
            && SpecMeaning(ts) == Reading([Where(FieldOf(name), Equal, Delete)], Complete)
  {
    var f, w := LeakedFilter(name, y), Where(FieldOf(name), Equal, Delete);
    var ts := LeakedSpec(name, y).items;
    LeakedSteps(name, y);
    LeakedMeaning(name, y);
    assert Ascii("where") != Ascii("collectionGroup") by { assert |Ascii("where")| == 5 && |Ascii("collectionGroup")| == 15; }
    hide Ascii, WhereMeaning, FieldOf, Skippable;
    SeenAsItIs(ts);
    assert ts[2..] == [] && [f][1..] == [];
    assert [w] + ([] + []) == [w];
    assert ClausesMeaning(true, [f]) == Reading([w], Complete);
    assert EntryMeaning(Ascii("where"), ts[1]) == Reading([w], Complete);
  }

  /** It is read as a delete, and the query is built with it: whatever the tagged
      item is, as long as it can be stepped over. */
  lemma {:induction false} LeakedQuery(path: Octets, name: Octets, y: Item, tail: Octets, sdk: Sdk)
    requires Sized(LeakedSpec(name, y)) && Skippable(y, MAX_RECURSIONS - 2) && FieldOf(name) != DocumentId
    ensures WellFormed(LeakedSpec(name, y).items)
    ensures var base, w := Collection(path), Where(FieldOf(name), Equal, Delete);
            sdk(Query(base, [])) && sdk(Query(base, [w])) ==>
              Build(path, Wire(LeakedSpec(name, y)) + tail, sdk) == Go(Query(base, [w]))
  {
    hide Build, Wire, WellFormed, SpecMeaning, GroupMeaning, Unwrapped, Skippable, FieldOf, Ascii;
    var t, w := LeakedSpec(name, y), Where(FieldOf(name), Equal, Delete);
    LeakedReading(name, y);
    SpecComplete(t.items);
    BuildOnWire(path, t, tail, sdk);
    AddAllOne(Query(Collection(path), []), w, sdk);
    assert [] + [w] == [w];
  }

  // ---- tags under collectionGroup ---------------------------------------------------------

  /** With a tag there, a map may ask for clauses that it has no entries for: of
      these three entries one has a number for its key and one a tagged text. */
  function Disguised(): seq<Item> {
    [Text(Ascii("collectionGroup")), Tagged(5, Text(Ascii("limit"))),
     UInt(7), Text(Ascii("collectionGroup")),
     Tagged(5, Text(Ascii("limitToLast"))), UInt(3)]
  }

  function DisguisedTail(): seq<Item> {
    [Text(Ascii("limit")), UInt(7), Text(Ascii("collectionGroup")), Item.Null, Text(Ascii("limitToLast")), UInt(3)]
  }

  lemma {:induction false} DisguisedSeen()
    ensures Unwrapped(Disguised()) == [Text(Ascii("collectionGroup")), Item.Null] + DisguisedTail()
  {
    hide Ascii;
    var group, limit, last := Text(Ascii("collectionGroup")), Text(Ascii("limit")), Text(Ascii("limitToLast"));
    var rest: seq<Item> := [Tagged(5, last), UInt(3)];
    var after := [UInt(7), group] + rest;
    assert rest[1..] == [UInt(3)] && [UInt(3)][1..] == [];
    assert From(last, [UInt(3)]) == [last, UInt(3)] + Unwrapped([]);
    assert From(group, rest) == [group, Item.Null] + From(last, [UInt(3)]);
    assert after[1..] == [group] + rest && after[1..][0] == group && after[1..][1..] == rest;
    assert Unwrapped(after[1..]) == From(group, rest);
    assert From(limit, after) == [limit, UInt(7)] + Unwrapped(after[1..]);
    assert Disguised()[1..] == [Tagged(5, limit)] + after && Disguised()[1..][1..] == after;
    assert Unwrapped(Disguised()) == [group, Item.Null] + From(limit, after);
    assert [limit, UInt(7)] + ([group, Item.Null] + [last, UInt(3)]) == DisguisedTail();
  }

  lemma {:induction false} DisguisedMeaning()
    ensures SpecMeaning(DisguisedTail()) == Reading([Limit(7), LimitToLast(3)], Complete)
  {
    LimitMeanings();
    hide Ascii, EntryMeaning, Skippable;
    assert Passed(UInt(7)) == Complete && Passed(UInt(3)) == Complete && Passed(Item.Null) == Complete by { ScalarsPass(); }
    var group, limit, last := Text(Ascii("collectionGroup")), Text(Ascii("limit")), Text(Ascii("limitToLast"));
    var one, two := [last, UInt(3)], [group, Item.Null, last, UInt(3)];
    assert one[2..] == [] && two[2..] == one && DisguisedTail()[2..] == two;
    assert SpecMeaning(one) == Reading([LimitToLast(3)], Complete);
    assert SpecMeaning(two) == Reading([LimitToLast(3)], Complete);
    assert [Limit(7)] + ([] + [LimitToLast(3)]) == [Limit(7), LimitToLast(3)];
  }

  lemma {:induction false} ScalarsPass()
    ensures Passed(UInt(7)) == Complete && Passed(UInt(3)) == Complete && Passed(Item.Null) == Complete
  {
  }

  lemma {:induction false} DisguisedReading()
    ensures !WellFormed(Disguised()) && WellFormed(Unwrapped(Disguised()))
    ensures SpecMeaning(Unwrapped(Disguised())) == Reading([Limit(7), LimitToLast(3)], Complete)
    ensures GroupMeaning(Unwrapped(Disguised())) == Means(false)
  {
    hide Unwrapped, EntryMeaning, LegalEntry;
    assert !LegalPair(Disguised(), 1);
    hide Disguised, LegalPair;
    DisguisedSeen();
    DisguisedMeaning();
    LimitMeanings();
    ScalarsPass();
    var seen := Unwrapped(Disguised());
    hide DisguisedTail, Ascii;
    assert seen[0] == Text(Ascii("collectionGroup")) && seen[1] == Item.Null && seen[2..] == DisguisedTail();
    assert [] + ([] + [Limit(7), LimitToLast(3)]) == [Limit(7), LimitToLast(3)];
    SpecComplete(seen);
  }

  lemma {:induction false} DisguisedSized()
    ensures |Disguised()| == 6 && Sized(Map(Disguised(), false))
  {
    assert |Ascii("collectionGroup")| == 15 && |Ascii("limit")| == 5 && |Ascii("limitToLast")| == 11;
    hide Ascii;
    var group, limit, last := Text(Ascii("collectionGroup")), Text(Ascii("limit")), Text(Ascii("limitToLast"));
    OneSized(UInt(3));
    SizedCons(Tagged(5, last), [UInt(3)]);
    SizedCons(group, [Tagged(5, last), UInt(3)]);
    SizedCons(UInt(7), [group, Tagged(5, last), UInt(3)]);
    SizedCons(Tagged(5, limit), [UInt(7), group, Tagged(5, last), UInt(3)]);
    SizedCons(group, [Tagged(5, limit), UInt(7), group, Tagged(5, last), UInt(3)]);
  }

  lemma {:induction false} SizedCons(t: Item, ts: seq<Item>)
    requires Sized(t) && AllSized(ts)
    ensures AllSized([t] + ts)
  {
    hide Sized;
    assert ([t] + ts)[1..] == ts;
  }

  /** Yet the parser sees a well-formed spec that asks for two limits, and builds
      a query with both. */
  lemma {:induction false} DisguisedClauses(path: Octets, tail: Octets, sdk: Sdk)
    ensures Sized(Map(Disguised(), false)) && !WellFormed(Disguised())
    ensures var q, r := Query(Collection(path), []), Query(Collection(path), [Limit(7), LimitToLast(3)]);
            sdk(q) && sdk(Query(q.base, [Limit(7)])) && sdk(r) ==>
              Build(path, Wire(Map(Disguised(), false)) + tail, sdk) == Go(r)
  {
    hide Build, Wire, WellFormed, SpecMeaning, GroupMeaning, Unwrapped, Disguised;
    DisguisedReading();
    DisguisedSized();
    BuildOnWire(path, Map(Disguised(), false), tail, sdk);
    var cs := [Limit(7), LimitToLast(3)];
    assert [] + [cs[0]] == [Limit(7)] && [cs[0]] + [cs[1]] == cs && cs[1..] == [cs[1]] && cs[1..][1..] == [];
  }

  lemma {:induction false} LimitMeanings()
    ensures EntryMeaning(Ascii("limit"), UInt(7)) == Reading([Limit(7)], Complete)
    ensures EntryMeaning(Ascii("limitToLast"), UInt(3)) == Reading([LimitToLast(3)], Complete)
    ensures EntryMeaning(Ascii("collectionGroup"), Item.Null) == Reading([], Complete)
  {
    assert |Ascii("limit")| == 5 && Ascii("limit")[0] == 'l' as int && |Ascii("limitToLast")| == 11;
    assert |Ascii("where")| == 5 && Ascii("where")[0] == 'w' as int && |Ascii("orderBy")| == 7;
    assert |Ascii("endAt")| == 5 && Ascii("endAt")[0] == 'e' as int && |Ascii("endBefore")| == 9;
    assert |Ascii("startAt")| == 7 && |Ascii("startAfter")| == 10 && |Ascii("collectionGroup")| == 15;
    hide Ascii;
  }
}
