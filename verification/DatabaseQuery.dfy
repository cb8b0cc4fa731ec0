/**
 The Realtime Database's query spec: a string-keyed map applied to a query in a
 fixed order, or refused.
 */
module DatabaseQuery {
  import opened Bytes
  import opened Variants
  import opened VariantDecode
  import Cbor
  import Cursor
  import opened VariantMeaning

  datatype Clause =
    | OrderByChild(path: Octets)
    | OrderByKey
    | OrderByValue
    | OrderByPriority
    | EqualTo(v: Variant, key: Option<Octets>)
    | StartAt(v: Variant, key: Option<Octets>)
    | EndAt(v: Variant, key: Option<Octets>)
    | LimitToFirst(n: I64)
    | LimitToLast(n: I64)

  const KNOWN: seq<string> := ["orderBy", "orderByPath", "startAt", "startAtKey", "endAt",
                               "endAtKey", "equalTo", "equalToKey", "limitToFirst", "limitToLast"]

  // ---- the declarative reading --------------------------------------------------------

  function Find(ps: seq<Pair>, key: Octets): Option<Variant> {
    if ps == [] then None else if ps[0].key == key then Some(ps[0].value) else Find(ps[1..], key)
  }

  function At(ps: seq<Pair>, key: string): Option<Variant> {
    Find(ps, Ascii(key))
  }

  predicate Known(key: Octets) {
    exists k :: 0 <= k < |KNOWN| && key == Ascii(KNOWN[k])
  }

  predicate AllKnown(ps: seq<Pair>) {
    forall i :: 0 <= i < |ps| ==> Known(ps[i].key)
  }

  function TextOf(v: Option<Variant>): Option<Octets> {
    if v.Some? && v.value.StringV? then Some(Cut(v.value.s)) else None
  }

  /** An ordering that is one of four, with a path exactly where one is needed. */
  predicate LegalOrdering(ps: seq<Pair>) {
    var name := TextOf(At(ps, "orderBy"));
    if At(ps, "orderBy").None? then At(ps, "orderByPath").None?
    else if name == Some(Ascii("child")) then TextOf(At(ps, "orderByPath")).Some?
    else name == Some(Ascii("key")) || name == Some(Ascii("value")) || name == Some(Ascii("priority"))
  }

  /** A bound's key, if it has one, is a string; without its bound it is ignored. */
  predicate LegalKey(ps: seq<Pair>, bound: string, key: string) {
    At(ps, bound).Some? && At(ps, key).Some? ==> At(ps, key).value.StringV?
  }

  predicate LegalLimit(v: Option<Variant>) {
    v.Some? ==> v.value.Int64V? && v.value.i > 0
  }

  predicate Accepts(ps: seq<Pair>) {
    && AllKnown(ps)
    && LegalOrdering(ps)
    && (At(ps, "equalTo").Some? ==> At(ps, "startAt").None? && At(ps, "endAt").None?)
    && LegalKey(ps, "equalTo", "equalToKey")
    && LegalKey(ps, "startAt", "startAtKey")
    && LegalKey(ps, "endAt", "endAtKey")
    && !(At(ps, "limitToFirst").Some? && At(ps, "limitToLast").Some?)
    && LegalLimit(At(ps, "limitToFirst")) && LegalLimit(At(ps, "limitToLast"))
  }

  function Ordering(ps: seq<Pair>): seq<Clause>
    requires LegalOrdering(ps)
  {
    var name := TextOf(At(ps, "orderBy"));
    if At(ps, "orderBy").None? then []
    else if name == Some(Ascii("child")) then [OrderByChild(TextOf(At(ps, "orderByPath")).value)]
    else if name == Some(Ascii("key")) then [OrderByKey]
    else if name == Some(Ascii("value")) then [OrderByValue]
    else [OrderByPriority]
  }

  datatype Kind = Equality | Start | Stop

  function BoundOf(kind: Kind, v: Option<Variant>, key: Option<Octets>): seq<Clause> {
    if v.None? then []
    else
      match kind
      case Equality => [EqualTo(v.value, key)]
      case Start => [StartAt(v.value, key)]
      case Stop => [EndAt(v.value, key)]
  }

  function LimitOf(first: Option<Variant>, last: Option<Variant>): seq<Clause>
    requires LegalLimit(first) && LegalLimit(last)
  {
    (if first.Some? then [LimitToFirst(first.value.i)] else [])
    + (if last.Some? then [LimitToLast(last.value.i)] else [])
  }

  /** The ordering, then equality or bounds, then the limit. */
  function Clauses(ps: seq<Pair>): seq<Clause>
    requires Accepts(ps)
  {
    Ordering(ps)
    + BoundOf(Equality, At(ps, "equalTo"), TextOf(At(ps, "equalToKey")))
    + BoundOf(Start, At(ps, "startAt"), TextOf(At(ps, "startAtKey")))
    + BoundOf(Stop, At(ps, "endAt"), TextOf(At(ps, "endAtKey")))
    + LimitOf(At(ps, "limitToFirst"), At(ps, "limitToLast"))
  }

  function Apply(ps: seq<Pair>): Option<seq<Clause>> {
    if Accepts(ps) then Some(Clauses(ps)) else None
  }

  // ---- the source's steps ---------------------------------------------------------------

  method IsKnown(key: Octets) returns (known: bool)
    ensures known == Known(key)
  {
    hide Ascii;
    known := false;
    for i := 0 to |KNOWN|
      invariant forall k :: 0 <= k < i ==> key != Ascii(KNOWN[k])
    {
      if key == Ascii(KNOWN[i]) { return true; }
    }
  }

  method OnlyKnown(ps: seq<Pair>) returns (ok: bool)
    ensures ok == AllKnown(ps)
  {
    for i := 0 to |ps|
      invariant forall j :: 0 <= j < i ==> Known(ps[j].key)
    {
      var known := IsKnown(ps[i].key);
      if !known { return false; }
    }
    ok := true;
  }

  method ApplyOrdering(ps: seq<Pair>) returns (r: Option<seq<Clause>>)
    ensures r == if LegalOrdering(ps) then Some(Ordering(ps)) else None
  {
    hide Ascii, Find;
    var order := At(ps, "orderBy");
    if order.Some? {
      if !order.value.StringV? { return None; }
      var name := Cut(order.value.s);
      if name == Ascii("child") {
        var path := At(ps, "orderByPath");
        if path.None? || !path.value.StringV? { return None; }
        r := Some([OrderByChild(Cut(path.value.s))]);
      } else if name == Ascii("key") {
        r := Some([OrderByKey]);
      } else if name == Ascii("value") {
        r := Some([OrderByValue]);
      } else if name == Ascii("priority") {
        r := Some([OrderByPriority]);
      } else {
        return None;
      }
    } else if At(ps, "orderByPath").Some? {
      return None;
    } else {
      r := Some([]);
    }
  }

  method ApplyBound(ps: seq<Pair>, kind: Kind, bound: string, keyName: string) returns (r: Option<seq<Clause>>)
    ensures r == if LegalKey(ps, bound, keyName) then Some(BoundOf(kind, At(ps, bound), TextOf(At(ps, keyName)))) else None
  {
    hide Ascii, Find;
    var v := At(ps, bound);
    if v.None? { return Some([]); }
    var key := At(ps, keyName);
    if key.Some? {
      if !key.value.StringV? { return None; }
      r := Some(BoundOf(kind, v, Some(Cut(key.value.s))));
    } else {
      r := Some(BoundOf(kind, v, None));
    }
  }

  method ApplyLimits(ps: seq<Pair>) returns (r: Option<seq<Clause>>)
    ensures r == var first, last := At(ps, "limitToFirst"), At(ps, "limitToLast");
                 if !(first.Some? && last.Some?) && LegalLimit(first) && LegalLimit(last)
                 then Some(LimitOf(first, last)) else None
  {
    hide Ascii, Find;
    var first, last := At(ps, "limitToFirst"), At(ps, "limitToLast");
    if first.Some? && last.Some? { return None; }
    var q := [];
    if first.Some? {
      if !first.value.Int64V? || first.value.i <= 0 { return None; }
      q := q + [LimitToFirst(first.value.i)];
    }
    if last.Some? {
      if !last.value.Int64V? || last.value.i <= 0 { return None; }
      q := q + [LimitToLast(last.value.i)];
    }
    assert q == LimitOf(first, last);
    r := Some(q);
  }

  method ApplyQuerySpec(ps: seq<Pair>) returns (r: Option<seq<Clause>>)
    ensures r == Apply(ps)
  {
    hide Ascii, Find, AllKnown, LegalOrdering, Ordering, LegalKey, BoundOf, LegalLimit, LimitOf;
    var known := OnlyKnown(ps);
    if !known { return None; }
    var ordering := ApplyOrdering(ps);
    if ordering.None? { return None; }
    var q := ordering.value;
    if At(ps, "equalTo").Some? && (At(ps, "startAt").Some? || At(ps, "endAt").Some?) { return None; }
    var equal := ApplyBound(ps, Equality, "equalTo", "equalToKey");
    if equal.None? { return None; }
    q := q + equal.value;
    var start := ApplyBound(ps, Start, "startAt", "startAtKey");
    if start.None? { return None; }
    q := q + start.value;
    var end := ApplyBound(ps, Stop, "endAt", "endAtKey");
    if end.None? { return None; }
    q := q + end.value;
    var limits := ApplyLimits(ps);
    if limits.None? { return None; }
    r := Some(q + limits.value);
  }

  // ---- what an accepted spec means --------------------------------------------------------

  predicate IsOrder(c: Clause) {
    c.OrderByChild? || c.OrderByKey? || c.OrderByValue? || c.OrderByPriority?
  }

  predicate IsLimit(c: Clause) {
    c.LimitToFirst? || c.LimitToLast?
  }

  /** What can stand before, between and behind the bounds. */
  predicate PartOf(c: Clause, part: int) {
    if part == 0 then IsOrder(c) else if part == 2 then IsLimit(c) else !IsOrder(c) && !IsLimit(c)
  }

  predicate AllOf(cs: seq<Clause>, part: int) {
    forall i :: 0 <= i < |cs| ==> PartOf(cs[i], part)
  }

  lemma {:induction false} PartShapes(ps: seq<Pair>)
    requires Accepts(ps)
    ensures |Ordering(ps)| <= 1 && AllOf(Ordering(ps), 0)
    ensures var l := LimitOf(At(ps, "limitToFirst"), At(ps, "limitToLast")); |l| <= 1 && AllOf(l, 2)
  {
    hide Ascii, Find, AllKnown, LegalKey;
  }

  lemma {:induction false} ThreeParts(o: seq<Clause>, m: seq<Clause>, l: seq<Clause>)
    requires |o| <= 1 && |l| <= 1 && AllOf(o, 0) && AllOf(m, 1) && AllOf(l, 2)
    ensures var cs := o + m + l;
            forall i :: 0 <= i < |cs| ==> (IsOrder(cs[i]) ==> i == 0) && (IsLimit(cs[i]) ==> i == |cs| - 1)
  {
    var cs := o + m + l;
    forall i | 0 <= i < |cs| ensures (IsOrder(cs[i]) ==> i == 0) && (IsLimit(cs[i]) ==> i == |cs| - 1) {
      if i < |o| {
        assert cs[i] == o[i] && PartOf(o[i], 0);
      } else if i < |o| + |m| {
        assert cs[i] == m[i - |o|] && PartOf(m[i - |o|], 1);
      } else {
        assert cs[i] == l[i - |o| - |m|] && PartOf(l[i - |o| - |m|], 2);
      }
    }
  }

  lemma {:induction false} Regroup(o: seq<Clause>, e: seq<Clause>, s: seq<Clause>, t: seq<Clause>, l: seq<Clause>)
    ensures o + e + s + t + l == o + (e + s + t) + l
  {
  }

  lemma {:induction false} Middle(e: seq<Clause>, s: seq<Clause>, t: seq<Clause>)
    requires |e| <= 1 && |s| <= 1 && |t| <= 1
    requires (e != [] ==> e[0].EqualTo?) && (s != [] ==> s[0].StartAt?) && (t != [] ==> t[0].EndAt?)
    ensures AllOf(e + s + t, 1)
  {
    forall c | c in e + s + t ensures PartOf(c, 1) {
      assert c in e || c in s || c in t;
    }
  }

  /** An ordering only ever comes first and a limit only ever last, and beside an
      equality there is no other bound. */
  lemma {:induction false} ClauseShape(ps: seq<Pair>)
    requires Accepts(ps)
    ensures var cs := Clauses(ps);
            && (forall i :: 0 <= i < |cs| ==> (IsOrder(cs[i]) ==> i == 0) && (IsLimit(cs[i]) ==> i == |cs| - 1))
            && (At(ps, "equalTo").Some? ==>
                  cs == Ordering(ps) + [EqualTo(At(ps, "equalTo").value, TextOf(At(ps, "equalToKey")))]
                        + LimitOf(At(ps, "limitToFirst"), At(ps, "limitToLast")))
  {
    PartShapes(ps);
    hide Ordering, At, LimitOf, IsOrder, IsLimit, AllOf, TextOf;
    var e := BoundOf(Equality, At(ps, "equalTo"), TextOf(At(ps, "equalToKey")));
    var s := BoundOf(Start, At(ps, "startAt"), TextOf(At(ps, "startAtKey")));
    var t := BoundOf(Stop, At(ps, "endAt"), TextOf(At(ps, "endAtKey")));
    var o, l := Ordering(ps), LimitOf(At(ps, "limitToFirst"), At(ps, "limitToLast"));
    assert Clauses(ps) == o + (e + s + t) + l by { Regroup(o, e, s, t, l); }
    Middle(e, s, t);
    ThreeParts(o, e + s + t, l);
    if At(ps, "equalTo").Some? {
      assert s == [] && t == [];
      hide BoundOf;
      assert e + [] + [] == e;
    }
  }

  ghost predicate SameEntries(ps: seq<Pair>, qs: seq<Pair>) {
    (forall key :: Find(ps, key) == Find(qs, key))
  }

  lemma {:induction false} FindKnown(ps: seq<Pair>)
    ensures AllKnown(ps) <==> forall i :: 0 <= i < |ps| ==> Find(ps, ps[i].key).Some? && Known(ps[i].key)
    ensures forall key :: Find(ps, key).Some? <==> exists i :: 0 <= i < |ps| && ps[i].key == key
  {
    hide Known;
    if ps != [] {
      FindKnown(ps[1..]);
      forall key ensures Find(ps, key).Some? <==> exists i :: 0 <= i < |ps| && ps[i].key == key {
        if ps[0].key != key {
          if exists i :: 0 <= i < |ps| && ps[i].key == key {
            var i :| 0 <= i < |ps| && ps[i].key == key;
            assert ps[1..][i - 1].key == key;
          }
        }
      }
    }
  }

  /** Nothing but the entries themselves counts. */
  lemma {:induction false} OnlyEntries(ps: seq<Pair>, qs: seq<Pair>)
    requires SameEntries(ps, qs)
    ensures Apply(ps) == Apply(qs)
  {
    assert AllKnown(ps) == AllKnown(qs) by {
      FindKnown(ps);
      FindKnown(qs);
      hide Known, Find;
      forall i | 0 <= i < |ps| && AllKnown(qs) ensures Known(ps[i].key) {
        assert Find(qs, ps[i].key).Some?;
      }
      forall i | 0 <= i < |qs| && AllKnown(ps) ensures Known(qs[i].key) {
        assert Find(ps, qs[i].key).Some?;
      }
    }
    hide Find, Ascii, AllKnown;
    SameAt(ps, qs);
    hide At;
  }

  lemma {:induction false} SameAt(ps: seq<Pair>, qs: seq<Pair>)
    requires SameEntries(ps, qs)
    ensures forall key :: At(ps, key) == At(qs, key)
  {
  }

  // ---- the order of the entries ----------------------------------------------------------

  predicate DistinctNames(ps: seq<Pair>) {
    forall i, j :: 0 <= i < j < |ps| ==> ps[i].key != ps[j].key
  }

  lemma {:induction false} FindExact(ps: seq<Pair>, key: Octets, v: Variant)
    requires DistinctNames(ps)
    ensures Find(ps, key) == Some(v) <==> Pair(key, v) in ps
  {
    if ps != [] {
      FindExact(ps[1..], key, v);
      assert ps == [ps[0]] + ps[1..];
    }
  }

  lemma {:induction false} MembersDecide(ps: seq<Pair>, qs: seq<Pair>)
    requires DistinctNames(ps) && DistinctNames(qs)
    requires forall p :: p in ps <==> p in qs
    ensures Apply(ps) == Apply(qs)
  {
    forall key ensures Find(ps, key) == Find(qs, key) {
      forall v ensures Find(ps, key) == Some(v) <==> Find(qs, key) == Some(v) {
        FindExact(ps, key, v);
        FindExact(qs, key, v);
      }
      match Find(ps, key) { case Some(v) => assert Find(qs, key) == Some(v); case None => }
    }
    OnlyEntries(ps, qs);
  }

  lemma {:induction false} Once(ps: seq<Pair>, p: Pair)
    requires DistinctNames(ps)
    ensures multiset(ps)[p] <= 1
  {
    if ps != [] {
      Once(ps[1..], p);
      assert ps == [ps[0]] + ps[1..];
      if p in ps[1..] {
        var j :| 0 <= j < |ps[1..]| && ps[1..][j] == p;
        assert ps[0].key != ps[j + 1].key;
      }
    }
  }

  lemma {:induction false} Reordered(ps: seq<Pair>, qs: seq<Pair>)
    requires DistinctNames(ps) && multiset(ps) == multiset(qs)
    ensures DistinctNames(qs) && forall p :: p in ps <==> p in qs
  {
    forall p ensures p in ps <==> p in qs { assert p in multiset(ps) <==> p in multiset(qs); }
    forall i, j | 0 <= i < j < |qs| ensures qs[i].key != qs[j].key {
      if qs[i].key == qs[j].key {
        assert qs[i] in ps && qs[j] in ps;
        if qs[i] == qs[j] {
          assert qs == qs[..j] + qs[j..] && qs[i] == qs[..j][i] && qs[j] == qs[j..][0];
          assert multiset(qs)[qs[i]] == multiset(qs[..j])[qs[i]] + multiset(qs[j..])[qs[i]] >= 2;
          Once(ps, qs[i]);
        }
      }
    }
  }

  /** The order in which a map lists its entries makes no difference. */
  lemma {:induction false} OrderFree(ps: seq<Pair>, qs: seq<Pair>)
    requires DistinctNames(ps) && multiset(ps) == multiset(qs)
    ensures Apply(ps) == Apply(qs)
  {
    hide Apply, DistinctNames;
    Reordered(ps, qs);
    MembersDecide(ps, qs);
  }

  // ---- the entries without an effect ---------------------------------------------------------

  /** The entries that have an effect say the same in both: a bound's key counts
      only beside its bound, and a path only under the child ordering. */
  predicate SameEffect(ps: seq<Pair>, qs: seq<Pair>) {
    && TextOf(At(ps, "orderBy")) == TextOf(At(qs, "orderBy"))
    && (TextOf(At(ps, "orderBy")) == Some(Ascii("child")) ==>
          TextOf(At(ps, "orderByPath")) == TextOf(At(qs, "orderByPath")))
    && SameBound(ps, qs, "equalTo", "equalToKey")
    && SameBound(ps, qs, "startAt", "startAtKey")
    && SameBound(ps, qs, "endAt", "endAtKey")
    && At(ps, "limitToFirst") == At(qs, "limitToFirst")
    && At(ps, "limitToLast") == At(qs, "limitToLast")
  }

  predicate SameBound(ps: seq<Pair>, qs: seq<Pair>, bound: string, key: string) {
    && At(ps, bound) == At(qs, bound)
    && (At(ps, bound).Some? ==> TextOf(At(ps, key)) == TextOf(At(qs, key)))
  }

  /** Where a clause stands among the five that a spec can make. */
  function Rank(c: Clause): int {
    match c
    case EqualTo(_, _) => 1
    case StartAt(_, _) => 2
    case EndAt(_, _) => 3
    case LimitToFirst(_) => 4
    case LimitToLast(_) => 4
    case _ => 0
  }

  predicate Behind(cs: seq<Clause>, rank: int) {
    cs != [] ==> Rank(cs[0]) > rank
  }

  predicate OneAt(cs: seq<Clause>, rank: int) {
    |cs| <= 1 && (cs != [] ==> Rank(cs[0]) == rank)
  }

  lemma {:induction false} Peel(a: seq<Clause>, b: seq<Clause>, c: seq<Clause>, d: seq<Clause>, rank: int)
    requires OneAt(a, rank) && OneAt(c, rank) && Behind(b, rank) && Behind(d, rank)
    ensures a + b == c + d <==> a == c && b == d
    ensures Behind(a + b, rank - 1) && Behind(c + d, rank - 1)
  {
    if a + b == c + d {
      assert a == (a + b)[..|a|] && b == (a + b)[|a|..] && c == (c + d)[..|c|] && d == (c + d)[|c|..];
    }
  }

  lemma {:induction false} OrderingsEqual(ps: seq<Pair>, qs: seq<Pair>)
    requires LegalOrdering(ps) && LegalOrdering(qs)
    ensures OneAt(Ordering(ps), 0)
    ensures Ordering(ps) == Ordering(qs) <==>
            && TextOf(At(ps, "orderBy")) == TextOf(At(qs, "orderBy"))
            && (TextOf(At(ps, "orderBy")) == Some(Ascii("child")) ==>
                  TextOf(At(ps, "orderByPath")) == TextOf(At(qs, "orderByPath")))
  {
    assert Ascii("key") != Ascii("value") by { assert |Ascii("key")| == 3 && |Ascii("value")| == 5; }
    hide Ascii, Find, At;
  }

  lemma {:induction false} BoundsEqual(ps: seq<Pair>, qs: seq<Pair>, kind: Kind, bound: string, key: string)
    ensures OneAt(BoundOf(kind, At(ps, bound), TextOf(At(ps, key))), match kind case Equality => 1 case Start => 2 case Stop => 3)
    ensures BoundOf(kind, At(ps, bound), TextOf(At(ps, key))) == BoundOf(kind, At(qs, bound), TextOf(At(qs, key)))
       <==> SameBound(ps, qs, bound, key)
  {
    hide Ascii, Find, At, TextOf;
    var a, b := BoundOf(kind, At(ps, bound), TextOf(At(ps, key))), BoundOf(kind, At(qs, bound), TextOf(At(qs, key)));
    assert a == b ==> |a| == |b| && (a != [] ==> a[0] == b[0]);
  }

  lemma {:induction false} LimitsEqual(ps: seq<Pair>, qs: seq<Pair>)
    requires Accepts(ps) && Accepts(qs)
    ensures OneAt(LimitOf(At(ps, "limitToFirst"), At(ps, "limitToLast")), 4)
    ensures LimitOf(At(ps, "limitToFirst"), At(ps, "limitToLast")) == LimitOf(At(qs, "limitToFirst"), At(qs, "limitToLast"))
       <==> At(ps, "limitToFirst") == At(qs, "limitToFirst") && At(ps, "limitToLast") == At(qs, "limitToLast")
  {
    hide Ascii, Find, At, TextOf, AllKnown, LegalOrdering, LegalKey;
    var a, b := LimitOf(At(ps, "limitToFirst"), At(ps, "limitToLast")), LimitOf(At(qs, "limitToFirst"), At(qs, "limitToLast"));
    assert a == b ==> |a| == |b| && (a != [] ==> a[0] == b[0]);
  }

  lemma {:induction false} FiveParts(a: seq<Clause>, b: seq<Clause>, c: seq<Clause>, d: seq<Clause>, e: seq<Clause>)
    ensures a + b + c + d + e == a + (b + (c + (d + e)))
  {
  }

  /** Two accepted specs ask for the same query exactly when they agree on the
      entries that have an effect: every other accepted entry is ignored, and
      these never are. */
  lemma {:induction false} IgnoredEntries(ps: seq<Pair>, qs: seq<Pair>)
    requires Accepts(ps) && Accepts(qs)
    ensures Clauses(ps) == Clauses(qs) <==> SameEffect(ps, qs)
  {
    OrderingsEqual(ps, qs);
    OrderingsEqual(qs, ps);
    LimitsEqual(ps, qs);
    LimitsEqual(qs, ps);
    BoundsEqual(ps, qs, Equality, "equalTo", "equalToKey");
    BoundsEqual(qs, ps, Equality, "equalTo", "equalToKey");
    BoundsEqual(ps, qs, Start, "startAt", "startAtKey");
    BoundsEqual(qs, ps, Start, "startAt", "startAtKey");
    BoundsEqual(ps, qs, Stop, "endAt", "endAtKey");
    BoundsEqual(qs, ps, Stop, "endAt", "endAtKey");
    hide Ascii, Find, At, TextOf, Ordering, BoundOf, LimitOf, Accepts, OneAt, SameBound;
    var o, o' := Ordering(ps), Ordering(qs);
    var e := BoundOf(Equality, At(ps, "equalTo"), TextOf(At(ps, "equalToKey")));
    var e' := BoundOf(Equality, At(qs, "equalTo"), TextOf(At(qs, "equalToKey")));
    var s := BoundOf(Start, At(ps, "startAt"), TextOf(At(ps, "startAtKey")));
    var s' := BoundOf(Start, At(qs, "startAt"), TextOf(At(qs, "startAtKey")));
    var t := BoundOf(Stop, At(ps, "endAt"), TextOf(At(ps, "endAtKey")));
    var t' := BoundOf(Stop, At(qs, "endAt"), TextOf(At(qs, "endAtKey")));
    var l := LimitOf(At(ps, "limitToFirst"), At(ps, "limitToLast"));
    var l' := LimitOf(At(qs, "limitToFirst"), At(qs, "limitToLast"));
    FiveParts(o, e, s, t, l);
    FiveParts(o', e', s', t', l');
    PeelAll(o, e, s, t, l, o', e', s', t', l');
  }

  lemma {:induction false} PeelAll(o: seq<Clause>, e: seq<Clause>, s: seq<Clause>, t: seq<Clause>, l: seq<Clause>,
                                   o': seq<Clause>, e': seq<Clause>, s': seq<Clause>, t': seq<Clause>, l': seq<Clause>)
    requires OneAt(o, 0) && OneAt(e, 1) && OneAt(s, 2) && OneAt(t, 3) && OneAt(l, 4)
    requires OneAt(o', 0) && OneAt(e', 1) && OneAt(s', 2) && OneAt(t', 3) && OneAt(l', 4)
    ensures o + (e + (s + (t + l))) == o' + (e' + (s' + (t' + l')))
       <==> o == o' && e == e' && s == s' && t == t' && l == l'
  {
    assert Behind(l, 3) && Behind(l', 3);
    hide OneAt, Behind;
    Peel(t, l, t', l', 3);
    Peel(s, t + l, s', t' + l', 2);
    Peel(e, s + (t + l), e', s' + (t' + l'), 1);
    Peel(o, e + (s + (t + l)), o', e' + (s' + (t' + l')), 0);
  }

  /** One that is ignored: the key of a bound that is not there, whatever its
      value. The query is the one without it. */
  lemma {:induction false} IgnoredKey(v: Variant)
    ensures Apply([Pair(Ascii("startAtKey"), v)]) == Apply([]) == Some([])
  {
    var ps := [Pair(Ascii("startAtKey"), v)];
    assert Known(Ascii("startAtKey")) by { assert KNOWN[3] == "startAtKey"; }
    assert ps[1..] == [];
    assert |Ascii("startAtKey")| == 10 && |Ascii("orderBy")| == 7 && |Ascii("orderByPath")| == 11 && |Ascii("equalTo")| == 7;
    assert |Ascii("startAt")| == 7 && |Ascii("endAt")| == 5 && |Ascii("limitToFirst")| == 12 && |Ascii("limitToLast")| == 11;
    hide Ascii, Known;
  }

  // ---- from bytes --------------------------------------------------------------------------

  /** What fdb_db_query_get and the query listeners make of a spec's bytes. */
  function FromBytes(spec: Octets): Option<seq<Clause>> {
    match ParseMap(spec)
    case None => None
    case Some(ps) => Apply(ps)
  }

  method ReadSpec(spec: Octets) returns (r: Option<seq<Clause>>)
    ensures r == FromBytes(spec)
  {
    var ps := ParseVariantMap(spec);
    if ps.None? { return None; }
    r := ApplyQuerySpec(ps.value);
  }

  /** The bytes of any item, whatever follows them: a map of text keys applies as
      its entries do, and nothing else is a spec. */
  lemma {:induction false} SpecOnWire(t: Cbor.Item, tail: Octets)
    requires Cbor.Sized(t)
    ensures FromBytes(Cbor.Wire(t) + tail)
         == match Interp(t)
            case Some(MapV(es)) => (match Named(es, []) case Some(ps) => Apply(ps) case None => None)
            case _ => None
  {
    hide Cbor.Wire, Cbor.ReadHead, Cbor.Sized, Value, Interp, Apply, Named;
    Cbor.WireSplit(t, tail);
    var c: Cursor.Cursor := Cursor.At(Cbor.Wire(t) + tail, 1, false, false);
    ValueOnWire(c, t, tail);
    assert Cursor.Past(c, tail) == Some(Cursor.End(tail, false));
  }

  predicate PlainNames(es: seq<Entry>) {
    forall i :: 0 <= i < |es| ==> es[i].key.StringV? && 0 !in es[i].key.s
  }

  function PairsOf(es: seq<Entry>): (ps: seq<Pair>)
    requires PlainNames(es)
    ensures |ps| == |es|
    ensures forall i :: 0 <= i < |es| ==> ps[i] == Pair(es[i].key.s, es[i].value)
  {
    if es == [] then [] else [Pair(es[0].key.s, es[0].value)] + PairsOf(es[1..])
  }

  predicate Apart(acc: seq<Pair>, es: seq<Entry>)
    requires PlainNames(es)
  {
    forall i, j :: 0 <= i < |acc| && 0 <= j < |es| ==> acc[i].key != es[j].key.s
  }

  lemma {:induction false} ApartStep(acc: seq<Pair>, es: seq<Entry>)
    requires es != [] && PlainNames(es) && DistinctKeys(es) && Apart(acc, es)
    ensures !HasName(acc, es[0].key.s) && PlainNames(es[1..]) && DistinctKeys(es[1..])
    ensures Apart(acc + [Pair(es[0].key.s, es[0].value)], es[1..])
    ensures es[0].key.StringV? && Cut(es[0].key.s) == es[0].key.s
    ensures PairsOf(es) == [Pair(es[0].key.s, es[0].value)] + PairsOf(es[1..])
  {
    var next := acc + [Pair(es[0].key.s, es[0].value)];
    forall i, j | 0 <= i < |next| && 0 <= j < |es[1..]| ensures next[i].key != es[1..][j].key.s {
      assert es[1..][j] == es[j + 1];
      if i < |acc| { assert next[i] == acc[i]; } else { assert es[0].key != es[j + 1].key; }
    }
  }

  lemma {:induction false} NamedClean(es: seq<Entry>, acc: seq<Pair>)
    requires PlainNames(es) && DistinctKeys(es) && Apart(acc, es)
    ensures Named(es, acc) == Some(acc + PairsOf(es))
    decreases es
  {
    hide Apart, HasName, DistinctKeys, PlainNames, PairsOf, Cut;
    if es == [] {
      assert acc + PairsOf(es) == acc;
    } else {
      ApartStep(acc, es);
      var p := Pair(es[0].key.s, es[0].value);
      NamedClean(es[1..], acc + [p]);
      assert acc + [p] + PairsOf(es[1..]) == acc + ([p] + PairsOf(es[1..]));
    }
  }

  // ---- the client's specs --------------------------------------------------------------------

  /** One entry of the map the client encodes: its value is any item. */
  datatype Setting = Setting(key: Octets, value: Cbor.Item)

  function Flat(ss: seq<Setting>): (ts: seq<Cbor.Item>)
    ensures |ts| == 2 * |ss|
  {
    if ss == [] then [] else [Cbor.Text(ss[0].key), ss[0].value] + Flat(ss[1..])
  }

  /** Its entries, if every value has a meaning. */
  predicate AllMean(ss: seq<Setting>) {
    forall i :: 0 <= i < |ss| ==> Interp(ss[i].value).Some?
  }

  function EntriesOf(ss: seq<Setting>): (es: seq<Entry>)
    requires AllMean(ss)
    ensures |es| == |ss|
    ensures forall i :: 0 <= i < |ss| ==> es[i] == Entry(StringV(ss[i].key), Interp(ss[i].value).value)
  {
    seq(|ss|, i requires 0 <= i < |ss| => Entry(StringV(ss[i].key), Interp(ss[i].value).value))
  }

  /** What a Dart map gives: distinct keys, here without NUL. */
  predicate ClientKeys(ss: seq<Setting>) {
    && (forall i :: 0 <= i < |ss| ==> 0 !in ss[i].key)
    && (forall i, j :: 0 <= i < j < |ss| ==> ss[i].key != ss[j].key)
  }

  function PairsFor(ss: seq<Setting>): (ps: seq<Pair>)
    requires AllMean(ss)
    ensures |ps| == |ss|
    ensures forall i :: 0 <= i < |ss| ==> ps[i] == Pair(ss[i].key, Interp(ss[i].value).value)
  {
    seq(|ss|, i requires 0 <= i < |ss| => Pair(ss[i].key, Interp(ss[i].value).value))
  }

  lemma {:induction false} MeaningStep(ss: seq<Setting>)
    requires ss != []
    ensures AllMean(ss) <==> Interp(ss[0].value).Some? && AllMean(ss[1..])
    ensures AllMean(ss) ==>
              EntriesOf(ss) == [Entry(StringV(ss[0].key), Interp(ss[0].value).value)] + EntriesOf(ss[1..])
  {
    hide Interp;
    assert forall i :: 0 <= i < |ss| ==> i == 0 || ss[i] == ss[1..][i - 1];
    assert forall i :: 0 <= i < |ss[1..]| ==> ss[1..][i] == ss[i + 1];
  }

  lemma {:induction false} NoSettings()
    ensures AllMean([]) && EntriesOf([]) == [] && Flat([]) == []
  {
  }

  lemma {:induction false} Associate(a: seq<Entry>, e: Entry, b: seq<Entry>)
    ensures a + [e] + b == a + ([e] + b)
  {
  }

  predicate NoneOf(acc: seq<Entry>, ss: seq<Setting>) {
    forall i, j :: 0 <= i < |acc| && 0 <= j < |ss| ==> acc[i].key != StringV(ss[j].key)
  }

  lemma {:induction false} InterpFlat(ss: seq<Setting>, acc: seq<Entry>)
    requires ClientKeys(ss)
    requires NoneOf(acc, ss)
    ensures InterpPairs(Flat(ss), acc) == if AllMean(ss) then Some(acc + EntriesOf(ss)) else None
    decreases |ss|
  {
    hide Interp, AllMean, EntriesOf, Flat, Emplace, ClientKeys, NoneOf;
    if ss == [] {
      NoSettings();
      assert acc + [] == acc;
    } else {
      MeaningStep(ss);
      FlatStep(ss);
      if Interp(ss[0].value).Some? {
        var e := Entry(StringV(ss[0].key), Interp(ss[0].value).value);
        KeysStep(ss, acc, e);
        InterpFlat(ss[1..], acc + [e]);
        if AllMean(ss) { Associate(acc, e, EntriesOf(ss[1..])); }
      }
    }
  }

  lemma {:induction false} FlatStep(ss: seq<Setting>)
    requires ss != []
    ensures var ts := Flat(ss);
            Interp(ts[0]) == Some(StringV(ss[0].key)) && ts[1] == ss[0].value && ts[2..] == Flat(ss[1..])
  {
    TextMeans(ss[0].key);
    hide Interp;
  }

  lemma {:induction false} KeysStep(ss: seq<Setting>, acc: seq<Entry>, e: Entry)
    requires ss != [] && ClientKeys(ss) && e.key == StringV(ss[0].key)
    requires NoneOf(acc, ss)
    ensures Emplace(acc, e.key, e.value) == acc + [e] && ClientKeys(ss[1..])
    ensures NoneOf(acc + [e], ss[1..])
  {
  }

  lemma {:induction false} TextMeans(key: Octets)
    ensures Interp(Cbor.Text(key)) == Some(StringV(key))
  {
  }

  /** The bytes of a client's spec, whatever follows them, apply as its entries
      do. Their values are any items: floats of each width, any string. */
  lemma {:induction false} ClientSpec(ss: seq<Setting>, open: bool, tail: Octets)
    requires ClientKeys(ss) && (open || |ss| <= Cursor.UNKNOWN / 2)
    requires Cbor.Sized(Cbor.Map(Flat(ss), open))
    ensures FromBytes(Cbor.Wire(Cbor.Map(Flat(ss), open)) + tail)
         == if AllMean(ss) then Apply(PairsFor(ss)) else None
  {
    hide Cbor.Wire, Apply, Cbor.Sized, FromBytes, Interp, Named, ClientKeys;
    SpecOnWire(Cbor.Map(Flat(ss), open), tail);
    ClientMeaning(ss, open);
    if AllMean(ss) { ClientNames(ss); }
  }

  lemma {:induction false} ClientMeaning(ss: seq<Setting>, open: bool)
    requires ClientKeys(ss) && (open || |ss| <= Cursor.UNKNOWN / 2)
    ensures Interp(Cbor.Map(Flat(ss), open)) == if AllMean(ss) then Some(MapV(EntriesOf(ss))) else None
  {
    hide InterpPairs, ClientKeys, AllMean;
    InterpFlat(ss, []);
    if AllMean(ss) { assert [] + EntriesOf(ss) == EntriesOf(ss); }
  }

  lemma {:induction false} ClientNames(ss: seq<Setting>)
    requires ClientKeys(ss) && AllMean(ss)
    ensures Named(EntriesOf(ss), []) == Some(PairsFor(ss))
  {
    hide Interp, Named;
    var es := EntriesOf(ss);
    NamedClean(es, []);
    assert [] + PairsOf(es) == PairsOf(es) == PairsFor(ss);
  }

  lemma {:induction false} PairsForExact(ss: seq<Setting>)
    requires ClientKeys(ss) && AllMean(ss)
    ensures DistinctNames(PairsFor(ss))
    ensures forall p :: p in PairsFor(ss) <==> exists s :: s in ss && p == Pair(s.key, Interp(s.value).value)
  {
    hide Interp;
    forall s | s in ss ensures Pair(s.key, Interp(s.value).value) in PairsFor(ss) {
      var i :| 0 <= i < |ss| && ss[i] == s;
      assert PairsFor(ss)[i] == Pair(s.key, Interp(s.value).value);
    }
    forall p | p in PairsFor(ss) ensures exists s :: s in ss && p == Pair(s.key, Interp(s.value).value) {
      var i :| 0 <= i < |ss| && PairsFor(ss)[i] == p;
      assert ss[i] in ss;
    }
  }

  /** In whatever order, and in either length form, the client sends its entries,
      the query is the same. */
  lemma {:induction false} ClientOrderFree(ss: seq<Setting>, us: seq<Setting>, open: bool, open': bool, tail: Octets)
    requires ClientKeys(ss) && ClientKeys(us) && multiset(ss) == multiset(us)
    requires |ss| <= Cursor.UNKNOWN / 2
    requires Cbor.Sized(Cbor.Map(Flat(ss), open)) && Cbor.Sized(Cbor.Map(Flat(us), open'))
    ensures FromBytes(Cbor.Wire(Cbor.Map(Flat(ss), open)) + tail)
         == FromBytes(Cbor.Wire(Cbor.Map(Flat(us), open')) + tail)
  {
    hide Cbor.Wire, Apply, Cbor.Sized, FromBytes, Interp;
    assert |ss| == |multiset(ss)| == |multiset(us)| == |us|;
    ClientSpec(ss, open, tail);
    ClientSpec(us, open', tail);
    forall s ensures s in ss <==> s in us { assert s in multiset(ss) <==> s in multiset(us); }
    assert AllMean(ss) <==> AllMean(us) by {
      assert AllMean(ss) <==> forall s :: s in ss ==> Interp(s.value).Some?;
      assert AllMean(us) <==> forall s :: s in us ==> Interp(s.value).Some?;
    }
    if AllMean(ss) {
      PairsForExact(ss);
      PairsForExact(us);
      MembersDecide(PairsFor(ss), PairsFor(us));
    }
  }
}
