/**
 The Database's query spec from the outside: which entries make which clauses,
 which specs are refused, and what the client's own queries become.
 */
module DatabaseQueryClient {
  import opened Bytes
  import opened Variants
  import opened VariantDecode
  import opened VariantMeaning
  import opened DatabaseQuery
  import Cbor
  import Cursor

  // ---- entry by entry -------------------------------------------------------------------

  predicate IsText(v: Option<Variant>, text: string) {
    v.Some? && v.value.StringV? && Cut(v.value.s) == Ascii(text)
  }

  /** The key beside a bound: none, or a string up to its first NUL. */
  predicate IsKey(v: Option<Variant>, key: Option<Octets>) {
    match key
    case None => v.None?
    case Some(k) => v.Some? && v.value.StringV? && k == Cut(v.value.s)
  }

  lemma {:induction false} Parts(ps: seq<Pair>, c: Clause)
    requires Accepts(ps)
    ensures c in Clauses(ps) <==>
            || c in Ordering(ps)
            || c in BoundOf(Equality, At(ps, "equalTo"), TextOf(At(ps, "equalToKey")))
            || c in BoundOf(Start, At(ps, "startAt"), TextOf(At(ps, "startAtKey")))
            || c in BoundOf(Stop, At(ps, "endAt"), TextOf(At(ps, "endAtKey")))
            || c in LimitOf(At(ps, "limitToFirst"), At(ps, "limitToLast"))
  {
    hide Accepts, Ordering, BoundOf, LimitOf, At, TextOf;
  }

  lemma {:induction false} FourOrders()
    ensures Ascii("key") != Ascii("value") && Ascii("key") != Ascii("priority") && Ascii("key") != Ascii("child")
    ensures Ascii("value") != Ascii("priority") && Ascii("value") != Ascii("child") && Ascii("priority") != Ascii("child")
    ensures 0 !in Ascii("key") && 0 !in Ascii("value") && 0 !in Ascii("priority") && 0 !in Ascii("child")
  {
    assert |Ascii("key")| == 3 && |Ascii("value")| == 5 && |Ascii("priority")| == 8;
    assert |Ascii("child")| == 5 && Ascii("child")[0] == 'c' as int && Ascii("value")[0] == 'v' as int;
    NoNul("child");
    NoNul("key");
    NoNul("value");
    NoNul("priority");
    hide Ascii;
  }

  lemma {:induction false} OrderPart(ps: seq<Pair>, c: Clause)
    requires Accepts(ps) && IsOrder(c)
    ensures c in Clauses(ps) <==> c in Ordering(ps)
  {
    hide Accepts, Ordering, At, TextOf;
    Parts(ps, c);
  }

  /** Each ordering is the one its entry names. */
  lemma {:induction false} OrderingExact(ps: seq<Pair>, c: Clause)
    requires Accepts(ps) && IsOrder(c)
    ensures c in Clauses(ps) <==>
            match c
            case OrderByKey => IsText(At(ps, "orderBy"), "key")
            case OrderByValue => IsText(At(ps, "orderBy"), "value")
            case OrderByPriority => IsText(At(ps, "orderBy"), "priority")
            case OrderByChild(path) => IsText(At(ps, "orderBy"), "child") && IsKey(At(ps, "orderByPath"), Some(path))
            case _ => false
  {
    OrderPart(ps, c);
    OrderingNamed(ps, c);
    hide IsText, IsKey, Ordering, Clauses, At;
  }

  lemma {:induction false} OrderingNamed(ps: seq<Pair>, c: Clause)
    requires LegalOrdering(ps) && IsOrder(c)
    ensures c in Ordering(ps) <==>
            match c
            case OrderByKey => IsText(At(ps, "orderBy"), "key")
            case OrderByValue => IsText(At(ps, "orderBy"), "value")
            case OrderByPriority => IsText(At(ps, "orderBy"), "priority")
            case OrderByChild(path) => IsText(At(ps, "orderBy"), "child") && IsKey(At(ps, "orderByPath"), Some(path))
            case _ => false
  {
    FourOrders();
    hide Ascii, At, Cut;
  }

  lemma {:induction false} BoundPart(ps: seq<Pair>, c: Clause)
    requires Accepts(ps) && !IsOrder(c) && !IsLimit(c)
    ensures c in Clauses(ps) <==>
            || c in BoundOf(Equality, At(ps, "equalTo"), TextOf(At(ps, "equalToKey")))
            || c in BoundOf(Start, At(ps, "startAt"), TextOf(At(ps, "startAtKey")))
            || c in BoundOf(Stop, At(ps, "endAt"), TextOf(At(ps, "endAtKey")))
  {
    Parts(ps, c);
    hide Ascii, At, TextOf, BoundOf, LegalKey, AllKnown;
  }

  /** Each bound is there exactly with its own entry's value and key. */
  lemma {:induction false} BoundsExact(ps: seq<Pair>, v: Variant, key: Option<Octets>)
    requires Accepts(ps)
    ensures EqualTo(v, key) in Clauses(ps) <==> At(ps, "equalTo") == Some(v) && IsKey(At(ps, "equalToKey"), key)
    ensures StartAt(v, key) in Clauses(ps) <==> At(ps, "startAt") == Some(v) && IsKey(At(ps, "startAtKey"), key)
    ensures EndAt(v, key) in Clauses(ps) <==> At(ps, "endAt") == Some(v) && IsKey(At(ps, "endAtKey"), key)
  {
    BoundPart(ps, EqualTo(v, key));
    BoundPart(ps, StartAt(v, key));
    BoundPart(ps, EndAt(v, key));
    hide Ascii, At, AllKnown, LegalLimit, LegalOrdering, Clauses;
  }

  /** Each limit is its own entry's integer. */
  lemma {:induction false} LimitsExact(ps: seq<Pair>)
    requires Accepts(ps)
    ensures forall n :: LimitToFirst(n) in Clauses(ps) <==> At(ps, "limitToFirst") == Some(Int64V(n))
    ensures forall n :: LimitToLast(n) in Clauses(ps) <==> At(ps, "limitToLast") == Some(Int64V(n))
  {
    hide Ascii, At, AllKnown, LegalOrdering, LegalKey;
    forall n ensures LimitToFirst(n) in Clauses(ps) <==> At(ps, "limitToFirst") == Some(Int64V(n)) {
      Parts(ps, LimitToFirst(n));
    }
    forall n ensures LimitToLast(n) in Clauses(ps) <==> At(ps, "limitToLast") == Some(Int64V(n)) {
      Parts(ps, LimitToLast(n));
    }
  }

  predicate IsName(key: Octets) {
    || key == Ascii("orderBy") || key == Ascii("orderByPath")
    || key == Ascii("startAt") || key == Ascii("startAtKey") || key == Ascii("endAt") || key == Ascii("endAtKey")
    || key == Ascii("equalTo") || key == Ascii("equalToKey")
    || key == Ascii("limitToFirst") || key == Ascii("limitToLast")
  }

  predicate TextOrNone(v: Option<Variant>) {
    v.Some? ==> v.value.StringV?
  }

  predicate CountOrNone(v: Option<Variant>) {
    v.Some? ==> v.value.Int64V? && v.value.i >= 1
  }

  /** A spec is accepted exactly when it names nothing but the ten entries, its
      ordering is one of the four, with a path for the child's and none without an
      ordering, an equality has no other bound beside it, a bound's key is a
      string, and it has one limit at most, of at least 1. */
  lemma {:induction false} AcceptsExact(ps: seq<Pair>)
    ensures Apply(ps).Some? <==>
            && (forall i :: 0 <= i < |ps| ==> IsName(ps[i].key))
            && (At(ps, "orderBy").None? ==> At(ps, "orderByPath").None?)
            && (At(ps, "orderBy").Some? ==>
                  || IsText(At(ps, "orderBy"), "key") || IsText(At(ps, "orderBy"), "value")
                  || IsText(At(ps, "orderBy"), "priority")
                  || (IsText(At(ps, "orderBy"), "child")
                      && At(ps, "orderByPath").Some? && At(ps, "orderByPath").value.StringV?))
            && !(At(ps, "equalTo").Some? && At(ps, "startAt").Some?)
            && !(At(ps, "equalTo").Some? && At(ps, "endAt").Some?)
            && (At(ps, "equalTo").Some? ==> TextOrNone(At(ps, "equalToKey")))
            && (At(ps, "startAt").Some? ==> TextOrNone(At(ps, "startAtKey")))
            && (At(ps, "endAt").Some? ==> TextOrNone(At(ps, "endAtKey")))
            && !(At(ps, "limitToFirst").Some? && At(ps, "limitToLast").Some?)
            && CountOrNone(At(ps, "limitToFirst")) && CountOrNone(At(ps, "limitToLast"))
  {
    FourOrders();
    hide Ascii, At, Clauses;
    forall i | 0 <= i < |ps| ensures Known(ps[i].key) <==> IsName(ps[i].key) { TenNames(ps[i].key); }
    hide Known, IsName;
  }

  lemma {:induction false} TenNames(key: Octets)
    ensures Known(key) <==> IsName(key)
  {
    hide Ascii;
    assert |KNOWN| == 10;
    assert KNOWN[0] == "orderBy" && KNOWN[1] == "orderByPath" && KNOWN[2] == "startAt" && KNOWN[3] == "startAtKey";
    assert KNOWN[4] == "endAt" && KNOWN[5] == "endAtKey" && KNOWN[6] == "equalTo" && KNOWN[7] == "equalToKey";
    assert KNOWN[8] == "limitToFirst" && KNOWN[9] == "limitToLast";
  }

  // ---- the client's queries ---------------------------------------------------------------

  datatype Order = ByChild(path: Octets) | ByKey | ByValue | ByPriority

  datatype Bound = Bound(value: Cbor.Item, key: Option<Octets>)

  /** The calls made on a DbQuery, the last of each kind. */
  datatype Request = Request(
    order: Option<Order>, startAt: Option<Bound>, endAt: Option<Bound>, equalTo: Option<Bound>,
    first: Option<I64>, last: Option<I64>)

  const NAMES: seq<string> := ["orderBy", "orderByPath", "startAt", "startAtKey", "endAt", "endAtKey",
                               "equalTo", "equalToKey", "limitToFirst", "limitToLast"]

  function OrderName(o: Option<Order>): Option<Cbor.Item> {
    match o
    case None => None
    case Some(ByChild(_)) => Some(Cbor.Text(Ascii("child")))
    case Some(ByKey) => Some(Cbor.Text(Ascii("key")))
    case Some(ByValue) => Some(Cbor.Text(Ascii("value")))
    case Some(ByPriority) => Some(Cbor.Text(Ascii("priority")))
  }

  function OrderPath(o: Option<Order>): Option<Cbor.Item> {
    match o
    case Some(ByChild(path)) => Some(Cbor.Text(path))
    case _ => None
  }

  function BoundValue(b: Option<Bound>): Option<Cbor.Item> {
    match b case None => None case Some(x) => Some(x.value)
  }

  function BoundKey(b: Option<Bound>): Option<Cbor.Item> {
    match b case Some(Bound(_, Some(key))) => Some(Cbor.Text(key)) case _ => None
  }

  function Count(n: Option<I64>): Option<Cbor.Item> {
    match n case None => None case Some(i) => Some(Cbor.IntItem(i))
  }

  function Values(r: Request): (vals: seq<Option<Cbor.Item>>)
    ensures |vals| == 10
  {
    [OrderName(r.order), OrderPath(r.order), BoundValue(r.startAt), BoundKey(r.startAt),
     BoundValue(r.endAt), BoundKey(r.endAt), BoundValue(r.equalTo), BoundKey(r.equalTo), Count(r.first), Count(r.last)]
  }

  function Listed(names: seq<string>, vals: seq<Option<Cbor.Item>>): (ss: seq<Setting>)
    requires |names| == |vals|
    ensures |ss| <= |names|
  {
    if names == [] then []
    else
      (if vals[0].Some? then [Setting(Ascii(names[0]), vals[0].value)] else []) + Listed(names[1..], vals[1..])
  }

  /** DbQuery._encode: an entry for each call. */
  function Settings(r: Request): (ss: seq<Setting>)
    ensures |ss| <= 10
  {
    Listed(NAMES, Values(r))
  }

  // ---- and what they ask for

  predicate BoundMeans(b: Option<Bound>) {
    b.Some? ==> Interp(b.value.value).Some?
  }

  predicate Legal(r: Request) {
    && BoundMeans(r.startAt) && BoundMeans(r.endAt) && BoundMeans(r.equalTo)
    && !(r.equalTo.Some? && (r.startAt.Some? || r.endAt.Some?))
    && !(r.first.Some? && r.last.Some?)
    && (r.first.Some? ==> r.first.value >= 1)
    && (r.last.Some? ==> r.last.value >= 1)
  }

  function CString(s: Option<Octets>): Option<Octets> {
    match s case None => None case Some(t) => Some(Cut(t))
  }

  function Asked(r: Request): seq<Clause>
    requires Legal(r)
  {
    (match r.order
     case None => []
     case Some(ByChild(path)) => [OrderByChild(Cut(path))]
     case Some(ByKey) => [OrderByKey]
     case Some(ByValue) => [OrderByValue]
     case Some(ByPriority) => [OrderByPriority])
    + (match r.equalTo case None => [] case Some(b) => [EqualTo(Interp(b.value).value, CString(b.key))])
    + (match r.startAt case None => [] case Some(b) => [StartAt(Interp(b.value).value, CString(b.key))])
    + (match r.endAt case None => [] case Some(b) => [EndAt(Interp(b.value).value, CString(b.key))])
    + ((match r.first case None => [] case Some(n) => [LimitToFirst(n)])
       + (match r.last case None => [] case Some(n) => [LimitToLast(n)]))
  }

  // ---- reading them back

  predicate Told(names: seq<string>) {
    && (forall i, j :: 0 <= i < j < |names| ==> Ascii(names[i]) != Ascii(names[j]))
    && (forall i :: 0 <= i < |names| ==> 0 !in Ascii(names[i]))
  }

  lemma {:induction false} NoNul(s: string)
    requires forall i :: 0 <= i < |s| ==> 'A' <= s[i] <= 'z'
    ensures 0 !in Ascii(s)
  {
  }

  /** The names are told apart by their lengths and first letters. */
  lemma {:induction false} NamesApart()
    ensures forall i, j :: 0 <= i < j < 10 ==> Ascii(NAMES[i]) != Ascii(NAMES[j])
  {
    assert |Ascii("orderBy")| == 7 && Ascii("orderBy")[0] == 'o' as int;
    assert |Ascii("startAt")| == 7 && Ascii("startAt")[0] == 's' as int;
    assert |Ascii("equalTo")| == 7 && Ascii("equalTo")[0] == 'e' as int;
    assert |Ascii("startAtKey")| == 10 && Ascii("startAtKey")[0] == 's' as int;
    assert |Ascii("equalToKey")| == 10 && Ascii("equalToKey")[0] == 'e' as int;
    assert |Ascii("orderByPath")| == 11 && Ascii("orderByPath")[0] == 'o' as int;
    assert |Ascii("limitToLast")| == 11 && Ascii("limitToLast")[0] == 'l' as int;
    assert |Ascii("endAt")| == 5 && |Ascii("endAtKey")| == 8 && |Ascii("limitToFirst")| == 12;
    hide Ascii;
  }

  lemma {:induction false} NamesTold()
    ensures Told(NAMES)
  {
    NamesApart();
    NoNul("orderBy"); NoNul("orderByPath"); NoNul("startAt"); NoNul("startAtKey"); NoNul("endAt");
    NoNul("endAtKey"); NoNul("equalTo"); NoNul("equalToKey"); NoNul("limitToFirst"); NoNul("limitToLast");
    hide Ascii;
  }

  lemma {:induction false} ListedMember(names: seq<string>, vals: seq<Option<Cbor.Item>>, s: Setting)
    requires |names| == |vals|
    ensures s in Listed(names, vals) <==>
            exists k :: 0 <= k < |names| && vals[k].Some? && s == Setting(Ascii(names[k]), vals[k].value)
  {
    hide Ascii;
    if names != [] {
      var n, v := names[1..], vals[1..];
      ListedMember(n, v, s);
      if s in Listed(n, v) {
        var k :| 0 <= k < |n| && v[k].Some? && s == Setting(Ascii(n[k]), v[k].value);
        assert n[k] == names[k + 1] && v[k] == vals[k + 1];
      }
      if exists k :: 1 <= k < |names| && vals[k].Some? && s == Setting(Ascii(names[k]), vals[k].value) {
        var k :| 1 <= k < |names| && vals[k].Some? && s == Setting(Ascii(names[k]), vals[k].value);
        assert n[k - 1] == names[k] && v[k - 1] == vals[k];
      }
    }
  }

  lemma {:induction false} ListedKeys(names: seq<string>, vals: seq<Option<Cbor.Item>>)
    requires |names| == |vals| && Told(names)
    ensures ClientKeys(Listed(names, vals))
  {
    hide Ascii;
    if names != [] {
      var n, v := names[1..], vals[1..];
      ListedKeys(n, v);
      var us := Listed(n, v);
      forall i | 0 <= i < |us| ensures us[i].key != Ascii(names[0]) {
        ListedMember(n, v, us[i]);
        assert us[i] in us;
        var k :| 0 <= k < |n| && v[k].Some? && us[i] == Setting(Ascii(n[k]), v[k].value);
        assert n[k] == names[k + 1];
      }
    }
  }

  /** Under each name stands its own value. */
  lemma {:induction false} ListedAt(names: seq<string>, vals: seq<Option<Cbor.Item>>, k: nat)
    requires |names| == |vals| && Told(names) && k < |names| && AllMean(Listed(names, vals))
    ensures vals[k].Some? ==> Interp(vals[k].value).Some?
    ensures At(PairsFor(Listed(names, vals)), names[k])
         == if vals[k].None? then None else Some(Interp(vals[k].value).value)
  {
    hide Ascii, Interp, Find;
    var ss := Listed(names, vals);
    var ps, key := PairsFor(ss), Ascii(names[k]);
    ListedKeys(names, vals);
    PairsForExact(ss);
    match vals[k] {
      case Some(x) =>
        var s := Setting(key, x);
        ListedMember(names, vals, s);
        assert s in ss;
        FindExact(ps, key, Interp(x).value);
      case None =>
        match Find(ps, key) {
          case None =>
          case Some(v) =>
            FindExact(ps, key, v);
            var s :| s in ss && Pair(key, v) == Pair(s.key, Interp(s.value).value);
            ListedMember(names, vals, s);
        }
    }
  }

  lemma {:induction false} SettingsMean(r: Request)
    ensures AllMean(Settings(r)) <==> BoundMeans(r.startAt) && BoundMeans(r.endAt) && BoundMeans(r.equalTo)
  {
    var vals := Values(r);
    assert AllMean(Settings(r)) <==> forall k :: 0 <= k < 10 && vals[k].Some? ==> Interp(vals[k].value).Some? by {
      hide Ascii, Interp, Values;
      if AllMean(Settings(r)) {
        forall k | 0 <= k < 10 && vals[k].Some? ensures Interp(vals[k].value).Some? {
          ListedMember(NAMES, vals, Setting(Ascii(NAMES[k]), vals[k].value));
        }
      }
      if forall k :: 0 <= k < 10 && vals[k].Some? ==> Interp(vals[k].value).Some? {
        forall i | 0 <= i < |Settings(r)| ensures Interp(Settings(r)[i].value).Some? {
          ListedMember(NAMES, vals, Settings(r)[i]);
          assert Settings(r)[i] in Settings(r);
        }
      }
    }
    hide Ascii, Settings, AllMean;
    forall k | 0 <= k < 10 && k != 2 && k != 4 && k != 6 && vals[k].Some? ensures Interp(vals[k].value).Some? {
      PlainMeans(vals[k].value);
    }
    assert vals[2] == BoundValue(r.startAt) && vals[4] == BoundValue(r.endAt) && vals[6] == BoundValue(r.equalTo);
  }

  lemma {:induction false} PlainMeans(t: Cbor.Item)
    requires t.Text? || t.UInt? || t.NInt?
    ensures Interp(t).Some?
  {
  }

  /** The pairs the native side finds for a client's calls. */
  predicate Found(ps: seq<Pair>, r: Request) {
    && (forall i :: 0 <= i < |ps| ==> IsName(ps[i].key))
    && At(ps, "orderBy") == Meant(OrderName(r.order))
    && At(ps, "orderByPath") == Meant(OrderPath(r.order))
    && At(ps, "startAt") == Meant(BoundValue(r.startAt)) && At(ps, "startAtKey") == Meant(BoundKey(r.startAt))
    && At(ps, "endAt") == Meant(BoundValue(r.endAt)) && At(ps, "endAtKey") == Meant(BoundKey(r.endAt))
    && At(ps, "equalTo") == Meant(BoundValue(r.equalTo)) && At(ps, "equalToKey") == Meant(BoundKey(r.equalTo))
    && At(ps, "limitToFirst") == Meant(Count(r.first)) && At(ps, "limitToLast") == Meant(Count(r.last))
  }

  function Meant(t: Option<Cbor.Item>): Option<Variant> {
    match t case None => None case Some(x) => Interp(x)
  }

  lemma {:induction false} SettingsFound(r: Request)
    requires AllMean(Settings(r))
    ensures Found(PairsFor(Settings(r)), r)
  {
    hide At, Ascii, Meant, IsName, Settings, AllMean, PairsFor, OrderName, OrderPath, BoundValue, BoundKey, Count;
    FoundAt(r, 0, "orderBy");
    FoundAt(r, 1, "orderByPath");
    FoundAt(r, 2, "startAt");
    FoundAt(r, 3, "startAtKey");
    FoundAt(r, 4, "endAt");
    FoundAt(r, 5, "endAtKey");
    FoundAt(r, 6, "equalTo");
    FoundAt(r, 7, "equalToKey");
    FoundAt(r, 8, "limitToFirst");
    FoundAt(r, 9, "limitToLast");
    FoundNames(r);
  }

  lemma {:induction false} FoundAt(r: Request, k: nat, name: string)
    requires AllMean(Settings(r)) && k < 10 && NAMES[k] == name
    ensures At(PairsFor(Settings(r)), name) == Meant(Values(r)[k])
  {
    hide Ascii, At, Interp, Values;
    NamesTold();
    ListedAt(NAMES, Values(r), k);
  }

  lemma {:induction false} FoundNames(r: Request)
    requires AllMean(Settings(r))
    ensures forall i :: 0 <= i < |PairsFor(Settings(r))| ==> IsName(PairsFor(Settings(r))[i].key)
  {
    hide Ascii, IsName, Values, Interp;
    var ps := PairsFor(Settings(r));
    forall i | 0 <= i < |ps| ensures IsName(ps[i].key) {
      var s := Settings(r)[i];
      assert s in Settings(r);
      ListedMember(NAMES, Values(r), s);
      ListedName(s, Values(r));
    }
  }

  lemma {:induction false} ListedName(s: Setting, vals: seq<Option<Cbor.Item>>)
    requires |vals| == 10
    requires exists k :: 0 <= k < |NAMES| && vals[k].Some? && s == Setting(Ascii(NAMES[k]), vals[k].value)
    ensures IsName(s.key)
  {
    hide Ascii;
  }

  lemma {:induction false} CountMeans(n: Option<I64>)
    ensures Meant(Count(n)) == match n case None => None case Some(i) => Some(Int64V(i))
  {
  }

  lemma {:induction false} KeyMeans(b: Option<Bound>)
    ensures Meant(BoundKey(b)) == match b case Some(Bound(_, Some(key))) => Some(StringV(key)) case _ => None
  {
  }

  lemma {:induction false} OrderMeans(o: Option<Order>)
    ensures Meant(OrderName(o)) == match o
                                   case None => None
                                   case Some(ByChild(_)) => Some(StringV(Ascii("child")))
                                   case Some(ByKey) => Some(StringV(Ascii("key")))
                                   case Some(ByValue) => Some(StringV(Ascii("value")))
                                   case Some(ByPriority) => Some(StringV(Ascii("priority")))
    ensures Meant(OrderPath(o)) == match o case Some(ByChild(path)) => Some(StringV(path)) case _ => None
  {
    hide Ascii;
  }

  lemma {:induction false} FoundAccepted(ps: seq<Pair>, r: Request)
    requires Found(ps, r) && BoundMeans(r.startAt) && BoundMeans(r.endAt) && BoundMeans(r.equalTo)
    ensures Apply(ps).Some? <==> Legal(r)
  {
    CountMeans(r.first);
    CountMeans(r.last);
    KeyMeans(r.startAt);
    KeyMeans(r.endAt);
    KeyMeans(r.equalTo);
    OrderMeans(r.order);
    FourOrders();
    AcceptsExact(ps);
    hide Ascii, Interp, At, Apply, IsName, Count, BoundKey, OrderName, OrderPath;
  }

  lemma {:induction false} FoundClauses(ps: seq<Pair>, r: Request)
    requires Found(ps, r) && Legal(r) && Accepts(ps)
    ensures Clauses(ps) == Asked(r)
  {
    CountMeans(r.first);
    CountMeans(r.last);
    KeyMeans(r.startAt);
    KeyMeans(r.endAt);
    KeyMeans(r.equalTo);
    FoundOrdering(ps, r);
    hide Ascii, Interp, At, AllKnown, Count, BoundKey, OrderName, OrderPath, LegalOrdering, Ordering, LegalKey;
  }

  lemma {:induction false} FoundOrdering(ps: seq<Pair>, r: Request)
    requires Found(ps, r) && LegalOrdering(ps)
    ensures Ordering(ps) == match r.order
                            case None => []
                            case Some(ByChild(path)) => [OrderByChild(Cut(path))]
                            case Some(ByKey) => [OrderByKey]
                            case Some(ByValue) => [OrderByValue]
                            case Some(ByPriority) => [OrderByPriority]
  {
    OrderTexts(ps, r);
    FourOrders();
    hide Ascii, At, Found, TextOf, Cut, LegalOrdering;
  }

  lemma {:induction false} OrderTexts(ps: seq<Pair>, r: Request)
    requires Found(ps, r)
    ensures At(ps, "orderBy").None? <==> r.order.None?
    ensures r.order.Some? ==> TextOf(At(ps, "orderBy")) == match r.order.value
                                                           case ByChild(_) => Some(Ascii("child"))
                                                           case ByKey => Some(Ascii("key"))
                                                           case ByValue => Some(Ascii("value"))
                                                           case ByPriority => Some(Ascii("priority"))
    ensures r.order.Some? && r.order.value.ByChild? ==> TextOf(At(ps, "orderByPath")) == Some(Cut(r.order.value.path))
  {
    OrderMeans(r.order);
    assert At(ps, "orderBy") == Meant(OrderName(r.order)) && At(ps, "orderByPath") == Meant(OrderPath(r.order));
    FourOrders();
    hide Ascii, At, Found, OrderName, OrderPath, Meant;
  }

  /** The bytes of any client query, in either length form and whatever follows
      them: the clauses that were asked for, or a refusal exactly when an equality
      has another bound beside it, there are two limits or one below 1, or the
      value of a bound has no meaning. */
  lemma {:induction false} ClientQuery(r: Request, open: bool, tail: Octets)
    requires Cbor.Sized(Cbor.Map(Flat(Settings(r)), open))
    ensures FromBytes(Cbor.Wire(Cbor.Map(Flat(Settings(r)), open)) + tail)
         == if Legal(r) then Some(Asked(r)) else None
  {
    hide Cbor.Wire, Cbor.Sized, FromBytes, Settings, Values, Told, Found, Asked, AllMean, BoundMeans, Accepts, Clauses;
    var ss := Settings(r);
    assert ClientKeys(ss) by {
      NamesTold();
      SettingsListed(r);
      ListedKeys(NAMES, Values(r));
    }
    hide ClientKeys;
    ClientSpec(ss, open, tail);
    SettingsMean(r);
    if AllMean(ss) {
      SettingsFound(r);
      FoundAccepted(PairsFor(ss), r);
      if Legal(r) { FoundClauses(PairsFor(ss), r); }
    }
  }

  lemma {:induction false} SettingsListed(r: Request)
    ensures Settings(r) == Listed(NAMES, Values(r))
  {
  }
}
