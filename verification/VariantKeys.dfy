/**
 Repeated keys in a Variant map, and in the string-keyed map made of one: the
 first of them keeps its value, each time.
 */
module VariantKeys {
  import opened Bytes
  import opened Cbor
  import opened Cursor
  import opened Walk
  import opened Variants
  import opened VariantDecode
  import opened VariantMeaning

  lemma {:induction false} TwoSaid(ts: seq<Item>)
    requires |ts| >= 2 && AllAcceptable(ts) && AllSized(ts)
    ensures Interp(ts[0]).Some? && Interp(ts[1]).Some? && AllAcceptable(ts[2..]) && AllSized(ts[2..])
  {
    var us := ts[1..];
    assert us[0] == ts[1] && us[1..] == ts[2..];
    assert AllAcceptable(us) && AllSized(us) && Sized(us[0]) && Acceptable(us[0]);
    hide Interp;
    InterpExact(ts[0]);
    InterpExact(us[0]);
  }

  /** The entries an item list says, repeated keys and all. */
  function Said(ts: seq<Item>): (es: seq<Entry>)
    requires |ts| % 2 == 0 && AllAcceptable(ts) && AllSized(ts)
    ensures |es| == |ts| / 2
  {
    if ts == [] then []
    else
      TwoSaid(ts);
      [Entry(Interp(ts[0]).value, Interp(ts[1]).value)] + Said(ts[2..])
  }

  /** An entry that no earlier one shares its key with. */
  predicate First(es: seq<Entry>, e: Entry) {
    exists i :: 0 <= i < |es| && es[i] == e && forall j :: 0 <= j < i ==> es[j].key != e.key
  }

  lemma {:induction false} FirstStep(es: seq<Entry>, e: Entry)
    requires es != []
    ensures First(es, e) <==> e == es[0] || (First(es[1..], e) && e.key != es[0].key)
  {
    if First(es[1..], e) && e.key != es[0].key {
      var i :| 0 <= i < |es[1..]| && es[1..][i] == e && forall j :: 0 <= j < i ==> es[1..][j].key != e.key;
      forall j | 0 <= j < i + 1 ensures es[j].key != e.key {
        if j > 0 { assert es[1..][j - 1] == es[j]; }
      }
      assert es[i + 1] == e;
    }
    if First(es, e) && e != es[0] {
      var i :| 0 <= i < |es| && es[i] == e && forall j :: 0 <= j < i ==> es[j].key != e.key;
      assert es[1..][i - 1] == e;
    }
  }

  lemma {:induction false} NextHas(acc: seq<Entry>, g: Entry, e: Entry)
    ensures var next := Emplace(acc, g.key, g.value);
            && (HasKey(next, e.key) <==> HasKey(acc, e.key) || e.key == g.key)
            && (e in next <==> e in acc || (e == g && !HasKey(acc, g.key)))
            && (DistinctKeys(acc) ==> DistinctKeys(next))
  {
    var next := Emplace(acc, g.key, g.value);
    if HasKey(acc, e.key) {
      var i :| 0 <= i < |acc| && acc[i].key == e.key;
      assert next[i] == acc[i];
    }
    if !HasKey(acc, g.key) { assert next[|acc|] == g; }
  }

  lemma {:induction false} FirstKept(ts: seq<Item>, acc: seq<Entry>)
    requires |ts| % 2 == 0 && AllAcceptable(ts) && AllSized(ts) && DistinctKeys(acc)
    ensures InterpPairs(ts, acc).Some? && DistinctKeys(InterpPairs(ts, acc).value)
    ensures forall e :: e in InterpPairs(ts, acc).value <==> e in acc || (First(Said(ts), e) && !HasKey(acc, e.key))
    decreases |ts|
  {
    if ts != [] {
      TwoSaid(ts);
      hide Interp, First, HasKey, Emplace, DistinctKeys, Acceptable, Sized;
      var g, es := Entry(Interp(ts[0]).value, Interp(ts[1]).value), Said(ts);
      assert es[0] == g && es[1..] == Said(ts[2..]);
      var next := Emplace(acc, g.key, g.value);
      NextHas(acc, g, g);
      FirstKept(ts[2..], next);
      forall e ensures e in next || (First(es[1..], e) && !HasKey(next, e.key))
                  <==> e in acc || (First(es, e) && !HasKey(acc, e.key)) {
        FirstStep(es, e);
        NextHas(acc, g, e);
      }
    } else {
      hide HasKey, Emplace, DistinctKeys;
      assert Said(ts) == [];
    }
  }

  /** A decoded map, in any container and before any bytes, has each key once,
      with the value of its first occurrence. */
  lemma {:induction false} FirstWins(c: Cursor, t: Item, tail: Octets)
    requires c.At? && Sized(t) && t.Map? && Acceptable(t) && c.rest == Wire(t) + tail && Past(c, tail).Some?
    ensures Value(c).Got? && Value(c).value.MapV?
    ensures var es := Value(c).value.entries;
            DistinctKeys(es) && forall e :: e in es <==> First(Said(t.items), e)
  {
    assert AllSized(t.items) && |t.items| % 2 == 0 && AllAcceptable(t.items);
    assert Countable(t) && Interp(t) == MapOf(InterpPairs(t.items, []));
    hide Wire, ReadHead, Value, Interp, InterpPairs, First, Past, Sized, AllSized, Acceptable, AllAcceptable;
    FirstKept(t.items, []);
    ValueOnWire(c, t, tail);
  }

  // ---- under C string keys -------------------------------------------------------------------

  /** An entry that no earlier one shares its key with, up to the first NUL. */
  predicate FirstNamed(es: seq<Entry>, p: Pair)
    requires AllNamed(es)
  {
    exists i :: 0 <= i < |es| && p == Pair(Cut(es[i].key.s), es[i].value)
                && forall j :: 0 <= j < i ==> Cut(es[j].key.s) != p.key
  }

  predicate AllNamed(es: seq<Entry>) {
    forall i :: 0 <= i < |es| ==> es[i].key.StringV?
  }

  lemma {:induction false} FirstNamedStep(es: seq<Entry>, p: Pair)
    requires es != [] && AllNamed(es)
    ensures AllNamed(es[1..])
    ensures var g := Pair(Cut(es[0].key.s), es[0].value);
            FirstNamed(es, p) <==> p == g || (FirstNamed(es[1..], p) && p.key != g.key)
  {
    hide Cut;
    var us, g := es[1..], Pair(Cut(es[0].key.s), es[0].value);
    if FirstNamed(us, p) && p.key != g.key {
      var i :| 0 <= i < |us| && p == Pair(Cut(us[i].key.s), us[i].value)
               && forall j :: 0 <= j < i ==> Cut(us[j].key.s) != p.key;
      forall j | 0 <= j < i + 1 ensures Cut(es[j].key.s) != p.key {
        if j > 0 { assert us[j - 1] == es[j]; }
      }
      assert us[i] == es[i + 1];
    }
    if FirstNamed(es, p) && p != g {
      var i :| 0 <= i < |es| && p == Pair(Cut(es[i].key.s), es[i].value)
               && forall j :: 0 <= j < i ==> Cut(es[j].key.s) != p.key;
      assert us[i - 1] == es[i];
      forall j | 0 <= j < i - 1 ensures Cut(us[j].key.s) != p.key { assert us[j] == es[j + 1]; }
    }
  }

  lemma {:induction false} NextNamed(acc: seq<Pair>, g: Pair, p: Pair)
    ensures var next := if HasName(acc, g.key) then acc else acc + [g];
            && (HasName(next, p.key) <==> HasName(acc, p.key) || p.key == g.key)
            && (p in next <==> p in acc || (p == g && !HasName(acc, g.key)))
  {
    var next := if HasName(acc, g.key) then acc else acc + [g];
    if HasName(acc, p.key) {
      var i :| 0 <= i < |acc| && acc[i].key == p.key;
      assert next[i] == acc[i];
    }
    if !HasName(acc, g.key) { assert next[|acc|] == g; }
  }

  lemma {:induction false} NamedKept(es: seq<Entry>, acc: seq<Pair>)
    requires AllNamed(es)
    ensures Named(es, acc).Some?
    ensures forall p :: p in Named(es, acc).value <==> p in acc || (FirstNamed(es, p) && !HasName(acc, p.key))
  {
    hide Cut, HasName, FirstNamed;
    if es != [] {
      var g := Pair(Cut(es[0].key.s), es[0].value);
      var next := if HasName(acc, g.key) then acc else acc + [g];
      assert AllNamed(es[1..]);
      NamedKept(es[1..], next);
      forall p ensures p in next || (FirstNamed(es[1..], p) && !HasName(next, p.key))
                  <==> p in acc || (FirstNamed(es, p) && !HasName(acc, p.key)) {
        FirstNamedStep(es, p);
        NextNamed(acc, g, p);
      }
    } else {
      assert forall p :: !FirstNamed(es, p) by { forall p ensures !FirstNamed(es, p) { NoneNamed(p); } }
    }
  }

  lemma {:induction false} NoneNamed(p: Pair)
    ensures AllNamed([]) && !FirstNamed([], p)
  {
  }

  /** A string-keyed map has a pair for exactly the entries that no earlier one
      shares its name with, and there is one exactly when every key is a string. */
  lemma {:induction false} FirstNameWins(es: seq<Entry>)
    ensures Named(es, []).Some? <==> AllNamed(es)
    ensures AllNamed(es) ==> forall p :: p in Named(es, []).value <==> FirstNamed(es, p)
  {
    if AllNamed(es) {
      hide Named, FirstNamed, HasName;
      NamedKept(es, []);
      forall p ensures !HasName([], p) { NoName(p); }
    } else {
      NotNamed(es, []);
    }
  }

  lemma {:induction false} NoName(key: Octets)
    ensures !HasName([], key)
  {
  }

  lemma {:induction false} NotNamed(es: seq<Entry>, acc: seq<Pair>)
    requires !AllNamed(es)
    ensures Named(es, acc).None?
  {
    hide Cut, HasName;
    if es[0].key.StringV? {
      var i :| 0 <= i < |es| && !es[i].key.StringV?;
      assert es[1..][i - 1] == es[i];
      var g := Pair(Cut(es[0].key.s), es[0].value);
      NotNamed(es[1..], if HasName(acc, g.key) then acc else acc + [g]);
    }
  }
}
