/**
 What a CBOR item means as a Variant, and the law of the codec: decoding what
 the encoder wrote gives the normal form, at any cursor and before any bytes.
 */
module VariantMeaning {
  import opened Bytes
  import opened Cbor
  import opened Cursor
  import opened Walk
  import opened Variants
  import opened VariantDecode

  function VectorOf(vs: Option<seq<Variant>>): Option<Variant> {
    match vs case Some(x) => Some(VectorV(x)) case None => None
  }

  function MapOf(es: Option<seq<Entry>>): Option<Variant> {
    match es case Some(x) => Some(MapV(x)) case None => None
  }

  function Interp(t: Item): Option<Variant>
    decreases t, 0
  {
    match t
    case UInt(n) => Some(Int64V(ToI64(false, n)))
    case NInt(n) => Some(Int64V(ToI64(true, n)))
    case Blob(s) => Some(BlobV(s))
    case Text(s) => Some(StringV(s))
    case Array(ts, _) => if Countable(t) then VectorOf(InterpAll(ts)) else None
    case Map(ts, _) => if Countable(t) then MapOf(InterpPairs(ts, [])) else None
    case Tagged(_, _) => None
    case Simple(_) => None
    case Bool(b) => Some(BoolV(b))
    case Null => Some(NullV)
    case Undefined => Some(NullV)
    case Half(h) => Some(DoubleV(FromHalf(h)))
    case Single(s) => Some(DoubleV(FromSingle(s)))
    case Double(d) => Some(DoubleV(Bits(d)))
  }

  function InterpAll(ts: seq<Item>): Option<seq<Variant>>
    decreases ts, 1
  {
    if ts == [] then Some([])
    else if Interp(ts[0]).None? || InterpAll(ts[1..]).None? then None
    else Some([Interp(ts[0]).value] + InterpAll(ts[1..]).value)
  }

  /** Keys and values alternating; any variant is a key, the first of a key wins. */
  function InterpPairs(ts: seq<Item>, acc: seq<Entry>): Option<seq<Entry>>
    decreases ts, 1
  {
    if ts == [] then Some(acc)
    else if |ts| == 1 || Interp(ts[0]).None? || Interp(ts[1]).None? then None
    else InterpPairs(ts[2..], Emplace(acc, Interp(ts[0]).value, Interp(ts[1]).value))
  }

  /** No tag and no unassigned simple value at any depth, keys included, and
      every count one the reader can hold. */
  predicate Acceptable(t: Item)
    decreases t, 0
  {
    match t
    case Array(ts, _) => Countable(t) && AllAcceptable(ts)
    case Map(ts, _) => Countable(t) && AllAcceptable(ts)
    case Tagged(_, _) => false
    case Simple(_) => false
    case _ => true
  }

  predicate AllAcceptable(ts: seq<Item>)
    decreases ts, 1
  {
    ts == [] || (Acceptable(ts[0]) && AllAcceptable(ts[1..]))
  }

  lemma {:induction false} InterpExact(t: Item)
    requires Sized(t)
    ensures Interp(t).Some? <==> Acceptable(t)
    decreases t, 0
  {
    match t {
      case Array(ts, _) => InterpAllExact(ts);
      case Map(ts, _) => InterpPairsExact(ts, []);
      case _ =>
    }
  }

  lemma {:induction false} InterpAllExact(ts: seq<Item>)
    requires AllSized(ts)
    ensures InterpAll(ts).Some? <==> AllAcceptable(ts)
    decreases ts, 1
  {
    if ts != [] {
      InterpExact(ts[0]);
      InterpAllExact(ts[1..]);
    }
  }

  lemma {:induction false} InterpPairsExact(ts: seq<Item>, acc: seq<Entry>)
    requires AllSized(ts) && |ts| % 2 == 0
    ensures InterpPairs(ts, acc).Some? <==> AllAcceptable(ts)
    decreases ts, 1
  {
    if ts != [] {
      var us := ts[1..];
      assert us[0] == ts[1] && us[1..] == ts[2..];
      InterpExact(ts[0]);
      InterpExact(ts[1]);
      if Interp(ts[0]).Some? && Interp(ts[1]).Some? {
        InterpPairsExact(ts[2..], Emplace(acc, Interp(ts[0]).value, Interp(ts[1]).value));
      }
    }
  }

  // ---- the decoder does what the item means -----------------------------------------

  function Reads<T>(m: Option<T>, next: Option<Cursor>): Out<T> {
    if m.Some? then Then(m.value, next) else Refused
  }

  lemma {:induction false} IntegerOnWire(c: Cursor, t: Item, tail: Octets)
    requires c.At? && Sized(t) && c.rest == Wire(t) + tail
    requires t.UInt? || t.NInt?
    ensures Value(c) == Reads(Interp(t), Past(c, tail))
  {
    hide Wire, ReadHead, WireAll, AllSized, StringAt, TakeString, Enter, Here, Past, List, Dictionary;
    hide InterpAll, InterpPairs, ToI64, Width, Info, GetFloat;
    AtItem(c, t, tail);
    ScalarStep(c, t, tail);
  }

  lemma {:induction false} FloatOnWire(c: Cursor, t: Item, tail: Octets)
    requires c.At? && Sized(t) && c.rest == Wire(t) + tail
    requires t.Half? || t.Single? || t.Double?
    ensures Value(c) == Reads(Interp(t), Past(c, tail))
  {
    hide Wire, ReadHead, WireAll, AllSized, StringAt, TakeString, Enter, Here, Past, List, Dictionary;
    hide InterpAll, InterpPairs;
    AtItem(c, t, tail);
    ScalarStep(c, t, tail);
  }

  lemma {:induction false} SimpleOnWire(c: Cursor, t: Item, tail: Octets)
    requires c.At? && Sized(t) && c.rest == Wire(t) + tail
    requires t.Simple? || t.Bool? || t.Null? || t.Undefined?
    ensures Value(c) == Reads(Interp(t), Past(c, tail))
  {
    hide Wire, ReadHead, WireAll, AllSized, StringAt, TakeString, Enter, Here, Past, List, Dictionary;
    hide InterpAll, InterpPairs;
    AtItem(c, t, tail);
    ScalarStep(c, t, tail);
  }

  lemma {:induction false} StringOnWire(c: Cursor, t: Item, tail: Octets)
    requires c.At? && Sized(t) && c.rest == Wire(t) + tail
    requires t.Text? || t.Blob?
    ensures Value(c) == Reads(Interp(t), Past(c, tail))
  {
    hide Wire, ReadHead, WireAll, StringAt, TakeString, Enter, Here, Past, List, Dictionary, InterpAll, InterpPairs;
    hide Width, ToI64;
    AtItem(c, t, tail);
    StringStep(c, t, tail);
  }

  /** The decoder gives an item its meaning and stops right behind it, or
      refuses an item without one. */
  lemma {:induction false} ValueOnWire(c: Cursor, t: Item, tail: Octets)
    requires c.At? && Sized(t) && c.rest == Wire(t) + tail
    ensures Value(c) == Reads(Interp(t), Past(c, tail))
    decreases t, 0
  {
    hide Wire, ReadHead, WireAll, StringAt, TakeString, Enter, Here, Past, List, Dictionary, InterpAll, InterpPairs;
    match t {
      case Array(_, _) => AtItem(c, t, tail); ListOnWire(c, t, tail);
      case Map(_, _) => AtItem(c, t, tail); DictionaryOnWire(c, t, tail);
      case Tagged(_, _) => AtItem(c, t, tail);
      case Blob(_) => StringOnWire(c, t, tail);
      case Text(_) => StringOnWire(c, t, tail);
      case UInt(_) => IntegerOnWire(c, t, tail);
      case NInt(_) => IntegerOnWire(c, t, tail);
      case Half(_) => FloatOnWire(c, t, tail);
      case Single(_) => FloatOnWire(c, t, tail);
      case Double(_) => FloatOnWire(c, t, tail);
      case _ => SimpleOnWire(c, t, tail);
    }
  }

  lemma {:induction false} ListOnWire(c: Cursor, t: Item, tail: Octets)
    requires c.At? && Sized(t) && t.Array? && c.rest == Wire(t) + tail
    ensures c.IsArray() && (Enter(c).Some? <==> Countable(t))
    ensures Countable(t) ==> List(c, Enter(c).value) == Reads(Interp(t), Past(c, tail))
    decreases t.items, 2
  {
    hide Wire, ReadHead, WireAll, Enter, Here, Values, Past, InterpPairs, InterpAll, Value;
    assert Countable(t) ==> Interp(t) == VectorOf(InterpAll(t.items));
    hide Interp;
    EnterStep(c, t, tail);
    if Countable(t) {
      ValuesOnWire(Enter(c).value, t.items, t.open, tail, []);
      LeaveStep(c, t, tail);
      if InterpAll(t.items).Some? { AfterNone(InterpAll(t.items).value); }
    }
  }

  lemma {:induction false} AfterNone(vs: seq<Variant>)
    ensures [] + vs == vs
  {
  }

  lemma {:induction false} ValuesOnWire(c: Cursor, ts: seq<Item>, open: bool, tail: Octets, acc: seq<Variant>)
    requires AllSized(ts) && Over(c, ts, open, tail)
    ensures Values(c, acc) == if InterpAll(ts).None? then Refused
                              else Got(acc + InterpAll(ts).value, End(Close(open) + tail, open))
    decreases ts, 1
  {
    hide Wire, ReadHead, WireAll, Here, Value, Interp;
    if ts == [] {
      assert acc + [] == acc;
    } else {
      OverStep(c, ts, open, tail);
      var rest := Remaining(ts[1..], open, tail);
      ValueOnWire(c, ts[0], rest);
      if Interp(ts[0]).Some? {
        var v := Interp(ts[0]).value;
        ValuesOnWire(Past(c, rest).value, ts[1..], open, tail, acc + [v]);
        if InterpAll(ts[1..]).Some? {
          assert acc + [v] + InterpAll(ts[1..]).value == acc + ([v] + InterpAll(ts[1..]).value);
        }
      }
    }
  }

  lemma {:induction false} DictionaryOnWire(c: Cursor, t: Item, tail: Octets)
    requires c.At? && Sized(t) && t.Map? && c.rest == Wire(t) + tail
    ensures c.IsMap() && (Enter(c).Some? <==> Countable(t))
    ensures Countable(t) ==> Dictionary(c, Enter(c).value) == Reads(Interp(t), Past(c, tail))
    decreases t.items, 2
  {
    hide Wire, ReadHead, WireAll, Enter, Here, Entries, Past, InterpPairs, InterpAll, Value;
    assert Countable(t) ==> Interp(t) == MapOf(InterpPairs(t.items, []));
    hide Interp;
    EnterStep(c, t, tail);
    if Countable(t) {
      EntriesOnWire(Enter(c).value, t.items, t.open, tail, []);
      LeaveStep(c, t, tail);
    }
  }

  lemma {:induction false} EntriesOnWire(c: Cursor, ts: seq<Item>, open: bool, tail: Octets, acc: seq<Entry>)
    requires AllSized(ts) && |ts| % 2 == 0 && Over(c, ts, open, tail)
    ensures Entries(c, acc) == Reads(InterpPairs(ts, acc), Some(End(Close(open) + tail, open)))
    decreases ts, 1
  {
    hide Wire, ReadHead, WireAll, Here, Value, Past, Emplace, Interp;
    if ts != [] {
      SecondStep(c, ts, open, tail);
      var rest, rest2 := Remaining(ts[1..], open, tail), Remaining(ts[2..], open, tail);
      ValueOnWire(c, ts[0], rest);
      if Interp(ts[0]).Some? {
        var d := Past(c, rest).value;
        ValueOnWire(d, ts[1], rest2);
        if Interp(ts[1]).Some? {
          EntriesOnWire(Past(d, rest2).value, ts[2..], open, tail, Emplace(acc, Interp(ts[0]).value, Interp(ts[1]).value));
        }
      }
    }
  }

  // ---- decoding what was encoded ------------------------------------------------------

  /** Every container is one the reader can count: arrays below 2^32 - 1 items,
      maps up to 2^31 - 1 pairs. */
  predicate Fits(v: Variant)
    decreases v, 0
  {
    match v
    case VectorV(vs) => |vs| < UNKNOWN && AllFit(vs)
    case MapV(es) => |es| <= UNKNOWN / 2 && EachFits(es)
    case _ => true
  }

  predicate AllFit(vs: seq<Variant>)
    decreases vs, 1
  {
    vs == [] || (Fits(vs[0]) && AllFit(vs[1..]))
  }

  predicate EachFits(es: seq<Entry>)
    decreases es, 1
  {
    es == [] || (
      assert es[0].value < es[0];
      Fits(es[0].value) && EachFits(es[1..]))
  }

  lemma {:induction false} InterpItemOf(v: Variant)
    requires Valid(v)
    ensures Interp(ItemOf(v)) == if Fits(v) then Some(Norm(v)) else None
    decreases v, 0
  {
    match v {
      case VectorV(vs) => InterpItemsOf(vs);
      case MapV(es) => InterpFlatOf(es, []);
      case _ =>
    }
  }

  lemma {:induction false} InterpItemsOf(vs: seq<Variant>)
    requires AllValid(vs)
    ensures InterpAll(ItemsOf(vs)) == if AllFit(vs) then Some(NormAll(vs)) else None
    decreases vs, 1
  {
    if vs != [] {
      InterpItemOf(vs[0]);
      InterpItemsOf(vs[1..]);
      assert ItemsOf(vs)[1..] == ItemsOf(vs[1..]);
    }
  }

  lemma {:induction false} InterpFlatOf(es: seq<Entry>, acc: seq<Entry>)
    requires EachValid(es)
    ensures InterpPairs(FlatOf(es), acc) == if EachFits(es) then Some(NormEach(es, acc)) else None
    decreases es, 1
  {
    if es != [] {
      assert es[0].value < es[0];
      var k, x := KeyItem(es[0].key), ItemOf(es[0].value);
      InterpItemOf(es[0].value);
      assert Interp(k) == Some(NormKey(es[0].key));
      assert FlatOf(es)[0] == k && FlatOf(es)[1] == x && FlatOf(es)[2..] == FlatOf(es[1..]);
      if Fits(es[0].value) {
        InterpFlatOf(es[1..], Emplace(acc, NormKey(es[0].key), Norm(es[0].value)));
      }
    }
  }

  /** What is decoded in front of any further bytes, in any container, is the
      normal form of what was encoded, and exactly its bytes are consumed. */
  lemma {:induction false} NormalForm(c: Cursor, v: Variant, tail: Octets)
    requires Valid(v) && Sized(ItemOf(v)) && c.At? && c.rest == Wire(ItemOf(v)) + tail
    ensures Value(c) == Reads(if Fits(v) then Some(Norm(v)) else None, Past(c, tail))
  {
    ValueOnWire(c, ItemOf(v), tail);
    InterpItemOf(v);
  }

  lemma {:induction false} ParseEncoded(v: Variant, tail: Octets)
    requires Valid(v)
    ensures Sized(ItemOf(v))
    ensures Parse(Wire(ItemOf(v)) + tail) == if Fits(v) then Some(Norm(v)) else None
  {
    hide Wire, ReadHead, Value, Interp, Norm, Fits;
    ItemOfSized(v);
    WireSplit(ItemOf(v), tail);
    var c: Cursor := At(Wire(ItemOf(v)) + tail, 1, false, false);
    NormalForm(c, v, tail);
    assert Past(c, tail) == Some(End(tail, false));
  }
}
