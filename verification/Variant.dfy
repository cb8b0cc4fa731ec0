/**
 firebase::Variant as the Realtime Database and Functions use it: the item the
 encoder writes, and the normal form a value has once it crossed the wire.
 */
module Variants {
  import opened Bytes
  import opened Cbor
  import opened Cursor

  /** A map is its entries in iteration order; keys may be any variant. */
  datatype Entry = Entry(key: Variant, value: Variant)

  datatype Variant =
    | NullV
    | Int64V(i: I64)
    | DoubleV(d: Number)
    | BoolV(b: bool)
    | StringV(s: Octets)
    | BlobV(s: Octets)
    | VectorV(items: seq<Variant>)
    | MapV(entries: seq<Entry>)

  /** Lengths a C++ process can hold; doubles in memory are 64-bit patterns. */
  predicate Valid(v: Variant) {
    match v
    case DoubleV(d) => d.Bits?
    case StringV(s) => |s| <= MAX_SIZE
    case BlobV(s) => |s| <= MAX_SIZE
    case VectorV(vs) => |vs| <= MAX_SIZE && AllValid(vs)
    case MapV(es) => |es| <= MAX_SIZE / 2 && EachValid(es)
    case _ => true
  }

  predicate AllValid(vs: seq<Variant>) {
    vs == [] || (Valid(vs[0]) && AllValid(vs[1..]))
  }

  predicate EachValid(es: seq<Entry>) {
    es == [] || (
      assert es[0].key < es[0] && es[0].value < es[0];
      Valid(es[0].key) && Valid(es[0].value) && EachValid(es[1..]))
  }

  // ---- the item of a variant ------------------------------------------------------

  /** Strings are C strings to the encoder, and a key that is no string is null. */
  function KeyItem(k: Variant): Item {
    if k.StringV? then Text(Cut(k.s)) else Item.Null
  }

  function ItemOf(v: Variant): Item
    requires Valid(v)
    decreases v, 0
  {
    match v
    case NullV => Item.Null
    case Int64V(i) => IntItem(i)
    case DoubleV(d) => Item.Double(d.d)
    case BoolV(b) => Bool(b)
    case StringV(s) => Text(Cut(s))
    case BlobV(s) => Blob(s)
    case VectorV(vs) => Array(ItemsOf(vs), false)
    case MapV(es) => Map(FlatOf(es), false)
  }

  function ItemsOf(vs: seq<Variant>): (ts: seq<Item>)
    requires AllValid(vs)
    ensures |ts| == |vs|
    decreases vs, 1
  {
    if vs == [] then [] else [ItemOf(vs[0])] + ItemsOf(vs[1..])
  }

  function FlatOf(es: seq<Entry>): (ts: seq<Item>)
    requires EachValid(es)
    ensures |ts| == 2 * |es|
    decreases es, 1
  {
    if es == [] then []
    else
      assert es[0].value < es[0];
      [KeyItem(es[0].key), ItemOf(es[0].value)] + FlatOf(es[1..])
  }

  lemma {:induction false} ItemOfSized(v: Variant)
    requires Valid(v)
    ensures Sized(ItemOf(v))
    decreases v, 0
  {
    match v {
      case VectorV(vs) => ItemsOfSized(vs);
      case MapV(es) => FlatOfSized(es);
      case _ =>
    }
  }

  lemma {:induction false} ItemsOfSized(vs: seq<Variant>)
    requires AllValid(vs)
    ensures AllSized(ItemsOf(vs))
    decreases vs, 1
  {
    if vs != [] {
      ItemOfSized(vs[0]);
      ItemsOfSized(vs[1..]);
      assert ItemsOf(vs)[1..] == ItemsOf(vs[1..]);
    }
  }

  lemma {:induction false} FlatOfSized(es: seq<Entry>)
    requires EachValid(es)
    ensures AllSized(FlatOf(es))
    decreases es, 1
  {
    if es != [] {
      assert es[0].value < es[0];
      ItemOfSized(es[0].value);
      FlatOfSized(es[1..]);
      AllSizedPair(KeyItem(es[0].key), ItemOf(es[0].value), FlatOf(es[1..]));
    }
  }

  // ---- the normal form ---------------------------------------------------------------

  predicate HasKey(es: seq<Entry>, key: Variant) {
    exists i :: 0 <= i < |es| && es[i].key == key
  }

  /** std::map::emplace: a key already there keeps its value. */
  function Emplace(es: seq<Entry>, key: Variant, value: Variant): seq<Entry> {
    if HasKey(es, key) then es else es + [Entry(key, value)]
  }

  function NormKey(k: Variant): Variant {
    if k.StringV? then StringV(Cut(k.s)) else NullV
  }

  /** Strings end at their first NUL, keys that are no strings become null, and
      of keys that collide the first one keeps its value. */
  function Norm(v: Variant): Variant
    decreases v, 0
  {
    match v
    case StringV(s) => StringV(Cut(s))
    case VectorV(vs) => VectorV(NormAll(vs))
    case MapV(es) => MapV(NormEach(es, []))
    case _ => v
  }

  function NormAll(vs: seq<Variant>): (r: seq<Variant>)
    ensures |r| == |vs|
    decreases vs, 1
  {
    if vs == [] then [] else [Norm(vs[0])] + NormAll(vs[1..])
  }

  function NormEach(es: seq<Entry>, acc: seq<Entry>): seq<Entry>
    decreases es, 1
  {
    if es == [] then acc
    else
      assert es[0].value < es[0];
      NormEach(es[1..], Emplace(acc, NormKey(es[0].key), Norm(es[0].value)))
  }

  /** NUL-free strings throughout, and maps whose keys are distinct NUL-free
      strings or null. */
  predicate Clean(v: Variant) {
    match v
    case StringV(s) => 0 !in s
    case VectorV(vs) => AllClean(vs)
    case MapV(es) => DistinctKeys(es) && EachClean(es)
    case _ => true
  }

  predicate AllClean(vs: seq<Variant>) {
    vs == [] || (Clean(vs[0]) && AllClean(vs[1..]))
  }

  predicate CleanKey(k: Variant) {
    k.NullV? || (k.StringV? && 0 !in k.s)
  }

  predicate EachClean(es: seq<Entry>) {
    es == [] || (
      assert es[0].value < es[0];
      CleanKey(es[0].key) && Clean(es[0].value) && EachClean(es[1..]))
  }

  predicate DistinctKeys(es: seq<Entry>) {
    forall i, j :: 0 <= i < j < |es| ==> es[i].key != es[j].key
  }

  /** Norm changes nothing on exactly the clean values. */
  lemma {:induction false} NormIdentity(v: Variant)
    ensures Norm(v) == v <==> Clean(v)
    decreases v, 0
  {
    match v {
      case StringV(s) => assert 0 !in Cut(s);
      case VectorV(vs) => NormAllIdentity(vs);
      case MapV(es) =>
        NormEachClean(es, []);
        if Clean(v) { NormEachIdentity(es, []); assert [] + es == es; }
      case _ =>
    }
  }

  lemma {:induction false} NormAllIdentity(vs: seq<Variant>)
    ensures NormAll(vs) == vs <==> AllClean(vs)
    decreases vs, 1
  {
    if vs != [] {
      NormIdentity(vs[0]);
      NormAllIdentity(vs[1..]);
      assert vs == [vs[0]] + vs[1..];
      assert NormAll(vs)[0] == Norm(vs[0]) && NormAll(vs)[1..] == NormAll(vs[1..]);
    }
  }

  lemma {:induction false} NormEachIdentity(es: seq<Entry>, acc: seq<Entry>)
    requires EachClean(es) && DistinctKeys(acc + es)
    ensures NormEach(es, acc) == acc + es
    decreases es, 1
  {
    if es == [] {
      assert acc + es == acc;
    } else {
      assert es[0].value < es[0];
      NormIdentity(es[0].value);
      forall i | 0 <= i < |acc| ensures acc[i].key != es[0].key {
        assert (acc + es)[i] == acc[i] && (acc + es)[|acc|] == es[0];
      }
      assert acc + [es[0]] + es[1..] == acc + es;
      NormEachIdentity(es[1..], acc + [es[0]]);
    }
  }

  /** A normal form is clean, whatever it is the normal form of. */
  lemma {:induction false} NormClean(v: Variant)
    ensures Clean(Norm(v))
    decreases v, 0
  {
    match v {
      case VectorV(vs) => NormAllClean(vs);
      case MapV(es) => NormEachClean(es, []);
      case _ =>
    }
  }

  lemma {:induction false} NormAllClean(vs: seq<Variant>)
    ensures AllClean(NormAll(vs))
    decreases vs, 1
  {
    if vs != [] {
      NormClean(vs[0]);
      NormAllClean(vs[1..]);
      assert NormAll(vs)[1..] == NormAll(vs[1..]);
    }
  }

  lemma {:induction false} NormEachClean(es: seq<Entry>, acc: seq<Entry>)
    requires DistinctKeys(acc) && EachClean(acc)
    ensures DistinctKeys(NormEach(es, acc)) && EachClean(NormEach(es, acc))
    decreases es, 1
  {
    if es != [] {
      assert es[0].value < es[0];
      NormClean(es[0].value);
      var k, x := NormKey(es[0].key), Norm(es[0].value);
      EachCleanConcat(acc, [Entry(k, x)]);
      NormEachClean(es[1..], Emplace(acc, k, x));
    }
  }

  lemma {:induction false} EachCleanConcat(a: seq<Entry>, b: seq<Entry>)
    requires EachClean(a) && |b| == 1 && CleanKey(b[0].key) && Clean(b[0].value)
    ensures EachClean(a + b)
  {
    if a == [] {
      assert a + b == b && b[1..] == [];
    } else {
      assert (a + b)[1..] == a[1..] + b;
      EachCleanConcat(a[1..], b);
    }
  }

  lemma {:induction false} NormIdempotent(v: Variant)
    ensures Norm(Norm(v)) == Norm(v)
  {
    NormClean(v);
    NormIdentity(Norm(v));
  }
}
