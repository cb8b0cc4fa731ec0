/**
 The Variant encoder, its size estimate, and the buffer that is sized by it.
 */
module VariantEncode {
  import opened Bytes
  import opened Cbor
  import opened Encoder
  import opened Variants

  function Encoding(v: Variant): Octets
    requires Valid(v)
  {
    ItemOfSized(v);
    Wire(ItemOf(v))
  }

  /** The bytes of a vector's items, and of a map's keys and values in order. */
  function ItemBytes(vs: seq<Variant>): Octets
    requires AllValid(vs)
  {
    ItemsOfSized(vs);
    WireAll(ItemsOf(vs))
  }

  function EntryBytes(es: seq<Entry>): Octets
    requires EachValid(es)
  {
    FlatOfSized(es);
    WireAll(FlatOf(es))
  }

  function KeyBytes(k: Variant): Octets
    requires Valid(k)
  {
    Wire(KeyItem(k))
  }

  lemma {:induction false} ItemBytesStep(vs: seq<Variant>)
    requires AllValid(vs)
    ensures vs == [] ==> ItemBytes(vs) == []
    ensures vs != [] ==> ItemBytes(vs) == Encoding(vs[0]) + ItemBytes(vs[1..])
  {
    if vs != [] {
      ItemsOfSized(vs);
      assert ItemsOf(vs)[1..] == ItemsOf(vs[1..]);
    }
  }

  lemma {:induction false} EntryBytesStep(es: seq<Entry>)
    requires EachValid(es)
    ensures es == [] ==> EntryBytes(es) == []
    ensures es != [] ==> EntryBytes(es) == KeyBytes(es[0].key) + (Encoding(es[0].value) + EntryBytes(es[1..]))
  {
    hide Wire, Sized, ItemOf, KeyItem;
    if es != [] {
      var ts := FlatOf(es);
      FlatOfSized(es);
      FlatOfSized(es[1..]);
      ItemOfSized(es[0].value);
      var k, x, us := KeyItem(es[0].key), ItemOf(es[0].value), FlatOf(es[1..]);
      assert ts == [k, x] + us;
      assert ts[0] == k && ts[1..] == [x] + us && ts[1..][0] == x && ts[1..][1..] == us;
      assert WireAll(ts[1..]) == Wire(x) + WireAll(us);
    }
  }

  lemma {:induction false} VectorWire(vs: seq<Variant>)
    requires Valid(VectorV(vs))
    ensures Encoding(VectorV(vs)) == HeadBytes(4, |vs|) + ItemBytes(vs)
  {
    hide WireAll, ItemsOf, HeadBytes;
    var t := ItemOf(VectorV(vs));
    ItemOfSized(VectorV(vs));
    assert t == Array(ItemsOf(vs), false);
    assert ItemBytes(vs) + Cbor.Close(false) == ItemBytes(vs);
    assert Wire(t) == HeadBytes(4, |vs|) + (ItemBytes(vs) + Cbor.Close(false));
  }

  lemma {:induction false} MapWire(es: seq<Entry>)
    requires Valid(MapV(es))
    ensures Encoding(MapV(es)) == HeadBytes(5, |es|) + EntryBytes(es)
  {
    hide WireAll, FlatOf, HeadBytes;
    var t := ItemOf(MapV(es));
    ItemOfSized(MapV(es));
    assert t == Map(FlatOf(es), false);
    assert EntryBytes(es) + Cbor.Close(false) == EntryBytes(es);
    assert Wire(t) == HeadBytes(5, |es|) + (EntryBytes(es) + Cbor.Close(false));
  }

  lemma {:induction false} ScalarEncoding(v: Variant)
    requires Valid(v)
    ensures match v
            case NullV => Encoding(v) == HeadBytes(7, 22)
            case Int64V(i) => Encoding(v) == HeadBytes(if i >= 0 then 0 else 1, if i >= 0 then i else -1 - i)
            case DoubleV(d) => Encoding(v) == FloatBytes(27, d.d)
            case BoolV(b) => Encoding(v) == HeadBytes(7, if b then 21 else 20)
            case StringV(s) => Encoding(v) == HeadBytes(3, |Cut(s)|) + Cut(s)
            case BlobV(s) => Encoding(v) == HeadBytes(2, |s|) + s
            case _ => true
  {
    hide WireAll, HeadBytes, FloatBytes, Cut;
    if !v.VectorV? && !v.MapV? {
      assert Encoding(v) == Lead(ItemOf(v)) + Body(ItemOf(v));
    }
  }

  lemma {:induction false} KeyEncoding(k: Variant)
    requires Valid(k)
    ensures KeyBytes(k) == if k.StringV? then HeadBytes(3, |Cut(k.s)|) + Cut(k.s) else HeadBytes(7, 22)
  {
    hide WireAll, HeadBytes, Cut;
    assert KeyBytes(k) == Lead(KeyItem(k)) + Body(KeyItem(k));
  }

  // ---- the encoder ------------------------------------------------------------------

  method EncodeVariant(v: Variant, enc: CborEncoder) returns (ok: bool)
    requires enc.Valid() && enc.place.Room? && Valid(v)
    modifies enc`place, enc`remaining, enc.buf
    ensures enc.Valid()
    ensures ok <==> old(enc.place.ptr) + |Encoding(v)| <= enc.buf.Length
    ensures ok ==> enc.place.Room? && enc.Written() == old(enc.Written()) + Encoding(v)
    ensures ok ==> enc.remaining == SatDec(old(enc.remaining))
    decreases v, 1
  {
    hide Encoding, BigEndian, HeadBytes, FloatBytes, Cut;
    ScalarEncoding(v);
    match v {
      case NullV => ok := enc.Head(7, 22);
      case BoolV(b) => ok := enc.Head(7, if b then 21 else 20);
      case Int64V(i) => ok := enc.Head(if i >= 0 then 0 else 1, if i >= 0 then i else -1 - i);
      case DoubleV(d) => ok := enc.Double(d.d);
      case StringV(s) => ok := enc.String(3, Cut(s));
      case BlobV(s) => ok := enc.String(2, s);
      case VectorV(vs) => ok := EncodeVector(vs, enc);
      case MapV(es) => ok := EncodeMap(es, enc);
    }
  }

  method EncodeVector(vs: seq<Variant>, enc: CborEncoder) returns (ok: bool)
    requires enc.Valid() && enc.place.Room? && Valid(VectorV(vs))
    modifies enc`place, enc`remaining, enc.buf
    ensures enc.Valid()
    ensures ok <==> old(enc.place.ptr) + |Encoding(VectorV(vs))| <= enc.buf.Length
    ensures ok ==> enc.place.Room? && enc.Written() == old(enc.Written()) + Encoding(VectorV(vs))
    ensures ok ==> enc.remaining == SatDec(old(enc.remaining))
    decreases vs, 0
  {
    hide Encoding, ItemBytes, HeadBytes, BigEndian, AllValid;
    VectorWire(vs);
    var array_;
    ok, array_ := enc.Create(false, |vs|, false);
    if !ok { return; }
    ghost var base := array_.Written();
    assert vs[0..] == vs;
    for i := 0 to |vs|
      invariant fresh(array_) && array_.buf == enc.buf && array_.Valid() && array_.place.Room? && !array_.open
      invariant array_.remaining == |vs| - i + 1
      invariant enc.Valid() && enc.remaining == SatDec(old(enc.remaining))
      invariant AllValid(vs[i..])
      invariant array_.Written() + ItemBytes(vs[i..]) == base + ItemBytes(vs)
    {
      AllAt(vs, i);
      ItemBytesStep(vs[i..]);
      ok := EncodeVariant(vs[i], array_);
      if !ok { return; }
    }
    ItemBytesStep(vs[|vs|..]);
    ok := enc.Close(array_);
  }

  lemma {:induction false} AllAt(vs: seq<Variant>, i: nat)
    requires i < |vs| && AllValid(vs[i..])
    ensures Valid(vs[i]) && vs[i..][0] == vs[i] && vs[i..][1..] == vs[i + 1..] && AllValid(vs[i + 1..])
  {
  }

  lemma {:induction false} EachAt(es: seq<Entry>, i: nat)
    requires i < |es| && EachValid(es[i..])
    ensures Valid(es[i].key) && Valid(es[i].value)
    ensures es[i..][0] == es[i] && es[i..][1..] == es[i + 1..] && EachValid(es[i + 1..])
  {
  }

  method EncodeMap(es: seq<Entry>, enc: CborEncoder) returns (ok: bool)
    requires enc.Valid() && enc.place.Room? && Valid(MapV(es))
    modifies enc`place, enc`remaining, enc.buf
    ensures enc.Valid()
    ensures ok <==> old(enc.place.ptr) + |Encoding(MapV(es))| <= enc.buf.Length
    ensures ok ==> enc.place.Room? && enc.Written() == old(enc.Written()) + Encoding(MapV(es))
    ensures ok ==> enc.remaining == SatDec(old(enc.remaining))
    decreases es, 0
  {
    hide Encoding, EntryBytes, HeadBytes, BigEndian, EachValid, KeyBytes;
    MapWire(es);
    var map_;
    ok, map_ := enc.Create(true, |es|, false);
    if !ok { return; }
    ghost var base := map_.Written();
    assert es[0..] == es;
    for i := 0 to |es|
      invariant fresh(map_) && map_.buf == enc.buf && map_.Valid() && map_.place.Room? && !map_.open
      invariant map_.remaining == 2 * (|es| - i) + 1
      invariant enc.Valid() && enc.remaining == SatDec(old(enc.remaining))
      invariant EachValid(es[i..])
      invariant map_.Written() + EntryBytes(es[i..]) == base + EntryBytes(es)
    {
      EachAt(es, i);
      EntryBytesStep(es[i..]);
      ghost var done, k, v, rest := map_.Written(), KeyBytes(es[i].key), Encoding(es[i].value), EntryBytes(es[i + 1..]);
      assert done + (k + (v + rest)) == done + k + v + rest;
      assert es[i].value < es[i];
      ok := EncodeEntry(es[i], map_);
      if !ok { return; }
    }
    EntryBytesStep(es[|es|..]);
    ok := enc.Close(map_);
  }

  /** One key and its value. */
  method EncodeEntry(e: Entry, enc: CborEncoder) returns (ok: bool)
    requires enc.Valid() && enc.place.Room? && Valid(e.key) && Valid(e.value)
    modifies enc`place, enc`remaining, enc.buf
    ensures enc.Valid()
    ensures ok <==> old(enc.place.ptr) + |KeyBytes(e.key)| + |Encoding(e.value)| <= enc.buf.Length
    ensures ok ==> enc.place.Room? && enc.Written() == old(enc.Written()) + KeyBytes(e.key) + Encoding(e.value)
    ensures ok ==> enc.remaining == SatDec(SatDec(old(enc.remaining)))
    decreases e, 2
  {
    hide Encoding, HeadBytes, BigEndian, KeyBytes, Cut;
    KeyEncoding(e.key);
    if e.key.StringV? {
      ok := enc.String(3, Cut(e.key.s));
    } else {
      ok := enc.Head(7, 22);
    }
    if !ok { return; }
    ok := EncodeVariant(e.value, enc);
  }

  // ---- the estimate -------------------------------------------------------------------

  const HEADER: nat := 9

  function Estimate(v: Variant): nat
    decreases v, 0
  {
    match v
    case StringV(s) => HEADER + |Cut(s)|
    case BlobV(s) => HEADER + |s|
    case VectorV(vs) => HEADER + EstimateAll(vs)
    case MapV(es) => HEADER + EstimateEach(es)
    case _ => HEADER
  }

  function EstimateAll(vs: seq<Variant>): nat
    decreases vs, 1
  {
    if vs == [] then 0 else Estimate(vs[0]) + EstimateAll(vs[1..])
  }

  function EstimateEach(es: seq<Entry>): nat
    decreases es, 1
  {
    if es == [] then 0
    else
      assert es[0].key < es[0] && es[0].value < es[0];
      Estimate(es[0].key) + Estimate(es[0].value) + EstimateEach(es[1..])
  }

  /** How many values there are, keys included. */
  function Nodes(v: Variant): nat
    decreases v, 0
  {
    match v
    case VectorV(vs) => 1 + NodesAll(vs)
    case MapV(es) => 1 + NodesEach(es)
    case _ => 1
  }

  function NodesAll(vs: seq<Variant>): nat
    decreases vs, 1
  {
    if vs == [] then 0 else Nodes(vs[0]) + NodesAll(vs[1..])
  }

  function NodesEach(es: seq<Entry>): nat
    decreases es, 1
  {
    if es == [] then 0
    else
      assert es[0].key < es[0] && es[0].value < es[0];
      Nodes(es[0].key) + Nodes(es[0].value) + NodesEach(es[1..])
  }

  /** How many bytes their strings and blobs have. */
  function Contents(v: Variant): nat
    decreases v, 0
  {
    match v
    case StringV(s) => |Cut(s)|
    case BlobV(s) => |s|
    case VectorV(vs) => ContentsAll(vs)
    case MapV(es) => ContentsEach(es)
    case _ => 0
  }

  function ContentsAll(vs: seq<Variant>): nat
    decreases vs, 1
  {
    if vs == [] then 0 else Contents(vs[0]) + ContentsAll(vs[1..])
  }

  function ContentsEach(es: seq<Entry>): nat
    decreases es, 1
  {
    if es == [] then 0
    else
      assert es[0].key < es[0] && es[0].value < es[0];
      Contents(es[0].key) + Contents(es[0].value) + ContentsEach(es[1..])
  }

  /** The estimate is nine bytes for each value and the contents. */
  lemma {:induction false} EstimateExact(v: Variant)
    ensures Estimate(v) == 9 * Nodes(v) + Contents(v)
    decreases v, 0
  {
    match v {
      case VectorV(vs) => EstimateAllExact(vs);
      case MapV(es) => EstimateEachExact(es);
      case _ =>
    }
  }

  lemma {:induction false} EstimateAllExact(vs: seq<Variant>)
    ensures EstimateAll(vs) == 9 * NodesAll(vs) + ContentsAll(vs)
    decreases vs, 1
  {
    if vs != [] {
      EstimateExact(vs[0]);
      EstimateAllExact(vs[1..]);
    }
  }

  lemma {:induction false} EstimateEachExact(es: seq<Entry>)
    ensures EstimateEach(es) == 9 * NodesEach(es) + ContentsEach(es)
    decreases es, 1
  {
    if es != [] {
      assert es[0].key < es[0] && es[0].value < es[0];
      EstimateExact(es[0].key);
      EstimateExact(es[0].value);
      EstimateEachExact(es[1..]);
    }
  }

  method EstimateVariantBytes(v: Variant) returns (n: nat)
    ensures n == Estimate(v)
  {
    match v {
      case StringV(s) => n := HEADER + |Cut(s)|;
      case BlobV(s) => n := HEADER + |s|;
      case VectorV(vs) =>
        n := HEADER;
        assert vs[0..] == vs;
        for i := 0 to |vs|
          invariant n + EstimateAll(vs[i..]) == Estimate(v)
        {
          assert vs[i..][0] == vs[i] && vs[i..][1..] == vs[i + 1..];
          var m := EstimateVariantBytes(vs[i]);
          n := n + m;
        }
      case MapV(es) =>
        n := HEADER;
        assert es[0..] == es;
        for i := 0 to |es|
          invariant n + EstimateEach(es[i..]) == Estimate(v)
        {
          assert es[i..][0] == es[i] && es[i..][1..] == es[i + 1..];
          assert es[i].key < es[i] && es[i].value < es[i];
          var k := EstimateVariantBytes(es[i].key);
          var m := EstimateVariantBytes(es[i].value);
          n := n + k + m;
        }
      case _ => n := HEADER;
    }
  }

  /** The estimate never counts too few bytes, keys that are no strings included. */
  lemma {:induction false} EstimateBounds(v: Variant)
    requires Valid(v)
    ensures |Encoding(v)| <= Estimate(v)
    decreases v, 0
  {
    hide Encoding, HeadBytes, FloatBytes, Cut;
    ScalarEncoding(v);
    match v {
      case VectorV(vs) => VectorWire(vs); EstimateAllBounds(vs);
      case MapV(es) => MapWire(es); EstimateEachBounds(es);
      case _ =>
    }
  }

  lemma {:induction false} EstimateAllBounds(vs: seq<Variant>)
    requires AllValid(vs)
    ensures |ItemBytes(vs)| <= EstimateAll(vs)
    decreases vs, 1
  {
    hide Encoding, ItemBytes;
    ItemBytesStep(vs);
    if vs != [] {
      EstimateBounds(vs[0]);
      EstimateAllBounds(vs[1..]);
    }
  }

  lemma {:induction false} EstimateEachBounds(es: seq<Entry>)
    requires EachValid(es)
    ensures |EntryBytes(es)| <= EstimateEach(es)
    decreases es, 1
  {
    hide Encoding, EntryBytes, HeadBytes, KeyBytes;
    EntryBytesStep(es);
    if es != [] {
      assert es[0].value < es[0];
      KeyEncoding(es[0].key);
      EstimateBounds(es[0].value);
      EstimateEachBounds(es[1..]);
    }
  }

  /** fdb::SerializeVariant: the first buffer is always large enough, so the
      retry is never taken and what remains is the exact encoding. */
  method SerializeVariant(v: Variant) returns (ok: bool, out: Octets, attempts: nat)
    requires Valid(v)
    ensures ok && attempts == 1 && out == Encoding(v)
  {
    hide Encoding;
    var cap: nat := EstimateVariantBytes(v);
    attempts := 0;
    while attempts < 16
      invariant attempts <= 16 && cap >= 0
      invariant attempts > 0 ==> Estimate(v) < |Encoding(v)|
      invariant attempts == 0 ==> cap == Estimate(v)
    {
      var buffer := new Byte[cap](_ => 0);
      var enc := new CborEncoder(buffer);
      ok := EncodeVariant(v, enc);
      attempts := attempts + 1;
      if ok {
        EstimateBounds(v);
        return ok, buffer[..enc.place.ptr], attempts;
      }
      cap := cap * 2;
    }
    EstimateBounds(v);
    assert false;
  }
}
