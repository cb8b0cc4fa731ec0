/**
 The Variant decoder: what it does to a cursor, and the source's own loops,
 which compute it. It never leaves the library's contract.
 */
module VariantDecode {
  import opened Bytes
  import opened Cursor
  import opened Variants

  // ---- on a cursor ------------------------------------------------------------------

  function Value(c: Cursor): (r: Out<Variant>)
    ensures r.Got? ==> |r.next.rest| < |c.rest|
    ensures !r.OutOfContract?
    decreases |c.rest|, 1
  {
    if c.IsSimple(22) || c.IsSimple(23) then Then(NullV, AdvanceFixed(c))
    else if c.IsBool() then Then(BoolV(c.IsSimple(21)), AdvanceFixed(c))
    else if c.IsInt() then Then(Int64V(GetInt(c)), AdvanceFixed(c))
    else if c.IsFloat() then Then(DoubleV(GetFloat(c)), AdvanceFixed(c))
    else if c.IsString() then
      match TakeString(c)
      case Got(s, d) => Got(if c.IsText() then StringV(s) else BlobV(s), d)
      case _ => Refused
    else if c.IsContainer() then
      match Enter(c)
      case None => Refused
      case Some(inner) => if c.IsArray() then List(c, inner) else Dictionary(c, inner)
    else Refused
  }

  function List(c: Cursor, inner: Cursor): (r: Out<Variant>)
    requires c.IsContainer() && |inner.rest| < |c.rest|
    ensures r.Got? ==> |r.next.rest| < |c.rest|
    ensures !r.OutOfContract?
    decreases |c.rest|, 0
  {
    match Values(inner, [])
    case Got(vs, end) => Then(VectorV(vs), Leave(c, end))
    case _ => Refused
  }

  function Dictionary(c: Cursor, inner: Cursor): (r: Out<Variant>)
    requires c.IsContainer() && |inner.rest| < |c.rest|
    ensures r.Got? ==> |r.next.rest| < |c.rest|
    ensures !r.OutOfContract?
    decreases |c.rest|, 0
  {
    match Entries(inner, [])
    case Got(es, end) => Then(MapV(es), Leave(c, end))
    case _ => Refused
  }

  /** Decodes to the end of the container, in order, after `acc`. */
  function Values(c: Cursor, acc: seq<Variant>): (r: Out<seq<Variant>>)
    ensures r.Got? ==> r.next.End? && |r.next.rest| <= |c.rest|
    ensures !r.OutOfContract?
    decreases |c.rest|, 2
  {
    if c.End? then Got(acc, c)
    else
      match Value(c)
      case Got(v, d) => Values(d, acc + [v])
      case _ => Refused
  }

  function Entries(c: Cursor, acc: seq<Entry>): (r: Out<seq<Entry>>)
    ensures r.Got? ==> r.next.End? && |r.next.rest| <= |c.rest|
    ensures !r.OutOfContract?
    decreases |c.rest|, 2
  {
    if c.End? then Got(acc, c)
    else
      match Value(c)
      case Got(k, d) =>
        (match Value(d)
         case Got(v, e) => Entries(e, Emplace(acc, k, v))
         case _ => Refused)
      case _ => Refused
  }

  /** fdb::ParseVariant: one item, and nothing after it is looked at. */
  function Parse(cbor: Octets): Option<Variant> {
    match Start(cbor)
    case None => None
    case Some(it) =>
      match Value(it)
      case Got(v, _) => Some(v)
      case _ => None
  }

  datatype Pair = Pair(key: Octets, value: Variant)

  predicate HasName(ps: seq<Pair>, key: Octets) {
    exists i :: 0 <= i < |ps| && ps[i].key == key
  }

  /** The string-keyed map of a variant map: its keys as C strings, and the
      first of equal ones; None when some key is no string. */
  function Named(es: seq<Entry>, acc: seq<Pair>): Option<seq<Pair>> {
    if es == [] then Some(acc)
    else if !es[0].key.StringV? then None
    else
      var key := Cut(es[0].key.s);
      Named(es[1..], if HasName(acc, key) then acc else acc + [Pair(key, es[0].value)])
  }

  /** fdb::ParseVariantMap. */
  function ParseMap(cbor: Octets): Option<seq<Pair>> {
    match Parse(cbor)
    case None => None
    case Some(v) => if v.MapV? then Named(v.entries, []) else None
  }

  // ---- the source's loops --------------------------------------------------------------

  method DecodeVariant(it: Cursor) returns (r: Out<Variant>)
    ensures r == Value(it)
    decreases |it.rest|, 1
  {
    if it.IsSimple(22) || it.IsSimple(23) {
      r := Then(NullV, AdvanceFixed(it));
    } else if it.IsBool() {
      r := Then(BoolV(it.IsSimple(21)), AdvanceFixed(it));
    } else if it.IsInt() {
      r := Then(Int64V(GetInt(it)), AdvanceFixed(it));
    } else if it.IsFloat() {
      r := Then(DoubleV(GetFloat(it)), AdvanceFixed(it));
    } else if it.IsString() {
      var s := TakeString(it);
      if s.Refused? { return Refused; }
      r := Got(if it.IsText() then StringV(s.value) else BlobV(s.value), s.next);
    } else if it.IsArray() {
      r := DecodeVariantArray(it);
    } else if it.IsMap() {
      r := DecodeVariantMap(it);
    } else {
      r := Refused;
    }
  }

  method DecodeVariantArray(it: Cursor) returns (r: Out<Variant>)
    requires it.IsContainer()
    ensures r == match Enter(it) case None => Refused case Some(inner) => List(it, inner)
    decreases |it.rest|, 0
  {
    var entered := Enter(it);
    if entered.None? { return Refused; }
    var elem: Cursor, list := entered.value, [];
    while !elem.End?
      invariant |elem.rest| <= |entered.value.rest| < |it.rest|
      invariant Values(entered.value, []) == Values(elem, list)
      decreases |elem.rest|
    {
      var item := DecodeVariant(elem);
      if !item.Got? { return Refused; }
      list := list + [item.value];
      elem := item.next;
    }
    r := Then(VectorV(list), Leave(it, elem));
  }

  method DecodeVariantMap(it: Cursor) returns (r: Out<Variant>)
    requires it.IsContainer()
    ensures r == match Enter(it) case None => Refused case Some(inner) => Dictionary(it, inner)
    decreases |it.rest|, 0
  {
    var entered := Enter(it);
    if entered.None? { return Refused; }
    var entry: Cursor, m := entered.value, [];
    while !entry.End?
      invariant |entry.rest| <= |entered.value.rest| < |it.rest|
      invariant Entries(entered.value, []) == Entries(entry, m)
      decreases |entry.rest|
    {
      var key := DecodeVariant(entry);
      if !key.Got? { return Refused; }
      var value := DecodeVariant(key.next);
      if !value.Got? { return Refused; }
      m := Emplace(m, key.value, value.value);
      entry := value.next;
    }
    r := Then(MapV(m), Leave(it, entry));
  }

  method ParseVariantMap(cbor: Octets) returns (r: Option<seq<Pair>>)
    ensures r == ParseMap(cbor)
  {
    var it := Start(cbor);
    if it.None? { return None; }
    var v := DecodeVariant(it.value);
    if !v.Got? || !v.value.MapV? { return None; }
    var es, out := v.value.entries, [];
    assert es[0..] == es;
    for i := 0 to |es|
      invariant Named(es[i..], out) == Named(es, [])
    {
      assert es[i..][0] == es[i] && es[i..][1..] == es[i + 1..];
      if !es[i].key.StringV? { return None; }
      var key := Cut(es[i].key.s);
      if !HasName(out, key) { out := out + [Pair(key, es[i].value)]; }
    }
    assert es[|es|..] == [];
    r := Some(out);
  }
}
