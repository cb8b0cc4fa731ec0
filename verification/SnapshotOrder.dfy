/**
 A Database snapshot's tree and the order payload that carries its query order:
 nested pairs of a child key and that child's own order, or null.
 */
module SnapshotOrder {
  import opened Bytes
  import opened Cbor
  import opened Encoder
  import opened Variants

  datatype Child = Child(key: Octets, snap: Snap)

  /** A leaf's value, or the children in the order the query produced them. */
  datatype Snap = Leaf(value: Variant) | Node(kids: seq<Child>)
  {
    function Children(): seq<Child> { if Leaf? then [] else kids }
    predicate HasChildren() { Children() != [] }
  }

  /** Sizes a C++ process can hold. */
  predicate Holds(s: Snap) {
    match s
    case Leaf(_) => true
    case Node(kids) => |kids| <= MAX_SIZE && EachHolds(kids)
  }

  predicate EachHolds(kids: seq<Child>) {
    kids == [] || (
      assert kids[0].snap < kids[0];
      |kids[0].key| <= MAX_SIZE && Holds(kids[0].snap) && EachHolds(kids[1..]))
  }

  function OrderItem(s: Snap): Item
    decreases s, 0
  {
    match s
    case Leaf(_) => Array([], false)
    case Node(kids) => Array(PairItems(kids), false)
  }

  function PairItem(kid: Child): Item
    decreases kid, 2
  {
    Array([Text(Cut(kid.key)), if kid.snap.HasChildren() then OrderItem(kid.snap) else Item.Null], false)
  }

  function PairItems(kids: seq<Child>): (ts: seq<Item>)
    ensures |ts| == |kids|
    decreases kids, 1
  {
    if kids == [] then [] else [PairItem(kids[0])] + PairItems(kids[1..])
  }

  lemma {:induction false} PairItemAt(kids: seq<Child>, i: nat)
    requires i < |kids|
    ensures PairItems(kids)[i] == PairItem(kids[i])
  {
    if i > 0 { PairItemAt(kids[1..], i - 1); }
  }

  lemma {:induction false} OrderItemSized(s: Snap)
    requires Holds(s)
    ensures Sized(OrderItem(s))
    decreases s, 0
  {
    match s {
      case Leaf(_) =>
      case Node(kids) => PairItemsSized(kids);
    }
  }

  lemma {:induction false} PairItemSized(kid: Child)
    requires |kid.key| <= MAX_SIZE && Holds(kid.snap)
    ensures Sized(PairItem(kid))
    decreases kid, 2
  {
    OrderItemSized(kid.snap);
    var sub := if kid.snap.HasChildren() then OrderItem(kid.snap) else Item.Null;
    AllSizedPair(Text(Cut(kid.key)), sub, []);
    assert [Text(Cut(kid.key)), sub] + [] == [Text(Cut(kid.key)), sub];
  }

  lemma {:induction false} PairItemsSized(kids: seq<Child>)
    requires EachHolds(kids)
    ensures AllSized(PairItems(kids))
    decreases kids, 1
  {
    if kids != [] {
      PairItemSized(kids[0]);
      PairItemsSized(kids[1..]);
      assert PairItems(kids)[1..] == PairItems(kids[1..]);
    }
  }

  // ---- bytes ------------------------------------------------------------------------

  function OrderEncoding(s: Snap): Octets
    requires Holds(s)
  {
    OrderItemSized(s);
    Wire(OrderItem(s))
  }

  function PairBytes(kids: seq<Child>): Octets
    requires EachHolds(kids)
  {
    PairItemsSized(kids);
    WireAll(PairItems(kids))
  }

  function KeyBytes(key: Octets): Octets
    requires |key| <= MAX_SIZE
  {
    HeadBytes(3, |Cut(key)|) + Cut(key)
  }

  function SubBytes(s: Snap): Octets
    requires Holds(s)
  {
    if s.HasChildren() then OrderEncoding(s) else HeadBytes(7, 22)
  }

  /** One [key, sub-order | null] pair. */
  function ChildBytes(kid: Child): Octets
    requires |kid.key| <= MAX_SIZE && Holds(kid.snap)
  {
    HeadBytes(4, 2) + (KeyBytes(kid.key) + SubBytes(kid.snap))
  }

  lemma {:induction false} PairWire(kid: Child)
    requires |kid.key| <= MAX_SIZE && Holds(kid.snap)
    ensures Sized(PairItem(kid))
    ensures Wire(PairItem(kid)) == ChildBytes(kid)
  {
    hide HeadBytes, WireAll, Cut, OrderItem;
    PairItemSized(kid);
    OrderItemSized(kid.snap);
    var key, sub := Text(Cut(kid.key)), if kid.snap.HasChildren() then OrderItem(kid.snap) else Item.Null;
    TwoWire(key, sub);
    assert Wire(key) == KeyBytes(kid.key);
    assert Wire(sub) == SubBytes(kid.snap) by {
      if !kid.snap.HasChildren() { assert Wire(Item.Null) == HeadBytes(7, 22) + []; }
    }
    assert Wire(PairItem(kid)) == HeadBytes(4, 2) + (Wire(key) + Wire(sub) + Cbor.Close(false));
    assert Wire(key) + Wire(sub) + Cbor.Close(false) == Wire(key) + Wire(sub);
  }

  lemma {:induction false} PairBytesStep(kids: seq<Child>)
    requires EachHolds(kids)
    ensures kids == [] ==> PairBytes(kids) == []
    ensures kids != [] ==> PairBytes(kids) == ChildBytes(kids[0]) + PairBytes(kids[1..])
  {
    hide HeadBytes, Wire, PairItem;
    if kids != [] {
      PairWire(kids[0]);
      PairItemsSized(kids);
      assert PairItems(kids)[1..] == PairItems(kids[1..]);
    }
  }

  lemma {:induction false} OrderWire(s: Snap)
    requires Holds(s)
    ensures OrderEncoding(s) == HeadBytes(4, |s.Children()|) + PairBytes(s.Children())
  {
    hide HeadBytes, WireAll, PairItems;
    OrderItemSized(s);
    PairBytesStep([]);
    var kids := s.Children();
    assert OrderItem(s) == Array(if s.Leaf? then [] else PairItems(kids), false);
    assert PairBytes(kids) + Cbor.Close(false) == PairBytes(kids);
    assert Wire(OrderItem(s)) == HeadBytes(4, |kids|) + (PairBytes(kids) + Cbor.Close(false));
  }

  lemma {:induction false} ChildrenHold(s: Snap)
    requires Holds(s)
    ensures |s.Children()| <= MAX_SIZE && EachHolds(s.Children())
  {
  }

  lemma {:induction false} EachAt(kids: seq<Child>, i: nat)
    requires i < |kids| && EachHolds(kids[i..])
    ensures |kids[i].key| <= MAX_SIZE && Holds(kids[i].snap)
    ensures kids[i..][0] == kids[i] && kids[i..][1..] == kids[i + 1..] && EachHolds(kids[i + 1..])
  {
  }

  // ---- the encoder --------------------------------------------------------------------

  method EncodeOrder(s: Snap, enc: CborEncoder) returns (ok: bool)
    requires enc.Valid() && enc.place.Room? && Holds(s)
    modifies enc`place, enc`remaining, enc.buf
    ensures enc.Valid()
    ensures ok <==> old(enc.place.ptr) + |OrderEncoding(s)| <= enc.buf.Length
    ensures ok ==> enc.place.Room? && enc.Written() == old(enc.Written()) + OrderEncoding(s)
    ensures ok ==> enc.remaining == SatDec(old(enc.remaining))
    decreases s, 0
  {
    hide OrderEncoding, PairBytes, HeadBytes, BigEndian, ChildBytes, EachHolds;
    ChildrenHold(s);
    OrderWire(s);
    var kids := s.Children();
    var array_;
    ok, array_ := enc.Create(false, |kids|, false);
    if !ok { return; }
    ghost var base := array_.Written();
    assert kids[0..] == kids;
    for i := 0 to |kids|
      invariant fresh(array_) && array_.buf == enc.buf && array_.Valid() && array_.place.Room? && !array_.open
      invariant array_.remaining == |kids| - i + 1
      invariant enc.Valid() && enc.remaining == SatDec(old(enc.remaining))
      invariant EachHolds(kids[i..])
      invariant array_.Written() + PairBytes(kids[i..]) == base + PairBytes(kids)
    {
      EachAt(kids, i);
      PairBytesStep(kids[i..]);
      assert kids[i].snap < kids[i];
      ok := EncodeChild(kids[i], array_);
      if !ok { return; }
    }
    PairBytesStep(kids[|kids|..]);
    ok := enc.Close(array_);
  }

  method EncodeChild(kid: Child, enc: CborEncoder) returns (ok: bool)
    requires enc.Valid() && enc.place.Room? && |kid.key| <= MAX_SIZE && Holds(kid.snap)
    modifies enc`place, enc`remaining, enc.buf
    ensures enc.Valid()
    ensures ok <==> old(enc.place.ptr) + |ChildBytes(kid)| <= enc.buf.Length
    ensures ok ==> enc.place.Room? && enc.Written() == old(enc.Written()) + ChildBytes(kid)
    ensures ok ==> enc.remaining == SatDec(old(enc.remaining))
    decreases kid, 1
  {
    hide OrderEncoding, HeadBytes, BigEndian, Cut;
    ghost var done, h, k, x := enc.Written(), HeadBytes(4, 2), KeyBytes(kid.key), SubBytes(kid.snap);
    assert done + h + k + x == done + (h + (k + x));
    var entry;
    ok, entry := enc.Create(false, 2, false);
    if !ok { return; }
    ok := entry.String(3, Cut(kid.key));
    if !ok { return; }
    if kid.snap.HasChildren() {
      ok := EncodeOrder(kid.snap, entry);
    } else {
      ok := entry.Head(7, 22);
    }
    if !ok { return; }
    ok := enc.Close(entry);
  }

  // ---- the estimate ---------------------------------------------------------------------

  const HEADER: nat := 9

  function Estimate(s: Snap): nat
    decreases s, 0
  {
    HEADER + match s { case Leaf(_) => 0 case Node(kids) => EstimateEach(kids) }
  }

  function EstimateEach(kids: seq<Child>): nat
    decreases kids, 1
  {
    if kids == [] then 0
    else
      assert kids[0].snap < kids[0];
      HEADER + |kids[0].key| + HEADER + (if kids[0].snap.HasChildren() then Estimate(kids[0].snap) else 0)
      + EstimateEach(kids[1..])
  }

  /** The nodes with children, or the root, and the entries of their lists. */
  function Lists(s: Snap): nat
    decreases s, 0
  {
    1 + match s { case Leaf(_) => 0 case Node(kids) => ListsEach(kids) }
  }

  function ListsEach(kids: seq<Child>): nat
    decreases kids, 1
  {
    if kids == [] then 0
    else
      assert kids[0].snap < kids[0];
      2 + (if kids[0].snap.Node? && kids[0].snap.kids != [] then Lists(kids[0].snap) else 0) + ListsEach(kids[1..])
  }

  function KeyLengths(s: Snap): nat
    decreases s, 0
  {
    match s case Leaf(_) => 0 case Node(kids) => KeyLengthsEach(kids)
  }

  function KeyLengthsEach(kids: seq<Child>): nat
    decreases kids, 1
  {
    if kids == [] then 0
    else
      assert kids[0].snap < kids[0];
      |kids[0].key| + KeyLengths(kids[0].snap) + KeyLengthsEach(kids[1..])
  }

  /** The estimate is nine bytes for each list, each pair and each key, and the keys. */
  lemma {:induction false} EstimateExact(s: Snap)
    ensures Estimate(s) == 9 * Lists(s) + KeyLengths(s)
    decreases s, 0
  {
    match s {
      case Leaf(_) =>
      case Node(kids) => EstimateEachExact(kids);
    }
  }

  lemma {:induction false} EstimateEachExact(kids: seq<Child>)
    ensures EstimateEach(kids) == 9 * ListsEach(kids) + KeyLengthsEach(kids)
    decreases kids, 1
  {
    if kids != [] {
      assert kids[0].snap < kids[0];
      EstimateExact(kids[0].snap);
      EstimateEachExact(kids[1..]);
    }
  }

  method EstimateOrderBytes(s: Snap) returns (n: nat)
    ensures n == Estimate(s)
  {
    n := HEADER;
    var kids := s.Children();
    assert kids[0..] == kids;
    for i := 0 to |kids|
      invariant n + EstimateEach(kids[i..]) == Estimate(s)
    {
      assert kids[i..][0] == kids[i] && kids[i..][1..] == kids[i + 1..];
      assert kids[i].snap < kids[i];
      n := n + HEADER + |kids[i].key| + HEADER;
      if kids[i].snap.HasChildren() {
        var m := EstimateOrderBytes(kids[i].snap);
        n := n + m;
      }
    }
  }

  lemma {:induction false} EstimateBounds(s: Snap)
    requires Holds(s)
    ensures |OrderEncoding(s)| <= Estimate(s)
    decreases s, 0
  {
    hide OrderEncoding, PairBytes, BigEndian;
    OrderWire(s);
    PairBytesStep([]);
    match s {
      case Leaf(_) =>
      case Node(kids) => EstimateEachBounds(kids);
    }
  }

  lemma {:induction false} EstimateEachBounds(kids: seq<Child>)
    requires EachHolds(kids)
    ensures |PairBytes(kids)| <= EstimateEach(kids)
    decreases kids, 1
  {
    hide OrderEncoding, PairBytes, BigEndian;
    PairBytesStep(kids);
    if kids != [] {
      assert kids[0].snap < kids[0];
      EstimateBounds(kids[0].snap);
      EstimateEachBounds(kids[1..]);
    }
  }

  /** fdb::SerializeOrder: like SerializeVariant, it never needs its retry. */
  method SerializeOrder(s: Snap) returns (ok: bool, out: Octets, attempts: nat)
    requires Holds(s)
    ensures ok && attempts == 1 && out == OrderEncoding(s)
  {
    hide OrderEncoding;
    var cap: nat := EstimateOrderBytes(s);
    attempts := 0;
    while attempts < 16
      invariant attempts <= 16 && cap >= 0
      invariant attempts > 0 ==> Estimate(s) < |OrderEncoding(s)|
      invariant attempts == 0 ==> cap == Estimate(s)
    {
      var buffer := new Byte[cap](_ => 0);
      var enc := new CborEncoder(buffer);
      ok := EncodeOrder(s, enc);
      attempts := attempts + 1;
      if ok {
        EstimateBounds(s);
        return ok, buffer[..enc.place.ptr], attempts;
      }
      cap := cap * 2;
    }
    EstimateBounds(s);
    assert false;
  }
}
