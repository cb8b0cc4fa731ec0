/**
 What a posted Database snapshot determines, and the listener that posts it.
 */
module Snapshot {
  import opened Bytes
  import opened Cbor
  import opened Variants
  import opened VariantEncode
  import opened SnapshotOrder
  import opened Framing

  /** What the Database holds: scalar leaves, inner nodes that have children, and
      child keys that are distinct C strings. */
  predicate Proper(s: Snap) {
    match s
    case Leaf(x) => !x.VectorV? && !x.MapV? && Clean(x)
    case Node(kids) => kids != [] && DistinctNames(kids) && EachProper(kids)
  }

  predicate DistinctNames(kids: seq<Child>) {
    forall i, j :: 0 <= i < j < |kids| ==> kids[i].key != kids[j].key
  }

  predicate EachProper(kids: seq<Child>) {
    kids == [] || (
      assert kids[0].snap < kids[0];
      0 !in kids[0].key && Proper(kids[0].snap) && EachProper(kids[1..]))
  }

  /** v is the snapshot's value: a map of the children's values under their keys,
      in whatever order the map keeps them. */
  predicate ValueOf(v: Variant, s: Snap)
    decreases s, 0
  {
    match s
    case Leaf(x) => v == x
    case Node(kids) => v.MapV? && CleanNames(v.entries) && DistinctKeys(v.entries)
                       && |v.entries| == |kids| && EachIn(v.entries, kids)
  }

  predicate CleanNames(es: seq<Entry>) {
    forall j :: 0 <= j < |es| ==> es[j].key.StringV? && 0 !in es[j].key.s
  }

  predicate EachIn(es: seq<Entry>, kids: seq<Child>)
    decreases kids, 1
  {
    kids == [] || (HasEntry(es, kids[0]) && EachIn(es, kids[1..]))
  }

  predicate HasEntry(es: seq<Entry>, kid: Child)
    decreases kid, 2
  {
    exists j :: 0 <= j < |es| && es[j].key == StringV(kid.key) && ValueOf(es[j].value, kid.snap)
  }

  /** Every proper tree has such a value; this is the one in query order. */
  function InOrder(s: Snap): Variant
    decreases s, 0
  {
    match s
    case Leaf(x) => x
    case Node(kids) => MapV(EntriesInOrder(kids))
  }

  function EntriesInOrder(kids: seq<Child>): (es: seq<Entry>)
    ensures |es| == |kids|
    ensures forall i :: 0 <= i < |kids| ==> es[i].key == StringV(kids[i].key)
    decreases kids, 1
  {
    if kids == [] then []
    else
      assert kids[0].snap < kids[0];
      [Entry(StringV(kids[0].key), InOrder(kids[0].snap))] + EntriesInOrder(kids[1..])
  }

  lemma {:induction false} HasValue(s: Snap)
    requires Proper(s)
    ensures ValueOf(InOrder(s), s)
    decreases s, 0
  {
    match s {
      case Leaf(_) =>
      case Node(kids) => NamesClean(kids); EntriesAreIn(EntriesInOrder(kids), kids, 0);
    }
  }

  lemma {:induction false} NamesClean(kids: seq<Child>)
    requires EachProper(kids)
    ensures CleanNames(EntriesInOrder(kids))
  {
    if kids != [] { NamesClean(kids[1..]); }
  }

  lemma {:induction false} EntriesAreIn(es: seq<Entry>, kids: seq<Child>, at: nat)
    requires EachProper(kids) && at + |kids| == |es| && es[at..] == EntriesInOrder(kids)
    ensures EachIn(es, kids)
    decreases kids, 1
  {
    if kids != [] {
      assert kids[0].snap < kids[0];
      HasValue(kids[0].snap);
      assert es[at] == es[at..][0] && es[at..][1..] == es[at + 1..];
      EntriesAreIn(es, kids[1..], at + 1);
    }
  }

  // ---- value and order together determine the tree --------------------------------------

  lemma {:induction false} FlatAt(es: seq<Entry>, j: nat)
    requires EachValid(es) && j < |es|
    ensures Valid(es[j].value)
    ensures FlatOf(es)[2 * j] == KeyItem(es[j].key) && FlatOf(es)[2 * j + 1] == ItemOf(es[j].value)
  {
    hide ItemOf, KeyItem, Valid;
    var us := FlatOf(es[1..]);
    assert FlatOf(es) == [KeyItem(es[0].key), ItemOf(es[0].value)] + us;
    if j > 0 {
      FlatAt(es[1..], j - 1);
      assert FlatOf(es)[2 * j] == us[2 * (j - 1)] && FlatOf(es)[2 * j + 1] == us[2 * (j - 1) + 1];
    }
  }

  lemma {:induction false} SameTree(s: Snap, t: Snap, v: Variant, w: Variant)
    requires Proper(s) && Proper(t) && ValueOf(v, s) && ValueOf(w, t) && Valid(v) && Valid(w)
    requires ItemOf(v) == ItemOf(w) && OrderItem(s) == OrderItem(t)
    ensures s == t
    decreases s, 0
  {
    hide HasEntry, EachIn;
    assert s.Leaf? <==> t.Leaf? by {
      assert |OrderItem(s).items| == |s.Children()| && |OrderItem(t).items| == |t.Children()|;
    }
    match s {
      case Leaf(x) => SameScalar(x, t.value);
      case Node(kids) => SameKids(kids, t.kids, v.entries, w.entries);
    }
  }

  lemma {:induction false} SameScalar(x: Variant, y: Variant)
    requires Valid(x) && Valid(y) && Clean(x) && Clean(y) && ItemOf(x) == ItemOf(y)
    requires !x.VectorV? && !x.MapV? && !y.VectorV? && !y.MapV?
    ensures x == y
  {
  }

  lemma {:induction false} SameKids(ks: seq<Child>, ls: seq<Child>, es: seq<Entry>, fs: seq<Entry>)
    requires EachProper(ks) && EachProper(ls) && EachIn(es, ks) && EachIn(fs, ls)
    requires EachValid(es) && EachValid(fs) && FlatOf(es) == FlatOf(fs)
    requires CleanNames(es) && CleanNames(fs) && DistinctKeys(es) && DistinctKeys(fs)
    requires PairItems(ks) == PairItems(ls)
    ensures ks == ls
    decreases ks, 1
  {
    hide FlatOf, EachValid, HasEntry, PairItem;
    assert |ks| == |PairItems(ks)| == |PairItems(ls)| == |ls|;
    if ks != [] {
      assert PairItem(ks[0]) == PairItems(ks)[0] == PairItem(ls[0]);
      SameChild(ks[0], ls[0], es, fs);
      assert PairItems(ks)[1..] == PairItems(ks[1..]) && PairItems(ls)[1..] == PairItems(ls[1..]);
      SameKids(ks[1..], ls[1..], es, fs);
      assert ks == [ks[0]] + ks[1..] && ls == [ls[0]] + ls[1..];
    }
  }

  lemma {:induction false} SameChild(a: Child, b: Child, es: seq<Entry>, fs: seq<Entry>)
    requires 0 !in a.key && 0 !in b.key && Proper(a.snap) && Proper(b.snap) && HasEntry(es, a) && HasEntry(fs, b)
    requires EachValid(es) && EachValid(fs) && FlatOf(es) == FlatOf(fs)
    requires CleanNames(es) && CleanNames(fs) && DistinctKeys(es) && DistinctKeys(fs)
    requires PairItem(a) == PairItem(b)
    ensures a == b
    decreases a, 2
  {
    hide FlatOf, EachValid, ItemOf, Cut;
    assert a.snap < a;
    assert PairItem(a).items[0] == PairItem(b).items[0] && PairItem(a).items[1] == PairItem(b).items[1];
    assert a.key == b.key;
    assert OrderItem(a.snap) == OrderItem(b.snap);
    var j :| 0 <= j < |es| && es[j].key == StringV(a.key) && ValueOf(es[j].value, a.snap);
    var l :| 0 <= l < |fs| && fs[l].key == StringV(b.key) && ValueOf(fs[l].value, b.snap);
    assert |es| == |fs| by { assert |FlatOf(es)| == |FlatOf(fs)|; }
    FlatAt(es, j);
    FlatAt(fs, j);
    assert KeyItem(fs[j].key) == Text(fs[j].key.s);
    assert fs[j].key == fs[l].key;
    assert j == l;
    SameTree(a.snap, b.snap, es[j].value, fs[j].value);
  }

  /** Equal payloads come from equal trees, whatever the two maps' orders were. */
  lemma {:induction false} SamePayloads(s: Snap, t: Snap, v: Variant, w: Variant)
    requires Proper(s) && Proper(t) && Holds(s) && Holds(t)
    requires ValueOf(v, s) && ValueOf(w, t) && Valid(v) && Valid(w)
    requires Encoding(v) == Encoding(w) && OrderEncoding(s) == OrderEncoding(t)
    ensures s == t
  {
    hide Wire, Proper, ValueOf, OrderItem, ItemOf, Valid, Holds, Sized;
    ItemOfSized(v);
    ItemOfSized(w);
    OrderItemSized(s);
    OrderItemSized(t);
    WireInjective(ItemOf(v), ItemOf(w));
    WireInjective(OrderItem(s), OrderItem(t));
    SameTree(s, t, v, w);
  }

  /** A posted snapshot is lossless: equal buffers come from equal trees, with
      equal query orders at every level. */
  lemma {:induction false} Lossless(s: Snap, t: Snap, v: Variant, w: Variant, seqS: I64, seqT: I64, nsS: I64, nsT: I64)
    requires Proper(s) && Proper(t) && Holds(s) && Holds(t)
    requires ValueOf(v, s) && ValueOf(w, t) && Valid(v) && Valid(w)
    requires |Encoding(v)| < TWO_TO_32 && |Encoding(w)| < TWO_TO_32
    requires Frame(seqS, nsS, Encoding(v), OrderEncoding(s)) == Frame(seqT, nsT, Encoding(w), OrderEncoding(t))
    ensures s == t && seqS == seqT
  {
    hide Frame, Encoding, OrderEncoding, Proper, ValueOf, Valid, Holds;
    FrameInjective(seqS, nsS, Encoding(v), OrderEncoding(s), seqT, nsT, Encoding(w), OrderEncoding(t));
    SamePayloads(s, t, v, w);
  }

  /** And the reader finds both parts, as long as their lengths fit 32 bits. */
  lemma {:induction false} Readable(s: Snap, v: Variant, seq_: I64, ns: I64)
    requires Holds(s) && Valid(v) && |Encoding(v)| < TWO_TO_32 && |OrderEncoding(s)| < TWO_TO_32
    ensures var b := Frame(seq_, ns, Encoding(v), OrderEncoding(s));
            SeqOf(b) == seq_ && ValuePart(b) == Some(Encoding(v)) && OrderPart(b) == Some(OrderEncoding(s))
  {
    hide Frame, Wire, ValuePart, OrderPart, SeqOf;
    ItemOfSized(v);
    OrderItemSized(s);
    WireNonEmpty(ItemOf(v));
    WireNonEmpty(OrderItem(s));
    FrameParts(seq_, ns, Encoding(v), OrderEncoding(s));
    FrameRecovered(seq_, ns, Encoding(v), OrderEncoding(s));
  }

  // ---- the listener -----------------------------------------------------------------------

  /** The sequence numbers that arrive when snapshot i was posted iff got[i]. */
  function Arrived(got: seq<bool>): seq<int> {
    if got == [] then []
    else Arrived(got[..|got| - 1]) + if got[|got| - 1] then [|got|] else []
  }

  lemma {:induction false} ArrivedRange(got: seq<bool>)
    ensures |Arrived(got)| <= |got|
    ensures forall i :: 0 <= i < |Arrived(got)| ==> i < Arrived(got)[i] <= |got|
    ensures forall i, j :: 0 <= i < j < |Arrived(got)| ==> Arrived(got)[i] < Arrived(got)[j]
  {
    if got != [] { ArrivedRange(got[..|got| - 1]); }
  }

  /** The numbers are 1, 2, 3, … exactly when no allocation failed before the
      last one that arrived: a gap is a snapshot there was no memory for. */
  lemma {:induction false} Gapless(got: seq<bool>)
    requires got != [] && got[|got| - 1]
    ensures (forall i :: 0 <= i < |Arrived(got)| ==> Arrived(got)[i] == i + 1) <==> (forall i :: 0 <= i < |got| ==> got[i])
  {
    var front := got[..|got| - 1];
    ArrivedRange(front);
    assert Arrived(got)[|Arrived(front)|] == |got|;
    if forall i :: 0 <= i < |got| ==> got[i] {
      AllArrived(got);
    } else {
      SomeLost(front);
    }
  }

  lemma {:induction false} AllArrived(got: seq<bool>)
    requires forall i :: 0 <= i < |got| ==> got[i]
    ensures |Arrived(got)| == |got| && forall i :: 0 <= i < |got| ==> Arrived(got)[i] == i + 1
  {
    if got != [] { AllArrived(got[..|got| - 1]); }
  }

  lemma {:induction false} SomeLost(got: seq<bool>)
    requires exists i :: 0 <= i < |got| && !got[i]
    ensures |Arrived(got)| < |got|
  {
    var front := got[..|got| - 1];
    ArrivedRange(front);
    if got[|got| - 1] {
      var i :| 0 <= i < |got| && !got[i];
      assert front[i] == got[i];
      SomeLost(front);
    }
  }

  /** PortValueListener: its count goes up once per snapshot. */
  class PortValueListener {
    const port: int
    var seq_: nat
    /** For each snapshot so far, whether its buffer could be allocated. */
    ghost var got: seq<bool>

    ghost predicate Valid()
      reads this
    {
      |got| == seq_
    }

    constructor (p: int)
      ensures port == p && Valid() && seq_ == 0 && got == []
    {
      port, seq_, got := p, 0, [];
    }

    /** OnValueChanged. Neither serialization can fail, so the snapshot is never
        dropped and its order never lost: only the allocation can fail. */
    method OnValueChanged(vm: Vm, v: Variant, s: Snap, now: I64, memory: bool)
      requires Valid() && Variants.Valid(v) && Holds(s) && seq_ < 0x7FFF_FFFF_FFFF_FFFF
      modifies this, vm
      ensures Valid() && seq_ == old(seq_) + 1 && got == old(got) + [memory]
      ensures vm.posts == if memory then old(vm.posts) + [Message(port, Frame(seq_, now, Encoding(v), OrderEncoding(s)))]
                          else old(vm.posts)
      ensures Arrived(got) == Arrived(old(got)) + if memory then [seq_] else []
    {
      hide Frame, Encoding, OrderEncoding;
      var encoded, payload, _ := SerializeVariant(v);
      if !encoded { assert false; }
      var ordered, order, _ := SerializeOrder(s);
      if !ordered { assert false; }
      seq_ := seq_ + 1;
      vm.PostSnapshot(port, seq_, now, payload, order, memory);
      got := got + [memory];
      assert got[..|got| - 1] == old(got);
    }

    /** OnCancelled: the reason, as text, under the number -1. */
    method OnCancelled(vm: Vm, reason: Octets, now: I64, memory: bool)
      requires Valid() && |reason| <= MAX_SIZE
      modifies vm
      ensures vm.posts == if memory then old(vm.posts) + [Message(port, Frame(-1, now, Encoding(StringV(reason)), []))]
                          else old(vm.posts)
    {
      hide Frame, Encoding;
      var ok, payload, _ := SerializeVariant(StringV(reason));
      if !ok { assert false; }
      vm.PostSnapshot(port, -1, now, payload, [], memory);
    }
  }
}
