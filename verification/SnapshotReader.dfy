/**
 The client's reading of the order payload, and what it finds there: the keys in
 query order, and an order of its own for exactly the children that have children.
 */
module SnapshotReader {
  import opened Bytes
  import opened Cbor
  import opened SnapshotOrder
  import opened Snapshot

  /** DbChildOrder: a later entry of a key replaces an earlier one's order. */
  datatype ChildOrder = ChildOrder(keys: seq<Octets>, children: map<Octets, ChildOrder>)

  /** How the client prints the first of a pair; a text is itself. */
  type Print = Item -> Octets

  ghost predicate PrintsText(show: Print) {
    forall s :: show(Text(s)) == s
  }

  /** DbChildOrder._decode: only a list has an order. */
  function Read(t: Item, show: Print): Option<ChildOrder>
    decreases t, 0
  {
    if t.Array? then Some(ReadEntries(t.items, show, ChildOrder([], map[]))) else None
  }

  /** Whatever is no pair is passed over. */
  function ReadEntries(ts: seq<Item>, show: Print, acc: ChildOrder): ChildOrder
    decreases ts, 1
  {
    if ts == [] then acc
    else ReadEntries(ts[1..], show, Extended(ts[0], show, acc))
  }

  function Extended(entry: Item, show: Print, acc: ChildOrder): ChildOrder
    decreases entry, 2
  {
    if !entry.Array? || |entry.items| != 2 then acc
    else
      var key := show(entry.items[0]);
      match Read(entry.items[1], show)
      case None => acc.(keys := acc.keys + [key])
      case Some(sub) => ChildOrder(acc.keys + [key], acc.children[key := sub])
  }

  /** The source's loop over the decoded list. */
  method DecodeOrder(t: Item, show: Print) returns (r: Option<ChildOrder>)
    ensures r == Read(t, show)
    decreases t
  {
    if !t.Array? { return None; }
    var order, ts := ChildOrder([], map[]), t.items;
    assert ts[0..] == ts;
    for i := 0 to |ts|
      invariant ReadEntries(ts[i..], show, order) == ReadEntries(ts, show, ChildOrder([], map[]))
    {
      assert ts[i..][0] == ts[i] && ts[i..][1..] == ts[i + 1..];
      if ts[i].Array? && |ts[i].items| == 2 {
        var key := show(ts[i].items[0]);
        var sub := DecodeOrder(ts[i].items[1], show);
        order := ChildOrder(order.keys + [key],
                            if sub.Some? then order.children[key := sub.value] else order.children);
      }
    }
    assert ts[|ts|..] == [];
    r := Some(order);
  }

  // ---- what is found ---------------------------------------------------------------------

  /** The keys of the children in their order, and for each child that has
      children of its own, and for no other, its order, likewise. */
  predicate Follows(o: ChildOrder, kids: seq<Child>)
    decreases kids, 0
  {
    && |o.keys| == |kids|
    && (forall i :: 0 <= i < |kids| ==> o.keys[i] == kids[i].key)
    && (forall key :: key in o.children ==> key in o.keys)
    && forall i :: 0 <= i < |kids| ==> FollowsChild(o, kids[i])
  }

  predicate FollowsChild(o: ChildOrder, kid: Child)
    decreases kid, 1
  {
    match kid.snap
    case Leaf(_) => kid.key !in o.children
    case Node(sub) =>
      if sub == [] then kid.key !in o.children
      else kid.key in o.children && Follows(o.children[kid.key], sub)
  }

  lemma {:induction false} ChildRead(kid: Child, show: Print, acc: ChildOrder)
    requires PrintsText(show) && 0 !in kid.key && Proper(kid.snap) && kid.key !in acc.children
    ensures var o := Extended(PairItem(kid), show, acc);
            && o.keys == acc.keys + [kid.key] && FollowsChild(o, kid)
            && o.children.Keys <= acc.children.Keys + {kid.key}
            && forall key :: key in acc.children ==> key in o.children && o.children[key] == acc.children[key]
    decreases kid, 2
  {
    var t := PairItem(kid);
    assert t.items[0] == Text(kid.key);
    match kid.snap {
      case Leaf(_) => assert t.items[1] == Item.Null;
      case Node(sub) =>
        assert OrderItem(kid.snap) == OrderItem(Node(sub)) && kid.snap.HasChildren();
        assert t.items[1] == OrderItem(Node(sub));
        OrderRead(sub, show);
    }
  }

  lemma {:induction false} EntriesRead(kids: seq<Child>, done: seq<Child>, show: Print, acc: ChildOrder)
    requires PrintsText(show) && EachProper(kids) && DistinctNames(done + kids) && Follows(acc, done)
    ensures Follows(ReadEntries(PairItems(kids), show, acc), done + kids)
    decreases kids, 3
  {
    hide Extended, PairItem, Proper, Follows, FollowsChild, DistinctNames, PairItems, ReadEntries;
    if kids == [] {
      assert done + kids == done;
      NoEntries(show, acc);
    } else {
      var kid, rest := kids[0], kids[1..];
      assert kid.snap < kids[0];
      EntriesStep(kids, show, acc);
      KeyIsNew(acc, kids, done);
      ChildRead(kid, show, acc);
      var o := Extended(PairItem(kid), show, acc);
      StillFollows(acc, o, done, kid);
      Regroup(done, kids);
      EntriesRead(rest, done + [kid], show, o);
    }
  }

  lemma {:induction false} NoEntries(show: Print, acc: ChildOrder)
    ensures ReadEntries(PairItems([]), show, acc) == acc
  {
  }

  lemma {:induction false} EntriesStep(kids: seq<Child>, show: Print, acc: ChildOrder)
    requires kids != []
    ensures ReadEntries(PairItems(kids), show, acc)
         == ReadEntries(PairItems(kids[1..]), show, Extended(PairItem(kids[0]), show, acc))
  {
    hide Extended, PairItem;
    assert PairItems(kids)[0] == PairItem(kids[0]) && PairItems(kids)[1..] == PairItems(kids[1..]);
  }

  lemma {:induction false} Regroup(done: seq<Child>, kids: seq<Child>)
    requires kids != []
    ensures done + [kids[0]] + kids[1..] == done + kids
  {
  }

  lemma {:induction false} KeyIsNew(acc: ChildOrder, kids: seq<Child>, done: seq<Child>)
    requires kids != [] && DistinctNames(done + kids) && Follows(acc, done)
    ensures kids[0].key !in acc.keys && kids[0].key !in acc.children
  {
    hide FollowsChild;
    forall i | 0 <= i < |done| ensures done[i].key != kids[0].key {
      assert (done + kids)[i] == done[i] && (done + kids)[|done|] == kids[0];
    }
  }

  lemma {:induction false} StillFollows(acc: ChildOrder, o: ChildOrder, done: seq<Child>, kid: Child)
    requires Follows(acc, done) && kid.key !in acc.keys
    requires o.keys == acc.keys + [kid.key] && FollowsChild(o, kid)
    requires o.children.Keys <= acc.children.Keys + {kid.key}
    requires forall key :: key in acc.children ==> key in o.children && o.children[key] == acc.children[key]
    ensures Follows(o, done + [kid])
  {
    var all := done + [kid];
    forall i | 0 <= i < |all| ensures o.keys[i] == all[i].key && FollowsChild(o, all[i]) {
      if i < |done| {
        assert all[i] == done[i] && FollowsChild(acc, done[i]);
        assert o.keys[i] == acc.keys[i] && acc.keys[i] in acc.keys;
      }
    }
    forall key | key in o.children ensures key in o.keys {
      if key in acc.children { assert key in acc.keys; }
    }
  }

  /** From the order item of a node with these children the client reads exactly
      their keys, in query order, and an order for exactly those of them that are
      nodes with children, at every level. */
  lemma {:induction false} OrderRead(kids: seq<Child>, show: Print)
    requires PrintsText(show) && EachProper(kids) && DistinctNames(kids)
    ensures Read(OrderItem(Node(kids)), show).Some?
    ensures Follows(Read(OrderItem(Node(kids)), show).value, kids)
    decreases kids, 4
  {
    hide ReadEntries, PairItems, EachProper, DistinctNames;
    assert [] + kids == kids;
    assert Follows(ChildOrder([], map[]), []);
    EntriesRead(kids, [], show, ChildOrder([], map[]));
  }

  /** A leaf has no keys to read. */
  lemma {:induction false} LeafRead(s: Snap, show: Print)
    requires s.Leaf?
    ensures Read(OrderItem(s), show) == Some(ChildOrder([], map[]))
  {
  }
}
