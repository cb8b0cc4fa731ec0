/**
 Buffered writes: one array of [op, path, data?] for a batch or for the commit of
 a transaction. Either all of it reaches the commit, in order, or nothing is
 committed.
 */
module FirestoreWrites {
  import opened Bytes
  import opened Cbor
  import opened Cursor
  import opened Walk
  import opened FirestoreValue
  import opened FirestoreDecode
  import opened FirestoreMeaning
  import opened FirestoreRoundTrip
  import opened FirestoreQuery
  import opened FirestoreQueryMeaning

  datatype Write =
    | DeleteDoc(path: Octets)
    | SetDoc(path: Octets, data: seq<Field>, merge: bool)
    | UpdateDoc(path: Octets, data: seq<Field>)

  // ---- on a cursor ------------------------------------------------------------------

  function WriteOf(op: Octets, path: Octets, data: seq<Field>): Option<Write> {
    if op == Ascii("set") || op == Ascii("merge") then Some(SetDoc(path, data, op == Ascii("merge")))
    else if op == Ascii("update") then Some(UpdateDoc(path, data))
    else None
  }

  predicate TakesData(op: Octets) {
    op == Ascii("set") || op == Ascii("merge") || op == Ascii("update")
  }

  /** One entry; what comes after the data is not looked at. */
  function WriteAt(c: Cursor): Meaning<Write> {
    if !c.IsArray() then Refuses
    else
      match Enter(c)
      case None => Refuses
      case Some(item) =>
        match ReadText(item)
        case Got(op, it1) =>
          (match ReadText(it1)
           case Got(path, it2) =>
             if op == Ascii("delete") then Means(DeleteDoc(path))
             else if !TakesData(op) then Refuses
             else
               (match Document(it2)
                case Got(data, _) => Means(WriteOf(op, path, data).value)
                case Refused => Refuses
                case OutOfContract => Outside)
           case _ => Refuses)
        case _ => Refuses
  }

  /** The writes handed to the SDK, and whether that was all of them; Outside
      where the library's contract is left. */
  datatype Applied = Applied(ops: seq<Write>, ok: Meaning<()>)

  function Entries(c: Cursor, acc: seq<Write>): Applied
    decreases |c.rest|
  {
    if c.End? then Applied(acc, Means(()))
    else
      match WriteAt(c)
      case Means(w) =>
        (match Advance(c)
         case None => Applied(acc + [w], Refuses)
         case Some(d) => Entries(d, acc + [w]))
      case Refuses => Applied(acc, Refuses)
      case Outside => Applied(acc, Outside)
  }

  /** The entries of the array the bytes begin with. */
  function FirstEntry(cbor: Octets): Option<Cursor> {
    match Start(cbor)
    case None => None
    case Some(array_) => if array_.IsArray() then Enter(array_) else None
  }

  function Apply(cbor: Octets): Applied {
    if cbor == [] then Applied([], Means(()))
    else match FirstEntry(cbor) case None => Applied([], Refuses) case Some(entry) => Entries(entry, [])
  }

  // ---- the source's loop ------------------------------------------------------------

  /** What a WriteBatch and a Transaction have in common. */
  class Writer {
    var ops: seq<Write>

    constructor ()
      ensures ops == []
    {
      ops := [];
    }

    method Delete(path: Octets)
      modifies this
      ensures ops == old(ops) + [DeleteDoc(path)]
    {
      ops := ops + [DeleteDoc(path)];
    }

    method Set(path: Octets, data: seq<Field>, merge: bool)
      modifies this
      ensures ops == old(ops) + [SetDoc(path, data, merge)]
    {
      ops := ops + [SetDoc(path, data, merge)];
    }

    method Update(path: Octets, data: seq<Field>)
      modifies this
      ensures ops == old(ops) + [UpdateDoc(path, data)]
    {
      ops := ops + [UpdateDoc(path, data)];
    }
  }

  /** One turn of the loop. */
  method ApplyEntry(txn: Writer, entry: Cursor) returns (r: Meaning<()>)
    modifies txn
    ensures r == match WriteAt(entry) case Means(_) => Means(()) case Refuses => Refuses case Outside => Outside
    ensures txn.ops == match WriteAt(entry) case Means(w) => old(txn.ops) + [w] case _ => old(txn.ops)
  {
    hide Ascii;
    if !entry.IsArray() { return Refuses; }
    var item := Enter(entry);
    if item.None? { return Refuses; }
    var op := ReadText(item.value);
    if !op.Got? { return Refuses; }
    var path := ReadText(op.next);
    if !path.Got? { return Refuses; }
    if op.value == Ascii("delete") {
      txn.Delete(path.value);
    } else if op.value == Ascii("set") || op.value == Ascii("merge") {
      var data := DecodeMap(path.next);
      if data.Refused? { return Refuses; }
      if data.OutOfContract? { return Outside; }
      txn.Set(path.value, data.value, op.value == Ascii("merge"));
    } else if op.value == Ascii("update") {
      var data := DecodeMap(path.next);
      if data.Refused? { return Refuses; }
      if data.OutOfContract? { return Outside; }
      txn.Update(path.value, data.value);
    } else {
      return Refuses;
    }
    r := Means(());
  }

  method ApplyWrites(txn: Writer, cbor: Octets) returns (r: Meaning<()>)
    requires txn.ops == []
    modifies txn
    ensures Applied(txn.ops, r) == Apply(cbor)
  {
    if cbor == [] { return Means(()); }
    var array_ := Start(cbor);
    if array_.None? || !array_.value.IsArray() { return Refuses; }
    var entered := Enter(array_.value);
    if entered.None? { return Refuses; }
    var entry: Cursor := entered.value;
    while !entry.End?
      invariant Entries(entered.value, []) == Entries(entry, txn.ops)
      decreases |entry.rest|
    {
      var one := ApplyEntry(txn, entry);
      if !one.Means? { return one; }
      var d := Advance(entry);
      if d.None? { return Refuses; }
      entry := d.value;
    }
    r := Means(());
  }

  /** fdb_fs_batch_commit, and the commit branch of a transaction's loop: what is
      committed, if anything is. */
  method Commit(cbor: Octets) returns (committed: Option<seq<Write>>)
    ensures committed == match Apply(cbor) case Applied(ops, ok) => if ok.Means? then Some(ops) else None
  {
    hide Apply, Entries;
    var txn := new Writer();
    var r := ApplyWrites(txn, cbor);
    committed := if r.Means? then Some(txn.ops) else None;
  }

  // ---- all or nothing, on any bytes ------------------------------------------------------

  /** Walking from c to the end of its container passes exactly these writes, one
      for each entry, with nothing between them. */
  predicate Passes(c: Cursor, ws: seq<Write>)
    decreases |c.rest|
  {
    if c.End? then ws == []
    else
      && ws != [] && WriteAt(c) == Means(ws[0])
      && Advance(c).Some? && Passes(Advance(c).value, ws[1..])
  }

  lemma {:induction false} EntriesExact(c: Cursor, acc: seq<Write>, ws: seq<Write>)
    ensures Entries(c, acc) == Applied(acc + ws, Means(())) <==> Passes(c, ws)
    decreases |c.rest|
  {
    hide WriteAt, Advance;
    if c.End? {
      assert acc + ws == acc ==> |ws| == 0;
      assert acc + [] == acc;
    } else {
      match WriteAt(c) {
        case Means(w) =>
          if Advance(c).Some? {
            EntriesGrow(Advance(c).value, acc + [w]);
            assert Entries(c, acc).ops[|acc|] == w;
            if ws == [] {
              assert |acc + ws| == |acc|;
            } else {
              assert (acc + ws)[|acc|] == ws[0];
              EntriesExact(Advance(c).value, acc + [w], ws[1..]);
              assert ws[0] == w ==> acc + [w] + ws[1..] == acc + ws;
            }
          }
        case _ =>
      }
    }
  }

  lemma {:induction false} EntriesGrow(c: Cursor, acc: seq<Write>)
    ensures acc <= Entries(c, acc).ops
    decreases |c.rest|
  {
    hide WriteAt, Advance;
    if c.At? {
      match WriteAt(c) {
        case Means(w) => if Advance(c).Some? { EntriesGrow(Advance(c).value, acc + [w]); }
        case _ =>
      }
    }
  }

  /** On any bytes at all: a commit happens exactly when the whole array decodes,
      and what is committed is the array's writes, in order. */
  lemma {:induction false} AllOrNothing(cbor: Octets, ws: seq<Write>)
    requires cbor != []
    ensures Apply(cbor) == Applied(ws, Means(())) <==>
            FirstEntry(cbor).Some? && Passes(FirstEntry(cbor).value, ws)
  {
    hide Entries, Passes, FirstEntry;
    if FirstEntry(cbor).Some? {
      EntriesExact(FirstEntry(cbor).value, [], ws);
      assert [] + ws == ws;
    }
  }

  // ---- on the wire ------------------------------------------------------------------------

  /** The data of a write, or nothing where it should be. */
  function DataMeaning(ts: seq<Item>): Meaning<seq<Field>> {
    if ts == [] || !(ts[0].Map? || ts[0].Array?) then Outside
    else if Countable(ts[0]) then InterpFields(ts[0].items, [])
    else Refuses
  }

  function WriteMeaning(x: Item): Meaning<Write> {
    if !x.Array? || !Countable(x) || |x.items| < 2 || !x.items[0].Text? || !x.items[1].Text? then Refuses
    else
      var op, path := x.items[0].bytes, x.items[1].bytes;
      if op == Ascii("delete") then Means(DeleteDoc(path))
      else if !TakesData(op) then Refuses
      else
        match DataMeaning(x.items[2..])
        case Means(data) => Means(WriteOf(op, path, data).value)
        case Refuses => Refuses
        case Outside => Outside
  }

  /** The writes of an array up to the first that cannot be applied. */
  function WritesMeaning(ts: seq<Item>): Applied {
    if ts == [] then Applied([], Means(()))
    else
      match WriteMeaning(ts[0])
      case Refuses => Applied([], Refuses)
      case Outside => Applied([], Outside)
      case Means(w) =>
        if !Skippable(ts[0], MAX_RECURSIONS) then Applied([w], Refuses)
        else Applied([w] + WritesMeaning(ts[1..]).ops, WritesMeaning(ts[1..]).ok)
  }

  lemma {:induction false} WriteOnWire(c: Cursor, x: Item, tail: Octets)
    requires c.At? && Sized(x) && c.rest == Wire(x) + tail && Past(c, tail).Some?
    ensures WriteAt(c) == WriteMeaning(x)
  {
    hide Wire, ReadHead, WireAll, Here, Enter, ReadText, Document, InterpFields, Ascii, Over, AllSized;
    ArrayAt(c, x, tail);
    if x.Array? {
      TwoTexts(c, x, tail);
      if Countable(x) && ReadText(Enter(c).value).Got? && ReadText(ReadText(Enter(c).value).next).Got? {
        DataOnWire(ReadText(ReadText(Enter(c).value).next).next, x.items[2..], x.open, tail);
      }
    }
  }

  lemma {:induction false} DataOnWire(c: Cursor, ts: seq<Item>, open: bool, tail: Octets)
    requires AllSized(ts) && Over(c, ts, open, tail)
    ensures match DataMeaning(ts)
            case Means(fs) => Document(c).Got? && Document(c).value == fs
            case Refuses => Document(c) == Refused
            case Outside => Document(c) == OutOfContract
  {
    hide Wire, ReadHead, WireAll, Here, Past, Enter, InterpFields, Fields;
    if ts != [] {
      OverStep(c, ts, open, tail);
      var rest := Remaining(ts[1..], open, tail);
      if ts[0].Map? || ts[0].Array? { DocumentOnWire(c, ts[0], rest); } else { AtItem(c, ts[0], rest); }
    }
  }

  lemma {:induction false} EntriesOnWire(c: Cursor, ts: seq<Item>, open: bool, tail: Octets, acc: seq<Write>)
    requires AllSized(ts) && Over(c, ts, open, tail)
    ensures Entries(c, acc) == Applied(acc + WritesMeaning(ts).ops, WritesMeaning(ts).ok)
    decreases ts
  {
    hide Wire, ReadHead, WireAll, Here, Past, Enter, WriteAt, WriteMeaning, Skip, Skippable, Advance;
    if ts == [] {
      assert acc + [] == acc;
    } else {
      var rest := Remaining(ts[1..], open, tail);
      OverStep(c, ts, open, tail);
      WriteOnWire(c, ts[0], rest);
      match WriteMeaning(ts[0]) {
        case Means(w) =>
          UntaggedWrite(ts[0]);
          PassedStep(c, ts, open, tail);
          if Skippable(ts[0], MAX_RECURSIONS) {
            EntriesOnWire(Advance(c).value, ts[1..], open, tail, acc + [w]);
            assert acc + [w] + WritesMeaning(ts[1..]).ops == acc + ([w] + WritesMeaning(ts[1..]).ops);
          }
        case _ => assert acc + [] == acc;
      }
    }
  }

  lemma {:induction false} UntaggedWrite(x: Item)
    requires WriteMeaning(x).Means?
    ensures !x.Tagged?
  {
  }

  lemma {:induction false} ArrayOnWire(t: Item, tail: Octets)
    requires Sized(t)
    ensures Wire(t) + tail != []
    ensures FirstEntry(Wire(t) + tail).Some? <==> t.Array? && Countable(t)
    ensures FirstEntry(Wire(t) + tail).Some? ==> Over(FirstEntry(Wire(t) + tail).value, t.items, t.open, tail)
  {
    hide Wire, ReadHead, WireAll, Here, Past, Enter;
    WireSplit(t, tail);
    var c: Cursor := At(Wire(t) + tail, 1, false, false);
    AtItem(c, t, tail);
    if t.Array? { EnterStep(c, t, tail); }
  }

  /** The bytes of any item apply as what it says: nothing unless it is an array. */
  lemma {:induction false} ApplyOnWire(t: Item, tail: Octets)
    requires Sized(t)
    ensures Apply(Wire(t) + tail)
         == if t.Array? && Countable(t) then WritesMeaning(t.items) else Applied([], Refuses)
  {
    hide Wire, Entries, WritesMeaning, FirstEntry, Over, Countable;
    ArrayOnWire(t, tail);
    if t.Array? && Countable(t) {
      EntriesOnWire(FirstEntry(Wire(t) + tail).value, t.items, t.open, tail, []);
      assert [] + WritesMeaning(t.items).ops == WritesMeaning(t.items).ops;
    }
  }

  // ---- the client's encoding --------------------------------------------------------------

  /** A write as the client records it: [op, path] or [op, path, data]. */
  function Recorded(w: Write): FieldValue {
    match w
    case DeleteDoc(path) => ArrayValue([StringValue(Ascii("delete")), StringValue(path)])
    case SetDoc(path, data, merge) =>
      ArrayValue([StringValue(Ascii(if merge then "merge" else "set")), StringValue(path), MapValue(data)])
    case UpdateDoc(path, data) => ArrayValue([StringValue(Ascii("update")), StringValue(path), MapValue(data)])
  }

  function AllRecorded(ws: seq<Write>): (vs: seq<FieldValue>)
    ensures |vs| == |ws|
  {
    if ws == [] then [] else [Recorded(ws[0])] + AllRecorded(ws[1..])
  }

  /** Sizes and depths the wire can carry. */
  predicate Carried(ws: seq<Write>) {
    forall i :: 0 <= i < |ws| ==>
      Valid(Recorded(ws[i])) && Fits(Recorded(ws[i])) && Skippable(ItemOf(Recorded(ws[i])), MAX_RECURSIONS)
  }

  lemma {:induction false} RecordedMeaning(w: Write)
    requires Valid(Recorded(w)) && Fits(Recorded(w))
    ensures WriteMeaning(ItemOf(Recorded(w))) == Means(w)
  {
    OpNames();
    hide Ascii, InterpFields, DataMeaning, FlatOf;
    match w {
      case DeleteDoc(path) => TwoItems(StringValue(Ascii("delete")), StringValue(path));
      case SetDoc(path, data, merge) =>
        RecordedData(StringValue(Ascii(if merge then "merge" else "set")), StringValue(path), data);
      case UpdateDoc(path, data) => RecordedData(StringValue(Ascii("update")), StringValue(path), data);
    }
  }

  lemma {:induction false} OpNames()
    ensures Ascii("delete") != Ascii("set") && Ascii("delete") != Ascii("merge") && Ascii("delete") != Ascii("update")
    ensures Ascii("set") != Ascii("merge") && Ascii("set") != Ascii("update") && Ascii("merge") != Ascii("update")
  {
    assert |Ascii("set")| == 3 && |Ascii("merge")| == 5 && |Ascii("delete")| == 6 && |Ascii("update")| == 6;
    assert Ascii("delete")[0] == 'd' as int && Ascii("update")[0] == 'u' as int;
  }

  lemma {:induction false} TwoItems(a: FieldValue, b: FieldValue)
    ensures ItemsOf([a, b]) == [ItemOf(a), ItemOf(b)]
  {
    hide ItemOf;
    assert [a, b][1..] == [b] && [b][1..] == [];
    assert ItemsOf([b]) == [ItemOf(b)];
  }

  lemma {:induction false} RecordedData(a: FieldValue, b: FieldValue, data: seq<Field>)
    requires Valid(ArrayValue([a, b, MapValue(data)])) && Fits(ArrayValue([a, b, MapValue(data)]))
    ensures ItemsOf([a, b, MapValue(data)]) == [ItemOf(a), ItemOf(b), Map(FlatOf(data), false)]
    ensures DataMeaning([ItemOf(a), ItemOf(b), Map(FlatOf(data), false)][2..]) == Means(data)
  {
    hide InterpFields, FlatOf;
    DataValid(a, b, MapValue(data));
    hide AllValid, AllFit, EachValid, EachFits, DistinctKeys;
    assert [] + data == data;
    InterpFlatOf(data, []);
    hide Valid, Fits;
    assert [a, b, MapValue(data)][1..] == [b, MapValue(data)];
    TwoItems(b, MapValue(data));
  }

  lemma {:induction false} DataValid(a: FieldValue, b: FieldValue, d: FieldValue)
    requires AllValid([a, b, d]) && AllFit([a, b, d])
    ensures Valid(d) && Fits(d)
  {
    hide Valid, Fits;
    var vs := [a, b, d];
    assert vs[1..] == [b, d] && [b, d][1..] == [d];
    assert AllValid([b, d]) && AllFit([b, d]) && AllValid([d]) && AllFit([d]);
  }

  lemma {:induction false} AllRecordedMeaning(ws: seq<Write>)
    requires Carried(ws)
    ensures WritesMeaning(ItemsOf(AllRecorded(ws))) == Applied(ws, Means(()))
    ensures AllSized(ItemsOf(AllRecorded(ws)))
  {
    hide WriteMeaning, Skippable, ItemOf, Recorded, Valid, Fits;
    if ws != [] {
      RecordedMeaning(ws[0]);
      ItemOfSized(Recorded(ws[0]));
      var ts := ItemsOf(AllRecorded(ws));
      assert ts[0] == ItemOf(Recorded(ws[0])) && ts[1..] == ItemsOf(AllRecorded(ws[1..]));
      forall i | 0 <= i < |ws[1..]|
        ensures Valid(Recorded(ws[1..][i])) && Fits(Recorded(ws[1..][i]))
        ensures Skippable(ItemOf(Recorded(ws[1..][i])), MAX_RECURSIONS)
      {
        assert ws[1..][i] == ws[i + 1];
      }
      AllRecordedMeaning(ws[1..]);
      assert ws == [ws[0]] + ws[1..];
    }
  }

  /** The bytes the client sends: none at all for no writes. */
  function WriteBytes(ws: seq<Write>): Octets
    requires |ws| < UNKNOWN && AllSized(ItemsOf(AllRecorded(ws)))
  {
    if ws == [] then [] else Wire(Array(ItemsOf(AllRecorded(ws)), false))
  }

  /** Every list of writes is committed as it was recorded. */
  lemma {:induction false} RecordedIsCommitted(ws: seq<Write>)
    requires Carried(ws) && |ws| < UNKNOWN
    ensures AllSized(ItemsOf(AllRecorded(ws)))
    ensures Apply(WriteBytes(ws)) == Applied(ws, Means(()))
  {
    hide Wire, Apply, WritesMeaning, Carried;
    AllRecordedMeaning(ws);
    var t := Array(ItemsOf(AllRecorded(ws)), false);
    if ws == [] {
      NoWrites();
    } else {
      assert Wire(t) + [] == Wire(t);
      ApplyOnWire(t, []);
    }
  }

  lemma {:induction false} NoWrites()
    ensures Apply([]) == Applied([], Means(()))
  {
  }
}
