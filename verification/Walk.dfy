/**
 What the reader does on the bytes of an item: the bridge between cursors and
 data items that every decoding theorem rests on.
 */
module Walk {
  import opened Bytes
  import opened Cbor
  import opened Cursor

  /** The cursor stands before `ts`, the last items of a container that `tail` follows. */
  predicate Over(c: Cursor, ts: seq<Item>, open: bool, tail: Octets)
    requires AllSized(ts)
  {
    && c.rest == Remaining(ts, open, tail)
    && (!open ==> |ts| < UNKNOWN)
    && if ts == [] then c == End(Close(open) + tail, open)
       else c.At? && c.left == (if open then UNKNOWN else |ts|) && (c.inMap ==> c.odd == (|ts| % 2 == 1))
  }

  lemma {:induction false} AtItem(c: Cursor, t: Item, tail: Octets)
    requires c.At? && Sized(t) && c.rest == Wire(t) + tail
    ensures c.Head() == HeadOf(t)
    ensures c.rest[c.Head().size..] == Body(t) + tail
    ensures c.rest[0] != BREAK
  {
    WireSplit(t, tail);
  }

  lemma {:induction false} HereAtItem(t: Item, tail: Octets, left: nat, inMap: bool, odd: bool, afterTag: bool)
    requires Sized(t) && 0 < left <= UNKNOWN
    ensures Here(Wire(t) + tail, left, inMap, odd, afterTag) == Some(At(Wire(t) + tail, left, inMap, odd))
  {
    WireSplit(t, tail);
  }

  lemma {:induction false} OverLast(c: Cursor, t: Item, open: bool, tail: Octets)
    requires Sized(t) && Over(c, [t], open, tail)
    ensures Past(c, Close(open) + tail) == Some(End(Close(open) + tail, open))
  {
    if open {
      assert (Close(open) + tail)[0] == BREAK;
    }
  }

  lemma {:induction false} OverStep(c: Cursor, ts: seq<Item>, open: bool, tail: Octets)
    requires AllSized(ts) && ts != [] && Over(c, ts, open, tail)
    ensures c.rest == Wire(ts[0]) + Remaining(ts[1..], open, tail)
    ensures Past(c, Remaining(ts[1..], open, tail)).Some?
    ensures Over(Past(c, Remaining(ts[1..], open, tail)).value, ts[1..], open, tail)
  {
    hide Wire, ReadHead, WireAll;
    RemainingStep(ts, open, tail);
    var us := ts[1..];
    var s := Remaining(us, open, tail);
    if us == [] {
      assert ts == [ts[0]];
      RemainingNone(open, tail);
      OverLast(c, ts[0], open, tail);
    } else {
      RemainingStep(us, open, tail);
      var left := if open then UNKNOWN else |us|;
      HereAtItem(us[0], Remaining(us[1..], open, tail), left, c.inMap, !c.odd, false);
      assert Past(c, s) == Some(At(s, left, c.inMap, !c.odd));
    }
  }

  /** The second element of a container, given its first. */
  lemma {:induction false} SecondStep(c: Cursor, ts: seq<Item>, open: bool, tail: Octets)
    requires AllSized(ts) && |ts| >= 2 && Over(c, ts, open, tail)
    ensures c.rest == Wire(ts[0]) + Remaining(ts[1..], open, tail)
    ensures var q := Past(c, Remaining(ts[1..], open, tail));
            q.Some? && q.value.At? && Sized(ts[1]) && AllSized(ts[2..])
            && q.value.rest == Wire(ts[1]) + Remaining(ts[2..], open, tail)
            && Past(q.value, Remaining(ts[2..], open, tail)).Some?
            && Over(Past(q.value, Remaining(ts[2..], open, tail)).value, ts[2..], open, tail)
  {
    hide Wire, ReadHead, WireAll, Here, Past;
    OverStep(c, ts, open, tail);
    assert ts[1..] != [] && ts[1..][0] == ts[1] && ts[1..][1..] == ts[2..];
    OverStep(Past(c, Remaining(ts[1..], open, tail)).value, ts[1..], open, tail);
  }

  /** A tag leads to the item it tags, in the tag's own place. */
  lemma {:induction false} TagStep(c: Cursor, t: Item, tail: Octets)
    requires c.At? && Sized(t) && t.Tagged? && c.rest == Wire(t) + tail
    ensures c.IsTag() && c.Head().arg == t.tag
    ensures AdvanceFixed(c) == Some(At(Wire(t.content) + tail, c.left, c.inMap, c.odd))
  {
    AtItem(c, t, tail);
    HereAtItem(t.content, tail, c.left, c.inMap, c.odd, true);
  }

  /** After a scalar's head there is nothing of it left. */
  lemma {:induction false} ScalarStep(c: Cursor, t: Item, tail: Octets)
    requires c.At? && Sized(t) && c.rest == Wire(t) + tail
    requires Body(t) == [] && !t.Array? && !t.Map? && !t.Tagged?
    ensures c.rest[c.Head().size..] == tail
    ensures !c.IsTag() ==> AdvanceFixed(c) == Past(c, tail)
  {
    AtItem(c, t, tail);
    assert Body(t) + tail == tail;
  }

  lemma {:induction false} StringStep(c: Cursor, t: Item, tail: Octets)
    requires c.At? && Sized(t) && (t.Text? || t.Blob?) && c.rest == Wire(t) + tail
    ensures c.IsString() && StringAt(c) == Some((t.bytes, tail))
    ensures TakeString(c) == Then(t.bytes, Past(c, tail))
  {
    AtItem(c, t, tail);
    DropPrefix(t.bytes, tail);
  }

  // ---- strings in chunks -----------------------------------------------------------

  /** The chunks of a string of indefinite length, each with its own head. */
  function ChunkBytes(major: Major, cs: seq<Octets>): Octets
    requires forall i :: 0 <= i < |cs| ==> |cs[i]| < TWO_TO_64
  {
    if cs == [] then [] else HeadBytes(major, |cs[0]|) + cs[0] + ChunkBytes(major, cs[1..])
  }

  function Joined(cs: seq<Octets>): Octets {
    if cs == [] then [] else cs[0] + Joined(cs[1..])
  }

  lemma {:induction false} ChunksRead(major: Major, cs: seq<Octets>, tail: Octets)
    requires 2 <= major <= 3 && forall i :: 0 <= i < |cs| ==> |cs[i]| < TWO_TO_64
    ensures Chunks(ChunkBytes(major, cs) + [BREAK] + tail, major) == Some((Joined(cs), tail))
    decreases |cs|
  {
    hide ReadHead, HeadBytes;
    if cs == [] {
      assert ChunkBytes(major, cs) + [BREAK] + tail == [BREAK] + tail;
    } else {
      var rest := ChunkBytes(major, cs[1..]) + [BREAK] + tail;
      var s := HeadBytes(major, |cs[0]|) + (cs[0] + rest);
      assert ChunkBytes(major, cs) + [BREAK] + tail == s;
      ReadHeadBytes(major, |cs[0]|, cs[0] + rest);
      DropPrefix(HeadBytes(major, |cs[0]|), cs[0] + rest);
      DropPrefix(cs[0], rest);
      ChunksRead(major, cs[1..], tail);
    }
  }

  /** A string in chunks yields what they hold together, and the cursor moves
      behind the break that ends them. */
  lemma {:induction false} ChunkedStep(c: Cursor, major: Major, cs: seq<Octets>, tail: Octets)
    requires 2 <= major <= 3 && forall i :: 0 <= i < |cs| ==> |cs[i]| < TWO_TO_64
    requires c.At? && c.rest == [major * 32 + 31] + (ChunkBytes(major, cs) + [BREAK] + tail)
    ensures if major == 3 then c.IsText() else c.IsBytes()
    ensures TakeString(c) == Then(Joined(cs), Past(c, tail))
  {
    hide Chunks, Past, ChunkBytes;
    ChunksRead(major, cs, tail);
    DropPrefix([major * 32 + 31], ChunkBytes(major, cs) + [BREAK] + tail);
    assert c.rest[0] == major * 32 + 31;
  }

  // ---- containers --------------------------------------------------------------

  /** The counts cbor_value_enter_container can hold. */
  predicate Countable(t: Item)
    requires t.Array? || t.Map?
  {
    t.open || (if t.Array? then |t.items| < UNKNOWN else |t.items| / 2 <= UNKNOWN / 2)
  }

  lemma {:induction false} EnterStep(c: Cursor, t: Item, tail: Octets)
    requires c.At? && Sized(t) && (t.Array? || t.Map?) && c.rest == Wire(t) + tail
    ensures c.IsContainer() && (c.IsMap() <==> t.Map?)
    ensures Enter(c).Some? <==> Countable(t)
    ensures Enter(c).Some? ==> Over(Enter(c).value, t.items, t.open, tail)
  {
    AtItem(c, t, tail);
    BodyRemaining(t, tail);
    var s := Remaining(t.items, t.open, tail);
    if t.items != [] {
      RemainingStep(t.items, t.open, tail);
      HereAtItem(t.items[0], Remaining(t.items[1..], t.open, tail),
                 if t.open then UNKNOWN else if Countable(t) then |t.items| else 1, t.Map?, false, false);
    } else {
      assert s == Close(t.open) + tail;
    }
  }

  lemma {:induction false} LeaveStep(c: Cursor, t: Item, tail: Octets)
    requires c.At? && c.IsContainer()
    ensures Leave(c, End(Close(true) + tail, true)) == Past(c, tail)
    ensures Leave(c, End(Close(false) + tail, false)) == Past(c, tail)
  {
    DropPrefix(Close(true), tail);
    assert Close(false) + tail == tail;
  }

  // ---- skipping an item ----------------------------------------------------------

  /** Containers nest at most `level` deep, and every count can be held. */
  predicate Skippable(t: Item, level: nat)
    decreases t, 0
  {
    match t
    case Array(ts, _) => level > 0 && Countable(t) && AllSkippable(ts, level - 1)
    case Map(ts, _) => level > 0 && Countable(t) && AllSkippable(ts, level - 1)
    case Tagged(_, x) => Skippable(x, level)
    case _ => true
  }

  predicate AllSkippable(ts: seq<Item>, level: nat)
    decreases ts, 1
  {
    ts == [] || (Skippable(ts[0], level) && AllSkippable(ts[1..], level))
  }

  /** A deeper bound lets no less through. */
  lemma {:induction false} SkippableMore(t: Item, level: nat)
    requires Skippable(t, level)
    ensures Skippable(t, level + 1)
    decreases t, 0
  {
    match t {
      case Array(ts, _) => AllSkippableMore(ts, level - 1);
      case Map(ts, _) => AllSkippableMore(ts, level - 1);
      case Tagged(_, x) => SkippableMore(x, level);
      case _ =>
    }
  }

  lemma {:induction false} AllSkippableMore(ts: seq<Item>, level: nat)
    requires AllSkippable(ts, level)
    ensures AllSkippable(ts, level + 1)
    decreases ts, 1
  {
    if ts != [] {
      SkippableMore(ts[0], level);
      AllSkippableMore(ts[1..], level);
    }
  }

  /** cbor_value_advance moves past exactly one untagged item, or reports an
      error when the item is too deep or too wide. */
  lemma {:induction false} SkipStep(c: Cursor, t: Item, tail: Octets, level: nat)
    requires c.At? && Sized(t) && !t.Tagged? && c.rest == Wire(t) + tail
    ensures Skip(c, level) == if Skippable(t, level) then Past(c, tail) else None
    decreases |c.rest|, 1
  {
    hide Wire, ReadHead, WireAll, StringAt, Enter, SkipAll;
    AtItem(c, t, tail);
    match t {
      case Blob(_) => StringStep(c, t, tail);
      case Text(_) => StringStep(c, t, tail);
      case Array(_, _) => SkipContainer(c, t, tail, level);
      case Map(_, _) => SkipContainer(c, t, tail, level);
      case _ => ScalarStep(c, t, tail);
    }
  }

  lemma {:induction false} SkipContainer(c: Cursor, t: Item, tail: Octets, level: nat)
    requires c.At? && Sized(t) && (t.Array? || t.Map?) && c.rest == Wire(t) + tail
    ensures Skip(c, level) == if Skippable(t, level) then Past(c, tail) else None
    decreases |c.rest|, 0
  {
    hide Wire, ReadHead, WireAll, Enter, SkipAll, Leave, Past;
    EnterStep(c, t, tail);
    if level > 0 && Countable(t) {
      SkipAllStep(Enter(c).value, t.items, t.open, tail, level - 1);
      LeaveStep(c, t, tail);
    }
  }

  lemma {:induction false} SkipAllStep(c: Cursor, ts: seq<Item>, open: bool, tail: Octets, level: nat)
    requires AllSized(ts) && Over(c, ts, open, tail)
    ensures SkipAll(c, level) == if AllSkippable(ts, level) then Some(End(Close(open) + tail, open)) else None
    decreases |c.rest|, 2
  {
    if ts != [] {
      OverStep(c, ts, open, tail);
      var rest := Remaining(ts[1..], open, tail);
      if ts[0].Tagged? {
        TagStep(c, ts[0], rest);
        var us := [ts[0].content] + ts[1..];
        var d := AdvanceFixed(c).value;
        assert us[1..] == ts[1..];
        RemainingStep(us, open, tail);
        assert Over(d, us, open, tail);
        SkipAllStep(d, us, open, tail, level);
      } else {
        SkipStep(c, ts[0], rest, level);
        if Skippable(ts[0], level) {
          SkipAllStep(Past(c, rest).value, ts[1..], open, tail, level);
        }
      }
    }
  }
}
