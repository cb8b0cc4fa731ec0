/**
 The buffer every result crosses in: a 32-byte header in host order (taken to be
 little-endian), a value, and for a Database snapshot the order of its children.
 */
module Framing {
  import opened Bytes

  const MAGIC: nat := 0xFDB5_0000
  const VERSION: nat := 1
  const HEADER_SIZE: nat := 32

  /** A signed 64-bit field as the unsigned number with the same bits. */
  function Unsigned(n: I64): U64 {
    if n < 0 then n + TWO_TO_64 else n
  }

  function Signed(n: U64): I64 {
    if n < 0x8000_0000_0000_0000 then n else n - TWO_TO_64
  }

  /** The header's fields in order; the two lengths are cast to 32 bits. */
  function Header(seq_: I64, postedNs: I64, valueLen: nat, orderLen: nat): (s: Octets)
    ensures |s| == HEADER_SIZE
  {
    LittleEndian(MAGIC, 4) + LittleEndian(VERSION, 4) + LittleEndian(Unsigned(seq_), 8)
    + LittleEndian(Unsigned(postedNs), 8)
    + LittleEndian(valueLen % TWO_TO_32, 4) + LittleEndian(orderLen % TWO_TO_32, 4)
  }

  function Frame(seq_: I64, postedNs: I64, value: Octets, order: Octets): (s: Octets)
    ensures |s| == HEADER_SIZE + |value| + |order|
  {
    Header(seq_, postedNs, |value|, |order|) + value + order
  }

  // ---- the reader's side ----------------------------------------------------------

  function SeqOf(b: Octets): int
    requires |b| >= HEADER_SIZE
  {
    var n := FromLittleEndian(b[8..16]);
    if n < TWO_TO_64 then Signed(n) else 0
  }

  function MagicOf(b: Octets): nat
    requires |b| >= HEADER_SIZE
  {
    FromLittleEndian(b[0..4])
  }

  function TimeOf(b: Octets): int
    requires |b| >= HEADER_SIZE
  {
    var n := FromLittleEndian(b[16..24]);
    if n < TWO_TO_64 then Signed(n) else 0
  }

  function ValueLenOf(b: Octets): nat
    requires |b| >= HEADER_SIZE
  {
    FromLittleEndian(b[24..28])
  }

  function OrderLenOf(b: Octets): nat
    requires |b| >= HEADER_SIZE
  {
    FromLittleEndian(b[28..32])
  }

  /** The bytes decodeSnapshotValue decodes; None when it throws. A length of
      zero means everything behind the header. */
  function ValuePart(b: Octets): Option<Octets>
    requires |b| >= HEADER_SIZE
  {
    var n := ValueLenOf(b);
    if n == 0 then Some(b[HEADER_SIZE..])
    else if HEADER_SIZE + n <= |b| then Some(b[HEADER_SIZE..HEADER_SIZE + n])
    else None
  }

  /** The bytes decodeSnapshotOrder decodes; None when there is no order. */
  function OrderPart(b: Octets): Option<Octets>
    requires |b| >= HEADER_SIZE
  {
    var start, n := HEADER_SIZE + ValueLenOf(b), OrderLenOf(b);
    if n == 0 || start + n > |b| then None else Some(b[start..start + n])
  }

  lemma {:induction false} HeaderFields(seq_: I64, ns: I64, v: nat, o: nat)
    ensures var h := Header(seq_, ns, v, o);
            && h[8..16] == LittleEndian(Unsigned(seq_), 8)
            && h[24..28] == LittleEndian(v % TWO_TO_32, 4) && h[28..32] == LittleEndian(o % TWO_TO_32, 4)
            && h[0..4] == LittleEndian(0xFDB5_0000, 4) && h[4..8] == LittleEndian(1, 4)
            && h[16..24] == LittleEndian(Unsigned(ns), 8)
    ensures var h := Header(seq_, ns, v, o);
            && FromLittleEndian(h[8..16]) == Unsigned(seq_)
            && FromLittleEndian(h[24..28]) == v % TWO_TO_32 && FromLittleEndian(h[28..32]) == o % TWO_TO_32
            && FromLittleEndian(h[0..4]) == 0xFDB5_0000 && FromLittleEndian(h[4..8]) == 1
            && FromLittleEndian(h[16..24]) == Unsigned(ns)
  {
    hide LittleEndian, FromLittleEndian, Pow256;
    Powers();
    LittleEndianRoundTrip(Unsigned(seq_), 8);
    LittleEndianRoundTrip(v % TWO_TO_32, 4);
    LittleEndianRoundTrip(o % TWO_TO_32, 4);
    LittleEndianRoundTrip(MAGIC, 4);
    LittleEndianRoundTrip(VERSION, 4);
    LittleEndianRoundTrip(Unsigned(ns), 8);
    var m, n, s, t, x, y := LittleEndian(MAGIC, 4), LittleEndian(VERSION, 4), LittleEndian(Unsigned(seq_), 8),
      LittleEndian(Unsigned(ns), 8), LittleEndian(v % TWO_TO_32, 4), LittleEndian(o % TWO_TO_32, 4);
    var h := Header(seq_, ns, v, o);
    assert h == m + n + s + t + x + y;
    assert h[0..4] == m && h[4..8] == n;
    assert h[8..16] == s;
    assert h[16..24] == t;
    assert h[24..28] == x;
    assert h[28..32] == y;
  }

  lemma {:induction false} FrameParts(seq_: I64, ns: I64, value: Octets, order: Octets)
    ensures var b := Frame(seq_, ns, value, order);
            && MagicOf(b) == 0xFDB5_0000 && FromLittleEndian(b[4..8]) == 1
            && SeqOf(b) == seq_ && TimeOf(b) == ns
            && ValueLenOf(b) == |value| % TWO_TO_32 && OrderLenOf(b) == |order| % TWO_TO_32
            && b[HEADER_SIZE..] == value + order
            && b[HEADER_SIZE..HEADER_SIZE + |value|] == value && b[HEADER_SIZE + |value|..] == order
  {
    hide LittleEndian, FromLittleEndian, Header;
    var h, b := Header(seq_, ns, |value|, |order|), Frame(seq_, ns, value, order);
    HeaderFields(seq_, ns, |value|, |order|);
    assert b == h + (value + order);
    assert b[0..4] == h[0..4] && b[4..8] == h[4..8] && b[16..24] == h[16..24];
    assert b[8..16] == h[8..16] && b[24..28] == h[24..28] && b[28..32] == h[28..32];
    DropPrefix(h, value + order);
    DropPrefix(h + value, order);
    assert b[HEADER_SIZE..HEADER_SIZE + |value|] == value;
  }

  /** The reader gets both parts back exactly when the 32-bit lengths can tell
      them apart: an absent order lets a value of any multiple of 2^32 bytes
      through, and otherwise both must be shorter than that and there must be a
      value. */
  lemma {:induction false} FrameRecovered(seq_: I64, ns: I64, value: Octets, order: Octets)
    ensures var b := Frame(seq_, ns, value, order);
            (ValuePart(b) == Some(value) && OrderPart(b) == if order == [] then None else Some(order))
            <==>
            ((order == [] && |value| % TWO_TO_32 == 0) ||
             (0 < |value| < TWO_TO_32 && |order| < TWO_TO_32))
  {
    hide Frame, ValueLenOf, OrderLenOf;
    var b := Frame(seq_, ns, value, order);
    FrameParts(seq_, ns, value, order);
    var n, m := ValueLenOf(b), OrderLenOf(b);
    if |value| % TWO_TO_32 == 0 {
      assert ValuePart(b) == Some(value + order);
      assert |value + order| == |value| + |order|;
      if order == [] { assert value + order == value; }
    } else if |value| < TWO_TO_32 {
      assert ValuePart(b) == Some(value);
      if |order| < TWO_TO_32 {
        assert |order| > 0 ==> b[HEADER_SIZE + n..HEADER_SIZE + n + m] == order;
      } else {
        assert m < |order|;
      }
    } else {
      assert n < |value| && ValuePart(b) == Some(b[HEADER_SIZE..HEADER_SIZE + n]);
      assert |b[HEADER_SIZE..HEADER_SIZE + n]| == n;
    }
  }

  /** Equal buffers carry equal parts, when the lengths fit their fields. */
  lemma {:induction false} FrameInjective(s0: I64, t0: I64, v0: Octets, o0: Octets,
                                          s1: I64, t1: I64, v1: Octets, o1: Octets)
    requires |v0| < TWO_TO_32 && |v1| < TWO_TO_32
    requires Frame(s0, t0, v0, o0) == Frame(s1, t1, v1, o1)
    ensures s0 == s1 && v0 == v1 && o0 == o1
  {
    hide Frame;
    FrameParts(s0, t0, v0, o0);
    FrameParts(s1, t1, v1, o1);
  }

  // ---- posting ----------------------------------------------------------------------

  datatype Message = Message(port: int, bytes: Octets)

  /** The Dart VM's side of a post: what it was handed, in order. A buffer is its
      own from that moment on, so its bytes count as they were then. */
  class Vm {
    var posts: seq<Message>

    constructor ()
      ensures posts == []
    {
      posts := [];
    }

    /** FillSnapshotHeader and the hand-off of fdb_post_buffer_owned: the payload
        is in place behind the room the caller left for the header. */
    method PostBufferOwned(port: int, seq_: I64, now: I64, owned: array<Byte>, len: nat)
      requires owned.Length >= HEADER_SIZE + len
      modifies this, owned
      ensures posts == old(posts) + [Message(port, Frame(seq_, now, old(owned[HEADER_SIZE..HEADER_SIZE + len]), []))]
    {
      hide Header, LittleEndian;
      ghost var payload := owned[HEADER_SIZE..HEADER_SIZE + len];
      var h := Header(seq_, now, len, 0);
      forall i | 0 <= i < HEADER_SIZE {
        owned[i] := h[i];
      }
      assert owned[..HEADER_SIZE + len] == h + payload + [];
      posts := posts + [Message(port, owned[..HEADER_SIZE + len])];
    }

    /** fdb_post_buffer: nothing is posted when there is no memory for the copy. */
    method PostBuffer(port: int, seq_: I64, now: I64, bytes: Octets, memory: bool)
      modifies this
      ensures posts == if memory then old(posts) + [Message(port, Frame(seq_, now, bytes, []))] else old(posts)
    {
      hide Header, Frame;
      if !memory { return; }
      var buf := new Byte[HEADER_SIZE + |bytes|](_ => 0);
      forall i | 0 <= i < |bytes| {
        buf[HEADER_SIZE + i] := bytes[i];
      }
      assert buf[HEADER_SIZE..HEADER_SIZE + |bytes|] == bytes;
      PostBufferOwned(port, seq_, now, buf, |bytes|);
    }

    /** The Database's own PostSnapshot, which carries an order behind the value. */
    method PostSnapshot(port: int, seq_: I64, now: I64, value: Octets, order: Octets, memory: bool)
      modifies this
      ensures posts == if memory then old(posts) + [Message(port, Frame(seq_, now, value, order))] else old(posts)
    {
      hide Header, LittleEndian;
      if !memory { return; }
      var buf := new Byte[HEADER_SIZE + |value| + |order|](_ => 0);
      var h := Header(seq_, now, |value|, |order|);
      forall i | 0 <= i < HEADER_SIZE {
        buf[i] := h[i];
      }
      forall i | 0 <= i < |value| {
        buf[HEADER_SIZE + i] := value[i];
      }
      forall i | 0 <= i < |order| {
        buf[HEADER_SIZE + |value| + i] := order[i];
      }
      assert buf[..] == h + value + order;
      posts := posts + [Message(port, buf[..])];
    }
  }
}
