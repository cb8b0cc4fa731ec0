/**
 CBOR data items and their bytes, RFC 8949 sections 3, 3.1, 3.2 and 4.1: item
 heads in their shortest form, arrays and maps of either length form. This is
 the wire every codec of the bridge reads and writes.
 */
module Cbor {
  import opened Bytes

  const BREAK: Byte := 0xFF

  /** Map keeps keys and values alternating in one sequence; `open` is the
      indefinite-length form, ended by a break. */
  datatype Item =
    | UInt(n: U64)
    | NInt(n: U64)
    | Blob(bytes: Octets)
    | Text(bytes: Octets)
    | Array(items: seq<Item>, open: bool)
    | Map(items: seq<Item>, open: bool)
    | Tagged(tag: U64, content: Item)
    | Simple(code: Byte)
    | Bool(b: bool)
    | Null
    | Undefined
    | Half(h: U16)
    | Single(s: U32)
    | Double(d: U64)

  /** cbor_encode_int. */
  function IntItem(i: I64): Item {
    if i >= 0 then UInt(i) else NInt(-1 - i)
  }

  /** Every length fits its 64-bit head, every map pairs its keys. */
  predicate Sized(t: Item) {
    match t
    case Blob(s) => |s| < TWO_TO_64
    case Text(s) => |s| < TWO_TO_64
    case Array(ts, _) => |ts| < TWO_TO_64 && AllSized(ts)
    case Map(ts, _) => |ts| < TWO_TO_64 && |ts| % 2 == 0 && AllSized(ts)
    case Tagged(_, x) => Sized(x)
    case Simple(k) => k < 20 || 32 <= k
    case _ => true
  }

  predicate AllSized(ts: seq<Item>) {
    ts == [] || (Sized(ts[0]) && AllSized(ts[1..]))
  }

  // ---- bytes ---------------------------------------------------------------

  function Width(n: U64): nat {
    if n < 24 then 0 else if n < 0x100 then 1 else if n < 0x1_0000 then 2
    else if n < 0x1_0000_0000 then 4 else 8
  }

  function Info(n: U64): Byte {
    if n < 24 then n else if n < 0x100 then 24 else if n < 0x1_0000 then 25
    else if n < 0x1_0000_0000 then 26 else 27
  }

  /** Bytes that follow an initial byte whose low five bits are `info`. */
  function ArgWidth(info: Byte): nat {
    if info == 24 then 1 else if info == 25 then 2 else if info == 26 then 4
    else if info == 27 then 8 else 0
  }

  type Major = m: int | 0 <= m < 8

  function HeadBytes(major: Major, n: U64): (s: Octets)
    ensures |s| == 1 + Width(n) <= 9
  {
    [major * 32 + Info(n)] + BigEndian(n, Width(n))
  }

  /** The head of a float, whose width is not the shortest one (section 3.3). */
  function FloatBytes(info: Byte, bits: U64): (s: Octets)
    requires 25 <= info <= 27
    ensures |s| == 1 + ArgWidth(info) <= 9
  {
    [7 * 32 + info] + BigEndian(bits, ArgWidth(info))
  }

  function OpenHead(major: Major, n: U64, open: bool): (s: Octets)
    ensures 1 <= |s| <= 9
  {
    if open then [major * 32 + 31] else HeadBytes(major, n)
  }

  function Close(open: bool): Octets {
    if open then [BREAK] else []
  }

  /** An item is its head and what the head announces. */
  function Wire(t: Item): Octets
    requires Sized(t)
    decreases t, 2
  {
    Lead(t) + Body(t)
  }

  function Lead(t: Item): (s: Octets)
    requires Sized(t)
    ensures 1 <= |s| <= 9
  {
    match t
    case UInt(n) => HeadBytes(0, n)
    case NInt(n) => HeadBytes(1, n)
    case Blob(s) => HeadBytes(2, |s|)
    case Text(s) => HeadBytes(3, |s|)
    case Array(ts, open) => OpenHead(4, |ts|, open)
    case Map(ts, open) => OpenHead(5, |ts| / 2, open)
    case Tagged(n, _) => HeadBytes(6, n)
    case Simple(k) => HeadBytes(7, k)
    case Bool(b) => HeadBytes(7, if b then 21 else 20)
    case Null => HeadBytes(7, 22)
    case Undefined => HeadBytes(7, 23)
    case Half(h) => FloatBytes(25, h)
    case Single(s) => FloatBytes(26, s)
    case Double(d) => FloatBytes(27, d)
  }

  function Body(t: Item): Octets
    requires Sized(t)
    decreases t, 1
  {
    match t
    case Blob(s) => s
    case Text(s) => s
    case Array(ts, open) => WireAll(ts) + Close(open)
    case Map(ts, open) => WireAll(ts) + Close(open)
    case Tagged(_, x) => Wire(x)
    case _ => []
  }

  function WireAll(ts: seq<Item>): Octets
    requires AllSized(ts)
    decreases ts, 3
  {
    if ts == [] then [] else Wire(ts[0]) + WireAll(ts[1..])
  }

  lemma {:induction false} AllSizedConcat(a: seq<Item>, b: seq<Item>)
    ensures AllSized(a + b) <==> AllSized(a) && AllSized(b)
  {
    if a == [] {
      assert a + b == b;
    } else {
      assert (a + b)[1..] == a[1..] + b;
      AllSizedConcat(a[1..], b);
    }
  }

  lemma {:induction false} OneWire(a: Item)
    requires Sized(a)
    ensures AllSized([a]) && WireAll([a]) == Wire(a)
  {
    assert [a][1..] == [];
    assert WireAll([a]) == Wire(a) + WireAll([]);
  }

  lemma {:induction false} TwoWire(a: Item, b: Item)
    requires Sized(a) && Sized(b)
    ensures AllSized([a, b]) && WireAll([a, b]) == Wire(a) + Wire(b)
  {
    hide Wire, Sized;
    OneWire(b);
    assert [a, b][1..] == [b];
  }

  lemma {:induction false} AllSizedPair(a: Item, b: Item, ts: seq<Item>)
    ensures AllSized([a, b] + ts) <==> Sized(a) && Sized(b) && AllSized(ts)
  {
    var us := [b] + ts;
    assert ([a, b] + ts)[1..] == us && us[1..] == ts;
  }

  lemma {:induction false} WireAllConcat(a: seq<Item>, b: seq<Item>)
    requires AllSized(a) && AllSized(b)
    ensures AllSized(a + b) && WireAll(a + b) == WireAll(a) + WireAll(b)
  {
    AllSizedConcat(a, b);
    if a == [] {
      assert a + b == b;
    } else {
      assert (a + b)[1..] == a[1..] + b;
      WireAllConcat(a[1..], b);
    }
  }

  lemma {:induction false} SizedAt(ts: seq<Item>, i: nat)
    requires AllSized(ts) && i < |ts|
    ensures Sized(ts[i]) && AllSized(ts[..i]) && AllSized(ts[i..])
  {
    AllSizedConcat(ts[..i], ts[i..]);
    assert ts == ts[..i] + ts[i..];
  }

  // ---- reading a head back ---------------------------------------------------

  /** An initial byte and its argument; `size` is how many bytes they take. */
  datatype Head = Head(major: Major, info: Byte, arg: U64, size: nat)

  lemma {:induction false} FromBigEndianBound(s: Octets)
    ensures FromBigEndian(s) < Pow256(|s|)
  {
    if s != [] { FromBigEndianBound(s[..|s| - 1]); }
  }

  /** The argument that follows an initial byte, when the input holds it. */
  function ReadArg(s: Octets, info: Byte): (r: Option<U64>)
    requires 24 <= info <= 27
    ensures r.Some? <==> ArgWidth(info) <= |s|
    ensures r.Some? ==> r.value == FromBigEndian(s[..ArgWidth(info)])
  {
    var w := ArgWidth(info);
    if |s| < w then None
    else
      Powers(); FromBigEndianBound(s[..w]);
      Some(FromBigEndian(s[..w]))
  }

  /**
   The item head at the front of `s`, or None where the parser reports an error:
   the input ends, the length form is reserved or not allowed for the major
   type, a break stands where an item should, or a simple value below 32 is
   written in two bytes.
   */
  function ReadHead(s: Octets): (r: Option<Head>)
    ensures r.Some? ==> 1 <= r.value.size <= |s| && r.value.size <= 9
    ensures r.Some? ==> s[0] != BREAK && r.value.major == s[0] / 32 && r.value.info == s[0] % 32
  {
    if s == [] then None
    else
      var major: Major, info: Byte := s[0] / 32, s[0] % 32;
      if info < 24 then Some(Head(major, info, info, 1))
      else if info <= 27 then
        match ReadArg(s[1..], info)
        case None => None
        case Some(n) =>
          if major == 7 && info == 24 && n < 32 then None
          else Some(Head(major, info, n, 1 + ArgWidth(info)))
      else if info == 31 && 2 <= major <= 5 then Some(Head(major, 31, 0, 1))
      else None
  }

  lemma {:induction false} ReadHeadBytes(major: Major, n: U64, tail: Octets)
    requires major == 7 ==> n < 24 || 32 <= n < 256
    ensures ReadHead(HeadBytes(major, n) + tail) == Some(Head(major, Info(n), n, 1 + Width(n)))
  {
    var s := HeadBytes(major, n) + tail;
    assert s[0] == major * 32 + Info(n);
    if n >= 24 {
      Powers();
      assert Width(n) == ArgWidth(Info(n));
      assert s[1..][..Width(n)] == BigEndian(n, Width(n));
      BigEndianRoundTrip(n, Width(n));
    }
  }

  lemma {:induction false} ReadFloatBytes(info: Byte, bits: U64, tail: Octets)
    requires 25 <= info <= 27 && bits < Pow256(ArgWidth(info))
    ensures ReadHead(FloatBytes(info, bits) + tail) == Some(Head(7, info, bits, 1 + ArgWidth(info)))
  {
    var s := FloatBytes(info, bits) + tail;
    assert s[1..][..ArgWidth(info)] == BigEndian(bits, ArgWidth(info));
    BigEndianRoundTrip(bits, ArgWidth(info));
  }

  /** The head ReadHead finds in front of an item's bytes. */
  function HeadOf(t: Item): Head
    requires Sized(t)
  {
    match t
    case UInt(n) => Head(0, Info(n), n, 1 + Width(n))
    case NInt(n) => Head(1, Info(n), n, 1 + Width(n))
    case Blob(s) => Head(2, Info(|s|), |s|, 1 + Width(|s|))
    case Text(s) => Head(3, Info(|s|), |s|, 1 + Width(|s|))
    case Array(ts, open) => if open then Head(4, 31, 0, 1) else Head(4, Info(|ts|), |ts|, 1 + Width(|ts|))
    case Map(ts, open) => if open then Head(5, 31, 0, 1) else Head(5, Info(|ts| / 2), |ts| / 2, 1 + Width(|ts| / 2))
    case Tagged(n, _) => Head(6, Info(n), n, 1 + Width(n))
    case Simple(k) => Head(7, Info(k), k, 1 + Width(k))
    case Bool(b) => if b then Head(7, 21, 21, 1) else Head(7, 20, 20, 1)
    case Null => Head(7, 22, 22, 1)
    case Undefined => Head(7, 23, 23, 1)
    case Half(h) => Head(7, 25, h, 3)
    case Single(s) => Head(7, 26, s, 5)
    case Double(d) => Head(7, 27, d, 9)
  }

  lemma {:induction false} ReadLead(t: Item, tail: Octets)
    requires Sized(t)
    ensures ReadHead(Lead(t) + tail) == Some(HeadOf(t))
    ensures HeadOf(t).size == |Lead(t)|
  {
    hide ReadHead, BigEndian, HeadBytes, FloatBytes;
    match t {
      case UInt(n) => ReadHeadBytes(0, n, tail);
      case NInt(n) => ReadHeadBytes(1, n, tail);
      case Blob(s) => ReadHeadBytes(2, |s|, tail);
      case Text(s) => ReadHeadBytes(3, |s|, tail);
      case Array(ts, open) => ReadOpenHead(4, |ts|, open, tail);
      case Map(ts, open) => ReadOpenHead(5, |ts| / 2, open, tail);
      case Tagged(n, _) => ReadHeadBytes(6, n, tail);
      case Simple(k) => ReadHeadBytes(7, k, tail);
      case Bool(b) => ReadHeadBytes(7, if b then 21 else 20, tail);
      case Null => ReadHeadBytes(7, 22, tail);
      case Undefined => ReadHeadBytes(7, 23, tail);
      case Half(x) => Powers(); ReadFloatBytes(25, x, tail);
      case Single(x) => Powers(); ReadFloatBytes(26, x, tail);
      case Double(x) => Powers(); ReadFloatBytes(27, x, tail);
    }
  }

  lemma {:induction false} ReadOpenHead(major: Major, n: U64, open: bool, tail: Octets)
    requires 4 <= major <= 5
    ensures ReadHead(OpenHead(major, n, open) + tail)
         == Some(if open then Head(major, 31, 0, 1) else Head(major, Info(n), n, 1 + Width(n)))
  {
    if !open { ReadHeadBytes(major, n, tail); }
  }

  lemma {:induction false} WireNonEmpty(t: Item)
    requires Sized(t)
    ensures Wire(t) != []
  {
  }

  /** Head and body can be told apart in front of any further bytes. */
  lemma {:induction false} WireSplit(t: Item, tail: Octets)
    requires Sized(t)
    ensures ReadHead(Wire(t) + tail) == Some(HeadOf(t))
    ensures (Wire(t) + tail)[HeadOf(t).size..] == Body(t) + tail
  {
    assert Wire(t) + tail == Lead(t) + (Body(t) + tail);
    ReadLead(t, Body(t) + tail);
    DropPrefix(Lead(t), Body(t) + tail);
  }

  // ---- self-delimiting -------------------------------------------------------

  /** No item's bytes are a proper prefix of another's, and bytes determine the
      item: whatever follows, one reading is possible. */
  lemma {:induction false} WireCancel(a: Item, b: Item, s: Octets, u: Octets)
    requires Sized(a) && Sized(b)
    requires Wire(a) + s == Wire(b) + u
    ensures a == b && s == u
    decreases a, 0
  {
    WireSplit(a, s);
    WireSplit(b, u);
    assert Body(a) + s == Body(b) + u;
    match a {
      case Blob(x) => BlockCancel(x, b.bytes, s, u);
      case Text(x) => BlockCancel(x, b.bytes, s, u);
      case Array(xs, open) => BodyRemaining(a, s); BodyRemaining(b, u); SequenceCancel(xs, b.items, open, s, u);
      case Map(xs, open) => BodyRemaining(a, s); BodyRemaining(b, u); SequenceCancel(xs, b.items, open, s, u);
      case Tagged(_, x) => WireCancel(x, b.content, s, u);
      case _ => assert s == [] + s && u == [] + u;
    }
  }

  lemma {:induction false} BlockCancel(x: Octets, y: Octets, s: Octets, u: Octets)
    requires |x| == |y| && x + s == y + u
    ensures x == y && s == u
  {
    DropPrefix(x, s);
    DropPrefix(y, u);
  }

  /** What remains of an open or counted container once `ts` are still to come. */
  function Remaining(ts: seq<Item>, open: bool, tail: Octets): Octets
    requires AllSized(ts)
  {
    WireAll(ts) + (Close(open) + tail)
  }

  lemma {:induction false} BodyRemaining(t: Item, tail: Octets)
    requires Sized(t) && (t.Array? || t.Map?)
    ensures Body(t) + tail == Remaining(t.items, t.open, tail)
  {
  }

  lemma {:induction false} RemainingNone(open: bool, tail: Octets)
    ensures Remaining([], open, tail) == Close(open) + tail
  {
  }

  lemma {:induction false} RemainingStep(ts: seq<Item>, open: bool, tail: Octets)
    requires AllSized(ts) && ts != []
    ensures Remaining(ts, open, tail) == Wire(ts[0]) + Remaining(ts[1..], open, tail)
    ensures Remaining(ts, open, tail) != [] && Remaining(ts, open, tail)[0] != BREAK
  {
    hide Wire;
    var w, r, k := Wire(ts[0]), WireAll(ts[1..]), Close(open) + tail;
    assert WireAll(ts) == w + r;
    assert (w + r) + k == w + (r + k);
    NotBreak(ts[0], Remaining(ts[1..], open, tail));
  }

  lemma {:induction false} SequenceCancel(xs: seq<Item>, ys: seq<Item>, open: bool, s: Octets, u: Octets)
    requires AllSized(xs) && AllSized(ys)
    requires !open ==> |xs| == |ys|
    requires Remaining(xs, open, s) == Remaining(ys, open, u)
    ensures xs == ys && s == u
    decreases xs, 1
  {
    if xs == [] && ys == [] {
      assert Remaining(xs, open, s) == Close(open) + s && Remaining(ys, open, u) == Close(open) + u;
      BlockCancel(Close(open), Close(open), s, u);
    } else if xs == [] {
      assert Remaining(xs, open, s)[0] == BREAK;
      RemainingStep(ys, open, u);
    } else if ys == [] {
      assert Remaining(ys, open, u)[0] == BREAK;
      RemainingStep(xs, open, s);
    } else {
      RemainingStep(xs, open, s);
      RemainingStep(ys, open, u);
      WireCancel(xs[0], ys[0], Remaining(xs[1..], open, s), Remaining(ys[1..], open, u));
      SequenceCancel(xs[1..], ys[1..], open, s, u);
      assert xs == [xs[0]] + xs[1..] && ys == [ys[0]] + ys[1..];
    }
  }

  lemma {:induction false} NotBreak(t: Item, tail: Octets)
    requires Sized(t)
    ensures Wire(t) + tail != [] && (Wire(t) + tail)[0] != BREAK
  {
    WireSplit(t, tail);
  }

  /** Equal encodings are encodings of the same item. */
  lemma {:induction false} WireInjective(a: Item, b: Item)
    requires Sized(a) && Sized(b) && Wire(a) == Wire(b)
    ensures a == b
  {
    assert Wire(a) + [] == Wire(a) && Wire(b) + [] == Wire(b);
    WireCancel(a, b, [], []);
  }
}
