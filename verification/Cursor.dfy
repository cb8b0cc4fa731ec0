/**
 The CBOR reader under the bridge's decoders: a CborValue is the input from its
 pointer to the parser's end, how many items its container still holds, and
 where in a map it stands. Every library call that can fail answers None where
 TinyCBOR returns an error.
 */
module Cursor {
  import opened Bytes
  import opened Cbor

  /** The item count of a container of indefinite length (UINT32_MAX). */
  const UNKNOWN: nat := 0xFFFF_FFFF
  /** CBOR_PARSER_MAX_RECURSIONS. */
  const MAX_RECURSIONS: nat := 1024

  /** End is a cursor whose container is exhausted (type CborInvalidType);
      `atBreak` says that a break byte still has to be consumed. */
  datatype CborCursor =
    | At(rest: Octets, left: nat, inMap: bool, odd: bool)
    | End(rest: Octets, atBreak: bool)
  {
    predicate Ok() {
      if At? then 0 < left <= UNKNOWN && ReadHead(rest).Some?
      else atBreak ==> rest != [] && rest[0] == BREAK
    }

    function Head(): (h: Head)
      requires Ok() && At?
      ensures 1 <= h.size <= |rest|
    {
      ReadHead(rest).value
    }

    predicate IsA(major: Major) requires Ok() { At? && Head().major == major }
    predicate IsInt() requires Ok() { IsA(0) || IsA(1) }
    predicate IsBytes() requires Ok() { IsA(2) }
    predicate IsText() requires Ok() { IsA(3) }
    predicate IsString() requires Ok() { IsBytes() || IsText() }
    predicate IsArray() requires Ok() { IsA(4) }
    predicate IsMap() requires Ok() { IsA(5) }
    predicate IsContainer() requires Ok() { IsArray() || IsMap() }
    predicate IsTag() requires Ok() { IsA(6) }
    /** One of the one-byte simple values, or a float (info 25 to 27). */
    predicate IsSimple(info: Byte) requires Ok() { IsA(7) && Head().info == info }
    predicate IsBool() requires Ok() { IsSimple(20) || IsSimple(21) }
    predicate IsFloat() requires Ok() { IsSimple(25) || IsSimple(26) || IsSimple(27) }
  }

  type Cursor = c: CborCursor | c.Ok() witness End([], false)

  /** A decoder's answer: a value and where the cursor stands after it, a
      refusal, or a use of the library outside its documented contract (a
      failed assertion, or undefined behaviour in a release build). */
  datatype Out<+T> = Got(value: T, next: Cursor) | Refused | OutOfContract

  /** A decoded value whose last step was moving the cursor on. */
  function Then<T>(v: T, next: Option<Cursor>): Out<T> {
    if next.Some? then Got(v, next.value) else Refused
  }

  // ---- preparsing --------------------------------------------------------------

  function Preparse(s: Octets, left: nat, inMap: bool, odd: bool): (r: Option<Cursor>)
    requires 0 < left <= UNKNOWN
    ensures r.Some? ==> r.value == At(s, left, inMap, odd)
  {
    if ReadHead(s).Some? then Some(At(s, left, inMap, odd)) else None
  }

  /** cbor_parser_init: one item, and whatever follows it is never looked at. */
  function Start(s: Octets): Option<Cursor> {
    Preparse(s, 1, false, false)
  }

  /** preparse_next_value_nodecrement: in an indefinite container a break ends
      it, unless a map value or a tagged item is still owed. */
  function Here(s: Octets, left: nat, inMap: bool, odd: bool, afterTag: bool): (r: Option<Cursor>)
    requires 0 < left <= UNKNOWN
    ensures r.Some? ==> r.value.rest == s
  {
    if left == UNKNOWN && s != [] && s[0] == BREAK then
      if (inMap && odd) || afterTag then None else Some(End(s, true))
    else Preparse(s, left, inMap, odd)
  }

  /** Past one whole item of the container, with the pointer at `s`. */
  function Past(c: Cursor, s: Octets): (r: Option<Cursor>)
    requires c.At?
    ensures r.Some? ==> r.value.rest == s
  {
    if c.left == UNKNOWN then Here(s, UNKNOWN, c.inMap, !c.odd, false)
    else if c.left == 1 then Some(End(s, false))
    else Here(s, c.left - 1, c.inMap, !c.odd, false)
  }

  /** preparse_next_value: a tag is not an item of its own. */
  function Next(c: Cursor, s: Octets): (r: Option<Cursor>)
    requires c.At?
    ensures r.Some? ==> r.value.rest == s
    ensures r.Some? && c.IsTag() ==> r.value.At?
  {
    if c.IsTag() then Here(s, c.left, c.inMap, c.odd, true) else Past(c, s)
  }

  /** cbor_value_advance_fixed: past a scalar, or past a tag to what it tags. */
  function AdvanceFixed(c: Cursor): (r: Option<Cursor>)
    requires c.At?
    ensures r.Some? ==> |r.value.rest| < |c.rest|
    ensures r.Some? && c.IsTag() ==> r.value.At?
  {
    Next(c, c.rest[c.Head().size..])
  }

  // ---- strings -------------------------------------------------------------------

  /** The chunks of a string of indefinite length, and what follows its break. */
  function Chunks(s: Octets, major: Major): (r: Option<(Octets, Octets)>)
    ensures r.Some? ==> |r.value.1| < |s|
    decreases |s|
  {
    if s == [] then None
    else if s[0] == BREAK then Some(([], s[1..]))
    else if s[0] / 32 != major || ReadHead(s).None? || ReadHead(s).value.info == 31 then None
    else
      var h := ReadHead(s).value;
      var body := s[h.size..];
      if |body| < h.arg then None
      else
        match Chunks(body[h.arg..], major)
        case None => None
        case Some((text, after)) => Some((body[..h.arg] + text, after))
  }

  /** The contents of the string at the cursor, and what follows it. */
  function StringAt(c: Cursor): (r: Option<(Octets, Octets)>)
    requires c.IsString()
    ensures r.Some? ==> |r.value.1| < |c.rest|
  {
    var h := c.Head();
    if h.info == 31 then Chunks(c.rest[1..], h.major)
    else
      var body := c.rest[h.size..];
      if h.arg <= |body| then Some((body[..h.arg], body[h.arg..])) else None
  }

  /** cbor_value_dup_text_string and cbor_value_dup_byte_string. */
  function TakeString(c: Cursor): (r: Out<Octets>)
    requires c.IsString()
    ensures !r.OutOfContract?
    ensures r.Got? ==> |r.next.rest| < |c.rest|
  {
    match StringAt(c)
    case None => Refused
    case Some((text, after)) => Then(text, Next(c, after))
  }

  // ---- containers ------------------------------------------------------------------

  /** cbor_value_enter_container: refuses counts its 32-bit counter cannot hold. */
  function Enter(c: Cursor): (r: Option<Cursor>)
    requires c.IsContainer()
    ensures r.Some? ==> |r.value.rest| < |c.rest|
  {
    var h := c.Head();
    var s := c.rest[h.size..];
    if h.info == 31 then Here(s, UNKNOWN, c.IsMap(), false, false)
    else if h.arg >= UNKNOWN || (c.IsMap() && h.arg > UNKNOWN / 2) then None
    else if h.arg == 0 then Some(End(s, false))
    else Here(s, if c.IsMap() then 2 * h.arg else h.arg, c.IsMap(), false, false)
  }

  /** cbor_value_leave_container, on an inner cursor that reached the end. */
  function Leave(c: Cursor, inner: Cursor): (r: Option<Cursor>)
    requires c.IsContainer() && inner.End?
    ensures r.Some? ==> |r.value.rest| <= |inner.rest|
  {
    Next(c, if inner.atBreak then inner.rest[1..] else inner.rest)
  }

  /** advance_recursive. */
  function Skip(c: Cursor, level: nat): (r: Option<Cursor>)
    requires c.At?
    ensures r.Some? ==> |r.value.rest| < |c.rest|
    decreases |c.rest|, 0
  {
    if c.IsString() then
      match StringAt(c)
      case None => None
      case Some((_, after)) => Next(c, after)
    else if !c.IsContainer() then AdvanceFixed(c)
    else if level == 0 then None
    else
      match Enter(c)
      case None => None
      case Some(inner) =>
        match SkipAll(inner, level - 1)
        case None => None
        case Some(end) => Leave(c, end)
  }

  function SkipAll(c: Cursor, level: nat): (r: Option<Cursor>)
    ensures r.Some? ==> r.value.End? && |r.value.rest| <= |c.rest|
    decreases |c.rest|, 1
  {
    if c.End? then Some(c)
    else
      match Skip(c, level)
      case None => None
      case Some(d) => SkipAll(d, level)
  }

  /** cbor_value_advance: past one item, or past a tag alone. */
  function Advance(c: Cursor): (r: Option<Cursor>)
    requires c.At?
    ensures r.Some? ==> |r.value.rest| < |c.rest|
  {
    Skip(c, MAX_RECURSIONS)
  }

  // ---- scalars ---------------------------------------------------------------------

  /** cbor_value_get_int64: no range check, so a magnitude of 2^63 or more wraps. */
  function ToI64(negative: bool, n: U64): (r: I64)
    ensures n < 0x8000_0000_0000_0000 ==> r == if negative then -1 - n else n
  {
    var v := if n < 0x8000_0000_0000_0000 then n else n - TWO_TO_64;
    if negative then -v - 1 else v
  }

  function GetInt(c: Cursor): I64
    requires c.IsInt()
  {
    ToI64(c.IsA(1), c.Head().arg)
  }

  /** A double, by where its bits come from: the conversions from narrower
      floats and from integers are not interpreted. */
  datatype Number = Bits(d: U64) | FromSingle(s: U32) | FromHalf(h: U16) | FromInt(i: I64)

  lemma {:induction false} FloatBound(s: Octets)
    requires ReadHead(s).Some?
    ensures var h := ReadHead(s).value; h.info == 25 ==> h.arg < 0x1_0000
    ensures var h := ReadHead(s).value; h.info == 26 ==> h.arg < 0x1_0000_0000
  {
    Powers();
    var h := ReadHead(s).value;
    if h.info == 25 || h.info == 26 {
      FromBigEndianBound(s[1..][..ArgWidth(h.info)]);
    }
  }

  function GetFloat(c: Cursor): Number
    requires c.IsFloat()
  {
    FloatBound(c.rest);
    var n := c.Head().arg;
    if c.Head().info == 25 then FromHalf(n) else if c.Head().info == 26 then FromSingle(n) else Bits(n)
  }
}
