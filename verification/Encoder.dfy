/**
 The CBOR writer under the bridge's encoders: a buffer, a pointer into it, and,
 once something did not fit, the number of bytes that were missing. A container
 is written through an encoder of its own, whose state goes back to the parent
 when it is closed.
 */
module Encoder {
  import opened Bytes
  import opened Cbor

  /** encoder.data: a pointer while `end` is set, the shortfall afterwards. */
  datatype Place = Room(ptr: nat) | Short(needed: nat) {
    /** Where appending n more bytes leads in a buffer of `cap` bytes. */
    function Move(n: nat, cap: nat): (p: Place)
      requires Room? ==> ptr <= cap
      ensures p.Room? ==> p.ptr <= cap
      ensures p.Room? <==> Room? && ptr + n <= cap
    {
      match this
      case Room(k) => if k + n <= cap then Room(k + n) else Short(n - (cap - k))
      case Short(m) => Short(m + n)
    }
  }

  /** The shortfall is exact: it does not matter how the bytes are split. */
  lemma {:induction false} MoveAdds(p: Place, m: nat, n: nat, cap: nat)
    requires p.Room? ==> p.ptr <= cap
    ensures p.Move(m, cap).Move(n, cap) == p.Move(m + n, cap)
  {
  }

  function SatDec(n: nat): nat {
    if n == 0 then 0 else n - 1
  }

  class CborEncoder {
    const buf: array<Byte>
    var place: Place
    /** Items still owed to the container, plus one. */
    var remaining: nat
    /** The container was created with an indefinite length. */
    const open: bool

    predicate Valid()
      reads this
    {
      place.Room? ==> place.ptr <= buf.Length
    }

    /** Everything written to the buffer so far. */
    function Written(): Octets
      requires Valid() && place.Room?
      reads this, buf
    {
      buf[..place.ptr]
    }

    /** cbor_encoder_init. */
    constructor (buffer: array<Byte>)
      ensures buf == buffer && place == Room(0) && remaining == 2 && Valid()
    {
      buf, place, remaining, open := buffer, Room(0), 2, false;
    }

    /** cbor_encoder_init on a null buffer: nothing fits, everything is counted. */
    constructor Measuring()
      ensures fresh(buf) && place == Short(0) && remaining == 2 && Valid()
    {
      buf, place, remaining, open := new Byte[0], Short(0), 2, false;
    }

    constructor Child(parent: CborEncoder, owed: nat, indefinite: bool)
      requires parent.Valid()
      ensures buf == parent.buf && place == parent.place && remaining == owed && open == indefinite && Valid()
    {
      buf, place, remaining, open := parent.buf, parent.place, owed, indefinite;
    }

    /** append_to_buffer: all of the bytes or none of them. */
    method Append(data: Octets) returns (ok: bool)
      requires Valid()
      modifies this`place, buf
      ensures Valid() && place == old(place).Move(|data|, buf.Length) && ok == place.Room?
      ensures ok ==> Written() == old(Written()) + data
    {
      ok := place.Room? && place.ptr + |data| <= buf.Length;
      if ok {
        var p := place.ptr;
        forall i | 0 <= i < |data| {
          buf[p + i] := data[i];
        }
      }
      place := place.Move(|data|, buf.Length);
    }

    /** encode_number: an item head, which is one item of the container. */
    method Head(major: Major, n: U64) returns (ok: bool)
      requires Valid()
      modifies this`place, this`remaining, buf
      ensures Valid() && place == old(place).Move(|HeadBytes(major, n)|, buf.Length) && ok == place.Room?
      ensures remaining == SatDec(old(remaining))
      ensures ok ==> Written() == old(Written()) + HeadBytes(major, n)
    {
      remaining := SatDec(remaining);
      ok := Append(HeadBytes(major, n));
    }

    /** cbor_encode_tag: not an item of its own. */
    method Tag(n: U64) returns (ok: bool)
      requires Valid()
      modifies this`place, buf
      ensures Valid() && place == old(place).Move(|HeadBytes(6, n)|, buf.Length) && ok == place.Room?
      ensures ok ==> Written() == old(Written()) + HeadBytes(6, n)
    {
      ok := Append(HeadBytes(6, n));
    }

    /** cbor_encode_double, at its full width. */
    method Double(bits: U64) returns (ok: bool)
      requires Valid()
      modifies this`place, this`remaining, buf
      ensures Valid() && place == old(place).Move(9, buf.Length) && ok == place.Room?
      ensures remaining == SatDec(old(remaining))
      ensures ok ==> Written() == old(Written()) + FloatBytes(27, bits)
    {
      remaining := SatDec(remaining);
      ok := Append(FloatBytes(27, bits));
    }

    /** encode_string: the contents are counted even when the head did not fit. */
    method String(major: Major, s: Octets) returns (ok: bool)
      requires Valid() && |s| < TWO_TO_64
      modifies this`place, this`remaining, buf
      ensures Valid() && ok == place.Room?
      ensures place == old(place).Move(|HeadBytes(major, |s|) + s|, buf.Length)
      ensures remaining == SatDec(old(remaining))
      ensures ok ==> Written() == old(Written()) + (HeadBytes(major, |s|) + s)
    {
      var head := Head(major, |s|);
      ok := Append(s);
      MoveAdds(old(place), |HeadBytes(major, |s|)|, |s|, buf.Length);
    }

    /** cbor_encoder_create_array and cbor_encoder_create_map: `count` items or
        pairs, or an indefinite number of them. */
    method Create(isMap: bool, count: nat, indefinite: bool) returns (ok: bool, child: CborEncoder)
      requires Valid() && count < TWO_TO_64 / 2
      modifies this`remaining, buf
      ensures fresh(child) && child.buf == buf && child.Valid() && child.open == indefinite
      ensures child.place == place.Move(|OpenHead(if isMap then 5 else 4, count, indefinite)|, buf.Length)
      ensures child.remaining == if indefinite then 0 else if isMap then 2 * count + 1 else count + 1
      ensures remaining == SatDec(old(remaining)) && ok == child.place.Room?
      ensures ok ==> child.Written() == old(Written()) + OpenHead(if isMap then 5 else 4, count, indefinite)
    {
      remaining := SatDec(remaining);
      // length + 1 wraps to zero for the indefinite length
      child := new CborEncoder.Child(this, if indefinite then 0 else if isMap then 2 * count + 1 else count + 1, indefinite);
      ok := child.Append(OpenHead(if isMap then 5 else 4, count, indefinite));
    }

    /** cbor_encoder_close_container: the parent takes over where the child is. */
    method Close(child: CborEncoder) returns (ok: bool)
      requires Valid() && child.Valid() && child.buf == buf && child != this
      modifies this`place, buf
      ensures Valid() && place == child.place.Move(if child.open then 1 else 0, buf.Length)
      ensures ok <==> place.Room? && (child.open || child.remaining == 1)
      ensures ok ==> Written() == old(child.Written()) + Cbor.Close(child.open)
    {
      place := child.place;
      if child.open {
        ok := Append([BREAK]);
      } else {
        ok := child.remaining == 1 && place.Room?;
      }
    }
  }

  /** A reason travels as one text item: measured against no buffer at all, then
      encoded into one of exactly that size. One item is all this sizing works
      for: an encoder that stops at its first failure measures nothing more. */
  method SerializeText(s: Octets) returns (out: Octets)
    requires |s| < TWO_TO_64
    ensures out == Wire(Text(s))
  {
    hide BigEndian;
    var measure := new CborEncoder.Measuring();
    var _ := measure.String(3, s);
    var buffer := new Byte[measure.place.needed](_ => 0);
    var enc := new CborEncoder(buffer);
    var ok := enc.String(3, s);
    out := buffer[..enc.place.ptr];
  }
}
