/** Octets, fixed-width integers and big-endian numbers. */
module Bytes {
  type Byte = x: int | 0 <= x < 0x100
  type Octets = seq<Byte>

  type U16 = n: int | 0 <= n < 0x1_0000
  type U32 = n: int | 0 <= n < 0x1_0000_0000
  type U64 = n: int | 0 <= n < 0x1_0000_0000_0000_0000
  type I32 = n: int | -0x8000_0000 <= n < 0x8000_0000
  type I64 = n: int | -0x8000_0000_0000_0000 <= n < 0x8000_0000_0000_0000

  const TWO_TO_32: int := 0x1_0000_0000
  const TWO_TO_64: int := 0x1_0000_0000_0000_0000
  /** What a C++ string or vector can hold. */
  const MAX_SIZE: nat := 0x7FFF_FFFF_FFFF_FFFF

  datatype Option<+T> = None | Some(value: T)

  /** The conversion to int32_t that C++ makes from a wider signed integer. */
  function ToI32(n: int): (r: I32)
    ensures (r - n) % TWO_TO_32 == 0
  {
    var m := n % TWO_TO_32;
    if m < 0x8000_0000 then m else m - TWO_TO_32
  }

  function Pow256(k: nat): (p: nat)
    ensures p > 0
  {
    if k == 0 then 1 else 256 * Pow256(k - 1)
  }

  lemma {:induction false} Powers()
    ensures Pow256(1) == 0x100 && Pow256(2) == 0x1_0000
    ensures Pow256(4) == 0x1_0000_0000 && Pow256(8) == TWO_TO_64
  {
    assert Pow256(3) == 0x100_0000;
    assert Pow256(5) == 0x100_0000_0000;
    assert Pow256(6) == 0x1_0000_0000_0000;
    assert Pow256(7) == 0x100_0000_0000_0000;
  }

  /** The k-byte big-endian form of n (of n modulo 256^k, when it is larger). */
  function BigEndian(n: nat, k: nat): (s: Octets)
    ensures |s| == k
    decreases k, n
  {
    if k == 0 then [] else BigEndian(n / 256, k - 1) + [n % 256]
  }

  function FromBigEndian(s: Octets): nat {
    if s == [] then 0 else 256 * FromBigEndian(s[..|s| - 1]) + s[|s| - 1]
  }

  lemma {:induction false} BigEndianRoundTrip(n: nat, k: nat)
    requires n < Pow256(k)
    ensures FromBigEndian(BigEndian(n, k)) == n
  {
    if k > 0 {
      BigEndianRoundTrip(n / 256, k - 1);
      var s := BigEndian(n, k);
      assert s[..|s| - 1] == BigEndian(n / 256, k - 1);
    }
  }

  /** The k-byte little-endian form of n (of n modulo 256^k, when it is larger). */
  function LittleEndian(n: nat, k: nat): (s: Octets)
    ensures |s| == k
    decreases k, n
  {
    if k == 0 then [] else [n % 256] + LittleEndian(n / 256, k - 1)
  }

  function FromLittleEndian(s: Octets): nat {
    if s == [] then 0 else s[0] + 256 * FromLittleEndian(s[1..])
  }

  lemma {:induction false} LittleEndianRoundTrip(n: nat, k: nat)
    requires n < Pow256(k)
    ensures FromLittleEndian(LittleEndian(n, k)) == n
  {
    if k > 0 {
      LittleEndianRoundTrip(n / 256, k - 1);
      assert LittleEndian(n, k)[1..] == LittleEndian(n / 256, k - 1);
    }
  }

  /** A suffix of a concatenation, which is what a cursor sees after a prefix. */
  lemma {:induction false} DropPrefix(a: Octets, b: Octets)
    ensures (a + b)[|a|..] == b && (a + b)[..|a|] == a
  {
  }

  /** The bytes before the first NUL: what strlen sees of a C string. */
  function Cut(s: Octets): (r: Octets)
    ensures r <= s
    ensures 0 !in r
    ensures |r| < |s| ==> s[|r|] == 0
    ensures 0 !in s ==> r == s
  {
    if s == [] || s[0] == 0 then [] else [s[0]] + Cut(s[1..])
  }

  /** The bytes of a C string literal. */
  function Ascii(s: string): Octets {
    seq(|s|, i requires 0 <= i < |s| => s[i] as int % 0x100)
  }
}
