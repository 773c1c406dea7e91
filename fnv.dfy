/** stringToInt64Hash: the 64-bit FNV-1a hash of a key's bytes, reinterpreted
    as a signed 64-bit integer; it is the map key of the tagged store. */
module Fnv {
  import opened GoModel

  const TwoTo63: int := 0x8000_0000_0000_0000
  const TwoTo64: int := 0x1_0000_0000_0000_0000

  /** A Go `uint64`. */
  type uint64 = x: int | 0 <= x < 0x1_0000_0000_0000_0000

  const OffsetBasis: uint64 := 14695981039346656037
  const Prime: uint64 := 1099511628211

  /** Bitwise exclusive or of two naturals. */
  function Xor(a: nat, b: nat): (r: nat)
    decreases a + b
  {
    if a == 0 then b
    else if b == 0 then a
    else (a + b) % 2 + 2 * Xor(a / 2, b / 2)
  }

  /** Xor with a byte touches only the low eight bits. */
  function XorByte(h: uint64, b: byte): (r: uint64)
    ensures r / 256 == h / 256
  {
    XorLowBits(h % 256, b);
    h - h % 256 + Xor(h % 256, b)
  }

  /** The xor of two bytes is a byte. */
  lemma {:induction false} XorLowBits(a: nat, b: nat)
    requires a < 256 && b < 256
    ensures Xor(a, b) < 256
  {
    XorBound(a, b, 8);
  }

  lemma {:induction false} XorBound(a: nat, b: nat, k: nat)
    requires a < Pow2(k) && b < Pow2(k)
    ensures Xor(a, b) < Pow2(k)
    decreases a + b
  {
    if a != 0 && b != 0 {
      XorBound(a / 2, b / 2, k - 1);
    }
  }

  function Pow2(k: nat): (r: nat)
    ensures r >= 1
  {
    if k == 0 then 1 else 2 * Pow2(k - 1)
  }

  /** One FNV-1a round: xor in the byte, then multiply by the prime modulo 2^64. */
  function Step(h: uint64, b: byte): uint64 {
    XorByte(h, b) * Prime % TwoTo64
  }

  /** The state after feeding the bytes of s, one after the other, from h,
      through the round function f. */
  function Fold(f: (uint64, byte) -> uint64, h: uint64, s: GoString): uint64
    decreases |s|
  {
    if s == [] then h else Fold(f, f(h, s[0]), s[1..])
  }

  /** The unsigned 64-bit FNV-1a digest of s (hash/fnv New64a, Write, Sum64). */
  function Sum64(s: GoString): uint64 {
    Fold(Step, OffsetBasis, s)
  }

  /** Go's int64(u) conversion of a uint64: two's-complement reinterpretation. */
  function ToInt64(u: uint64): (r: int64)
    ensures r >= 0 <==> u < TwoTo63
    ensures r % TwoTo64 == u
  {
    if u < TwoTo63 then u else u - TwoTo64
  }

  /** Go's uint64(i) conversion, the inverse of ToInt64. */
  function ToUint64(i: int64): (r: uint64)
    ensures r == i % TwoTo64
  {
    if i < 0 then i + TwoTo64 else i
  }

  function StringToInt64Hash(s: GoString): int64 {
    ToInt64(Sum64(s))
  }

  /** Reinterpreting as int64 loses nothing: distinct digests stay distinct. */
  lemma ToInt64RoundTrip(u: uint64)
    ensures ToUint64(ToInt64(u)) == u
  {
  }

  /** The hash is a left fold: hashing a + b continues from the state after a.
      This is what lets Write be called on the key in pieces. */
  lemma {:induction false} FoldAppend(f: (uint64, byte) -> uint64, h: uint64, a: GoString, b: GoString)
    ensures Fold(f, h, a + b) == Fold(f, Fold(f, h, a), b)
    decreases |a|
  {
    if a != [] {
      assert (a + b)[1..] == a[1..] + b;
      FoldAppend(f, f(h, a[0]), a[1..], b);
    } else {
      assert a + b == b;
    }
  }

  /** Hashing one more byte is one more FNV-1a round. */
  lemma Sum64Snoc(s: GoString, b: byte)
    ensures Sum64(s + [b]) == Step(Sum64(s), b)
  {
    FoldAppend(Step, OffsetBasis, s, [b]);
  }

  /** The empty key hashes to the offset basis, 0xcbf29ce484222325 as int64. */
  lemma HashOfEmpty()
    ensures StringToInt64Hash([]) == -3750763034362895579
  {
  }

  /** The published FNV-1a test vector: "a" hashes to 0xaf63dc4c8601ec8c. */
  lemma HashOfA()
    ensures Sum64([97]) == 0xaf63dc4c8601ec8c
    ensures StringToInt64Hash([97]) == -5808556873153909620
  {
    FirstRoundA();
    assert Sum64([97]) == Step(OffsetBasis, 97);
  }

  lemma FirstRoundA()
    ensures Step(OffsetBasis, 97) == 0xaf63dc4c8601ec8c
  {
    LowByteA(OffsetBasis);
  }

  /** The first round of HashOfA: the offset basis ends in the byte 0x25,
      and 0x25 xor 0x61 is 0x44. */
  lemma LowByteA(h: uint64)
    requires h % 256 == 0x25
    ensures XorByte(h, 97) == h + 0x1F
  {
    assert Xor(1, 3) == 2;
    assert Xor(2, 6) == 4;
    assert Xor(4, 12) == 8;
    assert Xor(9, 24) == 17;
    assert Xor(18, 48) == 34;
    assert Xor(0x25, 97) == 0x44;
  }
}
