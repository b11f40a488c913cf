/**
 * `FNVHashFunction`, the name-hashing callback the translator installs in
 * ANGLE when a request sets `EnableNameHashing`: 64-bit FNV-1a with each
 * `char` widened to 64 bits before the exclusive or. The translator is built
 * where `char` is signed, so a byte from 0x80 up is sign-extended; for
 * 7-bit input the result is standard FNV-1a.
 *
 * `khronos_uint64_t` values are integers in [0, 2^64); the multiplication
 * wraps, written out as a reduction modulo 2^64.
 */
module NameHashing {
  import Base64

  type byte = Base64.byte

  const TwoTo64: int := 0x1_0000_0000_0000_0000
  type uint64 = x: int | 0 <= x < 0x1_0000_0000_0000_0000

  const FnvPrime: uint64 := 1099511628211
  const FnvOffsetBasis: uint64 := 14695981039346656037

  function Pow2(n: nat): (p: nat)
    ensures p >= 1
  {
    if n == 0 then 1 else 2 * Pow2(n - 1)
  }

  /** Bitwise exclusive or of the low `width` bits of a and b, lowest bit first. */
  function XorBits(a: nat, b: nat, width: nat): (r: nat)
    ensures r < Pow2(width)
  {
    if width == 0 then 0
    else (a % 2 + b % 2) % 2 + 2 * XorBits(a / 2, b / 2, width - 1)
  }

  /** `^` on `khronos_uint64_t`. */
  function Xor(a: uint64, b: uint64): (r: uint64) {
    Pow2Of64();
    XorBits(a, b, 64)
  }

  lemma {:induction false} Pow2Add(m: nat, n: nat)
    ensures Pow2(m + n) == Pow2(m) * Pow2(n)
    decreases m
  {
    if m > 0 {
      Pow2Add(m - 1, n);
    }
  }

  lemma Pow2Of64()
    ensures Pow2(64) == TwoTo64
  {
    assert Pow2(4) == 16 by {
      assert Pow2(1) == 2 && Pow2(2) == 4 && Pow2(3) == 8;
    }
    Pow2Add(4, 4);
    assert Pow2(8) == 0x100;
    Pow2Add(8, 8);
    assert Pow2(16) == 0x1_0000;
    Pow2Add(16, 16);
    assert Pow2(32) == 0x1_0000_0000;
    Pow2Add(32, 32);
  }

  /** `static_cast<uint64_t>(str[i])` for a signed `char`: 0x80..0xFF become 2^64 - 256 + b. */
  function Widen(b: byte): (w: uint64)
    ensures b < 128 ==> w == b
    ensures b >= 128 ==> w != b && w % 256 == b && w / 256 == TwoTo64 / 256 - 1
  {
    if b < 128 then b else TwoTo64 - 256 + b
  }

  /** One turn of the loop: `hash ^= c; hash *= FNV_PRIME;` with wrap-around. */
  function Step(hash: uint64, c: uint64): uint64 {
    (Xor(hash, c) * FnvPrime) % TwoTo64
  }

  /** The hash the loop has computed after the bytes of s. */
  function HashOf(s: seq<byte>): uint64
    decreases |s|
  {
    if s == [] then FnvOffsetBasis else Step(HashOf(s[..|s| - 1]), Widen(s[|s| - 1]))
  }

  /** Standard 64-bit FNV-1a over octets, the reference the callback is named after. */
  function Fnv1a(s: seq<byte>): uint64
    decreases |s|
  {
    if s == [] then FnvOffsetBasis else Step(Fnv1a(s[..|s| - 1]), s[|s| - 1])
  }

  /** The loop run over b from an arbitrary starting hash. */
  function HashFrom(h: uint64, b: seq<byte>): uint64
    decreases |b|
  {
    if b == [] then h else Step(HashFrom(h, b[..|b| - 1]), Widen(b[|b| - 1]))
  }

  /** `FNVHashFunction(str, len)`: hashes the first len bytes of str. */
  method FnvHash(str: seq<byte>, len: nat) returns (hash: uint64)
    requires len <= |str|
    ensures hash == HashOf(str[..len])
  {
    hash := FnvOffsetBasis;
    for i := 0 to len
      invariant hash == HashOf(str[..i])
    {
      assert str[..i + 1][..i] == str[..i];
      var mixed := Xor(hash, Widen(str[i]));
      hash := (mixed * FnvPrime) % TwoTo64;
    }
  }

  /** On 7-bit input the callback is standard FNV-1a. */
  lemma {:induction false} AsciiIsFnv1a(s: seq<byte>)
    requires forall i | 0 <= i < |s| :: s[i] < 128
    ensures HashOf(s) == Fnv1a(s)
    decreases |s|
  {
    if s != [] {
      AsciiIsFnv1a(s[..|s| - 1]);
    }
  }

  /** Hashing more bytes continues from the hash of the bytes so far. */
  lemma {:induction false} HashOfAppend(a: seq<byte>, b: seq<byte>)
    ensures HashOf(a + b) == HashFrom(HashOf(a), b)
    decreases |b|
  {
    if b == [] {
      assert a + b == a;
    } else {
      var b' := b[..|b| - 1];
      assert (a + b)[..|a + b| - 1] == a + b';
      HashOfAppend(a, b');
    }
  }
}
