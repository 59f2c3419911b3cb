/** SHA-256 as FIPS 180-4 writes it: sections 4.1.2 (functions), 4.2.2 (constants), 5 (padding), 6.2. */
module Sha256Spec {
  import opened Utf8

  type Word = n: nat | n < 0x1_0000_0000

  const MODULUS: nat := 0x1_0000_0000

  // ---- Section 2.2.2: operations on words ------------------------------------------

  function Bits(x: Word): bv32 {
    x as bv32
  }

  function FromBits(b: bv32): Word {
    b as Word
  }

  function And(x: Word, y: Word): Word {
    FromBits(Bits(x) & Bits(y))
  }

  function Xor(x: Word, y: Word): Word {
    FromBits(Bits(x) ^ Bits(y))
  }

  function Or(x: Word, y: Word): Word {
    FromBits(Bits(x) | Bits(y))
  }

  function Not(x: Word): Word {
    MODULUS - 1 - x
  }

  function Add(x: Word, y: Word): Word {
    (x + y) % MODULUS
  }

  function Shr(x: Word, n: nat): Word {
    if n == 0 then x else Shr(x, n - 1) / 2
  }

  function Shl(x: Word, n: nat): Word {
    if n == 0 then x else Shl(x, n - 1) * 2 % MODULUS
  }

  function Rotr(x: Word, n: nat): Word
    requires 0 < n < 32
  {
    Or(Shr(x, n), Shl(x, 32 - n))
  }

  // ---- Section 4.1.2 --------------------------------------------------------------

  function Ch(x: Word, y: Word, z: Word): Word {
    Xor(And(x, y), And(Not(x), z))
  }

  function Maj(x: Word, y: Word, z: Word): Word {
    Xor(Xor(And(x, y), And(x, z)), And(y, z))
  }

  function BigSigma0(x: Word): Word {
    Xor(Xor(Rotr(x, 2), Rotr(x, 13)), Rotr(x, 22))
  }

  function BigSigma1(x: Word): Word {
    Xor(Xor(Rotr(x, 6), Rotr(x, 11)), Rotr(x, 25))
  }

  function SmallSigma0(x: Word): Word {
    Xor(Xor(Rotr(x, 7), Rotr(x, 18)), Shr(x, 3))
  }

  function SmallSigma1(x: Word): Word {
    Xor(Xor(Rotr(x, 17), Rotr(x, 19)), Shr(x, 10))
  }

  /** Section 4.2.2, in rows of eight. */
  const K0: seq<Word> := [
    0x428a2f98, 0x71374491, 0xb5c0fbcf, 0xe9b5dba5,
    0x3956c25b, 0x59f111f1, 0x923f82a4, 0xab1c5ed5]
  const K1: seq<Word> := [
    0xd807aa98, 0x12835b01, 0x243185be, 0x550c7dc3,
    0x72be5d74, 0x80deb1fe, 0x9bdc06a7, 0xc19bf174]
  const K2: seq<Word> := [
    0xe49b69c1, 0xefbe4786, 0x0fc19dc6, 0x240ca1cc,
    0x2de92c6f, 0x4a7484aa, 0x5cb0a9dc, 0x76f988da]
  const K3: seq<Word> := [
    0x983e5152, 0xa831c66d, 0xb00327c8, 0xbf597fc7,
    0xc6e00bf3, 0xd5a79147, 0x06ca6351, 0x14292967]
  const K4: seq<Word> := [
    0x27b70a85, 0x2e1b2138, 0x4d2c6dfc, 0x53380d13,
    0x650a7354, 0x766a0abb, 0x81c2c92e, 0x92722c85]
  const K5: seq<Word> := [
    0xa2bfe8a1, 0xa81a664b, 0xc24b8b70, 0xc76c51a3,
    0xd192e819, 0xd6990624, 0xf40e3585, 0x106aa070]
  const K6: seq<Word> := [
    0x19a4c116, 0x1e376c08, 0x2748774c, 0x34b0bcb5,
    0x391c0cb3, 0x4ed8aa4a, 0x5b9cca4f, 0x682e6ff3]
  const K7: seq<Word> := [
    0x748f82ee, 0x78a5636f, 0x84c87814, 0x8cc70208,
    0x90befffa, 0xa4506ceb, 0xbef9a3f7, 0xc67178f2]

  const K: seq<Word> := K0 + (K1 + (K2 + (K3 + (K4 + (K5 + (K6 + K7))))))

  // ---- Section 5: padding and parsing ------------------------------------------------

  function ZeroBytes(k: nat): (z: Bytes)
    ensures |z| == k
  {
    seq(k, _ => 0 as Byte)
  }

  /** The smallest `k` with `n + 1 + k` eight short of a block (5.1.1, in bytes). */
  function ZeroCount(n: nat): (k: nat)
    ensures k < 64 && (n + 1 + k) % 64 == 56
  {
    if n % 64 <= 55 then 55 - n % 64 else 119 - n % 64
  }

  function BigEndian4(x: Word): (b: Bytes)
    ensures |b| == 4
  {
    [x / 0x1000000, x / 0x10000 % 0x100, x / 0x100 % 0x100, x % 0x100]
  }

  /** The bit length as a 64-bit block, high word first. */
  function LengthBytes(bits: nat): (b: Bytes)
    ensures |b| == 8
  {
    BigEndian4(bits / MODULUS % MODULUS) + BigEndian4(bits % MODULUS)
  }

  function Pad(m: Bytes): (p: Bytes)
    ensures |p| == |m| + 9 + ZeroCount(|m|)
  {
    m + ([0x80] + (ZeroBytes(ZeroCount(|m|)) + LengthBytes(8 * |m|)))
  }

  function FourBytes(a: nat, b: nat, c: nat, d: nat): nat {
    a * 0x1000000 + b * 0x10000 + c * 0x100 + d
  }

  function WordAt(b: Bytes, i: nat): Word
    requires i + 4 <= |b|
  {
    FourBytes(b[i], b[i + 1], b[i + 2], b[i + 3])
  }

  // ---- Section 6.2: the hash computation ----------------------------------------------

  datatype State = State(a: Word, b: Word, c: Word, d: Word, e: Word, f: Word, g: Word, h: Word)

  /** Section 5.3.3. */
  const INITIAL: State := State(
    0x6a09e667, 0xbb67ae85, 0x3c6ef372, 0xa54ff53a, 0x510e527f, 0x9b05688c, 0x1f83d9ab, 0x5be0cd19)

  /** The message schedule of the block at byte `at`. */
  function Schedule(p: Bytes, at: nat, t: nat): Word
    requires at + 64 <= |p| && t < 64
  {
    if t < 16 then WordAt(p, at + 4 * t)
    else
      Add(Add(Add(SmallSigma1(Schedule(p, at, t - 2)), Schedule(p, at, t - 7)),
              SmallSigma0(Schedule(p, at, t - 15))),
          Schedule(p, at, t - 16))
  }

  function Round(s: State, k: Word, w: Word): State {
    var t1 := Add(Add(Add(Add(s.h, BigSigma1(s.e)), Ch(s.e, s.f, s.g)), k), w);
    var t2 := Add(BigSigma0(s.a), Maj(s.a, s.b, s.c));
    State(Add(t1, t2), s.a, s.b, s.c, Add(s.d, t1), s.e, s.f, s.g)
  }

  function Rounds(s: State, p: Bytes, at: nat, t: nat): State
    requires at + 64 <= |p| && t <= 64
  {
    if t == 0 then s else Round(Rounds(s, p, at, t - 1), K[t - 1], Schedule(p, at, t - 1))
  }

  function Plus(s: State, r: State): State {
    State(Add(s.a, r.a), Add(s.b, r.b), Add(s.c, r.c), Add(s.d, r.d),
          Add(s.e, r.e), Add(s.f, r.f), Add(s.g, r.g), Add(s.h, r.h))
  }

  /** The hash value after the first `n` blocks. */
  function Hash(p: Bytes, n: nat): State
    requires 64 * n <= |p|
  {
    if n == 0 then INITIAL
    else
      var previous := Hash(p, n - 1);
      Plus(previous, Rounds(previous, p, 64 * (n - 1), 64))
  }

  function Digest(m: Bytes): State {
    Hash(Pad(m), |Pad(m)| / 64)
  }

  function HexDigit(d: nat): char
    requires d < 16
  {
    "0123456789abcdef"[d]
  }

  /** The last `n` hexadecimal digits of `x`. */
  function FixedHex(x: nat, n: nat): string {
    if n == 0 then "" else FixedHex(x / 16, n - 1) + [HexDigit(x % 16)]
  }

  function Words(s: State): (w: seq<Word>)
    ensures |w| == 8
  {
    [s.a, s.b, s.c, s.d, s.e, s.f, s.g, s.h]
  }

  function HexOf(words: seq<Word>): string {
    if words == [] then "" else HexOf(words[..|words| - 1]) + FixedHex(words[|words| - 1], 8)
  }

  /** The 256 bits of the digest, eight hexadecimal digits a word. */
  function HexDigest(m: Bytes): string {
    HexOf(Words(Digest(m)))
  }

  // ---- Properties of the padding ---------------------------------------------------------

  lemma PadIsAligned(m: Bytes)
    ensures |Pad(m)| % 64 == 0
  {
    hide Pad;
    assert |Pad(m)| == (|m| + 1 + ZeroCount(|m|)) + 8;
  }

  /** No shorter multiple of the block size has room for the mark and the length. */
  lemma PadIsShortest(m: Bytes, length: nat)
    requires length % 64 == 0 && length >= |m| + 9
    ensures |Pad(m)| <= length && |Pad(m)| % 64 == 0
  {
    hide Pad;
    PadIsAligned(m);
    var blocks, fewer := |Pad(m)| / 64, length / 64;
    assert |Pad(m)| == 64 * blocks && length == 64 * fewer;
  }

  lemma BigEndian4Injective(x: Word, y: Word)
    requires BigEndian4(x) == BigEndian4(y)
    ensures x == y
  {
    assert forall i :: 0 <= i < 4 ==> BigEndian4(x)[i] == BigEndian4(y)[i];
    WordOfBigEndian(x);
    WordOfBigEndian(y);
  }

  lemma WordOfBigEndian(x: Word)
    ensures WordAt(BigEndian4(x), 0) == x
  {
    var q := x / 0x100;
    assert x / 0x10000 == q / 0x100;
    var r := q / 0x100;
    assert x / 0x1000000 == r / 0x100;
  }

  lemma LengthInjective(x: nat, y: nat)
    requires x < MODULUS * MODULUS && y < MODULUS * MODULUS && LengthBytes(x) == LengthBytes(y)
    ensures x == y
  {
    var a, b := BigEndian4(x / MODULUS % MODULUS), BigEndian4(x % MODULUS);
    var c, d := BigEndian4(y / MODULUS % MODULUS), BigEndian4(y % MODULUS);
    assert (a + b)[..4] == a && (a + b)[4..] == b && (c + d)[..4] == c && (c + d)[4..] == d;
    BigEndian4Injective(x / MODULUS % MODULUS, y / MODULUS % MODULUS);
    BigEndian4Injective(x % MODULUS, y % MODULUS);
    assert x / MODULUS < MODULUS && y / MODULUS < MODULUS;
  }

  lemma PadEnds(m: Bytes)
    ensures Pad(m)[|Pad(m)| - 8..] == LengthBytes(8 * |m|) && Pad(m)[..|m|] == m
  {
  }

  /** Two messages of legal length (2^64 bits) never pad to the same bytes. */
  lemma PadInjective(m: Bytes, n: Bytes)
    requires 8 * |m| < MODULUS * MODULUS && 8 * |n| < MODULUS * MODULUS && Pad(m) == Pad(n)
    ensures m == n
  {
    PadEnds(m);
    PadEnds(n);
    LengthInjective(8 * |m|, 8 * |n|);
  }
}
