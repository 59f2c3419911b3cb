/**
 * The SHA-256 of the source: typed arrays filled in place, on JavaScript numbers whose bitwise
 * operators answer signed 32-bit integers. Proved to compute the function of FIPS 180-4.
 */
module Sha256 {
  import opened Utf8
  import opened Sha256Spec

  // ---- JavaScript's operators --------------------------------------------------------

  /** ToUint32, also what `>>> 0` answers. */
  function ToUint32(x: int): Word {
    x % MODULUS
  }

  /** ToInt32: the upper half of the words is negative. */
  function ToInt32(w: Word): int {
    if w < 0x8000_0000 then w else w - MODULUS
  }

  function JsXor(x: int, y: int): int {
    ToInt32(Xor(ToUint32(x), ToUint32(y)))
  }

  function JsAnd(x: int, y: int): int {
    ToInt32(And(ToUint32(x), ToUint32(y)))
  }

  function JsNot(x: int): int {
    ToInt32(Not(ToUint32(x)))
  }

  /** `(value >>> bits) | (value << (32 - bits))`. */
  function JsRotr(value: int, bits: nat): int
    requires 0 < bits < 32
  {
    ToInt32(Or(ToUint32(Shr(ToUint32(value), bits)), ToUint32(ToInt32(Shl(ToUint32(value), 32 - bits)))))
  }

  lemma SignLost(w: Word)
    ensures ToUint32(ToInt32(w)) == w && ToUint32(w) == w
  {
  }

  /** Adding a signed answer and adding the word it stands for agree modulo 2^32. */
  lemma SignAbsorbed(x: int, w: Word)
    ensures ToUint32(x + ToInt32(w)) == ToUint32(x + w)
  {
    if w >= 0x8000_0000 {
      assert x + ToInt32(w) == x + w - MODULUS;
    }
  }

  lemma AddAbsorbed(x: int, w: int)
    ensures Add(ToUint32(x), ToUint32(w)) == ToUint32(x + w)
  {
    var q, r := x / MODULUS, w / MODULUS;
    assert x == q * MODULUS + ToUint32(x) && w == r * MODULUS + ToUint32(w);
    assert x + w == (q + r) * MODULUS + (ToUint32(x) + ToUint32(w));
  }

  // ---- The round functions as the source writes them ------------------------------------

  function S0(a: Word): int {
    JsXor(JsXor(JsRotr(a, 7), JsRotr(a, 18)), Shr(a, 3))
  }

  function S1(b: Word): int {
    JsXor(JsXor(JsRotr(b, 17), JsRotr(b, 19)), Shr(b, 10))
  }

  function Big0(a: Word): int {
    JsXor(JsXor(JsRotr(a, 2), JsRotr(a, 13)), JsRotr(a, 22))
  }

  function Big1(e: Word): int {
    JsXor(JsXor(JsRotr(e, 6), JsRotr(e, 11)), JsRotr(e, 25))
  }

  function Choose(e: Word, f: Word, g: Word): int {
    JsXor(JsAnd(e, f), JsAnd(JsNot(e), g))
  }

  function Majority(a: Word, b: Word, c: Word): int {
    JsXor(JsXor(JsAnd(a, b), JsAnd(a, c)), JsAnd(b, c))
  }

  lemma RotrIs(x: Word, n: nat)
    requires 0 < n < 32
    ensures JsRotr(x, n) == ToInt32(Rotr(x, n))
  {
    SignLost(x);
    SignLost(Shr(x, n));
    SignLost(Shl(x, 32 - n));
  }

  lemma XorIs(x: Word, y: Word)
    ensures JsXor(ToInt32(x), ToInt32(y)) == ToInt32(Xor(x, y))
    ensures JsXor(ToInt32(x), y) == ToInt32(Xor(x, y))
  {
    SignLost(x);
    SignLost(y);
  }

  lemma SmallSigmasAre(x: Word)
    ensures S0(x) == ToInt32(SmallSigma0(x)) && S1(x) == ToInt32(SmallSigma1(x))
  {
    hide JsRotr, JsXor, Rotr, Xor, Shr, ToInt32;
    RotrIs(x, 7);
    RotrIs(x, 18);
    RotrIs(x, 17);
    RotrIs(x, 19);
    XorIs(Rotr(x, 7), Rotr(x, 18));
    XorIs(Xor(Rotr(x, 7), Rotr(x, 18)), Shr(x, 3));
    XorIs(Rotr(x, 17), Rotr(x, 19));
    XorIs(Xor(Rotr(x, 17), Rotr(x, 19)), Shr(x, 10));
  }

  lemma BigSigmasAre(x: Word)
    ensures Big0(x) == ToInt32(BigSigma0(x)) && Big1(x) == ToInt32(BigSigma1(x))
  {
    hide JsRotr, JsXor, Rotr, Xor, ToInt32;
    RotrIs(x, 2);
    RotrIs(x, 13);
    RotrIs(x, 22);
    RotrIs(x, 6);
    RotrIs(x, 11);
    RotrIs(x, 25);
    XorIs(Rotr(x, 2), Rotr(x, 13));
    XorIs(Xor(Rotr(x, 2), Rotr(x, 13)), Rotr(x, 22));
    XorIs(Rotr(x, 6), Rotr(x, 11));
    XorIs(Xor(Rotr(x, 6), Rotr(x, 11)), Rotr(x, 25));
  }

  lemma ChoiceIs(x: Word, y: Word, z: Word)
    ensures Choose(x, y, z) == ToInt32(Ch(x, y, z)) && Majority(x, y, z) == ToInt32(Maj(x, y, z))
  {
    hide Xor, And, Not;
    SignLost(x);
    SignLost(y);
    SignLost(z);
    SignLost(Not(x));
    SignLost(And(x, y));
    SignLost(And(Not(x), z));
    SignLost(And(x, z));
    SignLost(And(y, z));
    SignLost(Xor(And(x, y), And(x, z)));
  }

  /** One turn of the 64-step loop: the assignments of the source, in order. */
  function Turn(s: State, k: Word, w: Word): State {
    var temp1 := ToUint32(s.h + Big1(s.e) + Choose(s.e, s.f, s.g) + k + w);
    var temp2 := ToUint32(Big0(s.a) + Majority(s.a, s.b, s.c));
    State(ToUint32(temp1 + temp2), s.a, s.b, s.c, ToUint32(s.d + temp1), s.e, s.f, s.g)
  }

  lemma FiveTerms(h: Word, s: Word, c: Word, k: Word, w: Word)
    ensures ToUint32(h + ToInt32(s) + ToInt32(c) + k + w) == Add(Add(Add(Add(h, s), c), k), w)
  {
    hide ToUint32, ToInt32, Add;
    SignAbsorbed(h + ToInt32(c) + k + w, s);
    SignAbsorbed(h + s + k + w, c);
    assert h + ToInt32(s) + ToInt32(c) + k + w == h + ToInt32(c) + k + w + ToInt32(s);
    assert h + ToInt32(c) + k + w + s == h + s + k + w + ToInt32(c);
    SignLost(h);
    SignLost(s);
    SignLost(c);
    SignLost(k);
    SignLost(w);
    AddAbsorbed(h, s);
    AddAbsorbed(h + s, c);
    AddAbsorbed(h + s + c, k);
    AddAbsorbed(h + s + c + k, w);
    assert h + s + k + w + c == h + s + c + k + w;
  }

  lemma TurnIsRound(s: State, k: Word, w: Word)
    ensures Turn(s, k, w) == Round(s, k, w)
  {
    hide Big0, Big1, Choose, Majority, BigSigma0, BigSigma1, Ch, Maj, ToInt32;
    BigSigmasAre(s.e);
    BigSigmasAre(s.a);
    ChoiceIs(s.e, s.f, s.g);
    ChoiceIs(s.a, s.b, s.c);
    FiveTerms(s.h, BigSigma1(s.e), Ch(s.e, s.f, s.g), k, w);
    TwoTerms(BigSigma0(s.a), Maj(s.a, s.b, s.c));
  }

  lemma TwoTerms(s: Word, m: Word)
    ensures ToUint32(ToInt32(s) + ToInt32(m)) == Add(s, m)
  {
    hide ToUint32, ToInt32, Add;
    SignAbsorbed(ToInt32(m), s);
    SignAbsorbed(s, m);
    AddAbsorbed(s, m);
    SignLost(s);
    SignLost(m);
  }

  /** The schedule's recurrence as the source adds it up. */
  lemma ScheduleTerm(w16: Word, s0: Word, w7: Word, s1: Word)
    ensures ToUint32(w16 + ToInt32(s0) + w7 + ToInt32(s1)) == Add(Add(Add(s1, w7), s0), w16)
  {
    hide ToUint32, ToInt32, Add;
    SignAbsorbed(w16 + w7 + ToInt32(s1), s0);
    SignAbsorbed(w16 + w7 + s0, s1);
    assert w16 + ToInt32(s0) + w7 + ToInt32(s1) == w16 + w7 + ToInt32(s1) + ToInt32(s0);
    assert w16 + w7 + ToInt32(s1) + s0 == w16 + w7 + s0 + ToInt32(s1);
    SignLost(w16);
    SignLost(s0);
    SignLost(w7);
    SignLost(s1);
    AddAbsorbed(s1, w7);
    AddAbsorbed(s1 + w7, s0);
    AddAbsorbed(s1 + w7 + s0, w16);
    assert w16 + w7 + s0 + s1 == s1 + w7 + s0 + w16;
  }

  // ---- Padding ---------------------------------------------------------------------------

  method SetUint32(a: array<Byte>, at: nat, value: int)
    requires at + 4 <= a.Length
    modifies a
    ensures a[..] == old(a[..at]) + BigEndian4(ToUint32(value)) + old(a[at + 4..])
  {
    var b := BigEndian4(ToUint32(value));
    a[at], a[at + 1], a[at + 2], a[at + 3] := b[0], b[1], b[2], b[3];
  }

  method PadMessage(bytes: Bytes) returns (padded: array<Byte>)
    ensures fresh(padded) && padded[..] == Pad(bytes)
  {
    var n := |bytes|;
    var bitLength := n * 8;
    var length := (n + 9 + 63) / 64 * 64;
    PadLength(n);
    padded := new Byte[length](_ => 0);
    forall i | 0 <= i < n { padded[i] := bytes[i]; }
    padded[n] := 0x80;
    var k := ZeroCount(n);
    assert padded[..] == bytes + [0x80] + ZeroBytes(k + 8);
    SetUint32(padded, length - 8, bitLength / MODULUS);
    SetUint32(padded, length - 4, bitLength);
    assert padded[..] == bytes + [0x80] + ZeroBytes(k) + LengthBytes(bitLength);
    PadIs(bytes);
  }

  lemma PadIs(bytes: Bytes)
    ensures bytes + [0x80] + ZeroBytes(ZeroCount(|bytes|)) + LengthBytes(|bytes| * 8) == Pad(bytes)
  {
    hide ZeroBytes, LengthBytes, ZeroCount;
  }

  lemma PadLength(n: nat)
    ensures (n + 9 + 63) / 64 * 64 == n + 9 + ZeroCount(n)
  {
  }

  // ---- The loops --------------------------------------------------------------------------

  method FillSchedule(padded: array<Byte>, offset: nat, w: array<Word>)
    requires offset + 64 <= padded.Length && w.Length == 64
    modifies w
    ensures forall t :: 0 <= t < 64 ==> w[t] == Schedule(padded[..], offset, t)
  {
    hide SmallSigma0, SmallSigma1, S0, S1, Add, ToInt32, ToUint32, FourBytes;
    ghost var p := padded[..];
    for t := 0 to 16
      invariant forall j :: 0 <= j < t ==> w[j] == Schedule(p, offset, j)
    {
      var at := offset + t * 4;
      w[t] := WordAt(padded[..], at);
    }
    for t := 16 to 64
      invariant forall j :: 0 <= j < t ==> w[j] == Schedule(p, offset, j)
    {
      var s0 := S0(w[t - 15]);
      var s1 := S1(w[t - 2]);
      SmallSigmasAre(w[t - 15]);
      SmallSigmasAre(w[t - 2]);
      ScheduleTerm(w[t - 16], SmallSigma0(w[t - 15]), w[t - 7], SmallSigma1(w[t - 2]));
      w[t] := ToUint32(w[t - 16] + s0 + w[t - 7] + s1);
    }
  }

  ghost function StateOf(h: array<Word>): State
    requires h.Length == 8
    reads h
  {
    State(h[0], h[1], h[2], h[3], h[4], h[5], h[6], h[7])
  }

  /** The 64 turns on eight variables. */
  method RunTurns(w: array<Word>, start: State, ghost p: Bytes, ghost offset: nat) returns (end: State)
    requires offset + 64 <= |p| && w.Length == 64
    requires forall t :: 0 <= t < 64 ==> w[t] == Schedule(p, offset, t)
    ensures end == Rounds(start, p, offset, 64)
  {
    hide Schedule, Round, Big0, Big1, Choose, Majority;
    var a: Word, b: Word, c: Word, d: Word := start.a, start.b, start.c, start.d;
    var e: Word, f: Word, g: Word, hh: Word := start.e, start.f, start.g, start.h;
    for t := 0 to 64
      invariant State(a, b, c, d, e, f, g, hh) == Rounds(start, p, offset, t)
    {
      TurnIsRound(State(a, b, c, d, e, f, g, hh), K[t], w[t]);
      hide ToUint32;
      var s1 := Big1(e);
      var ch := Choose(e, f, g);
      var temp1: int := ToUint32(hh + s1 + ch + K[t] + w[t]);
      var s0 := Big0(a);
      var maj := Majority(a, b, c);
      var temp2: int := ToUint32(s0 + maj);
      hh := g;
      g := f;
      f := e;
      e := ToUint32(d + temp1);
      d := c;
      c := b;
      b := a;
      a := ToUint32(temp1 + temp2);
    }
    end := State(a, b, c, d, e, f, g, hh);
  }

  /** One block: the turns, added back into `h` in place. */
  method CompressBlock(padded: array<Byte>, offset: nat, w: array<Word>, h: array<Word>)
    requires offset + 64 <= padded.Length && w.Length == 64 && h.Length == 8
    requires forall t :: 0 <= t < 64 ==> w[t] == Schedule(padded[..], offset, t)
    modifies h
    requires h != w
    ensures StateOf(h) == Plus(old(StateOf(h)), Rounds(old(StateOf(h)), padded[..], offset, 64))
  {
    hide Schedule, Rounds;
    var end := RunTurns(w, State(h[0], h[1], h[2], h[3], h[4], h[5], h[6], h[7]), padded[..], offset);
    var round := Words(end);
    for i := 0 to 8
      invariant forall j :: 0 <= j < i ==> h[j] == Add(old(h[j]), round[j])
      invariant forall j :: i <= j < 8 ==> h[j] == old(h[j])
    {
      var before: int, turned: int := h[i], round[i];
      h[i] := ToUint32(before + turned);
    }
  }

  /** `word.toString(16)`. */
  function ToHex(n: nat): string {
    if n < 16 then [HexDigit(n)] else ToHex(n / 16) + [HexDigit(n % 16)]
  }

  function PadStart(s: string, n: nat): string {
    seq(if |s| < n then n - |s| else 0, _ => '0') + s
  }

  lemma {:induction false} HexOfZero(n: nat)
    ensures FixedHex(0, n) == seq(n, _ => '0')
  {
    if n > 0 {
      HexOfZero(n - 1);
      assert seq(n - 1, _ => '0') + ['0'] == seq(n, _ => '0');
    }
  }

  lemma {:induction false} PaddedHex(x: nat, n: nat)
    requires n > 0 && (x < 16 || n > 1)
    requires x < Power16(n)
    ensures |ToHex(x)| <= n && PadStart(ToHex(x), n) == FixedHex(x, n)
  {
    if x < 16 {
      HexOfZero(n - 1);
      assert x / 16 == 0;
    } else {
      assert Power16(1) == 16;
      PaddedHex(x / 16, n - 1);
      assert PadStart(ToHex(x), n) == PadStart(ToHex(x / 16), n - 1) + [HexDigit(x % 16)];
    }
  }

  function Power16(n: nat): nat {
    if n == 0 then 1 else 16 * Power16(n - 1)
  }

  /** `sha256Hex`. */
  method Sha256Hex(text: Text) returns (hex: string)
    ensures hex == HexDigest(EncodeText(text))
  {
    hide Pad, Rounds, Plus, Schedule, FixedHex;
    var bytes := Utf8Bytes(text);
    var padded := PadMessage(bytes);
    PadIsAligned(bytes);
    ghost var p := Pad(bytes);
    var h := new Word[8][
      0x6a09e667, 0xbb67ae85, 0x3c6ef372, 0xa54ff53a, 0x510e527f, 0x9b05688c, 0x1f83d9ab, 0x5be0cd19];
    var w := new Word[64](_ => 0);
    var offset := 0;
    ghost var n := 0;
    while offset < padded.Length
      invariant offset == 64 * n <= padded.Length && padded.Length % 64 == 0
      invariant padded[..] == p && StateOf(h) == Hash(p, n)
    {
      FillSchedule(padded, offset, w);
      CompressBlock(padded, offset, w, h);
      offset := offset + 64;
      n := n + 1;
    }
    assert |p| == 64 * n && |p| / 64 == n;
    assert StateOf(h) == Digest(bytes);
    hex := "";
    for i := 0 to 8
      invariant StateOf(h) == Digest(bytes) && hex == HexOf(h[..i])
    {
      assert Power16(8) == MODULUS;
      PaddedHex(h[i], 8);
      hex := hex + PadStart(ToHex(h[i]), 8);
      assert h[..i + 1][..i] == h[..i];
    }
    assert h[..8] == Words(StateOf(h));
  }
}
