/** What the operations of SHA-256 do to the bits of a word, and what the digest text says. */
module Sha256Words {
  import opened Utf8
  import opened Sha256Spec

  function PowerOf2(n: nat): nat {
    if n == 0 then 1 else 2 * PowerOf2(n - 1)
  }

  lemma {:induction false} DivideTwice(x: nat, p: nat)
    requires p > 0
    ensures x / p / 2 == x / (2 * p)
  {
    var q := x / p;
    var r := q % 2;
    var low := x - q * p;
    assert q == 2 * (q / 2) + r;
    assert 0 <= low < p;
    Recombine(x, p, q / 2, r, low);
  }

  lemma Recombine(x: nat, p: nat, h: nat, r: nat, low: nat)
    requires p > 0 && r < 2 && low < p && x == (2 * h + r) * p + low
    ensures x / (2 * p) == h
  {
    assert x == h * (2 * p) + (r * p + low);
    assert r * p + low < 2 * p;
    QuotientIs(x, 2 * p, h, r * p + low);
  }

  lemma QuotientIs(x: nat, m: nat, q: nat, r: nat)
    requires m > 0 && r < m && x == q * m + r
    ensures x / m == q && x % m == r
  {
    BitOperators.Remainder(x, m, q, r);
    assert (x / m - q) * m == x / m * m - q * m;
    assert x == x / m * m + x % m;
  }

  /** A right shift divides by a power of two. */
  lemma {:induction false} RightShiftDivides(x: Word, n: nat)
    ensures PowerOf2(n) > 0 && Shr(x, n) == x / PowerOf2(n)
  {
    if n > 0 {
      RightShiftDivides(x, n - 1);
      DivideTwice(x, PowerOf2(n - 1));
    }
  }

  lemma {:induction false} ModuloTwice(y: nat)
    ensures y % MODULUS * 2 % MODULUS == y * 2 % MODULUS
  {
    var q := y / MODULUS;
    assert y == q * MODULUS + y % MODULUS;
    assert y * 2 == (2 * q) * MODULUS + y % MODULUS * 2;
  }

  lemma TwiceTimes(x: nat, p: nat, y: nat)
    requires y == x * p
    ensures x * (2 * p) == y * 2
  {
  }

  /** A left shift multiplies by a power of two, and drops what leaves the word. */
  lemma {:induction false} LeftShiftMultiplies(x: Word, n: nat)
    ensures Shl(x, n) == x * PowerOf2(n) % MODULUS
  {
    if n > 0 {
      LeftShiftMultiplies(x, n - 1);
      var y := x * PowerOf2(n - 1);
      TwiceTimes(x, PowerOf2(n - 1), y);
      DoubledShift(x, n, y);
    }
  }

  lemma DoubledShift(x: Word, n: nat, y: nat)
    requires n > 0 && Shl(x, n - 1) == y % MODULUS
    ensures Shl(x, n) == y * 2 % MODULUS
  {
    ModuloTwice(y);
  }

  // ---- The functions of section 4.1.2, on the words that tell them apart ------

  lemma Powers()
    ensures PowerOf2(2) == 0x4 && PowerOf2(3) == 0x8 && PowerOf2(6) == 0x40
    ensures PowerOf2(7) == 0x80 && PowerOf2(10) == 0x400 && PowerOf2(11) == 0x800
    ensures PowerOf2(13) == 0x2000 && PowerOf2(14) == 0x4000 && PowerOf2(15) == 0x8000
    ensures PowerOf2(17) == 0x20000 && PowerOf2(18) == 0x40000 && PowerOf2(19) == 0x80000
    ensures PowerOf2(21) == 0x200000 && PowerOf2(22) == 0x400000 && PowerOf2(25) == 0x2000000
    ensures PowerOf2(26) == 0x4000000 && PowerOf2(29) == 0x20000000 && PowerOf2(30) == 0x40000000
  {
    assert PowerOf2(8) == 0x100;
    assert PowerOf2(12) == 0x1000;
    assert PowerOf2(16) == 0x10000;
    assert PowerOf2(20) == 0x100000;
    assert PowerOf2(24) == 0x1000000;
    assert PowerOf2(28) == 0x10000000;
  }

  lemma Shifted(x: Word, n: nat, p: nat, q: nat)
    requires 0 < n < 32 && p == PowerOf2(n) > 0 && q == PowerOf2(32 - n)
    ensures Shr(x, n) == x / p && Shl(x, 32 - n) == x * q % MODULUS
  {
    RightShiftDivides(x, n);
    LeftShiftMultiplies(x, 32 - n);
  }

  lemma Rotated1By2()
    ensures Rotr(1, 2) == 0x40000000
  {
    assert Or(0x0, 0x40000000) == 0x40000000;
    hide Or, Shr, Shl, PowerOf2;
    Powers();
    Shifted(1, 2, 0x4, 0x40000000);
  }

  lemma Rotated1By13()
    ensures Rotr(1, 13) == 0x80000
  {
    assert Or(0x0, 0x80000) == 0x80000;
    hide Or, Shr, Shl, PowerOf2;
    Powers();
    Shifted(1, 13, 0x2000, 0x80000);
  }

  lemma Rotated1By22()
    ensures Rotr(1, 22) == 0x400
  {
    assert Or(0x0, 0x400) == 0x400;
    hide Or, Shr, Shl, PowerOf2;
    Powers();
    Shifted(1, 22, 0x400000, 0x400);
  }

  lemma Rotated1By6()
    ensures Rotr(1, 6) == 0x4000000
  {
    assert Or(0x0, 0x4000000) == 0x4000000;
    hide Or, Shr, Shl, PowerOf2;
    Powers();
    Shifted(1, 6, 0x40, 0x4000000);
  }

  lemma Rotated1By11()
    ensures Rotr(1, 11) == 0x200000
  {
    assert Or(0x0, 0x200000) == 0x200000;
    hide Or, Shr, Shl, PowerOf2;
    Powers();
    Shifted(1, 11, 0x800, 0x200000);
  }

  lemma Rotated1By25()
    ensures Rotr(1, 25) == 0x80
  {
    assert Or(0x0, 0x80) == 0x80;
    hide Or, Shr, Shl, PowerOf2;
    Powers();
    Shifted(1, 25, 0x2000000, 0x80);
  }

  lemma Rotated8By7()
    ensures Rotr(8, 7) == 0x10000000
  {
    assert Or(0x0, 0x10000000) == 0x10000000;
    hide Or, Shr, Shl, PowerOf2;
    Powers();
    Shifted(8, 7, 0x80, 0x2000000);
  }

  lemma Rotated8By18()
    ensures Rotr(8, 18) == 0x20000
  {
    assert Or(0x0, 0x20000) == 0x20000;
    hide Or, Shr, Shl, PowerOf2;
    Powers();
    Shifted(8, 18, 0x40000, 0x4000);
  }

  lemma Rotated1024By17()
    ensures Rotr(1024, 17) == 0x2000000
  {
    assert Or(0x0, 0x2000000) == 0x2000000;
    hide Or, Shr, Shl, PowerOf2;
    Powers();
    Shifted(1024, 17, 0x20000, 0x8000);
  }

  lemma Rotated1024By19()
    ensures Rotr(1024, 19) == 0x800000
  {
    assert Or(0x0, 0x800000) == 0x800000;
    hide Or, Shr, Shl, PowerOf2;
    Powers();
    Shifted(1024, 19, 0x80000, 0x2000);
  }

  /** One bit shows by how much the big sums rotate a word. */
  lemma BigSumsOfOneBit()
    ensures BigSigma0(1) == 0x40080400
    ensures BigSigma1(1) == 0x04200080
  {
    assert Xor(0x40000000, 0x80000) == 0x40080000 && Xor(0x40080000, 0x400) == 0x40080400;
    assert Xor(0x4000000, 0x200000) == 0x4200000 && Xor(0x4200000, 0x80) == 0x4200080;
    hide Xor, Rotr, Shr, Shl, PowerOf2;
    Rotated1By2();
    Rotated1By13();
    Rotated1By22();
    Rotated1By6();
    Rotated1By11();
    Rotated1By25();
  }

  /** The small sums rotate it twice, and shift it the third time. */
  lemma SmallSum0OfOneBit()
    ensures SmallSigma0(8) == 0x10020001
  {
    assert Xor(0x10000000, 0x20000) == 0x10020000 && Xor(0x10020000, 0x1) == 0x10020001;
    hide Xor, Rotr, Shr, Shl, PowerOf2;
    Rotated8By7();
    Rotated8By18();
    Powers();
    Shifted(8, 3, 0x8, 0x20000000);
  }

  lemma SmallSum1OfOneBit()
    ensures SmallSigma1(1024) == 0x02800001
  {
    assert Xor(0x2000000, 0x800000) == 0x2800000 && Xor(0x2800000, 0x1) == 0x2800001;
    hide Xor, Rotr, Shr, Shl, PowerOf2;
    Rotated1024By17();
    Rotated1024By19();
    Powers();
    Shifted(1024, 10, 0x400, 0x400000);
  }

  /** Words that hold every combination of three bits show the choice and the majority as truth tables. */
  lemma ChoiceAndMajority()
    ensures Ch(0xF0F0_F0F0, 0xCCCC_CCCC, 0xAAAA_AAAA) == 0xCACA_CACA
    ensures Maj(0xF0F0_F0F0, 0xCCCC_CCCC, 0xAAAA_AAAA) == 0xE8E8_E8E8
  {
    assert And(0xF0F0_F0F0, 0xCCCC_CCCC) == 0xC0C0_C0C0;
    assert Not(0xF0F0_F0F0) == 0x0F0F_0F0F;
    assert And(0x0F0F_0F0F, 0xAAAA_AAAA) == 0x0A0A_0A0A;
    assert And(0xF0F0_F0F0, 0xAAAA_AAAA) == 0xA0A0_A0A0;
    assert And(0xCCCC_CCCC, 0xAAAA_AAAA) == 0x8888_8888;
    assert Xor(0xC0C0_C0C0, 0x0A0A_0A0A) == 0xCACA_CACA;
    assert Xor(0xC0C0_C0C0, 0xA0A0_A0A0) == 0x6060_6060;
    assert Xor(0x6060_6060, 0x8888_8888) == 0xE8E8_E8E8;
    hide And, Xor, Not;
  }

  // ---- The digest as text ------------------------------------------------------

  predicate IsHex(c: char) {
    '0' <= c <= '9' || 'a' <= c <= 'f'
  }

  function HexDigitValue(c: char): nat
    requires IsHex(c)
  {
    if c <= '9' then c as int - '0' as int else 10 + (c as int - 'a' as int)
  }

  predicate AllHex(s: string) {
    forall i :: 0 <= i < |s| ==> IsHex(s[i])
  }

  function HexValue(s: string): nat
    requires AllHex(s)
  {
    if s == "" then 0 else 16 * HexValue(s[..|s| - 1]) + HexDigitValue(s[|s| - 1])
  }

  function PowerOf16(n: nat): nat {
    if n == 0 then 1 else 16 * PowerOf16(n - 1)
  }

  /** The words as one number, the first of them highest. */
  function NumberOf(words: seq<Word>): nat {
    if words == [] then 0 else MODULUS * NumberOf(words[..|words| - 1]) + words[|words| - 1]
  }

  lemma HexDigitReads(d: nat)
    requires d < 16
    ensures IsHex(HexDigit(d)) && HexDigitValue(HexDigit(d)) == d
  {
  }

  lemma {:induction false} FixedHexReads(x: nat, n: nat)
    requires x < PowerOf16(n)
    ensures var s := FixedHex(x, n); |s| == n && AllHex(s) && HexValue(s) == x
  {
    hide HexDigit;
    if n > 0 {
      FixedHexReads(x / 16, n - 1);
      HexDigitReads(x % 16);
      assert FixedHex(x, n)[..n - 1] == FixedHex(x / 16, n - 1);
    }
  }

  lemma LastDigit(s: string, c: char)
    requires AllHex(s) && IsHex(c)
    ensures AllHex(s + [c]) && HexValue(s + [c]) == 16 * HexValue(s) + HexDigitValue(c)
  {
    assert (s + [c])[..|s|] == s;
  }

  lemma {:induction false} HexAppends(a: string, b: string)
    requires AllHex(a) && AllHex(b)
    ensures AllHex(a + b) && HexValue(a + b) == HexValue(a) * PowerOf16(|b|) + HexValue(b)
    decreases |b|
  {
    if b == "" {
      assert a + b == a;
    } else {
      hide HexValue, HexDigitValue;
      var front, c := b[..|b| - 1], b[|b| - 1];
      assert b == front + [c] && a + b == (a + front) + [c];
      HexAppends(a, front);
      LastDigit(a + front, c);
      LastDigit(front, c);
      Sixteenfold(HexValue(a), PowerOf16(|front|));
    }
  }

  lemma Sixteenfold(v: nat, p: nat)
    ensures v * (16 * p) == 16 * (v * p)
  {
  }

  lemma EightDigits()
    ensures PowerOf16(8) == MODULUS
  {
  }

  lemma {:induction false} HexOfReads(words: seq<Word>)
    ensures var s := HexOf(words); |s| == 8 * |words| && AllHex(s) && HexValue(s) == NumberOf(words)
  {
    hide HexValue, PowerOf16, FixedHex;
    EightDigits();
    if words == [] {
      NothingReads();
    } else {
      var most, last := words[..|words| - 1], words[|words| - 1];
      HexOfReads(most);
      FixedHexReads(last, 8);
      HexAppends(HexOf(most), FixedHex(last, 8));
    }
  }

  lemma NothingReads()
    ensures AllHex("") && HexValue("") == 0
  {
  }

  /** The digest text is sixty-four hexadecimal digits, and read as a number it is the digest. */
  lemma DigestReads(m: Bytes)
    ensures var s := HexDigest(m);
      |s| == 64 && AllHex(s) && HexValue(s) == NumberOf(Words(Digest(m)))
  {
    hide Digest, HexOf, HexValue, NumberOf;
    HexOfReads(Words(Digest(m)));
  }

  lemma {:induction false} NumbersDiffer(a: seq<Word>, b: seq<Word>)
    requires |a| == |b| && NumberOf(a) == NumberOf(b)
    ensures a == b
    decreases |a|
  {
    if a != [] {
      var x, y := NumberOf(a[..|a| - 1]), NumberOf(b[..|b| - 1]);
      assert MODULUS * x + a[|a| - 1] == MODULUS * y + b[|b| - 1];
      assert x == y;
      NumbersDiffer(a[..|a| - 1], b[..|b| - 1]);
      assert a == a[..|a| - 1] + [a[|a| - 1]] && b == b[..|b| - 1] + [b[|b| - 1]];
    }
  }

  /** Two texts of digests are equal only if all the words are: comparing texts compares digests. */
  lemma TextsTellDigestsApart(m: Bytes, n: Bytes)
    ensures HexDigest(m) == HexDigest(n) <==> Digest(m) == Digest(n)
  {
    hide Digest, HexOf, NumberOf;
    DigestReads(m);
    DigestReads(n);
    if HexDigest(m) == HexDigest(n) {
      NumbersDiffer(Words(Digest(m)), Words(Digest(n)));
      WordsTell(Digest(m), Digest(n));
    }
  }

  lemma WordsTell(s: State, t: State)
    requires Words(s) == Words(t)
    ensures s == t
  {
    assert forall i :: 0 <= i < 8 ==> Words(s)[i] == Words(t)[i];
  }
}
