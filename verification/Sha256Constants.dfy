/**
 * Where the constants of SHA-256 come from (FIPS 180-4, sections 4.2.2 and 5.3.3): the first 32 bits of the fractional
 * parts of the cube roots of the first sixty-four primes, and of the square roots of the first eight.
 */
module Sha256Constants {
  import opened Sha256Spec

  ghost predicate IsPrime(p: nat) {
    p >= 2 && forall d :: 2 <= d < p ==> p % d != 0
  }

  /** `q` is the least prime above `p`. */
  ghost predicate Follows(p: nat, q: nat) {
    p < q && IsPrime(q) && forall n :: p < n < q ==> !IsPrime(n)
  }

  /** The primes, counted from zero. */
  ghost predicate IsNthPrime(t: nat, p: nat) {
    if t == 0 then p == 2 else exists before :: IsNthPrime(t - 1, before) && Follows(before, p)
  }

  /** `k` is the first 32 bits of the fraction of the cube root of `p`: some `w` and that fraction make the root. */
  ghost predicate CubeRootBits(p: nat, k: Word) {
    exists w: nat :: CubeRootAt(p, k, w)
  }

  predicate CubeRootAt(p: nat, k: Word, w: nat) {
    var n := w * MODULUS + k;
    n * n * n <= p * (MODULUS * MODULUS * MODULUS) < (n + 1) * (n + 1) * (n + 1)
  }

  ghost predicate SquareRootBits(p: nat, k: Word) {
    exists w: nat :: SquareRootAt(p, k, w)
  }

  predicate SquareRootAt(p: nat, k: Word, w: nat) {
    var n := w * MODULUS + k;
    n * n <= p * (MODULUS * MODULUS) < (n + 1) * (n + 1)
  }

  ghost predicate FromCubeRoot(t: nat, k: Word) {
    exists p :: IsNthPrime(t, p) && CubeRootBits(p, k)
  }

  ghost predicate FromSquareRoot(t: nat, k: Word) {
    exists p :: IsNthPrime(t, p) && SquareRootBits(p, k)
  }

  // ---- Which numbers are prime -----------------------------------------------

  /** No number from 2 to 17 divides `p`, but itself. */
  predicate Sieved(p: nat) {
    && (p <= 2 || p % 2 != 0) && (p <= 3 || p % 3 != 0) && (p <= 4 || p % 4 != 0) && (p <= 5 || p % 5 != 0)
    && (p <= 6 || p % 6 != 0) && (p <= 7 || p % 7 != 0) && (p <= 8 || p % 8 != 0) && (p <= 9 || p % 9 != 0)
    && (p <= 10 || p % 10 != 0) && (p <= 11 || p % 11 != 0) && (p <= 12 || p % 12 != 0) && (p <= 13 || p % 13 != 0)
    && (p <= 14 || p % 14 != 0) && (p <= 15 || p % 15 != 0) && (p <= 16 || p % 16 != 0) && (p <= 17 || p % 17 != 0)
  }

  lemma NotDivided(p: nat, d: nat)
    requires Sieved(p) && 2 <= d <= 17 && d < p
    ensures p % d != 0
  {
  }

  /** Some other prime up to 17 divides `n`. */
  predicate Marked(n: nat) {
    || (n > 2 && n % 2 == 0) || (n > 3 && n % 3 == 0) || (n > 5 && n % 5 == 0) || (n > 7 && n % 7 == 0)
    || (n > 11 && n % 11 == 0) || (n > 13 && n % 13 == 0) || (n > 17 && n % 17 == 0)
  }

  lemma MarkedIsNoPrime(n: nat)
    requires Marked(n)
    ensures !IsPrime(n)
  {
    var d := if n > 2 && n % 2 == 0 then 2 else if n > 3 && n % 3 == 0 then 3 else if n > 5 && n % 5 == 0 then 5
      else if n > 7 && n % 7 == 0 then 7 else if n > 11 && n % 11 == 0 then 11
      else if n > 13 && n % 13 == 0 then 13 else 17;
    assert n % d == 0;
  }

  /** Of two factors of a number below 18 * 18, one is at most 17. */
  lemma OneIsSmall(d: nat, e: nat)
    requires d * e < 324
    ensures d < 18 || e < 18
  {
    if d >= 18 && e >= 18 {
      AtLeast(d, e);
    }
  }

  lemma AtLeast(d: nat, e: nat)
    requires d >= 18 && e >= 18
    ensures d * e >= 324
  {
    assert d * e == (d - 18) * e + 18 * e;
  }

  lemma Scale(d: nat, x: int)
    requires x >= 1
    ensures d * x >= d
  {
    assert d * x == d * (x - 1) + d;
    NotNegative(d, x - 1);
  }

  lemma NotNegative(d: nat, x: nat)
    ensures d * x >= 0
  {
  }

  lemma NoMultiple(d: nat, x: int, r: int)
    requires d * x == r && 0 <= r < d
    ensures r == 0
  {
    if x >= 1 {
      Scale(d, x);
    } else if x <= -1 {
      Scale(d, -x);
      assert d * -x == -(d * x);
    }
  }

  lemma Exactly(d: nat, e: nat, p: nat)
    requires d > 0 && p == d * e
    ensures p % d == 0
  {
    var q := p / d;
    var r := p % d;
    assert p == d * q + r;
    assert d * (e - q) == d * e - d * q;
    NoMultiple(d, e - q, r);
  }

  lemma SmallPrime(p: nat)
    requires 2 <= p < 324 && Sieved(p)
    ensures IsPrime(p)
  {
    hide Sieved;
    forall d | 2 <= d < p ensures p % d != 0 {
      if d <= 17 {
        NotDivided(p, d);
      } else if p % d == 0 {
        LargeDivisor(p, d);
      }
    }
  }

  lemma LargeDivisor(p: nat, d: nat)
    requires 18 <= d < p < 324 && p % d == 0
    ensures !Sieved(p)
  {
    hide Sieved;
    var e := p / d;
    assert p == d * e;
    OneIsSmall(d, e);
    Cofactor(p, d, e);
    Exactly(e, d, p);
    if Sieved(p) {
      NotDivided(p, e);
    }
  }

  lemma Cofactor(p: nat, d: nat, e: nat)
    requires d < p && p == d * e
    ensures e >= 2
  {
  }

  predicate AllMarked(n: nat, q: nat)
    decreases q - n
  {
    n >= q || (Marked(n) && AllMarked(n + 1, q))
  }

  lemma {:induction false} AllComposite(n: nat, q: nat, k: nat)
    requires AllMarked(n, q) && n <= k < q
    ensures !IsPrime(k)
    decreases q - n
  {
    hide Marked, IsPrime;
    if n == k {
      MarkedIsNoPrime(n);
    } else {
      AllComposite(n + 1, q, k);
    }
  }

  lemma Next(t: nat, p: nat, q: nat)
    requires IsNthPrime(t, p) && p < q < 324 && Sieved(q) && AllMarked(p + 1, q)
    ensures IsNthPrime(t + 1, q)
  {
    hide Sieved, AllMarked, IsPrime;
    SmallPrime(q);
    forall n | p < n < q ensures !IsPrime(n) {
      AllComposite(p + 1, q, n);
    }
    assert Follows(p, q);
  }

  lemma FirstPrime()
    ensures IsNthPrime(0, 2)
  {
  }

  lemma CubeRoot(p: nat, k: Word, w: nat)
    requires CubeRootAt(p, k, w)
    ensures CubeRootBits(p, k)
  {
  }

  lemma SquareRoot(p: nat, k: Word, w: nat)
    requires SquareRootAt(p, k, w)
    ensures SquareRootBits(p, k)
  {
  }

  lemma Primes0()
    ensures IsNthPrime(0, 2)
    ensures IsNthPrime(1, 3)
    ensures IsNthPrime(2, 5)
    ensures IsNthPrime(3, 7)
  {
    hide IsPrime, IsNthPrime, Follows;
    FirstPrime();
    assert AllMarked(3, 3);
    Next(0, 2, 3);
    assert AllMarked(4, 5);
    Next(1, 3, 5);
    assert AllMarked(6, 7);
    Next(2, 5, 7);
  }

  lemma Primes1()
    ensures IsNthPrime(4, 11)
    ensures IsNthPrime(5, 13)
    ensures IsNthPrime(6, 17)
    ensures IsNthPrime(7, 19)
  {
    hide IsPrime, IsNthPrime, Follows;
    Primes0();
    assert AllMarked(8, 11);
    Next(3, 7, 11);
    assert AllMarked(12, 13);
    Next(4, 11, 13);
    assert AllMarked(14, 17);
    Next(5, 13, 17);
    assert AllMarked(18, 19);
    Next(6, 17, 19);
  }

  lemma Roots0()
    ensures CubeRootBits(2, K0[0])
    ensures CubeRootBits(3, K0[1])
    ensures CubeRootBits(5, K0[2])
    ensures CubeRootBits(7, K0[3])
  {
    hide CubeRootBits;
    CubeRoot(2, K0[0], 1);
    CubeRoot(3, K0[1], 1);
    CubeRoot(5, K0[2], 1);
    CubeRoot(7, K0[3], 1);
  }

  lemma Roots1()
    ensures CubeRootBits(11, K0[4])
    ensures CubeRootBits(13, K0[5])
    ensures CubeRootBits(17, K0[6])
    ensures CubeRootBits(19, K0[7])
  {
    hide CubeRootBits;
    CubeRoot(11, K0[4], 2);
    CubeRoot(13, K0[5], 2);
    CubeRoot(17, K0[6], 2);
    CubeRoot(19, K0[7], 2);
  }

  lemma Row0(i: nat)
    requires i < 8
    ensures FromCubeRoot(i, K0[i])
  {
    hide IsNthPrime, CubeRootBits, K0;
    Primes0();
    Primes1();
    Roots0();
    Roots1();
  }

  lemma Primes2()
    ensures IsNthPrime(8, 23)
    ensures IsNthPrime(9, 29)
    ensures IsNthPrime(10, 31)
    ensures IsNthPrime(11, 37)
  {
    hide IsPrime, IsNthPrime, Follows;
    Primes1();
    assert AllMarked(20, 23);
    Next(7, 19, 23);
    assert AllMarked(24, 29);
    Next(8, 23, 29);
    assert AllMarked(30, 31);
    Next(9, 29, 31);
    assert AllMarked(32, 37);
    Next(10, 31, 37);
  }

  lemma Primes3()
    ensures IsNthPrime(12, 41)
    ensures IsNthPrime(13, 43)
    ensures IsNthPrime(14, 47)
    ensures IsNthPrime(15, 53)
  {
    hide IsPrime, IsNthPrime, Follows;
    Primes2();
    assert AllMarked(38, 41);
    Next(11, 37, 41);
    assert AllMarked(42, 43);
    Next(12, 41, 43);
    assert AllMarked(44, 47);
    Next(13, 43, 47);
    assert AllMarked(48, 53);
    Next(14, 47, 53);
  }

  lemma Roots2()
    ensures CubeRootBits(23, K1[0])
    ensures CubeRootBits(29, K1[1])
    ensures CubeRootBits(31, K1[2])
    ensures CubeRootBits(37, K1[3])
  {
    hide CubeRootBits;
    CubeRoot(23, K1[0], 2);
    CubeRoot(29, K1[1], 3);
    CubeRoot(31, K1[2], 3);
    CubeRoot(37, K1[3], 3);
  }

  lemma Roots3()
    ensures CubeRootBits(41, K1[4])
    ensures CubeRootBits(43, K1[5])
    ensures CubeRootBits(47, K1[6])
    ensures CubeRootBits(53, K1[7])
  {
    hide CubeRootBits;
    CubeRoot(41, K1[4], 3);
    CubeRoot(43, K1[5], 3);
    CubeRoot(47, K1[6], 3);
    CubeRoot(53, K1[7], 3);
  }

  lemma Row1(i: nat)
    requires i < 8
    ensures FromCubeRoot(8 + i, K1[i])
  {
    hide IsNthPrime, CubeRootBits, K1;
    Primes2();
    Primes3();
    Roots2();
    Roots3();
  }

  lemma Primes4()
    ensures IsNthPrime(16, 59)
    ensures IsNthPrime(17, 61)
    ensures IsNthPrime(18, 67)
    ensures IsNthPrime(19, 71)
  {
    hide IsPrime, IsNthPrime, Follows;
    Primes3();
    assert AllMarked(54, 59);
    Next(15, 53, 59);
    assert AllMarked(60, 61);
    Next(16, 59, 61);
    assert AllMarked(62, 67);
    Next(17, 61, 67);
    assert AllMarked(68, 71);
    Next(18, 67, 71);
  }

  lemma Primes5()
    ensures IsNthPrime(20, 73)
    ensures IsNthPrime(21, 79)
    ensures IsNthPrime(22, 83)
    ensures IsNthPrime(23, 89)
  {
    hide IsPrime, IsNthPrime, Follows;
    Primes4();
    assert AllMarked(72, 73);
    Next(19, 71, 73);
    assert AllMarked(74, 79);
    Next(20, 73, 79);
    assert AllMarked(80, 83);
    Next(21, 79, 83);
    assert AllMarked(84, 89);
    Next(22, 83, 89);
  }

  lemma Roots4()
    ensures CubeRootBits(59, K2[0])
    ensures CubeRootBits(61, K2[1])
    ensures CubeRootBits(67, K2[2])
    ensures CubeRootBits(71, K2[3])
  {
    hide CubeRootBits;
    CubeRoot(59, K2[0], 3);
    CubeRoot(61, K2[1], 3);
    CubeRoot(67, K2[2], 4);
    CubeRoot(71, K2[3], 4);
  }

  lemma Roots5()
    ensures CubeRootBits(73, K2[4])
    ensures CubeRootBits(79, K2[5])
    ensures CubeRootBits(83, K2[6])
    ensures CubeRootBits(89, K2[7])
  {
    hide CubeRootBits;
    CubeRoot(73, K2[4], 4);
    CubeRoot(79, K2[5], 4);
    CubeRoot(83, K2[6], 4);
    CubeRoot(89, K2[7], 4);
  }

  lemma Row2(i: nat)
    requires i < 8
    ensures FromCubeRoot(16 + i, K2[i])
  {
    hide IsNthPrime, CubeRootBits, K2;
    Primes4();
    Primes5();
    Roots4();
    Roots5();
  }

  lemma Primes6()
    ensures IsNthPrime(24, 97)
    ensures IsNthPrime(25, 101)
    ensures IsNthPrime(26, 103)
    ensures IsNthPrime(27, 107)
  {
    hide IsPrime, IsNthPrime, Follows;
    Primes5();
    assert AllMarked(90, 97);
    Next(23, 89, 97);
    assert AllMarked(98, 101);
    Next(24, 97, 101);
    assert AllMarked(102, 103);
    Next(25, 101, 103);
    assert AllMarked(104, 107);
    Next(26, 103, 107);
  }

  lemma Primes7()
    ensures IsNthPrime(28, 109)
    ensures IsNthPrime(29, 113)
    ensures IsNthPrime(30, 127)
    ensures IsNthPrime(31, 131)
  {
    hide IsPrime, IsNthPrime, Follows;
    Primes6();
    assert AllMarked(108, 109);
    Next(27, 107, 109);
    assert AllMarked(110, 113);
    Next(28, 109, 113);
    assert AllMarked(114, 127);
    Next(29, 113, 127);
    assert AllMarked(128, 131);
    Next(30, 127, 131);
  }

  lemma Roots6()
    ensures CubeRootBits(97, K3[0])
    ensures CubeRootBits(101, K3[1])
    ensures CubeRootBits(103, K3[2])
    ensures CubeRootBits(107, K3[3])
  {
    hide CubeRootBits;
    CubeRoot(97, K3[0], 4);
    CubeRoot(101, K3[1], 4);
    CubeRoot(103, K3[2], 4);
    CubeRoot(107, K3[3], 4);
  }

  lemma Roots7()
    ensures CubeRootBits(109, K3[4])
    ensures CubeRootBits(113, K3[5])
    ensures CubeRootBits(127, K3[6])
    ensures CubeRootBits(131, K3[7])
  {
    hide CubeRootBits;
    CubeRoot(109, K3[4], 4);
    CubeRoot(113, K3[5], 4);
    CubeRoot(127, K3[6], 5);
    CubeRoot(131, K3[7], 5);
  }

  lemma Row3(i: nat)
    requires i < 8
    ensures FromCubeRoot(24 + i, K3[i])
  {
    hide IsNthPrime, CubeRootBits, K3;
    Primes6();
    Primes7();
    Roots6();
    Roots7();
  }

  lemma Primes8()
    ensures IsNthPrime(32, 137)
    ensures IsNthPrime(33, 139)
    ensures IsNthPrime(34, 149)
    ensures IsNthPrime(35, 151)
  {
    hide IsPrime, IsNthPrime, Follows;
    Primes7();
    assert AllMarked(132, 137);
    Next(31, 131, 137);
    assert AllMarked(138, 139);
    Next(32, 137, 139);
    assert AllMarked(140, 149);
    Next(33, 139, 149);
    assert AllMarked(150, 151);
    Next(34, 149, 151);
  }

  lemma Primes9()
    ensures IsNthPrime(36, 157)
    ensures IsNthPrime(37, 163)
    ensures IsNthPrime(38, 167)
    ensures IsNthPrime(39, 173)
  {
    hide IsPrime, IsNthPrime, Follows;
    Primes8();
    assert AllMarked(152, 157);
    Next(35, 151, 157);
    assert AllMarked(158, 163);
    Next(36, 157, 163);
    assert AllMarked(164, 167);
    Next(37, 163, 167);
    assert AllMarked(168, 173);
    Next(38, 167, 173);
  }

  lemma Roots8()
    ensures CubeRootBits(137, K4[0])
    ensures CubeRootBits(139, K4[1])
    ensures CubeRootBits(149, K4[2])
    ensures CubeRootBits(151, K4[3])
  {
    hide CubeRootBits;
    CubeRoot(137, K4[0], 5);
    CubeRoot(139, K4[1], 5);
    CubeRoot(149, K4[2], 5);
    CubeRoot(151, K4[3], 5);
  }

  lemma Roots9()
    ensures CubeRootBits(157, K4[4])
    ensures CubeRootBits(163, K4[5])
    ensures CubeRootBits(167, K4[6])
    ensures CubeRootBits(173, K4[7])
  {
    hide CubeRootBits;
    CubeRoot(157, K4[4], 5);
    CubeRoot(163, K4[5], 5);
    CubeRoot(167, K4[6], 5);
    CubeRoot(173, K4[7], 5);
  }

  lemma Row4(i: nat)
    requires i < 8
    ensures FromCubeRoot(32 + i, K4[i])
  {
    hide IsNthPrime, CubeRootBits, K4;
    Primes8();
    Primes9();
    Roots8();
    Roots9();
  }

  lemma Primes10()
    ensures IsNthPrime(40, 179)
    ensures IsNthPrime(41, 181)
    ensures IsNthPrime(42, 191)
    ensures IsNthPrime(43, 193)
  {
    hide IsPrime, IsNthPrime, Follows;
    Primes9();
    assert AllMarked(174, 179);
    Next(39, 173, 179);
    assert AllMarked(180, 181);
    Next(40, 179, 181);
    assert AllMarked(182, 191);
    Next(41, 181, 191);
    assert AllMarked(192, 193);
    Next(42, 191, 193);
  }

  lemma Primes11()
    ensures IsNthPrime(44, 197)
    ensures IsNthPrime(45, 199)
    ensures IsNthPrime(46, 211)
    ensures IsNthPrime(47, 223)
  {
    hide IsPrime, IsNthPrime, Follows;
    Primes10();
    assert AllMarked(194, 197);
    Next(43, 193, 197);
    assert AllMarked(198, 199);
    Next(44, 197, 199);
    assert AllMarked(200, 211);
    Next(45, 199, 211);
    assert AllMarked(212, 223);
    Next(46, 211, 223);
  }

  lemma Roots10()
    ensures CubeRootBits(179, K5[0])
    ensures CubeRootBits(181, K5[1])
    ensures CubeRootBits(191, K5[2])
    ensures CubeRootBits(193, K5[3])
  {
    hide CubeRootBits;
    CubeRoot(179, K5[0], 5);
    CubeRoot(181, K5[1], 5);
    CubeRoot(191, K5[2], 5);
    CubeRoot(193, K5[3], 5);
  }

  lemma Roots11()
    ensures CubeRootBits(197, K5[4])
    ensures CubeRootBits(199, K5[5])
    ensures CubeRootBits(211, K5[6])
    ensures CubeRootBits(223, K5[7])
  {
    hide CubeRootBits;
    CubeRoot(197, K5[4], 5);
    CubeRoot(199, K5[5], 5);
    CubeRoot(211, K5[6], 5);
    CubeRoot(223, K5[7], 6);
  }

  lemma Row5(i: nat)
    requires i < 8
    ensures FromCubeRoot(40 + i, K5[i])
  {
    hide IsNthPrime, CubeRootBits, K5;
    Primes10();
    Primes11();
    Roots10();
    Roots11();
  }

  lemma Primes12()
    ensures IsNthPrime(48, 227)
    ensures IsNthPrime(49, 229)
    ensures IsNthPrime(50, 233)
    ensures IsNthPrime(51, 239)
  {
    hide IsPrime, IsNthPrime, Follows;
    Primes11();
    assert AllMarked(224, 227);
    Next(47, 223, 227);
    assert AllMarked(228, 229);
    Next(48, 227, 229);
    assert AllMarked(230, 233);
    Next(49, 229, 233);
    assert AllMarked(234, 239);
    Next(50, 233, 239);
  }

  lemma Primes13()
    ensures IsNthPrime(52, 241)
    ensures IsNthPrime(53, 251)
    ensures IsNthPrime(54, 257)
    ensures IsNthPrime(55, 263)
  {
    hide IsPrime, IsNthPrime, Follows;
    Primes12();
    assert AllMarked(240, 241);
    Next(51, 239, 241);
    assert AllMarked(242, 251);
    Next(52, 241, 251);
    assert AllMarked(252, 257);
    Next(53, 251, 257);
    assert AllMarked(258, 263);
    Next(54, 257, 263);
  }

  lemma Roots12()
    ensures CubeRootBits(227, K6[0])
    ensures CubeRootBits(229, K6[1])
    ensures CubeRootBits(233, K6[2])
    ensures CubeRootBits(239, K6[3])
  {
    hide CubeRootBits;
    CubeRoot(227, K6[0], 6);
    CubeRoot(229, K6[1], 6);
    CubeRoot(233, K6[2], 6);
    CubeRoot(239, K6[3], 6);
  }

  lemma Roots13()
    ensures CubeRootBits(241, K6[4])
    ensures CubeRootBits(251, K6[5])
    ensures CubeRootBits(257, K6[6])
    ensures CubeRootBits(263, K6[7])
  {
    hide CubeRootBits;
    CubeRoot(241, K6[4], 6);
    CubeRoot(251, K6[5], 6);
    CubeRoot(257, K6[6], 6);
    CubeRoot(263, K6[7], 6);
  }

  lemma Row6(i: nat)
    requires i < 8
    ensures FromCubeRoot(48 + i, K6[i])
  {
    hide IsNthPrime, CubeRootBits, K6;
    Primes12();
    Primes13();
    Roots12();
    Roots13();
  }

  lemma Primes14()
    ensures IsNthPrime(56, 269)
    ensures IsNthPrime(57, 271)
    ensures IsNthPrime(58, 277)
    ensures IsNthPrime(59, 281)
  {
    hide IsPrime, IsNthPrime, Follows;
    Primes13();
    assert AllMarked(264, 269);
    Next(55, 263, 269);
    assert AllMarked(270, 271);
    Next(56, 269, 271);
    assert AllMarked(272, 277);
    Next(57, 271, 277);
    assert AllMarked(278, 281);
    Next(58, 277, 281);
  }

  lemma Primes15()
    ensures IsNthPrime(60, 283)
    ensures IsNthPrime(61, 293)
    ensures IsNthPrime(62, 307)
    ensures IsNthPrime(63, 311)
  {
    hide IsPrime, IsNthPrime, Follows;
    Primes14();
    assert AllMarked(282, 283);
    Next(59, 281, 283);
    assert AllMarked(284, 293);
    Next(60, 283, 293);
    assert AllMarked(294, 307);
    Next(61, 293, 307);
    assert AllMarked(308, 311);
    Next(62, 307, 311);
  }

  lemma Roots14()
    ensures CubeRootBits(269, K7[0])
    ensures CubeRootBits(271, K7[1])
    ensures CubeRootBits(277, K7[2])
    ensures CubeRootBits(281, K7[3])
  {
    hide CubeRootBits;
    CubeRoot(269, K7[0], 6);
    CubeRoot(271, K7[1], 6);
    CubeRoot(277, K7[2], 6);
    CubeRoot(281, K7[3], 6);
  }

  lemma Roots15()
    ensures CubeRootBits(283, K7[4])
    ensures CubeRootBits(293, K7[5])
    ensures CubeRootBits(307, K7[6])
    ensures CubeRootBits(311, K7[7])
  {
    hide CubeRootBits;
    CubeRoot(283, K7[4], 6);
    CubeRoot(293, K7[5], 6);
    CubeRoot(307, K7[6], 6);
    CubeRoot(311, K7[7], 6);
  }

  lemma Row7(i: nat)
    requires i < 8
    ensures FromCubeRoot(56 + i, K7[i])
  {
    hide IsNthPrime, CubeRootBits, K7;
    Primes14();
    Primes15();
    Roots14();
    Roots15();
  }

  lemma Squares()
    ensures SquareRootBits(2, Words(INITIAL)[0])
    ensures SquareRootBits(3, Words(INITIAL)[1])
    ensures SquareRootBits(5, Words(INITIAL)[2])
    ensures SquareRootBits(7, Words(INITIAL)[3])
    ensures SquareRootBits(11, Words(INITIAL)[4])
    ensures SquareRootBits(13, Words(INITIAL)[5])
    ensures SquareRootBits(17, Words(INITIAL)[6])
    ensures SquareRootBits(19, Words(INITIAL)[7])
  {
    hide SquareRootBits;
    SquareRoot(2, Words(INITIAL)[0], 1);
    SquareRoot(3, Words(INITIAL)[1], 1);
    SquareRoot(5, Words(INITIAL)[2], 2);
    SquareRoot(7, Words(INITIAL)[3], 2);
    SquareRoot(11, Words(INITIAL)[4], 3);
    SquareRoot(13, Words(INITIAL)[5], 3);
    SquareRoot(17, Words(INITIAL)[6], 4);
    SquareRoot(19, Words(INITIAL)[7], 4);
  }

  lemma RowLengths()
    ensures |K0| == |K1| == |K2| == |K3| == |K4| == |K5| == |K6| == |K7| == 8
  {
  }

  /** Each round constant is the fraction of the cube root of its prime. */
  lemma ConstantsAreCubeRoots(t: nat)
    requires t < 64
    ensures |K| == 64 && FromCubeRoot(t, K[t])
  {
    hide FromCubeRoot, K0, K1, K2, K3, K4, K5, K6, K7;
    RowLengths();
    var i := t % 8;
    match t / 8 {
      case 0 => Row0(i);
      case 1 => Row1(i);
      case 2 => Row2(i);
      case 3 => Row3(i);
      case 4 => Row4(i);
      case 5 => Row5(i);
      case 6 => Row6(i);
      case _ => Row7(i);
    }
  }

  /** Each word of the initial hash value is the fraction of the square root of its prime. */
  lemma InitialAreSquareRoots(t: nat)
    requires t < 8
    ensures FromSquareRoot(t, Words(INITIAL)[t])
  {
    hide IsNthPrime, SquareRootBits, Words;
    Primes0();
    Primes1();
    Squares();
  }
}
