/**
 * UTF-8 both ways. The specification is the Unicode Standard's: Table 3-7 says which byte sequences
 * are well-formed, Table 3-6 what they denote, and section 3.9 which subpart one U+FFFD replaces.
 * The tables are stated in arithmetic; the code uses the bit operators below.
 */
module BitOperators {
  // `&`, `|`, `<<` and `>>` of the source, on numbers whose sign bit is not touched.

  function And(a: nat, b: nat): nat {
    if a == 0 || b == 0 then 0 else 2 * And(a / 2, b / 2) + a % 2 * (b % 2)
  }

  function Or(a: nat, b: nat): nat {
    if a == 0 then b else if b == 0 then a else 2 * Or(a / 2, b / 2) + (if a % 2 + b % 2 == 0 then 0 else 1)
  }

  function Pow2(k: nat): nat {
    if k == 0 then 1 else 2 * Pow2(k - 1)
  }

  function Shl(a: nat, k: nat): nat {
    if k == 0 then a else 2 * Shl(a, k - 1)
  }

  function Shr(a: nat, k: nat): nat {
    if k == 0 then a else Shr(a / 2, k - 1)
  }

  lemma Shl2(a: nat, k: nat)
    ensures Shl(a, k + 2) == 4 * Shl(a, k)
  {
    assert Shl(a, k + 2) == 2 * Shl(a, k + 1);
  }

  lemma MaskOpens(a: nat, p: nat)
    requires p > 0
    ensures And(a, 2 * p - 1) == 2 * And(a / 2, p - 1) + a % 2
  {
    assert (2 * p - 1) / 2 == p - 1 && (2 * p - 1) % 2 == 1;
  }

  lemma MaskGrows(a: nat, p: nat)
    requires p > 0 && And(a / 2, p - 1) == a / 2 % p
    ensures And(a, 2 * p - 1) == a % (2 * p)
  {
    hide And;
    MaskOpens(a, p);
    Halved(a, p);
  }

  /** A mask of ones keeps the remainder. */
  lemma {:induction false} Masked(a: nat, k: nat)
    ensures Pow2(k) > 0 && And(a, Pow2(k) - 1) == a % Pow2(k)
  {
    if k > 0 {
      Masked(a / 2, k - 1);
      MaskGrows(a, Pow2(k - 1));
    }
  }

  lemma Halved(a: nat, p: nat)
    requires p > 0
    ensures a % (2 * p) == 2 * (a / 2 % p) + a % 2
  {
    var q, r := a / 2 / p, a / 2 % p;
    assert a == 2 * (q * p + r) + a % 2;
    assert a == q * (2 * p) + (2 * r + a % 2);
    Remainder(a, 2 * p, q, 2 * r + a % 2);
  }

  lemma Remainder(a: nat, m: nat, q: nat, r: nat)
    requires m > 0 && r < m && a == q * m + r
    ensures a % m == r
  {
    var d := a / m - q;
    Apart(a / m, q, m);
    assert a == a / m * m + a % m;
    assert r - a % m == d * m;
    if d > 0 {
      Grows(d, m);
    } else if d < 0 {
      Grows(-d, m);
    }
  }

  lemma Apart(x: nat, y: nat, m: nat)
    ensures (x - y) * m == x * m - y * m
  {
  }

  lemma Grows(d: nat, m: nat)
    requires d > 0
    ensures d * m >= m
  {
  }

  /** Bits that fit below a shift are added to it. */
  lemma {:induction false} Merged(a: nat, k: nat, b: nat)
    requires b < Pow2(k)
    ensures Or(Shl(a, k), b) == Shl(a, k) + b
  {
    if k > 0 {
      Merged(a, k - 1, b / 2);
    }
  }
}

module Utf8 {
  import opened BitOperators

  type Byte = n: nat | n < 0x100
  type Bytes = seq<Byte>
  /** UTF-16 code units: what a JavaScript string is made of. */
  type Unit = n: nat | n < 0x10000
  type Text = seq<Unit>
  type CodePoint = n: nat | n <= 0x10FFFF

  const REPLACEMENT: CodePoint := 0xFFFD

  predicate IsScalar(c: CodePoint) {
    !(0xD800 <= c <= 0xDFFF)
  }

  ghost predicate AllScalars(cs: seq<CodePoint>) {
    forall i :: 0 <= i < |cs| ==> IsScalar(cs[i])
  }

  predicate Trail(b: Byte) {
    0x80 <= b <= 0xBF
  }

  // Table 3-7, by length.

  predicate Second3(a: Byte, b: Byte) {
    || (a == 0xE0 && 0xA0 <= b <= 0xBF)
    || (0xE1 <= a <= 0xEC && 0x80 <= b <= 0xBF)
    || (a == 0xED && 0x80 <= b <= 0x9F)
    || (0xEE <= a <= 0xEF && 0x80 <= b <= 0xBF)
  }

  predicate Second4(a: Byte, b: Byte) {
    || (a == 0xF0 && 0x90 <= b <= 0xBF)
    || (0xF1 <= a <= 0xF3 && 0x80 <= b <= 0xBF)
    || (a == 0xF4 && 0x80 <= b <= 0x8F)
  }

  predicate WellFormed(s: Bytes) {
    if |s| == 1 then s[0] <= 0x7F
    else if |s| == 2 then 0xC2 <= s[0] <= 0xDF && Trail(s[1])
    else if |s| == 3 then Second3(s[0], s[1]) && Trail(s[2])
    else if |s| == 4 then Second4(s[0], s[1]) && Trail(s[2]) && Trail(s[3])
    else false
  }

  function Low6(b: nat): nat {
    b % 64
  }

  // Table 3-6, by length.

  function Value2(a: nat, b: nat): nat {
    a % 32 * 64 + Low6(b)
  }

  function Value3(a: nat, b: nat, c: nat): nat {
    a % 16 * 4096 + Low6(b) * 64 + Low6(c)
  }

  function Value4(a: nat, b: nat, c: nat, d: nat): nat {
    a % 8 * 262144 + Low6(b) * 4096 + Low6(c) * 64 + Low6(d)
  }

  function ScalarOf(s: Bytes): (c: CodePoint)
    requires WellFormed(s)
    ensures IsScalar(c)
  {
    if |s| == 1 then s[0]
    else if |s| == 2 then Value2(s[0], s[1])
    else if |s| == 3 then Range3(s[0], s[1], s[2]); Value3(s[0], s[1], s[2])
    else Range4(s[0], s[1], s[2], s[3]); Value4(s[0], s[1], s[2], s[3])
  }

  lemma Range3(a: Byte, b: Byte, c: Byte)
    requires Second3(a, b)
    ensures Value3(a, b, c) < 0xD800 || 0xE000 <= Value3(a, b, c) < 0x10000
  {
  }

  lemma Range4(a: Byte, b: Byte, c: Byte, d: Byte)
    requires Second4(a, b)
    ensures 0x10000 <= Value4(a, b, c, d) <= 0x10FFFF
  {
  }

  /** A proper, non-empty start of some well-formed sequence. */
  ghost predicate Initial(p: Bytes) {
    p != [] && exists w: Bytes :: WellFormed(w) && |p| < |w| && w[..|p|] == p
  }

  /** The length of the well-formed sequence `b` starts with, or 0. */
  function WellFormedPrefix(b: Bytes): (n: nat)
    ensures n <= |b| && (n > 0 ==> WellFormed(b[..n]))
  {
    if |b| >= 1 && WellFormed(b[..1]) then 1
    else if |b| >= 2 && WellFormed(b[..2]) then 2
    else if |b| >= 3 && WellFormed(b[..3]) then 3
    else if |b| >= 4 && WellFormed(b[..4]) then 4
    else 0
  }

  /** Longest start of `b` that is initial; one byte when none is. */
  ghost function MaximalSubpart(b: Bytes): (n: nat)
    requires b != []
    ensures 1 <= n <= |b|
  {
    if |b| >= 3 && Initial(b[..3]) then 3
    else if |b| >= 2 && Initial(b[..2]) then 2
    else 1
  }

  /** `MaximalSubpart` is what its name says. */
  lemma MaximalSubpartIsMaximal(b: Bytes, n: nat)
    requires b != [] && 1 <= n <= |b| && Initial(b[..n])
    ensures n <= MaximalSubpart(b)
    ensures MaximalSubpart(b) > 1 ==> Initial(b[..MaximalSubpart(b)])
  {
  }

  /** No sequence has two well-formed prefixes. */
  lemma WellFormedPrefixUnique(b: Bytes, n: nat)
    requires n <= |b| && WellFormed(b[..n])
    ensures WellFormedPrefix(b) == n
  {
  }

  /** One scalar per well-formed sequence, one U+FFFD per maximal subpart. */
  ghost function Decode(b: Bytes): (cs: seq<CodePoint>)
    ensures AllScalars(cs)
  {
    if b == [] then []
    else
      var n := WellFormedPrefix(b);
      if n > 0 then [ScalarOf(b[..n])] + Decode(b[n..])
      else [REPLACEMENT] + Decode(b[MaximalSubpart(b)..])
  }

  lemma DecodeHead(b: Bytes, n: nat)
    requires n <= |b| && WellFormed(b[..n])
    ensures Decode(b) == [ScalarOf(b[..n])] + Decode(b[n..])
  {
    hide ScalarOf;
    WellFormedPrefixUnique(b, n);
  }

  // ---- UTF-16 ------------------------------------------------------------------

  predicate IsHigh(u: Unit) {
    0xD800 <= u <= 0xDBFF
  }

  predicate IsLow(u: Unit) {
    0xDC00 <= u <= 0xDFFF
  }

  function Units(c: CodePoint): Text {
    if c <= 0xFFFF then [c] else [0xD800 + (c - 0x10000) / 0x400, 0xDC00 + (c - 0x10000) % 0x400]
  }

  /** `String.fromCodePoint(...cs)`. */
  function FromCodePoints(cs: seq<CodePoint>): Text {
    if cs == [] then [] else Units(cs[0]) + FromCodePoints(cs[1..])
  }

  function Combine(high: Unit, low: Unit): CodePoint
    requires IsHigh(high) && IsLow(low)
  {
    0x10000 + (high - 0xD800) * 0x400 + (low - 0xDC00)
  }

  /** The scalars of a text: surrogate pairs combined, lone surrogates replaced. */
  function Scalars(t: Text): (cs: seq<CodePoint>)
    ensures AllScalars(cs)
  {
    if t == [] then []
    else if IsHigh(t[0]) && |t| > 1 && IsLow(t[1]) then [Combine(t[0], t[1])] + Scalars(t[2..])
    else [if IsHigh(t[0]) || IsLow(t[0]) then REPLACEMENT else t[0]] + Scalars(t[1..])
  }

  predicate Lone(t: Text, i: nat)
    requires i < |t|
  {
    (IsHigh(t[i]) && !(i + 1 < |t| && IsLow(t[i + 1])))
    || (IsLow(t[i]) && !(i > 0 && IsHigh(t[i - 1])))
  }

  /** The text with each lone surrogate replaced. */
  function Repaired(t: Text): (r: Text)
    ensures |r| == |t|
  {
    seq(|t|, i requires 0 <= i < |t| => if Lone(t, i) then 0xFFFD else t[i])
  }

  // ---- Encoding ----------------------------------------------------------------

  function Tail(c: nat): Byte {
    0x80 + c % 64
  }

  function Encode1(c: CodePoint): Bytes {
    if c < 0x80 then [c]
    else if c < 0x800 then [0xC0 + c / 64, Tail(c)]
    else if c < 0x10000 then [0xE0 + c / 4096, Tail(c / 64), Tail(c)]
    else [0xF0 + c / 262144, Tail(c / 4096), Tail(c / 64), Tail(c)]
  }

  function Encode(cs: seq<CodePoint>): Bytes {
    if cs == [] then [] else Encode1(cs[0]) + Encode(cs[1..])
  }

  lemma Shift12(c: nat)
    ensures c / 4096 == c / 64 / 64
  {
  }

  lemma Shift18(c: nat)
    ensures c / 262144 == c / 4096 / 64
  {
  }

  /** The base-64 digits of a number, four at most. */
  lemma Base64(c: nat)
    ensures c / 64 == c / 4096 * 64 + c / 64 % 64 && c / 4096 == c / 262144 * 64 + c / 4096 % 64
    ensures c == c / 64 * 64 + c % 64
  {
    Shift12(c);
    Shift18(c);
  }

  lemma Join3(a: nat, b: nat, d: nat)
    requires b < 64 && d < 64
    ensures var c := a * 4096 + b * 64 + d; c / 4096 == a && c / 64 % 64 == b && c % 64 == d
  {
    var c := a * 4096 + b * 64 + d;
    assert c / 64 == a * 64 + b;
  }

  lemma Join4(a: nat, b: nat, d: nat, e: nat)
    requires b < 64 && d < 64 && e < 64
    ensures var c := a * 262144 + b * 4096 + d * 64 + e;
            c / 262144 == a && c / 4096 % 64 == b && c / 64 % 64 == d && c % 64 == e
  {
    Join3(a * 64 + b, d, e);
  }

  lemma Value3Bits(c: nat)
    requires c < 0x10000
    ensures Value3(0xE0 + c / 4096, Tail(c / 64), Tail(c)) == c
  {
    Base64(c);
    assert (0xE0 + c / 4096) % 16 == c / 4096;
    assert Low6(Tail(c / 64)) == c / 64 % 64 && Low6(Tail(c)) == c % 64;
  }

  lemma Value4Bits(c: nat)
    requires c <= 0x10FFFF
    ensures Value4(0xF0 + c / 262144, Tail(c / 4096), Tail(c / 64), Tail(c)) == c
  {
    Base64(c);
    assert (0xF0 + c / 262144) % 8 == c / 262144;
    assert Low6(Tail(c / 4096)) == c / 4096 % 64 && Low6(Tail(c / 64)) == c / 64 % 64 && Low6(Tail(c)) == c % 64;
  }

  lemma Rows(c: CodePoint)
    requires IsScalar(c) && c >= 0x800
    ensures c < 0x10000 ==> Second3(0xE0 + c / 4096, Tail(c / 64))
    ensures c >= 0x10000 ==> Second4(0xF0 + c / 262144, Tail(c / 4096))
  {
    Base64(c);
  }

  lemma Encode1WellFormed(c: CodePoint)
    requires IsScalar(c)
    ensures WellFormed(Encode1(c)) && ScalarOf(Encode1(c)) == c
  {
    hide Value3, Value4, Second3, Second4;
    if c >= 0x800 {
      Rows(c);
      if c < 0x10000 { Value3Bits(c); } else { Value4Bits(c); }
    }
  }

  lemma Value3Digits(a: Byte, b: Byte, d: Byte)
    requires Second3(a, b) && Trail(d)
    ensures var c := Value3(a, b, d);
            0x800 <= c < 0x10000 && 0xE0 + c / 4096 == a && Tail(c / 64) == b && Tail(c) == d
  {
    Join3(a % 16, Low6(b), Low6(d));
  }

  lemma Lead4(a: Byte, b: Byte)
    requires Second4(a, b)
    ensures 0xF0 + a % 8 == a && Trail(b)
  {
  }

  lemma TailIs(c: nat, b: Byte)
    requires Trail(b) && c % 64 == Low6(b)
    ensures Tail(c) == b
  {
  }

  lemma Value4Digits(a: Byte, b: Byte, d: Byte, e: Byte)
    requires Second4(a, b) && Trail(d) && Trail(e)
    ensures var c := Value4(a, b, d, e);
            0x10000 <= c <= 0x10FFFF && 0xF0 + c / 262144 == a
            && Tail(c / 4096) == b && Tail(c / 64) == d && Tail(c) == e
  {
    hide Second4, Tail, Trail;
    var c := Value4(a, b, d, e);
    Range4(a, b, d, e);
    Lead4(a, b);
    Join4(a % 8, Low6(b), Low6(d), Low6(e));
    TailIs(c / 4096, b);
    TailIs(c / 64, d);
    TailIs(c, e);
  }

  lemma Encode1Inverse(s: Bytes)
    requires WellFormed(s)
    ensures Encode1(ScalarOf(s)) == s
  {
    hide Value3, Value4, Tail;
    if |s| == 2 {
      assert Tail(ScalarOf(s)) == s[1] by { Tail2(s[0], s[1]); }
    } else if |s| == 3 {
      Value3Digits(s[0], s[1], s[2]);
    } else if |s| == 4 {
      Value4Digits(s[0], s[1], s[2], s[3]);
    }
  }

  lemma Tail2(a: Byte, b: Byte)
    requires Trail(b)
    ensures Tail(Value2(a, b)) == b
  {
  }

  lemma CombineUnits(high: Unit, low: Unit)
    requires IsHigh(high) && IsLow(low)
    ensures Units(Combine(high, low)) == [high, low]
  {
  }

  // ---- Round trips -------------------------------------------------------------

  /** Made of well-formed sequences from end to end. */
  predicate WellFormedText(b: Bytes) {
    b == [] || (WellFormedPrefix(b) > 0 && WellFormedText(b[WellFormedPrefix(b)..]))
  }

  function EncodeText(t: Text): Bytes {
    Encode(Scalars(t))
  }

  ghost function DecodeText(b: Bytes): Text {
    FromCodePoints(Decode(b))
  }

  lemma EncodedHead(c: CodePoint, rest: Bytes)
    requires IsScalar(c)
    ensures var b := Encode1(c) + rest;
            var n := WellFormedPrefix(b);
            n > 0 && b[..n] == Encode1(c) && b[n..] == rest
  {
    hide Encode1, WellFormedPrefix;
    Encode1WellFormed(c);
    var b, n := Encode1(c) + rest, |Encode1(c)|;
    assert b[..n] == Encode1(c) && b[n..] == rest;
    WellFormedPrefixUnique(b, n);
  }

  lemma {:induction false} DecodeEncode(cs: seq<CodePoint>)
    requires AllScalars(cs)
    ensures Decode(Encode(cs)) == cs && WellFormedText(Encode(cs))
  {
    hide Encode1, WellFormedPrefix;
    if cs != [] {
      var rest := Encode(cs[1..]);
      DecodeEncode(cs[1..]);
      EncodedHead(cs[0], rest);
      Encode1WellFormed(cs[0]);
      assert Encode(cs) == Encode1(cs[0]) + rest;
      assert [cs[0]] + cs[1..] == cs;
    }
  }

  lemma EncodeCons(c: CodePoint, cs: seq<CodePoint>)
    ensures Encode([c] + cs) == Encode1(c) + Encode(cs)
  {
    hide Encode1;
    assert ([c] + cs)[1..] == cs;
  }

  lemma HeadOf(b: Bytes)
    requires b != [] && WellFormedText(b)
    ensures var n := WellFormedPrefix(b);
            n > 0 && WellFormed(b[..n]) && WellFormedText(b[n..]) && b[..n] + b[n..] == b
  {
    hide WellFormed;
  }

  lemma {:induction false} EncodeDecode(b: Bytes)
    requires WellFormedText(b)
    ensures Encode(Decode(b)) == b
    decreases |b|
  {
    hide Encode, Encode1, Decode, WellFormedPrefix, WellFormedText, WellFormed, ScalarOf;
    if b == [] {
      NothingToDecode();
    } else {
      var n := WellFormedPrefix(b);
      HeadOf(b);
      Encode1Inverse(b[..n]);
      EncodeDecode(b[n..]);
      DecodeHead(b, n);
      EncodeCons(ScalarOf(b[..n]), Decode(b[n..]));
    }
  }

  lemma NothingToDecode()
    ensures Encode(Decode([])) == []
  {
  }

  lemma {:induction false} ScalarsOfUnits(cs: seq<CodePoint>)
    requires AllScalars(cs)
    ensures Scalars(FromCodePoints(cs)) == cs
  {
    if cs != [] {
      var c, rest := cs[0], FromCodePoints(cs[1..]);
      ScalarsOfUnits(cs[1..]);
      var t := Units(c) + rest;
      if c <= 0xFFFF {
        assert t[1..] == rest;
      } else {
        assert t[2..] == rest;
        assert Combine(t[0], t[1]) == c;
      }
      assert [c] + cs[1..] == cs;
    }
  }

  /** Where the scan stands: not in the middle of a pair. */
  ghost predicate Boundary(t: Text, i: nat)
    requires i <= |t|
  {
    0 < i < |t| && IsLow(t[i]) ==> !IsHigh(t[i - 1])
  }

  lemma CodePointsCons(c: CodePoint, cs: seq<CodePoint>)
    ensures FromCodePoints([c] + cs) == Units(c) + FromCodePoints(cs)
  {
    hide Units;
    assert ([c] + cs)[1..] == cs;
  }

  lemma {:induction false} UnitsOfScalars(t: Text, i: nat)
    requires i <= |t| && Boundary(t, i)
    ensures FromCodePoints(Scalars(t[i..])) == Repaired(t)[i..]
    decreases |t| - i
  {
    hide Scalars, FromCodePoints, Combine, Units;
    var r := Repaired(t);
    if i == |t| {
      assert t[i..] == [] && FromCodePoints(Scalars([])) == [] by { NothingToScan(); }
    } else {
      ScalarsFrom(t, i);
      if IsHigh(t[i]) && i + 1 < |t| && IsLow(t[i + 1]) {
        UnitsOfScalars(t, i + 2);
        CombineUnits(t[i], t[i + 1]);
        CodePointsCons(Combine(t[i], t[i + 1]), Scalars(t[i + 2..]));
        assert r[i..] == [t[i], t[i + 1]] + r[i + 2..];
      } else {
        UnitsOfScalars(t, i + 1);
        var c := if IsHigh(t[i]) || IsLow(t[i]) then REPLACEMENT else t[i];
        CodePointsCons(c, Scalars(t[i + 1..]));
        assert Units(c) == [r[i]] by { OneUnit(c); }
        assert r[i..] == [r[i]] + r[i + 1..];
      }
    }
  }

  lemma NothingToScan()
    ensures FromCodePoints(Scalars([])) == []
  {
  }

  lemma OneUnit(c: CodePoint)
    requires c <= 0xFFFF
    ensures Units(c) == [c]
  {
  }

  /** Encoding and decoding repairs a text and changes nothing else. */
  lemma DecodeTextEncodeText(t: Text)
    ensures DecodeText(EncodeText(t)) == Repaired(t)
  {
    DecodeEncode(Scalars(t));
    UnitsOfScalars(t, 0);
    assert t[0..] == t && Repaired(t)[0..] == Repaired(t);
  }

  /** A text without lone surrogates survives unchanged. */
  lemma CleanTextSurvives(t: Text)
    ensures DecodeText(EncodeText(t)) == t <==> forall i :: 0 <= i < |t| ==> !Lone(t, i)
  {
    DecodeTextEncodeText(t);
    forall i | 0 <= i < |t| && Repaired(t) == t ensures !Lone(t, i) {
      assert Repaired(t)[i] == t[i];
    }
  }

  /** Decoding and encoding gives the bytes back exactly when they are well-formed. */
  lemma EncodeTextDecodeText(b: Bytes)
    ensures EncodeText(DecodeText(b)) == b <==> WellFormedText(b)
  {
    ScalarsOfUnits(Decode(b));
    if WellFormedText(b) {
      EncodeDecode(b);
    }
    DecodeEncode(Decode(b));
  }

  // ---- The encoder of the source -------------------------------------------------

  lemma {:induction false} EncodeSnoc(cs: seq<CodePoint>, c: CodePoint)
    ensures Encode(cs + [c]) == Encode(cs) + Encode1(c)
  {
    if cs == [] {
      assert cs + [c] == [c];
      assert [c][1..] == [];
    } else {
      assert (cs + [c])[1..] == cs[1..] + [c];
      EncodeSnoc(cs[1..], c);
    }
  }

  const REPLACEMENT_BYTES: Bytes := [0xEF, 0xBF, 0xBD]

  /** One turn of the loop on the scalars still to come. */
  lemma ScalarsFrom(t: Text, i: nat)
    requires i < |t|
    ensures var pair := IsHigh(t[i]) && i + 1 < |t| && IsLow(t[i + 1]);
            Scalars(t[i..]) ==
            if pair then [Combine(t[i], t[i + 1])] + Scalars(t[i + 2..])
            else [if IsHigh(t[i]) || IsLow(t[i]) then REPLACEMENT else t[i]] + Scalars(t[i + 1..])
  {
    assert t[i..][1..] == t[i + 1..];
    if i + 1 < |t| {
      assert t[i..][2..] == t[i + 2..];
    }
  }

  /** The bytes the loop pushes for one code point. */
  function Pushed(code: CodePoint): seq<nat> {
    if code < 0x80 then [code]
    else if code < 0x800 then [Or(0xC0, Shr(code, 6)), Or(0x80, And(code, 0x3F))]
    else if code < 0x10000 then
      [Or(0xE0, Shr(code, 12)), Or(0x80, And(Shr(code, 6), 0x3F)), Or(0x80, And(code, 0x3F))]
    else
      [Or(0xF0, Shr(code, 18)), Or(0x80, And(Shr(code, 12), 0x3F)), Or(0x80, And(Shr(code, 6), 0x3F)),
       Or(0x80, And(code, 0x3F))]
  }

  lemma Shifted(c: nat)
    ensures Shr(c, 6) == c / 64 && Shr(c, 12) == c / 4096 && Shr(c, 18) == c / 262144
  {
    Shr6(c, 0);
    Shr6(c, 6);
    Shr6(c, 12);
    Shr6(c / 64, 0);
    Shr6(c / 64, 6);
    Shr6(c / 4096, 0);
    Shift12(c);
    Shift18(c);
  }

  lemma Shr6(c: nat, k: nat)
    ensures Shr(c, k + 6) == Shr(c / 64, k)
  {
    Shr2(c, k + 4);
    Shr2(c / 4, k + 2);
    Shr2(c / 16, k);
  }

  lemma Shr2(c: nat, k: nat)
    ensures Shr(c, k + 2) == Shr(c / 4, k)
  {
    assert Shr(c, k + 2) == Shr(c / 2, k + 1);
    assert c / 2 / 2 == c / 4;
  }

  /** A trailing byte: six bits under the mark. */
  lemma Trailing(c: nat)
    ensures Or(0x80, And(c, 0x3F)) == Tail(c)
  {
    assert Pow2(6) == 64 && Shl(2, 6) == 0x80;
    Masked(c, 6);
    Merged(2, 6, c % 64);
  }

  /** A leading byte: the high bits under its mark. */
  lemma Leading(bits: nat)
    ensures bits < 32 ==> Or(0xC0, bits) == 0xC0 + bits
    ensures bits < 16 ==> Or(0xE0, bits) == 0xE0 + bits
    ensures bits < 8 ==> Or(0xF0, bits) == 0xF0 + bits
  {
    assert Pow2(5) == 32 && Pow2(4) == 16 && Pow2(3) == 8;
    assert Shl(6, 5) == 0xC0 && Shl(14, 4) == 0xE0 && Shl(30, 3) == 0xF0;
    if bits < 32 { Merged(6, 5, bits); }
    if bits < 16 { Merged(14, 4, bits); }
    if bits < 8 { Merged(30, 3, bits); }
  }

  lemma PushedIsEncoded(c: CodePoint)
    ensures Pushed(c) == Encode1(c)
  {
    hide And, Or, Shr;
    Shifted(c);
    Trailing(c);
    Trailing(c / 64);
    Trailing(c / 4096);
    Leading(c / 64);
    Leading(c / 4096);
    Leading(c / 262144);
  }

  /** `utf8Bytes`. */
  method Utf8Bytes(text: Text) returns (out: Bytes)
    ensures out == EncodeText(text)
  {
    hide Scalars, Encode, Encode1, Combine, Pushed;
    out := [];
    var i := 0;
    ghost var done: seq<CodePoint> := [];
    assert text[0..] == text && Encode([]) == [] by { EncodeNothing(); }
    while i < |text|
      invariant i <= |text|
      invariant Scalars(text) == done + Scalars(text[i..])
      invariant out == Encode(done)
    {
      var code: CodePoint := text[i];
      var lone := false;
      ScalarsFrom(text, i);
      if IsHigh(text[i]) {
        if i + 1 < |text| && IsLow(text[i + 1]) {
          code := Combine(text[i], text[i + 1]);
          i := i + 1;
        } else {
          lone := true;
        }
      } else if IsLow(text[i]) {
        lone := true;
      }
      i := i + 1;
      Turn(done, if lone then REPLACEMENT else code, Scalars(text[i..]));
      done := done + [if lone then REPLACEMENT else code];
      out := out + (if lone then REPLACEMENT_BYTES else Pushed(code));
    }
    assert text[|text|..] == [];
    assert Scalars([]) == [] by { NoScalars(); }
    assert done + [] == done;
  }

  lemma Turn(done: seq<CodePoint>, c: CodePoint, more: seq<CodePoint>)
    ensures Encode(done + [c]) == Encode(done) + Pushed(c)
    ensures c == REPLACEMENT ==> Encode(done + [c]) == Encode(done) + REPLACEMENT_BYTES
    ensures done + ([c] + more) == (done + [c]) + more
  {
    hide Encode, Encode1, Pushed;
    EncodeSnoc(done, c);
    PushedIsEncoded(c);
    ReplacementBytes();
  }

  lemma EncodeNothing()
    ensures Encode([]) == []
  {
  }

  lemma NoScalars()
    ensures Scalars([]) == []
  {
  }

  lemma ReplacementBytes()
    ensures Encode1(REPLACEMENT) == REPLACEMENT_BYTES
  {
  }
}
