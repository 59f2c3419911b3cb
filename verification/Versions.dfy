/** Dotted numeric versions, and the order the delivery compares them by. */
module Versions {
  import opened Common
  import opened Texts
  import Numerals

  /** JavaScript's `Number` on what is neither empty nor plain digits; `None` is not a number. */
  type Reading = string -> Option<real>

  type Segments = seq<Option<real>>

  function Segment(part: string, number: Reading): Option<real> {
    if Numerals.AllDigits(part) then Some(Numerals.NumeralValue(part) as real) else number(part)
  }

  function SegmentsOf(version: string, number: Reading): (r: Segments)
    ensures |r| == |SplitOn(version, '.')|
  {
    var parts := SplitOn(version, '.');
    seq(|parts|, i requires 0 <= i < |parts| => Segment(parts[i], number))
  }

  /** A missing segment reads as zero. */
  function At(v: Segments, i: nat): Option<real> {
    if i < |v| then v[i] else Some(0.0)
  }

  /** Neither value is smaller: equal numbers, and never two texts that are not numbers. */
  predicate Same(x: Option<real>, y: Option<real>) {
    x.Some? && x == y
  }

  function Longest(a: Segments, b: Segments): nat {
    if |a| < |b| then |b| else |a|
  }

  /** The sign of the first difference from segment `i` on; what is not a number compares as greater. */
  function Compare(a: Segments, b: Segments, i: nat): int
    requires i <= Longest(a, b)
    decreases Longest(a, b) - i
  {
    if i == Longest(a, b) then 0
    else if Same(At(a, i), At(b, i)) then Compare(a, b, i + 1)
    else if At(a, i).Some? && At(b, i).Some? && At(a, i).value < At(b, i).value then -1
    else 1
  }

  function CompareTexts(left: string, right: string, number: Reading): int {
    Compare(SegmentsOf(left, number), SegmentsOf(right, number), 0)
  }

  method CompareVersions(left: string, right: string, number: Reading) returns (sign: int)
    ensures sign == CompareTexts(left, right, number)
  {
    var a, b := SegmentsOf(left, number), SegmentsOf(right, number);
    for i := 0 to Longest(a, b)
      invariant Compare(a, b, i) == Compare(a, b, 0)
    {
      var x, y := At(a, i), At(b, i);
      if !Same(x, y) {
        return if x.Some? && y.Some? && x.value < y.value then -1 else 1;
      }
    }
    return 0;
  }

  // The order.

  predicate AllNumbers(v: Segments) {
    forall i :: 0 <= i < |v| ==> v[i].Some?
  }

  /** Segment `k` is the first where the versions differ, and neither side of it is a bad number. */
  ghost predicate DiffersAt(a: Segments, b: Segments, k: nat) {
    k < Longest(a, b) && !Same(At(a, k), At(b, k)) && forall j: nat :: j < k ==> Same(At(a, j), At(b, j))
  }

  /** Equal up to trailing zeros, or decided by the first difference. */
  lemma {:induction false} CompareFrom(a: Segments, b: Segments, i: nat) returns (k: nat)
    requires i <= Longest(a, b)
    requires forall j: nat :: j < i ==> Same(At(a, j), At(b, j))
    ensures i <= k <= Longest(a, b)
    ensures k == Longest(a, b) ==> Compare(a, b, i) == 0 && forall j: nat :: j < k ==> Same(At(a, j), At(b, j))
    ensures k < Longest(a, b) ==>
      DiffersAt(a, b, k) &&
      Compare(a, b, i) == if At(a, k).Some? && At(b, k).Some? && At(a, k).value < At(b, k).value then -1 else 1
    decreases Longest(a, b) - i
  {
    if i < Longest(a, b) && Same(At(a, i), At(b, i)) {
      k := CompareFrom(a, b, i + 1);
    } else {
      k := i;
    }
  }

  /** Zero exactly when every segment agrees, missing ones read as zero. */
  lemma CompareZero(a: Segments, b: Segments)
    ensures Compare(a, b, 0) == 0 <==> forall j: nat :: j < Longest(a, b) ==> Same(At(a, j), At(b, j))
  {
    var k := CompareFrom(a, b, 0);
  }

  /** Swapping the sides flips the sign, unless the first difference involves what is not a number. */
  lemma CompareFlips(a: Segments, b: Segments)
    ensures Compare(b, a, 0) == -Compare(a, b, 0) <==>
            forall k: nat :: DiffersAt(a, b, k) ==> At(a, k).Some? && At(b, k).Some?
  {
    var k := CompareFrom(a, b, 0);
    var m := CompareFrom(b, a, 0);
    if k < Longest(a, b) {
      assert !Same(At(b, k), At(a, k));
      assert m == k;
    } else {
      assert m == k;
    }
  }

  /** On numeric versions the comparison is transitive: with the two lemmas above, a total preorder. */
  lemma CompareTransitive(a: Segments, b: Segments, c: Segments)
    requires AllNumbers(a) && AllNumbers(b) && AllNumbers(c)
    requires Compare(a, b, 0) <= 0 && Compare(b, c, 0) <= 0
    ensures Compare(a, c, 0) <= 0
    ensures Compare(a, b, 0) < 0 || Compare(b, c, 0) < 0 ==> Compare(a, c, 0) < 0
  {
    hide Compare;
    var k := CompareFrom(a, b, 0);
    var m := CompareFrom(b, c, 0);
    var n := CompareFrom(a, c, 0);
    var first := if k < m then k else m;
    forall j: nat | j < first ensures Same(At(a, j), At(c, j)) {
      assert Same(At(a, j), At(b, j)) && Same(At(b, j), At(c, j));
    }
    Beyond(a, b, k);
    Beyond(b, c, m);
    if n < first {
      assert Same(At(a, n), At(c, n));
    } else if n < Longest(a, c) {
      assert first <= n;
      if first < n {
        assert Same(At(a, first), At(c, first));
        assert Same(At(a, first), At(b, first)) || Same(At(b, first), At(c, first)) || k == m;
      }
    }
  }

  /** Past the longer of the two, all segments agree. */
  lemma Beyond(a: Segments, b: Segments, k: nat)
    ensures k >= Longest(a, b) ==> forall j: nat :: j >= k ==> Same(At(a, j), At(b, j))
  {
  }

  // Versions as publishers write them.

  /** The numbers in decimal, with dots between them. */
  function Dotted(numbers: seq<nat>): string
    requires numbers != []
  {
    if |numbers| == 1 then Numerals.Decimal(numbers[0])
    else Numerals.Decimal(numbers[0]) + ("." + Dotted(numbers[1..]))
  }

  function NumberAt(numbers: seq<nat>, i: nat): nat {
    if i < |numbers| then numbers[i] else 0
  }

  /** The sign of the first difference, missing numbers read as zero. */
  ghost predicate Signs(a: seq<nat>, b: seq<nat>, sign: int) {
    || (sign == 0 && forall i: nat :: NumberAt(a, i) == NumberAt(b, i))
    || exists k: nat :: FirstDifference(a, b, k)
         && (if NumberAt(a, k) < NumberAt(b, k) then sign == -1 else sign == 1)
  }

  ghost predicate FirstDifference(a: seq<nat>, b: seq<nat>, k: nat) {
    NumberAt(a, k) != NumberAt(b, k) && forall i: nat :: i < k ==> NumberAt(a, i) == NumberAt(b, i)
  }

  lemma {:induction false} SplitPlain(s: string, c: char)
    requires c !in s
    ensures SplitOn(s, c) == [s]
  {
    if s != "" {
      SplitPlain(s[1..], c);
      assert [s[0]] + s[1..] == s && s[0] != c;
      assert [s[1..]][1..] == [];
    }
  }

  lemma {:induction false} SplitAtFirst(s: string, c: char, rest: string)
    requires c !in s
    ensures SplitOn(s + ([c] + rest), c) == [s] + SplitOn(rest, c)
    decreases |s|
  {
    var t := s + ([c] + rest);
    if s == "" {
      assert t == [c] + rest && t[1..] == rest;
    } else {
      assert t[1..] == s[1..] + ([c] + rest);
      SplitAtFirst(s[1..], c, rest);
      assert [s[0]] + s[1..] == s && s[0] != c;
      assert ([s[1..]] + SplitOn(rest, c))[1..] == SplitOn(rest, c);
    }
  }

  lemma {:induction false} DottedSplits(numbers: seq<nat>)
    requires numbers != []
    ensures var parts := SplitOn(Dotted(numbers), '.');
      |parts| == |numbers| && forall i :: 0 <= i < |numbers| ==> parts[i] == Numerals.Decimal(numbers[i])
  {
    hide Numerals.Decimal, SplitOn;
    NoDot(numbers[0]);
    if |numbers| == 1 {
      SplitPlain(Numerals.Decimal(numbers[0]), '.');
    } else {
      SplitAtFirst(Numerals.Decimal(numbers[0]), '.', Dotted(numbers[1..]));
      DottedSplits(numbers[1..]);
    }
  }

  lemma NoDot(n: nat)
    ensures '.' !in Numerals.Decimal(n)
  {
  }

  lemma DottedReads(numbers: seq<nat>, number: Reading)
    requires numbers != []
    ensures var v := SegmentsOf(Dotted(numbers), number);
      |v| == |numbers| && forall i :: 0 <= i < |numbers| ==> v[i] == Some(numbers[i] as real)
  {
    hide SplitOn, Numerals.Decimal, Numerals.NumeralValue;
    DottedSplits(numbers);
    forall i | 0 <= i < |numbers|
      ensures SegmentsOf(Dotted(numbers), number)[i] == Some(numbers[i] as real)
    {
      Numerals.DecimalValue(numbers[i]);
    }
  }

  /** Dotted numbers compare number by number, whatever `Number` makes of other texts: 1.10 comes after 1.9. */
  lemma DottedCompares(a: seq<nat>, b: seq<nat>, number: Reading)
    requires a != [] && b != []
    ensures Signs(a, b, CompareTexts(Dotted(a), Dotted(b), number))
  {
    hide SegmentsOf, Compare, Dotted;
    DottedReads(a, number);
    DottedReads(b, number);
    var v, w := SegmentsOf(Dotted(a), number), SegmentsOf(Dotted(b), number);
    forall i: nat ensures At(v, i) == Some(NumberAt(a, i) as real) && At(w, i) == Some(NumberAt(b, i) as real) {
    }
    var k := CompareFrom(v, w, 0);
    forall i: nat | i < k ensures NumberAt(a, i) == NumberAt(b, i) {
      assert Same(At(v, i), At(w, i));
    }
    if k < Longest(v, w) {
      assert FirstDifference(a, b, k);
    }
  }
}
