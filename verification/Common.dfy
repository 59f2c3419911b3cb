/** Shared vocabulary: outcomes as values, decimal numerals, insertion-ordered tables. */
module Common {

  datatype Option<+T> = None | Some(value: T)

  /** A thrown error is a value here: `Err` is what the source throws, `Ok` is what it returns. */
  datatype Result<+T, +E> = Ok(value: T) | Err(error: E) {
    predicate IsFailure() {
      Err?
    }

    function PropagateFailure<U>(): Result<U, E>
      requires Err?
    {
      Err(error)
    }

    function Extract(): T
      requires Ok?
    {
      value
    }
  }
}

/** Decimal numerals. */
module Numerals {

  predicate IsDigit(c: char) {
    '0' <= c <= '9'
  }

  predicate AllDigits(s: string) {
    forall i :: 0 <= i < |s| ==> IsDigit(s[i])
  }

  function DigitChar(d: nat): (c: char)
    requires d < 10
    ensures IsDigit(c) && DigitValue(c) == d
  {
    ('0' as int + d) as char
  }

  function DigitValue(c: char): (d: nat)
    requires IsDigit(c)
    ensures d < 10
  {
    c as int - '0' as int
  }

  /** The numeral of `n`, most significant digit first, no leading zero. */
  function Decimal(n: nat): (s: string)
    ensures |s| > 0 && AllDigits(s)
    ensures |s| > 1 ==> s[0] != '0'
  {
    if n < 10 then [DigitChar(n)] else Decimal(n / 10) + [DigitChar(n % 10)]
  }

  /** The value of a digit string. */
  function NumeralValue(s: string): nat
    requires AllDigits(s)
  {
    if s == [] then 0 else 10 * NumeralValue(s[..|s| - 1]) + DigitValue(s[|s| - 1])
  }

  lemma {:induction false} DecimalValue(n: nat)
    ensures NumeralValue(Decimal(n)) == n
  {
    if n >= 10 {
      DecimalValue(n / 10);
      assert Decimal(n)[..|Decimal(n)| - 1] == Decimal(n / 10);
    }
  }

  lemma DecimalInjective(m: nat, n: nat)
    requires Decimal(m) == Decimal(n)
    ensures m == n
  {
    DecimalValue(m);
    DecimalValue(n);
  }

  function Signed(n: int): string {
    if n < 0 then "-" + Decimal(-n) else Decimal(n)
  }

  function Zeros(k: nat): (s: string)
    ensures |s| == k && AllDigits(s)
  {
    seq(k, _ => '0')
  }

  lemma {:induction false} LeadingZeros(k: nat, s: string)
    requires AllDigits(s)
    ensures AllDigits(Zeros(k) + s)
    ensures NumeralValue(Zeros(k) + s) == NumeralValue(s)
    decreases |s|, k
  {
    var z := Zeros(k) + s;
    if s == [] {
      if k > 0 {
        assert z[..k - 1] == Zeros(k - 1) + s;
        LeadingZeros(k - 1, s);
      }
    } else {
      assert z[..|z| - 1] == Zeros(k) + s[..|s| - 1];
      LeadingZeros(k, s[..|s| - 1]);
    }
  }
}

/** Insertion-ordered tables, the shape of a JavaScript object with string keys. */
module Tables {
  import opened Common

  type Table<T> = seq<(string, T)>

  function Find<T>(t: Table<T>, key: string): (r: Option<T>)
    ensures r.Some? <==> Has(t, key)
  {
    if t == [] then None else if t[0].0 == key then Some(t[0].1) else Find(t[1..], key)
  }

  predicate Has<T>(t: Table<T>, key: string) {
    exists i :: 0 <= i < |t| && t[i].0 == key
  }

  /** Assignment: an existing key keeps its place, a new one goes last. */
  function Put<T>(t: Table<T>, key: string, value: T): Table<T> {
    if t == [] then [(key, value)]
    else if t[0].0 == key then [(key, value)] + t[1..]
    else [t[0]] + Put(t[1..], key, value)
  }

  function Delete<T>(t: Table<T>, key: string): Table<T> {
    if t == [] then []
    else if t[0].0 == key then Delete(t[1..], key)
    else [t[0]] + Delete(t[1..], key)
  }

  predicate Distinct<T>(t: Table<T>) {
    forall i, j :: 0 <= i < j < |t| ==> t[i].0 != t[j].0
  }

  lemma {:induction false} FindPut<T>(t: Table<T>, key: string, value: T, other: string)
    ensures Find(Put(t, key, value), other) == if other == key then Some(value) else Find(t, other)
  {
    if t != [] {
      FindPut(t[1..], key, value, other);
    }
  }

  lemma {:induction false} PutFresh<T>(t: Table<T>, key: string, value: T)
    requires !Has(t, key)
    ensures Put(t, key, value) == t + [(key, value)]
  {
    if t != [] {
      assert t[0].0 != key;
      forall i | 0 <= i < |t[1..]| ensures t[1..][i].0 != key {
        assert t[1..][i] == t[i + 1];
      }
      PutFresh(t[1..], key, value);
      assert t == [t[0]] + t[1..];
    }
  }

  lemma {:induction false} FindDistinct<T>(t: Table<T>, k: nat)
    requires Distinct(t) && k < |t|
    ensures Find(t, t[k].0) == Some(t[k].1)
  {
    if k > 0 {
      assert t[0].0 != t[k].0;
      assert t[1..][k - 1] == t[k];
      FindDistinct(t[1..], k - 1);
    }
  }

  lemma {:induction false} DistinctPut<T>(t: Table<T>, key: string, value: T)
    requires Distinct(t)
    ensures Distinct(Put(t, key, value))
  {
    if t != [] && t[0].0 != key {
      var rest := Put(t[1..], key, value);
      DistinctPut(t[1..], key, value);
      FindPut(t[1..], key, value, t[0].0);
      forall k | 0 <= k < |rest| ensures rest[k].0 != t[0].0 {
        assert !Has(rest, t[0].0);
      }
    }
  }

  lemma {:induction false} DeleteAbsent<T>(t: Table<T>, key: string)
    requires !Has(t, key)
    ensures Delete(t, key) == t
  {
    if t != [] {
      assert t[0].0 != key;
      forall i | 0 <= i < |t[1..]| ensures t[1..][i].0 != key {
        assert t[1..][i] == t[i + 1];
      }
      DeleteAbsent(t[1..], key);
    }
  }
}

/** Texts cut at a character. */
module Texts {

  /** The stretches between the occurrences of `c`, empty ones included. */
  function SplitOn(s: string, c: char): (parts: seq<string>)
    ensures |parts| > 0
  {
    if s == "" then [""]
    else
      var rest := SplitOn(s[1..], c);
      if s[0] == c then [""] + rest else [[s[0]] + rest[0]] + rest[1..]
  }
}
