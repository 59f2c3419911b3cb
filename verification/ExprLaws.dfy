/**
 * What the operators answer, stated on the answers themselves and on the laws that hold between them, without the
 * functions the interpreter computes them with.
 */
module ExprLaws {
  import opened Common
  import opened Tables
  import opened ExprSyntax
  import opened ExprValues
  import opened ExprEval
  import Numerals

  /** The expression has that value, fit for use. */
  predicate Gives(e: Expr, v: Value, ctx: Context, host: Host) {
    v != Undefined && Evaluate(e, ctx, host) == Ok(v)
  }

  lemma GivesUse(e: Expr, v: Value, ctx: Context, host: Host)
    requires Gives(e, v, ctx, host)
    ensures UseOf(e, ctx, host) == Ok(v)
  {
  }

  // ---- Arithmetic ------------------------------------------------------------

  lemma Quotient(a: real, b: real)
    requires b != 0.0
    ensures a / b * b == a
  {
  }

  lemma Cancel(x: real, b: real)
    requires b != 0.0
    ensures x * b / b == x
  {
    Quotient(x * b, b);
    Differ(x * b / b, x, b);
  }

  lemma Differ(x: real, y: real, b: real)
    requires b != 0.0 && x * b == y * b
    ensures x == y
  {
  }

  lemma Spread(x: real, y: real, b: real)
    ensures (x + y) * b == x * b + y * b && (x - y) * b == x * b - y * b
  {
  }

  function Times(x: real, b: real): real {
    x * b
  }

  lemma OneMore(x: real, b: real)
    ensures Times(x, b) + b == Times(x + 1.0, b)
  {
    Spread(x, 1.0, b);
  }

  /** JavaScript's remainder of `p`, a multiple `x` of the divisor. */
  lemma RemainderOfMultiple(p: real, x: real, b: real)
    requires b != 0.0 && p == Times(x, b)
    ensures Remainder(p, b) == Times(x - Truncate(x) as real, b)
  {
    Cancel(x, b);
    Spread(x, Truncate(x) as real, b);
    assert b * Truncate(x) as real == Truncate(x) as real * b;
  }

  lemma FloorIs(x: real, n: int)
    requires n as real <= x < n as real + 1.0
    ensures x.Floor == n
  {
  }

  lemma TruncateAround(q: real)
    ensures q >= 0.0 ==> Truncate(q) == q.Floor
    ensures q < 0.0 ==> Truncate(q) == if IsInteger(q) then q.Floor else q.Floor + 1
  {
    if q < 0.0 {
      var n := -q.Floor - (if IsInteger(q) then 0 else 1);
      FloorIs(-q, n);
    }
  }

  lemma FractionLeft(q: real)
    ensures var x := q - Truncate(q) as real + 1.0; x - Truncate(x) as real == q - q.Floor as real
  {
    hide Truncate;
    var f := q - q.Floor as real;
    var x := q - Truncate(q) as real + 1.0;
    TruncateAround(q);
    assert x == f + 1.0 || x == f;
    FloorIs(x, if x == f then 0 else 1);
    TruncateAround(x);
  }

  lemma TwiceRemainder(a: real, q: real, b: real)
    requires b != 0.0 && a == Times(q, b)
    ensures Remainder(Remainder(a, b) + b, b) == Times(q - q.Floor as real, b)
  {
    hide Remainder, Truncate, Times;
    RemainderOfMultiple(a, q, b);
    OneMore(q - Truncate(q) as real, b);
    RemainderOfMultiple(Remainder(a, b) + b, q - Truncate(q) as real + 1.0, b);
    FractionLeft(q);
  }

  lemma ModuloOf(a: real, q: real, whole: real, b: real, m: real)
    requires b != 0.0 && a == Times(q, b) && whole <= q < whole + 1.0 && m == Times(q - whole, b)
    ensures m == a - Times(whole, b)
    ensures if b > 0.0 then 0.0 <= m < b else b < m <= 0.0
  {
    Spread(q, whole, b);
    Scaled01(m, q - whole, b);
  }

  /** The remainder has the sign of the divisor, and is less than it. */
  lemma Modulo(a: real, b: real, q: real)
    requires b != 0.0 && a == Times(q, b)
    ensures var m := Remainder(Remainder(a, b) + b, b);
      && m == a - Times(q.Floor as real, b)
      && (if b > 0.0 then 0.0 <= m < b else b < m <= 0.0)
  {
    hide Remainder, Truncate, Times;
    TwiceRemainder(a, q, b);
    ModuloOf(a, q, q.Floor as real, b, Remainder(Remainder(a, b) + b, b));
  }

  lemma Scaled01(m: real, x: real, b: real)
    requires 0.0 <= x < 1.0 && m == x * b
    ensures b > 0.0 ==> 0.0 <= m < b
    ensures b < 0.0 ==> b < m <= 0.0
  {
    if b > 0.0 {
      Below(1.0 - x, b);
      Spread(1.0, x, b);
    } else if b < 0.0 {
      Below(1.0 - x, -b);
      Spread(1.0, x, -b);
      assert x * -b == -m;
    }
  }

  lemma Below(y: real, b: real)
    requires y > 0.0 && b > 0.0
    ensures y * b > 0.0
  {
  }

  lemma OnNumbers(op: BinaryOp, l: Expr, r: Expr, a: real, b: real, ctx: Context, host: Host)
    requires op != BConcat && Gives(l, Num(a), ctx, host) && Gives(r, Num(b), ctx, host)
    ensures var n := Arithmetic(op, a, b);
      Evaluate(Binary(op, l, r), ctx, host) == if n.Ok? then Ok(Num(n.value)) else Err(n.error)
  {
    hide Arithmetic;
    GivesUse(l, Num(a), ctx, host);
    GivesUse(r, Num(b), ctx, host);
  }

  /** Sums, differences and products of numbers; a quotient is what times the divisor gives the dividend back. */
  lemma NumbersCompute(l: Expr, r: Expr, a: real, b: real, ctx: Context, host: Host)
    requires Gives(l, Num(a), ctx, host) && Gives(r, Num(b), ctx, host)
    ensures Evaluate(Binary(BAdd, l, r), ctx, host) == Ok(Num(a + b))
    ensures Evaluate(Binary(BSub, l, r), ctx, host) == Ok(Num(a - b))
    ensures Evaluate(Binary(BMul, l, r), ctx, host) == Ok(Num(a * b))
    ensures b == 0.0 ==> Evaluate(Binary(BDiv, l, r), ctx, host) == Err(DivisionByZero)
    ensures b != 0.0 ==>
      var q := Evaluate(Binary(BDiv, l, r), ctx, host); q.Ok? && q.value.Num? && q.value.n * b == a
  {
    hide Evaluate;
    OnNumbers(BAdd, l, r, a, b, ctx, host);
    OnNumbers(BSub, l, r, a, b, ctx, host);
    OnNumbers(BMul, l, r, a, b, ctx, host);
    OnNumbers(BDiv, l, r, a, b, ctx, host);
    if b != 0.0 {
      Quotient(a, b);
    }
  }

  /** `//` and `%`: the whole quotient towards minus infinity, and what is left, on the divisor's side of zero. */
  lemma FloorsCompute(l: Expr, r: Expr, a: real, b: real, ctx: Context, host: Host)
    requires Gives(l, Num(a), ctx, host) && Gives(r, Num(b), ctx, host)
    ensures b == 0.0 ==> Evaluate(Binary(BFloorDiv, l, r), ctx, host) == Err(DivisionByZero)
    ensures b == 0.0 ==> Evaluate(Binary(BMod, l, r), ctx, host) == Err(DivisionByZero)
    ensures b != 0.0 ==>
      var q := Evaluate(Binary(BFloorDiv, l, r), ctx, host);
      var m := Evaluate(Binary(BMod, l, r), ctx, host);
      && q.Ok? && q.value.Num? && IsInteger(q.value.n) && m.Ok? && m.value.Num?
      && q.value.n * b + m.value.n == a
      && (if b > 0.0 then 0.0 <= m.value.n < b else b < m.value.n <= 0.0)
  {
    hide Evaluate, Remainder;
    OnNumbers(BFloorDiv, l, r, a, b, ctx, host);
    OnNumbers(BMod, l, r, a, b, ctx, host);
    if b != 0.0 {
      Quotient(a, b);
      Modulo(a, b, a / b);
    }
  }

  /** `(l - r) + r` is `l`, `(l + r) - r` is `l`, and `(l / r) * r` is `l`. */
  lemma Undone(l: Expr, r: Expr, a: real, b: real, ctx: Context, host: Host)
    requires Gives(l, Num(a), ctx, host) && Gives(r, Num(b), ctx, host)
    ensures Evaluate(Binary(BAdd, Binary(BSub, l, r), r), ctx, host) == Ok(Num(a))
    ensures Evaluate(Binary(BSub, Binary(BAdd, l, r), r), ctx, host) == Ok(Num(a))
    ensures b != 0.0 ==> Evaluate(Binary(BMul, Binary(BDiv, l, r), r), ctx, host) == Ok(Num(a))
  {
    hide Evaluate;
    NumbersCompute(l, r, a, b, ctx, host);
    NumbersCompute(Binary(BSub, l, r), r, a - b, b, ctx, host);
    NumbersCompute(Binary(BAdd, l, r), r, a + b, b, ctx, host);
    if b != 0.0 {
      var q := Evaluate(Binary(BDiv, l, r), ctx, host).value.n;
      assert q * b == a;
      NumbersCompute(Binary(BDiv, l, r), r, q, b, ctx, host);
    }
  }

  /** `(l // r) * r + l % r` is `l`. */
  lemma DividedAndLeft(l: Expr, r: Expr, a: real, b: real, ctx: Context, host: Host)
    requires Gives(l, Num(a), ctx, host) && Gives(r, Num(b), ctx, host) && b != 0.0
    ensures var whole := Binary(BMul, Binary(BFloorDiv, l, r), r);
      Evaluate(Binary(BAdd, whole, Binary(BMod, l, r)), ctx, host) == Ok(Num(a))
  {
    hide Evaluate;
    FloorsCompute(l, r, a, b, ctx, host);
    var q := Evaluate(Binary(BFloorDiv, l, r), ctx, host).value.n;
    var m := Evaluate(Binary(BMod, l, r), ctx, host).value.n;
    assert q * b + m == a;
    NumbersCompute(Binary(BFloorDiv, l, r), r, q, b, ctx, host);
    NumbersCompute(Binary(BMul, Binary(BFloorDiv, l, r), r), Binary(BMod, l, r), q * b, m, ctx, host);
  }

  function Counted(b: bool): Value {
    Num(if b then 1.0 else 0.0)
  }

  predicate Numberlike(v: Value) {
    v.Num? || v.Bool?
  }

  /** In arithmetic `true` counts for one and `false` for nothing, on either side. */
  lemma BooleansCount(op: BinaryOp, l: Expr, number: Expr, x: bool, other: Expr, ctx: Context, host: Host)
    requires op != BConcat && Gives(l, Bool(x), ctx, host) && Gives(number, Counted(x), ctx, host)
    requires Evaluate(other, ctx, host).Ok?
    ensures Evaluate(Binary(op, l, other), ctx, host) == Evaluate(Binary(op, number, other), ctx, host)
    ensures Evaluate(Binary(op, other, l), ctx, host) == Evaluate(Binary(op, other, number), ctx, host)
  {
    hide Arithmetic;
    GivesUse(l, Bool(x), ctx, host);
    GivesUse(number, Counted(x), ctx, host);
  }

  predicate Joinable(a: Value, b: Value) {
    (a.Str? && b.Str?) || (a.List? && b.List?)
  }

  /** `+` joins two texts and two lists; `~` joins the texts of any two values; nothing else is added to a text. */
  lemma JoinsCompute(op: BinaryOp, l: Expr, r: Expr, a: Value, b: Value, ctx: Context, host: Host)
    requires Gives(l, a, ctx, host) && Gives(r, b, ctx, host)
    ensures a.Str? && b.Str? ==> Evaluate(Binary(BAdd, l, r), ctx, host) == Ok(Str(a.s + b.s))
    ensures a.List? && b.List? ==> Evaluate(Binary(BAdd, l, r), ctx, host) == Ok(List(a.items + b.items))
    ensures Evaluate(Binary(BConcat, l, r), ctx, host) == Ok(Str(PyStr(a, host) + PyStr(b, host)))
    ensures op != BConcat && !(op == BAdd && Joinable(a, b)) && !(Numberlike(a) && Numberlike(b)) ==>
      Evaluate(Binary(op, l, r), ctx, host) == Err(NotANumber)
  {
    hide PyStr, Arithmetic;
    GivesUse(l, a, ctx, host);
    GivesUse(r, b, ctx, host);
  }

  /** A sign is for numbers alone: two minuses cancel, a plus does nothing, a number and its opposite sum to zero. */
  lemma SignsCompute(e: Expr, v: Value, ctx: Context, host: Host)
    requires Gives(e, v, ctx, host)
    ensures !v.Num? ==> Evaluate(Unary(UMinus, e), ctx, host) == Err(NotANumber)
    ensures !v.Num? ==> Evaluate(Unary(UPlus, e), ctx, host) == Err(NotANumber)
    ensures v.Num? ==>
      && Evaluate(Unary(UPlus, e), ctx, host) == Ok(v)
      && Evaluate(Unary(UMinus, Unary(UMinus, e)), ctx, host) == Ok(v)
      && Evaluate(Binary(BAdd, e, Unary(UMinus, e)), ctx, host) == Ok(Num(0.0))
  {
    GivesUse(e, v, ctx, host);
    if v.Num? {
      var opposite := Unary(UMinus, e);
      assert Gives(opposite, Num(-v.n), ctx, host);
      GivesUse(opposite, Num(-v.n), ctx, host);
      NumbersCompute(e, opposite, v.n, -v.n, ctx, host);
    }
  }

  // ---- Truth -----------------------------------------------------------------

  predicate Falsy(v: Value) {
    v in {Null, Bool(false), Num(0.0), Str(""), List([]), Obj([])}
  }

  /** The operators of truth answer with one of their operands, and look at the second only when they need it. */
  lemma TruthComputes(l: Expr, r: Expr, v: Value, ctx: Context, host: Host)
    requires Gives(l, v, ctx, host)
    ensures Evaluate(Unary(UNot, l), ctx, host) == Ok(Bool(Falsy(v)))
    ensures Evaluate(Logical(BAnd, l, r), ctx, host) == if Falsy(v) then Ok(v) else Evaluate(r, ctx, host)
    ensures Evaluate(Logical(BOr, l, r), ctx, host) == if Falsy(v) then Evaluate(r, ctx, host) else Ok(v)
  {
    GivesUse(l, v, ctx, host);
  }

  /** The inline conditional evaluates the branch the condition chooses, and no other. */
  lemma ConditionalComputes(b: Expr, c: Expr, o: Option<Expr>, v: Value, ctx: Context, host: Host)
    requires Gives(c, v, ctx, host)
    ensures Evaluate(Conditional(b, c, o), ctx, host) ==
      if !Falsy(v) then Evaluate(b, ctx, host)
      else if o.Some? then Evaluate(o.value, ctx, host)
      else Ok(Undefined)
  {
    GivesUse(c, v, ctx, host);
  }

  /** De Morgan's laws, on any operands that have values. */
  lemma DeMorgan(l: Expr, r: Expr, a: Value, b: Value, ctx: Context, host: Host)
    requires Gives(l, a, ctx, host) && Gives(r, b, ctx, host)
    ensures Evaluate(Unary(UNot, Logical(BAnd, l, r)), ctx, host)
         == Evaluate(Logical(BOr, Unary(UNot, l), Unary(UNot, r)), ctx, host)
    ensures Evaluate(Unary(UNot, Logical(BOr, l, r)), ctx, host)
         == Evaluate(Logical(BAnd, Unary(UNot, l), Unary(UNot, r)), ctx, host)
  {
    hide Evaluate;
    TruthComputes(l, r, a, ctx, host);
    TruthComputes(r, r, b, ctx, host);
    var conjunction := if Falsy(a) then a else b;
    var disjunction := if Falsy(a) then b else a;
    TruthComputes(Logical(BAnd, l, r), r, conjunction, ctx, host);
    TruthComputes(Logical(BOr, l, r), r, disjunction, ctx, host);
    TruthComputes(Unary(UNot, l), Unary(UNot, r), Bool(Falsy(a)), ctx, host);
  }

  // ---- Order -----------------------------------------------------------------

  function Amount(v: Value): real
    requires Numberlike(v)
  {
    if v.Num? then v.n else if v.b then 1.0 else 0.0
  }

  predicate Comparable(a: Value, b: Value) {
    (Numberlike(a) && Numberlike(b)) || (a.Str? && b.Str?)
  }

  predicate Answers(e: Expr, yes: bool, ctx: Context, host: Host) {
    Evaluate(e, ctx, host) == Ok(Bool(yes))
  }

  /** Numbers, booleans among them, are ordered as numbers, and texts as the platform orders texts. */
  lemma OrderComputes(l: Expr, r: Expr, a: Value, b: Value, ctx: Context, host: Host)
    requires Gives(l, a, ctx, host) && Gives(r, b, ctx, host)
    ensures Numberlike(a) && Numberlike(b) ==> Answers(Compare(CLt, l, r), Amount(a) < Amount(b), ctx, host)
    ensures a.Str? && b.Str? ==> Answers(Compare(CLt, l, r), host.less(a.s, b.s), ctx, host)
    ensures !Comparable(a, b) ==>
      forall op :: op in {CLt, CLe, CGt, CGe} ==> Evaluate(Compare(op, l, r), ctx, host) == Err(CannotOrder)
  {
    hide Evaluate;
    forall op | op in {CLt, CLe, CGt, CGe}
      ensures Evaluate(Compare(op, l, r), ctx, host) ==
        var answer := CompareOf(op, a, b, host); if answer.Ok? then Ok(Bool(answer.value)) else Err(answer.error)
    {
      ComparesTo(op, l, r, a, b, ctx, host);
    }
  }

  /** `<` and `>=` are opposites, `<=` and `>` are, and `>` is `<` the other way round. */
  lemma OrderOpposites(l: Expr, r: Expr, a: Value, b: Value, ctx: Context, host: Host)
    requires Gives(l, a, ctx, host) && Gives(r, b, ctx, host) && Comparable(a, b)
    ensures Opposite(Compare(CLt, l, r), Compare(CGe, l, r), ctx, host)
    ensures Opposite(Compare(CGt, l, r), Compare(CLe, l, r), ctx, host)
    ensures Evaluate(Compare(CGt, l, r), ctx, host) == Evaluate(Compare(CLt, r, l), ctx, host)
  {
    hide Evaluate, CompareOf;
    ComparesTo(CLt, l, r, a, b, ctx, host);
    ComparesTo(CGe, l, r, a, b, ctx, host);
    ComparesTo(CGt, l, r, a, b, ctx, host);
    ComparesTo(CLe, l, r, a, b, ctx, host);
    ComparesTo(CLt, r, l, b, a, ctx, host);
    AllOrdered(a, b, host);
    AllOrdered(b, a, host);
  }

  /** Both answer, one of them yes and the other no. */
  predicate Opposite(e: Expr, f: Expr, ctx: Context, host: Host) {
    (Answers(e, true, ctx, host) && Answers(f, false, ctx, host))
    || (Answers(e, false, ctx, host) && Answers(f, true, ctx, host))
  }

  lemma ComparesTo(op: CompareOp, l: Expr, r: Expr, a: Value, b: Value, ctx: Context, host: Host)
    requires Gives(l, a, ctx, host) && Gives(r, b, ctx, host)
    ensures Evaluate(Compare(op, l, r), ctx, host) ==
      var answer := CompareOf(op, a, b, host); if answer.Ok? then Ok(Bool(answer.value)) else Err(answer.error)
  {
    hide CompareOf;
    GivesUse(l, a, ctx, host);
    GivesUse(r, b, ctx, host);
  }

  lemma AllOrdered(a: Value, b: Value, host: Host)
    requires Comparable(a, b)
    ensures CompareOf(CLt, a, b, host).Ok? && CompareOf(CLt, b, a, host).Ok?
    ensures CompareOf(CGe, a, b, host) == Ok(!CompareOf(CLt, a, b, host).value)
    ensures CompareOf(CGt, a, b, host) == CompareOf(CLt, b, a, host)
    ensures CompareOf(CLe, a, b, host) == Ok(!CompareOf(CLt, b, a, host).value)
  {
  }

  // ---- Equality --------------------------------------------------------------

  /** Objects hold each key once, at every depth. */
  predicate Orderly(v: Value)
    decreases v
  {
    match v
    case List(items) => forall k :: 0 <= k < |items| ==> Orderly(items[k])
    case Obj(entries) => Distinct(entries) && forall k :: 0 <= k < |entries| ==> Orderly(entries[k].1)
    case _ => true
  }

  /** What equality means: numbers by amount, lists item by item, objects key by key in any order. */
  ghost predicate Alike(a: Value, b: Value)
    decreases a
  {
    match a
    case List(xs) => b.List? && |xs| == |b.items| && forall k :: 0 <= k < |xs| ==> Alike(xs[k], b.items[k])
    case Obj(es) =>
      && b.Obj? && (forall key :: Has(es, key) <==> Has(b.entries, key))
      && forall k :: 0 <= k < |es| ==> Has(b.entries, es[k].0) && Alike(es[k].1, Find(b.entries, es[k].0).value)
    case _ => if Numberlike(a) then Numberlike(b) && Amount(a) == Amount(b) else a == b
  }

  lemma {:induction false} ItemsAlike(xs: seq<Value>, ys: seq<Value>)
    requires forall k :: 0 <= k < |xs| ==> Orderly(xs[k])
    requires forall k :: 0 <= k < |ys| ==> Orderly(ys[k])
    ensures ItemsEqual(xs, ys) <==> |xs| == |ys| && forall k :: 0 <= k < |xs| ==> Alike(xs[k], ys[k])
    decreases xs, 2
  {
    hide PyEquals, Alike, Orderly;
    if xs != [] && ys != [] {
      EqualIsAlike(xs[0], ys[0]);
      ItemsAlike(xs[1..], ys[1..]);
      assert forall k :: 0 <= k < |xs[1..]| ==> xs[1..][k] == xs[k + 1];
      assert forall k :: 0 <= k < |ys[1..]| ==> ys[1..][k] == ys[k + 1];
      if |xs| == |ys| && Alike(xs[0], ys[0]) && forall k :: 0 <= k < |xs[1..]| ==> Alike(xs[1..][k], ys[1..][k]) {
        forall k | 0 <= k < |xs| ensures Alike(xs[k], ys[k]) {
          assert k > 0 ==> xs[1..][k - 1] == xs[k] && ys[1..][k - 1] == ys[k];
        }
      }
    }
  }

  lemma {:induction false} EntryAlike(entry: (string, Value), other: Table<Value>)
    requires Orderly(entry.1) && forall k :: 0 <= k < |other| ==> Orderly(other[k].1)
    ensures EntryEqual(entry, other) <==> Has(other, entry.0) && Alike(entry.1, Find(other, entry.0).value)
    decreases entry
  {
    hide PyEquals, Alike, Orderly;
    if Find(other, entry.0).Some? {
      FoundAt(other, entry.0);
      EqualIsAlike(entry.1, Find(other, entry.0).value);
    }
  }

  lemma {:induction false} FoundAt<T>(t: Table<T>, key: string)
    requires Find(t, key).Some?
    ensures exists k :: 0 <= k < |t| && t[k] == (key, Find(t, key).value)
  {
    if t[0].0 == key {
      assert t[0] == (key, Find(t, key).value);
    } else {
      FoundAt(t[1..], key);
      var k :| 0 <= k < |t[1..]| && t[1..][k] == (key, Find(t[1..], key).value);
      assert t[k + 1] == t[1..][k];
    }
  }

  lemma {:induction false} EntriesAlike(es: Table<Value>, other: Table<Value>)
    requires forall k :: 0 <= k < |es| ==> Orderly(es[k].1)
    requires forall k :: 0 <= k < |other| ==> Orderly(other[k].1)
    ensures EntriesEqual(es, other) <==>
      forall k :: 0 <= k < |es| ==> Has(other, es[k].0) && Alike(es[k].1, Find(other, es[k].0).value)
    decreases es, 2
  {
    hide EntryEqual, Alike, Orderly, Find, Has;
    if es != [] {
      EntryAlike(es[0], other);
      EntriesAlike(es[1..], other);
      assert forall k :: 0 <= k < |es[1..]| ==> es[1..][k] == es[k + 1];
      if forall k :: 0 <= k < |es[1..]| ==>
           Has(other, es[1..][k].0) && Alike(es[1..][k].1, Find(other, es[1..][k].0).value)
      {
        forall k | 1 <= k < |es| ensures Has(other, es[k].0) && Alike(es[k].1, Find(other, es[k].0).value) {
          assert es[1..][k - 1] == es[k];
        }
      }
    }
  }

  function KeySet<T>(t: Table<T>): set<string> {
    set k | 0 <= k < |t| :: t[k].0
  }

  lemma {:induction false} KeyCount<T>(t: Table<T>)
    requires Distinct(t)
    ensures |KeySet(t)| == |t|
  {
    if t != [] {
      var rest := t[..|t| - 1];
      var last := t[|t| - 1].0;
      KeyCount(rest);
      assert last !in KeySet(rest);
      assert KeySet(t) == KeySet(rest) + {last};
    }
  }

  lemma KeysMeanHas<T>(t: Table<T>, key: string)
    ensures key in KeySet(t) <==> Has(t, key)
  {
  }

  /** Every key of one is a key of the other: with as many keys on both sides, they are the same keys. */
  lemma SameKeys<T>(s: Table<T>, t: Table<T>)
    requires Distinct(s) && Distinct(t) && forall k :: 0 <= k < |s| ==> Has(t, s[k].0)
    ensures |s| == |t| <==> forall key :: Has(s, key) <==> Has(t, key)
  {
    KeyCount(s);
    KeyCount(t);
    forall key ensures (key in KeySet(s) <==> Has(s, key)) && (key in KeySet(t) <==> Has(t, key)) {
      KeysMeanHas(s, key);
      KeysMeanHas(t, key);
    }
    assert KeySet(s) <= KeySet(t);
    if forall key :: Has(s, key) <==> Has(t, key) {
      assert KeySet(s) == KeySet(t);
    }
    if |s| == |t| {
      SameSize(KeySet(s), KeySet(t));
    }
  }

  lemma SameSize(s: set<string>, t: set<string>)
    requires s <= t && |s| == |t|
    ensures s == t
  {
    assert |t - s| == 0;
  }

  lemma {:induction false} EqualIsAlike(a: Value, b: Value)
    requires Orderly(a) && Orderly(b)
    ensures PyEquals(a, b) <==> Alike(a, b)
    decreases a, 1
  {
    hide ItemsEqual, EntriesEqual, Find;
    match a
    case List(xs) =>
      if b.List? {
        ItemsAlike(xs, b.items);
      }
    case Obj(es) =>
      if b.Obj? {
        EntriesAlike(es, b.entries);
        if forall k :: 0 <= k < |es| ==> Has(b.entries, es[k].0) {
          SameKeys(es, b.entries);
        }
      }
    case _ =>
  }

  lemma {:induction false} AlikeItself(a: Value)
    requires Orderly(a)
    ensures Alike(a, a)
    decreases a
  {
    match a
    case List(xs) =>
      forall k | 0 <= k < |xs| ensures Alike(xs[k], xs[k]) {
        AlikeItself(xs[k]);
      }
    case Obj(es) =>
      forall k | 0 <= k < |es| ensures Has(es, es[k].0) && Alike(es[k].1, Find(es, es[k].0).value) {
        FindDistinct(es, k);
        AlikeItself(es[k].1);
      }
    case _ =>
  }

  lemma {:induction false} AlikeBack(a: Value, b: Value)
    requires Orderly(a) && Orderly(b) && Alike(a, b)
    ensures Alike(b, a)
    decreases a
  {
    hide Find;
    match a
    case List(xs) =>
      forall k | 0 <= k < |xs| ensures Alike(b.items[k], xs[k]) {
        AlikeBack(xs[k], b.items[k]);
      }
    case Obj(es) =>
      forall k | 0 <= k < |b.entries|
        ensures Has(es, b.entries[k].0) && Alike(b.entries[k].1, Find(es, b.entries[k].0).value)
      {
        assert Has(b.entries, b.entries[k].0);
        var j :| 0 <= j < |es| && es[j].0 == b.entries[k].0;
        FindDistinct(es, j);
        FindDistinct(b.entries, k);
        AlikeBack(es[j].1, b.entries[k].1);
      }
    case _ =>
  }

  lemma {:induction false} AlikeOn(a: Value, b: Value, c: Value)
    requires Orderly(a) && Orderly(b) && Orderly(c) && Alike(a, b) && Alike(b, c)
    ensures Alike(a, c)
    decreases a
  {
    hide Find;
    match a
    case List(xs) =>
      forall k | 0 <= k < |xs| ensures Alike(xs[k], c.items[k]) {
        AlikeOn(xs[k], b.items[k], c.items[k]);
      }
    case Obj(es) =>
      forall k | 0 <= k < |es| ensures Has(c.entries, es[k].0) && Alike(es[k].1, Find(c.entries, es[k].0).value) {
        assert Has(b.entries, es[k].0);
        var j :| 0 <= j < |b.entries| && b.entries[j].0 == es[k].0;
        FindDistinct(b.entries, j);
        assert Has(c.entries, b.entries[j].0);
        FoundAt(c.entries, b.entries[j].0);
        AlikeOn(es[k].1, b.entries[j].1, Find(c.entries, b.entries[j].0).value);
      }
    case _ =>
  }

  /** `==` answers whether the values are alike, and `!=` the opposite. */
  lemma EqualityComputes(l: Expr, r: Expr, a: Value, b: Value, ctx: Context, host: Host)
    requires Gives(l, a, ctx, host) && Gives(r, b, ctx, host) && Orderly(a) && Orderly(b)
    ensures Answers(Compare(CEq, l, r), Alike(a, b), ctx, host)
    ensures Answers(Compare(CNe, l, r), !Alike(a, b), ctx, host)
  {
    hide PyEquals, Alike;
    GivesUse(l, a, ctx, host);
    GivesUse(r, b, ctx, host);
    EqualIsAlike(a, b);
  }

  /** `==` is an equivalence. */
  lemma EqualityIsAnEquivalence(l: Expr, m: Expr, r: Expr, a: Value, b: Value, c: Value, ctx: Context, host: Host)
    requires Gives(l, a, ctx, host) && Gives(m, b, ctx, host) && Gives(r, c, ctx, host)
    requires Orderly(a) && Orderly(b) && Orderly(c)
    ensures Answers(Compare(CEq, l, l), true, ctx, host)
    ensures Evaluate(Compare(CEq, l, m), ctx, host) == Evaluate(Compare(CEq, m, l), ctx, host)
    ensures Answers(Compare(CEq, l, m), true, ctx, host) && Answers(Compare(CEq, m, r), true, ctx, host) ==>
      Answers(Compare(CEq, l, r), true, ctx, host)
  {
    hide Evaluate, Alike, Orderly;
    EqualityComputes(l, l, a, a, ctx, host);
    EqualityComputes(l, m, a, b, ctx, host);
    EqualityComputes(m, l, b, a, ctx, host);
    EqualityComputes(m, r, b, c, ctx, host);
    EqualityComputes(l, r, a, c, ctx, host);
    AlikeItself(a);
    if Alike(a, b) {
      AlikeBack(a, b);
      if Alike(b, c) {
        AlikeOn(a, b, c);
      }
    }
    if Alike(b, a) {
      AlikeBack(b, a);
    }
  }

  /** Of two numbers, exactly one is less, or they are equal. */
  lemma Trichotomy(l: Expr, r: Expr, a: Value, b: Value, ctx: Context, host: Host)
    requires Gives(l, a, ctx, host) && Gives(r, b, ctx, host) && Numberlike(a) && Numberlike(b)
    ensures Answers(Compare(CEq, l, r), true, ctx, host) <==>
      Answers(Compare(CLt, l, r), false, ctx, host) && Answers(Compare(CLt, r, l), false, ctx, host)
    ensures !(Answers(Compare(CLt, l, r), true, ctx, host) && Answers(Compare(CLt, r, l), true, ctx, host))
  {
    hide Evaluate;
    EqualityComputes(l, r, a, b, ctx, host);
    OrderComputes(l, r, a, b, ctx, host);
    OrderComputes(r, l, b, a, ctx, host);
  }

  // ---- Membership and identity -----------------------------------------------

  /** `part` stands somewhere in `s`. */
  ghost predicate Within(s: string, part: string) {
    exists i :: 0 <= i <= |s| && part <= s[i..]
  }

  lemma {:induction false} IncludesWithin(s: string, part: string)
    ensures Includes(s, part) <==> Within(s, part)
  {
    assert s[0..] == s;
    if s != "" {
      IncludesWithin(s[1..], part);
      if i :| 0 <= i <= |s| && part <= s[i..] {
        assert i > 0 ==> s[1..][i - 1..] == s[i..];
      }
      if i :| 0 <= i <= |s[1..]| && part <= s[1..][i..] {
        assert s[1..][i..] == s[i + 1..];
      }
    }
  }

  /** `in`: an equal item of a list, a part of a text, a key of an object; `not in` is its opposite. */
  lemma MembershipComputes(l: Expr, r: Expr, a: Value, b: Value, ctx: Context, host: Host)
    requires Gives(l, a, ctx, host) && Gives(r, b, ctx, host) && Orderly(a) && Orderly(b)
    ensures b.List? ==> Answers(Compare(CIn, l, r), exists k :: 0 <= k < |b.items| && Alike(b.items[k], a), ctx, host)
    ensures b.Str? ==> Answers(Compare(CIn, l, r), Within(b.s, PyStr(a, host)), ctx, host)
    ensures b.Obj? ==> Answers(Compare(CIn, l, r), Has(b.entries, PyStr(a, host)), ctx, host)
    ensures b.List? || b.Str? || b.Obj? ==> Opposite(Compare(CIn, l, r), Compare(CNotIn, l, r), ctx, host)
    ensures !b.List? && !b.Str? && !b.Obj? ==>
      && Evaluate(Compare(CIn, l, r), ctx, host) == Err(NotAContainer)
      && Evaluate(Compare(CNotIn, l, r), ctx, host) == Err(NotAContainer)
  {
    hide Evaluate, PyEquals, Alike, PyStr, Includes, Within, Find;
    ComparesTo(CIn, l, r, a, b, ctx, host);
    ComparesTo(CNotIn, l, r, a, b, ctx, host);
    match b
    case Str(s) => IncludesWithin(s, PyStr(a, host));
    case List(items) =>
      forall k | 0 <= k < |items| ensures PyEquals(items[k], a) <==> Alike(items[k], a) {
        EqualIsAlike(items[k], a);
      }
    case _ =>
  }

  /** `is` with a keyword literal asks for that very value, and `is not` for any other. */
  lemma IdentityComputes(l: Expr, a: Value, c: Literal, ctx: Context, host: Host)
    requires Gives(l, a, ctx, host) && (c.LNull? || c.LBool?)
    ensures var same := if c.LNull? then a == Null else a == Bool(c.b);
      Answers(Compare(CIs, l, Lit(c)), same, ctx, host) && Answers(Compare(CIsNot, l, Lit(c)), !same, ctx, host)
  {
    GivesUse(l, a, ctx, host);
    GivesUse(Lit(c), LiteralValue(c), ctx, host);
  }

  // ---- Names, literals and parts ---------------------------------------------

  /** A literal is its value, a name what the context holds under it, or undefined. */
  lemma LeavesCompute(ctx: Context, host: Host, x: string, r: real, s: string, b: bool)
    ensures Evaluate(Lit(LNum(r)), ctx, host) == Ok(Num(r)) && Evaluate(Lit(LStr(s)), ctx, host) == Ok(Str(s))
    ensures Evaluate(Lit(LBool(b)), ctx, host) == Ok(Bool(b)) && Evaluate(Lit(LNull), ctx, host) == Ok(Null)
    ensures Has(ctx, x) ==> exists k :: 0 <= k < |ctx| && ctx[k].0 == x && Evaluate(Var(x), ctx, host) == Ok(ctx[k].1)
    ensures !Has(ctx, x) ==> Evaluate(Var(x), ctx, host) == Ok(Undefined)
  {
    if Has(ctx, x) {
      FoundAt(ctx, x);
      var k :| 0 <= k < |ctx| && ctx[k] == (x, Find(ctx, x).value);
      assert ctx[k].0 == x;
    }
  }

  lemma CallsFail(t: Expr, args: seq<Expr>, ctx: Context, host: Host)
    ensures Evaluate(Call(t, args), ctx, host) == Err(CallUnsupported)
  {
  }

  /** The `k`-th item from the front, or from the end when negative; undefined beyond either. */
  function Subscripted(items: seq<Value>, k: int): Value {
    if 0 <= k < |items| then items[k] else if -|items| <= k < 0 then items[|items| + k] else Undefined
  }

  lemma ItemIsSubscripted(items: seq<Value>, k: int)
    ensures ItemAt(items, Num(k as real)) == Subscripted(items, k)
  {
    assert (k as real).Floor == k && (|items| as real + k as real).Floor == |items| + k;
    assert |items| as real + k as real == (|items| + k) as real;
  }

  /** `t[k]` on lists, and on texts as lists of their characters. */
  lemma SubscriptsCompute(t: Expr, i: Expr, a: Value, k: int, ctx: Context, host: Host)
    requires Gives(t, a, ctx, host) && Gives(i, Num(k as real), ctx, host)
    ensures a.List? ==> Evaluate(Index(t, i), ctx, host) == Ok(Subscripted(a.items, k))
    ensures a.Str? ==>
      var chars := seq(|a.s|, j requires 0 <= j < |a.s| => Str([a.s[j]]));
      Evaluate(Index(t, i), ctx, host) == Ok(Subscripted(chars, k))
  {
    hide ItemAt, Subscripted;
    GivesUse(t, a, ctx, host);
    GivesUse(i, Num(k as real), ctx, host);
    match a
    case List(items) => ItemIsSubscripted(items, k);
    case Str(s) =>
      var chars := seq(|s|, j requires 0 <= j < |s| => Str([s[j]]));
      assert Characters(s) == chars;
      ItemIsSubscripted(chars, k);
    case _ =>
  }

  /** `t.name` is `t['name']`: the entry of an object under that key, and undefined on anything else. */
  lemma AttributesCompute(t: Expr, i: Expr, a: Value, name: string, ctx: Context, host: Host)
    requires Gives(t, a, ctx, host) && Gives(i, Str(name), ctx, host)
    ensures Evaluate(Attribute(t, name), ctx, host) == Evaluate(Index(t, i), ctx, host)
    ensures a.Obj? && Has(a.entries, name) ==>
      exists k :: 0 <= k < |a.entries| && a.entries[k].0 == name
        && Evaluate(Attribute(t, name), ctx, host) == Ok(a.entries[k].1)
    ensures !(a.Obj? && Has(a.entries, name)) ==> Evaluate(Attribute(t, name), ctx, host) == Ok(Undefined)
  {
    GivesUse(t, a, ctx, host);
    GivesUse(i, Str(name), ctx, host);
    if a.Obj? && Has(a.entries, name) {
      FoundAt(a.entries, name);
      var k :| 0 <= k < |a.entries| && a.entries[k] == (name, Find(a.entries, name).value);
      assert a.entries[k].0 == name;
    }
  }

  /** `is defined` and `is undefined`, with or without `not`: the two tests there are. */
  lemma TestsCompute(e: Expr, v: Value, name: string, negated: bool, ctx: Context, host: Host)
    requires Evaluate(e, ctx, host) == Ok(v)
    ensures Answers(Test(e, "defined", false), v != Undefined, ctx, host)
    ensures Answers(Test(e, "defined", true), v == Undefined, ctx, host)
    ensures Answers(Test(e, "undefined", false), v == Undefined, ctx, host)
    ensures Answers(Test(e, "undefined", true), v != Undefined, ctx, host)
    ensures name != "defined" && name != "undefined" ==>
      Evaluate(Test(e, name, negated), ctx, host) == Err(UnknownTest(name))
  {
  }

  // ---- Displays --------------------------------------------------------------

  ghost predicate AllGive(es: seq<Expr>, vs: seq<Value>, ctx: Context, host: Host) {
    |es| == |vs| && forall k :: 0 <= k < |es| ==> Gives(es[k], vs[k], ctx, host)
  }

  lemma {:induction false} AllEvaluate(es: seq<Expr>, vs: seq<Value>, ctx: Context, host: Host)
    requires AllGive(es, vs, ctx, host)
    ensures EvaluateAll(es, ctx, host) == Ok(vs)
    decreases |es|
  {
    hide Gives, Evaluate;
    if es != [] {
      assert Gives(es[0], vs[0], ctx, host);
      GivesUse(es[0], vs[0], ctx, host);
      assert forall k :: 0 <= k < |es[1..]| ==> es[1..][k] == es[k + 1] && vs[1..][k] == vs[k + 1];
      AllEvaluate(es[1..], vs[1..], ctx, host);
      assert [vs[0]] + vs[1..] == vs;
    }
  }

  /** A list display is the list of its items' values. */
  lemma ListsCompute(es: seq<Expr>, vs: seq<Value>, ctx: Context, host: Host)
    requires AllGive(es, vs, ctx, host)
    ensures Evaluate(ListExpr(es), ctx, host) == Ok(List(vs))
  {
    hide EvaluateAll;
    AllEvaluate(es, vs, ctx, host);
  }

  ghost predicate EntriesGive(es: seq<(Expr, Expr)>, keys: seq<Value>, vs: seq<Value>, ctx: Context, host: Host) {
    && |es| == |keys| == |vs|
    && forall k :: 0 <= k < |es| ==> Gives(es[k].0, keys[k], ctx, host) && Gives(es[k].1, vs[k], ctx, host)
  }

  /** The value an entry of that text gave last. */
  function LastUnder(keys: seq<Value>, vs: seq<Value>, key: string, host: Host): Option<Value>
    requires |keys| == |vs|
  {
    if keys == [] then None
    else if PyStr(keys[|keys| - 1], host) == key then Some(vs[|vs| - 1])
    else LastUnder(keys[..|keys| - 1], vs[..|vs| - 1], key, host)
  }

  lemma {:induction false} LastUnderCons(k: Value, keys: seq<Value>, v: Value, vs: seq<Value>, key: string, host: Host)
    requires |keys| == |vs|
    ensures LastUnder([k] + keys, [v] + vs, key, host) ==
      if LastUnder(keys, vs, key, host).Some? then LastUnder(keys, vs, key, host)
      else if PyStr(k, host) == key then Some(v) else None
    decreases |keys|
  {
    hide PyStr;
    var n := |keys|;
    if n > 0 {
      assert ([k] + keys)[..n] == [k] + keys[..n - 1] && ([v] + vs)[..n] == [v] + vs[..n - 1];
      LastUnderCons(k, keys[..n - 1], v, vs[..n - 1], key, host);
    } else {
      assert ([k] + keys)[..0] == [] && ([v] + vs)[..0] == [];
    }
  }

  lemma FirstEntryGives(es: seq<(Expr, Expr)>, keys: seq<Value>, vs: seq<Value>, ctx: Context, host: Host)
    requires EntriesGive(es, keys, vs, ctx, host) && es != []
    ensures EvaluateEntry(es[0], ctx, host) == Ok((PyStr(keys[0], host), vs[0]))
    ensures EntriesGive(es[1..], keys[1..], vs[1..], ctx, host)
  {
    hide Gives, Evaluate, PyStr;
    GivesUse(es[0].0, keys[0], ctx, host);
    GivesUse(es[0].1, vs[0], ctx, host);
    assert forall k :: 0 <= k < |es[1..]| ==>
      es[1..][k] == es[k + 1] && keys[1..][k] == keys[k + 1] && vs[1..][k] == vs[k + 1];
  }

  lemma NothingGiven(es: seq<(Expr, Expr)>, keys: seq<Value>, vs: seq<Value>, ctx: Context, host: Host)
    requires EntriesGive(es, keys, vs, ctx, host) && es == []
    ensures keys == [] && vs == []
  {
  }

  lemma {:induction false} EntriesEvaluate(es: seq<(Expr, Expr)>, keys: seq<Value>, vs: seq<Value>, out: Table<Value>,
                                           key: string, ctx: Context, host: Host)
    requires EntriesGive(es, keys, vs, ctx, host) && |es| == |keys| == |vs|
    ensures EvaluateEntries(es, out, ctx, host).Ok?
    ensures Find(EvaluateEntries(es, out, ctx, host).value, key) ==
      if LastUnder(keys, vs, key, host).Some? then LastUnder(keys, vs, key, host) else Find(out, key)
    decreases |es|
  {
    hide EntriesGive, EvaluateEntry, Put, Find, PyStr, LastUnder;
    if es == [] {
      NothingGiven(es, keys, vs, ctx, host);
      NothingUnder(key, host);
    } else {
      var text := PyStr(keys[0], host);
      var rest := es[1..];
      FirstEntryGives(es, keys, vs, ctx, host);
      EntriesEvaluate(rest, keys[1..], vs[1..], Put(out, text, vs[0]), key, ctx, host);
      FindPut(out, text, vs[0], key);
      LastUnderCons(keys[0], keys[1..], vs[0], vs[1..], key, host);
      assert keys == [keys[0]] + keys[1..] && vs == [vs[0]] + vs[1..];
    }
  }

  lemma NothingUnder(key: string, host: Host)
    ensures LastUnder([], [], key, host) == None
  {
  }

  /** A dictionary display holds, under each text, the value given last for it. */
  lemma DictsCompute(es: seq<(Expr, Expr)>, keys: seq<Value>, vs: seq<Value>, key: string, ctx: Context, host: Host)
    requires EntriesGive(es, keys, vs, ctx, host)
    ensures var d := Evaluate(DictExpr(es), ctx, host);
      d.Ok? && d.value.Obj? && Find(d.value.entries, key) == LastUnder(keys, vs, key, host)
  {
    hide EvaluateEntries, Find, LastUnder;
    EntriesEvaluate(es, keys, vs, [], key, ctx, host);
    assert Find<Value>([], key) == None by { NotInNothing(key); }
  }

  lemma NotInNothing(key: string)
    ensures Find<Value>([], key) == None
  {
  }

  // ---- Filters ---------------------------------------------------------------

  /** What `first` and its like look through: items, characters or keys. */
  function Sequence(v: Value): Option<seq<Value>> {
    match v
    case List(items) => Some(items)
    case Str(s) => Some(seq(|s|, k requires 0 <= k < |s| => Str([s[k]])))
    case Obj(entries) => Some(seq(|entries|, k requires 0 <= k < |entries| => Str(entries[k].0)))
    case _ => None
  }

  /** `first` and `last` are the two ends, undefined when there are none; `length` counts. */
  lemma EndsCompute(t: Expr, v: Value, ctx: Context, host: Host)
    requires Gives(t, v, ctx, host)
    ensures Evaluate(Filter(t, "first", []), ctx, host) ==
      if Sequence(v).None? then Err(NotASequence)
      else Ok(if Sequence(v).value == [] then Undefined else Sequence(v).value[0])
    ensures Evaluate(Filter(t, "last", []), ctx, host) ==
      if Sequence(v).None? then Err(NotASequence)
      else Ok(if Sequence(v).value == [] then Undefined else Sequence(v).value[|Sequence(v).value| - 1])
    ensures Evaluate(Filter(t, "length", []), ctx, host) ==
      if Sequence(v).None? then Err(NoLength) else Ok(Num(|Sequence(v).value| as real))
  {
    SequenceIs(v);
    FilterEvaluates(t, v, "first", [], [], ctx, host);
    FilterEvaluates(t, v, "last", [], [], ctx, host);
    FilterEvaluates(t, v, "length", [], [], ctx, host);
  }

  lemma SequenceIs(v: Value)
    ensures SequenceOf(v) == if Sequence(v).None? then Err(NotASequence) else Ok(Sequence(v).value)
  {
    if v.Str? {
      assert Characters(v.s) == Sequence(v).value;
    }
  }

  lemma FilterEvaluates(t: Expr, v: Value, f: string, args: seq<Expr>, vs: seq<Value>, ctx: Context, host: Host)
    requires Gives(t, v, ctx, host) && AllGive(args, vs, ctx, host)
    ensures Evaluate(Filter(t, f, args), ctx, host) == ApplyFilter(f, v, vs, host)
  {
    hide ApplyFilter, EvaluateAll;
    AllEvaluate(args, vs, ctx, host);
  }

  /** The texts of the items, with the separator between them: joining two lists is joining around a separator. */
  lemma {:induction false} JoinAppends(xs: seq<Value>, ys: seq<Value>, separator: string, host: Host)
    requires xs != [] && ys != []
    ensures Join(xs + ys, separator, host) == Join(xs, separator, host) + separator + Join(ys, separator, host)
    decreases |xs|
  {
    hide PyStr;
    assert (xs + ys)[1..] == xs[1..] + ys;
    if |xs| > 1 {
      JoinAppends(xs[1..], ys, separator, host);
      var a, b, c := PyStr(xs[0], host) + separator, Join(xs[1..], separator, host), Join(ys, separator, host);
      assert a + (b + separator + c) == a + b + separator + c;
    } else {
      assert xs[1..] + ys == ys;
    }
  }

  /** `join` of nothing is the empty text, of one item its text, and of more the texts with the separator between. */
  lemma JoinsItems(t: Expr, v: Value, a: Expr, separator: string, xs: seq<Value>, x: Value, ctx: Context, host: Host)
    requires Gives(t, v, ctx, host) && Gives(a, Str(separator), ctx, host) && Sequence(v).Some?
    requires Sequence(v).value == xs + [x]
    ensures Evaluate(Filter(t, "join", [a]), ctx, host) ==
      Ok(Str((if xs == [] then "" else Join(xs, separator, host) + separator) + PyStr(x, host)))
  {
    hide PyStr, Join;
    SequenceIs(v);
    FilterEvaluates(t, v, "join", [a], [Str(separator)], ctx, host);
    JoinOne(x, separator, host);
    if xs == [] {
      assert xs + [x] == [x];
    } else {
      JoinAppends(xs, [x], separator, host);
    }
    TextOfText(separator, host);
  }

  lemma JoinOne(x: Value, separator: string, host: Host)
    ensures Join([x], separator, host) == PyStr(x, host) && "" + PyStr(x, host) == PyStr(x, host)
  {
    hide PyStr;
  }

  lemma TextOfText(s: string, host: Host)
    ensures PyStr(Str(s), host) == s
  {
  }

  lemma JoinsNothing(t: Expr, v: Value, a: Expr, separator: string, ctx: Context, host: Host)
    requires Gives(t, v, ctx, host) && Gives(a, Str(separator), ctx, host)
    ensures Sequence(v) == Some([]) ==> Evaluate(Filter(t, "join", [a]), ctx, host) == Ok(Str(""))
    ensures Sequence(v).None? ==> Evaluate(Filter(t, "join", [a]), ctx, host) == Err(NotASequence)
  {
    SequenceIs(v);
    FilterEvaluates(t, v, "join", [a], [Str(separator)], ctx, host);
  }

  /** `default` replaces what is undefined and, when asked, whatever is falsy; it never touches anything else. */
  lemma DefaultsCompute(t: Expr, v: Value, a: Expr, fallback: Value, b: Expr, flag: Value, ctx: Context, host: Host)
    requires Evaluate(t, ctx, host) == Ok(v) && Gives(a, fallback, ctx, host) && Gives(b, flag, ctx, host)
    ensures Evaluate(Filter(t, "default", []), ctx, host) == Ok(if v.Undefined? then Str("") else v)
    ensures Evaluate(Filter(t, "default", [a]), ctx, host) == Ok(if v.Undefined? then fallback else v)
    ensures Evaluate(Filter(t, "default", [a, b]), ctx, host) ==
      Ok(if v.Undefined? || (!Falsy(flag) && Falsy(v)) then fallback else v)
  {
    hide Evaluate, EvaluateAll;
    AllEvaluate([], [], ctx, host);
    AllEvaluate([a], [fallback], ctx, host);
    AllEvaluate([a, b], [fallback, flag], ctx, host);
    DefaultEvaluates(t, v, [], [], ctx, host);
    DefaultEvaluates(t, v, [a], [fallback], ctx, host);
    DefaultEvaluates(t, v, [a, b], [fallback, flag], ctx, host);
  }

  lemma DefaultEvaluates(t: Expr, v: Value, args: seq<Expr>, vs: seq<Value>, ctx: Context, host: Host)
    requires Evaluate(t, ctx, host) == Ok(v) && EvaluateAll(args, ctx, host) == Ok(vs)
    ensures Evaluate(Filter(t, "default", args), ctx, host) == DefaultOf(v, vs)
  {
    hide EvaluateAll, DefaultOf;
  }

  /** `string` is the text of the value; a filter nobody provides is an error, and the platform's are the platform's. */
  lemma OtherFiltersCompute(t: Expr, v: Value, f: string, args: seq<Expr>, vs: seq<Value>, ctx: Context, host: Host)
    requires Gives(t, v, ctx, host) && AllGive(args, vs, ctx, host)
    ensures Evaluate(Filter(t, "string", args), ctx, host) == Ok(Str(PyStr(v, host)))
    ensures f in {"add_days", "sub_days", "format_date", "int", "float", "lower", "upper"} ==>
      Evaluate(Filter(t, f, args), ctx, host) == host.filter(f, v, vs)
    ensures f !in {"add_days", "sub_days", "format_date", "int", "float", "lower", "upper", "default", "first", "last",
                   "length", "string", "join", "trim"} ==>
      Evaluate(Filter(t, f, args), ctx, host) == Err(UnknownFilter(f))
  {
    hide PyStr, DefaultOf, Join, SequenceOf;
    FilterEvaluates(t, v, "string", args, vs, ctx, host);
    FilterEvaluates(t, v, f, args, vs, ctx, host);
  }
}
