/** The tree interpreter: Python's operators, strict undefined, lazy conditionals. */
module ExprEval {
  import opened Common
  import opened Tables
  import opened ExprSyntax
  import opened ExprValues
  import ExprGrammar

  type Context = Table<Value>
  type Answer = Result<Value, EvalError>

  /** Reject an undefined operand at the point of use. */
  function Use(v: Value): Answer {
    if v.Undefined? then Err(UndefinedVariable) else Ok(v)
  }

  function LiteralValue(l: Literal): Value {
    match l
    case LNull => Null
    case LBool(b) => Bool(b)
    case LNum(r) => Num(r)
    case LStr(s) => Str(s)
  }

  function Evaluate(node: Expr, ctx: Context, host: Host): Answer
    decreases node, 1
  {
    match node
    case Lit(l) => Ok(LiteralValue(l))
    case Var(x) => (match Find(ctx, x) case Some(v) => Ok(v) case None => Ok(Undefined))
    case Attribute(t, a) =>
      var target :- UseOf(t, ctx, host);
      Ok(Member(target, Str(a), host))
    case Index(t, i) =>
      var key :- UseOf(i, ctx, host);
      var target :- UseOf(t, ctx, host);
      Ok(Member(target, key, host))
    case Call(_, _) => Err(CallUnsupported)
    case Filter(t, f, args) =>
      var target :- Evaluate(t, ctx, host);
      var value :- if f == "default" then Ok(target) else Use(target);
      var values :- EvaluateAll(args, ctx, host);
      ApplyFilter(f, value, values, host)
    case Test(t, n, negated) =>
      var value :- Evaluate(t, ctx, host);
      if n == "defined" then Ok(Bool(value.Undefined? == negated))
      else if n == "undefined" then Ok(Bool(value.Undefined? != negated))
      else Err(UnknownTest(n))
    case Unary(op, x) =>
      var value :- UseOf(x, ctx, host);
      UnaryOf(op, value)
    case Binary(op, l, r) =>
      var left :- UseOf(l, ctx, host);
      var right :- UseOf(r, ctx, host);
      BinaryOf(op, left, right, host)
    case Compare(op, l, r) =>
      var left :- UseOf(l, ctx, host);
      var right :- UseOf(r, ctx, host);
      var answer :- CompareOf(op, left, right, host);
      Ok(Bool(answer))
    case Logical(op, l, r) =>
      var left :- UseOf(l, ctx, host);
      var truth :- PyTruth(left);
      if truth == (op == BAnd) then Evaluate(r, ctx, host) else Ok(left)
    case Conditional(b, c, o) =>
      var condition :- UseOf(c, ctx, host);
      var truth :- PyTruth(condition);
      if truth then Evaluate(b, ctx, host)
      else
        (match o
         case None => Ok(Undefined)
         case Some(e) => Evaluate(e, ctx, host))
    case ListExpr(items) =>
      var values :- EvaluateAll(items, ctx, host);
      Ok(List(values))
    case DictExpr(entries) =>
      var table :- EvaluateEntries(entries, [], ctx, host);
      Ok(Obj(table))
  }

  function UseOf(node: Expr, ctx: Context, host: Host): Answer
    decreases node, 2
  {
    var v :- Evaluate(node, ctx, host);
    Use(v)
  }

  function EvaluateAll(nodes: seq<Expr>, ctx: Context, host: Host): Result<seq<Value>, EvalError>
    decreases nodes, 3
  {
    if nodes == [] then Ok([])
    else
      var first :- UseOf(nodes[0], ctx, host);
      var rest :- EvaluateAll(nodes[1..], ctx, host);
      Ok([first] + rest)
  }

  function EvaluateEntry(entry: (Expr, Expr), ctx: Context, host: Host): Result<(string, Value), EvalError>
    decreases entry
  {
    var key :- UseOf(entry.0, ctx, host);
    var value :- UseOf(entry.1, ctx, host);
    Ok((PyStr(key, host), value))
  }

  /** The object is filled entry by entry: a repeated key overwrites. */
  function EvaluateEntries(entries: seq<(Expr, Expr)>, out: Table<Value>, ctx: Context, host: Host)
    : Result<Table<Value>, EvalError>
    decreases entries, 3
  {
    if entries == [] then Ok(out)
    else
      var entry :- EvaluateEntry(entries[0], ctx, host);
      EvaluateEntries(entries[1..], Put(out, entry.0, entry.1), ctx, host)
  }

  /** Attribute or subscript: an item of a sequence, a property of an object, or undefined. */
  function Member(target: Value, key: Value, host: Host): Value {
    match target
    case List(items) => ItemAt(items, key)
    case Str(s) => ItemAt(Characters(s), key)
    case Obj(entries) => (match Find(entries, PyStr(key, host)) case Some(v) => v case None => Undefined)
    case _ => Undefined
  }

  function Characters(s: string): seq<Value> {
    seq(|s|, i requires 0 <= i < |s| => Str([s[i]]))
  }

  function ItemAt(items: seq<Value>, key: Value): Value {
    match key
    case Num(n) =>
      var index := if n < 0.0 then |items| as real + n else n;
      if index < 0.0 || index >= |items| as real then Undefined
      else if IsInteger(index) then items[index.Floor]
      else Null
    case _ => Undefined
  }

  function UnaryOf(op: UnaryOp, v: Value): Answer {
    match op
    case UNot =>
      var truth :- PyTruth(v);
      Ok(Bool(!truth))
    case _ => if v.Num? then Ok(Num(if op == UMinus then -v.n else v.n)) else Err(NotANumber)
  }

  function Numeric(v: Value): Result<real, EvalError> {
    match v
    case Num(n) => Ok(n)
    case Bool(b) => Ok(if b then 1.0 else 0.0)
    case _ => Err(NotANumber)
  }

  /** Floor division and a modulo with the sign of the divisor, as in Python. */
  function Arithmetic(op: BinaryOp, a: real, b: real): Result<real, EvalError> {
    match op
    case BAdd => Ok(a + b)
    case BSub => Ok(a - b)
    case BMul => Ok(a * b)
    case BDiv => if b == 0.0 then Err(DivisionByZero) else Ok(a / b)
    case BFloorDiv => if b == 0.0 then Err(DivisionByZero) else Ok((a / b).Floor as real)
    case _ => if b == 0.0 then Err(DivisionByZero) else Ok(Remainder(Remainder(a, b) + b, b))
  }

  /** JavaScript's `%`: the sign follows the dividend. */
  function Remainder(a: real, b: real): real
    requires b != 0.0
  {
    a - b * Truncate(a / b) as real
  }

  function Truncate(r: real): int {
    if r < 0.0 then -((-r).Floor) else r.Floor
  }

  function BinaryOf(op: BinaryOp, left: Value, right: Value, host: Host): Answer {
    if op == BConcat then Ok(Str(PyStr(left, host) + PyStr(right, host)))
    else if op == BAdd && left.Str? && right.Str? then Ok(Str(left.s + right.s))
    else if op == BAdd && left.List? && right.List? then Ok(List(left.items + right.items))
    else
      var a :- Numeric(left);
      var b :- Numeric(right);
      var n :- Arithmetic(op, a, b);
      Ok(Num(n))
  }

  function CompareOf(op: CompareOp, left: Value, right: Value, host: Host): Result<bool, EvalError> {
    match op
    case CEq => Ok(PyEquals(left, right))
    case CNe => Ok(!PyEquals(left, right))
    case CIn => Contains(right, left, host)
    case CNotIn =>
      var answer :- Contains(right, left, host);
      Ok(!answer)
    case CIs => Ok(Identical(left, right))
    case CIsNot => Ok(!Identical(left, right))
    case _ => Ordered(op, left, right, host)
  }

  /** `===` on what the grammar can put on its right: a keyword literal. */
  predicate Identical(left: Value, right: Value) {
    !left.List? && !left.Obj? && left == right
  }

  function AsNumber(v: Value): Value {
    if v.Bool? then Num(if v.b then 1.0 else 0.0) else v
  }

  /** Structural on containers, and `True == 1`. */
  predicate PyEquals(left: Value, right: Value)
    decreases left, 1
  {
    match left
    case List(xs) => right.List? && ItemsEqual(xs, right.items)
    case Obj(entries) => right.Obj? && |entries| == |right.entries| && EntriesEqual(entries, right.entries)
    case _ => AsNumber(left) == AsNumber(right)
  }

  predicate ItemsEqual(xs: seq<Value>, ys: seq<Value>)
    decreases xs, 2
  {
    if xs == [] || ys == [] then xs == ys
    else PyEquals(xs[0], ys[0]) && ItemsEqual(xs[1..], ys[1..])
  }

  predicate EntryEqual(entry: (string, Value), other: Table<Value>)
    decreases entry
  {
    match Find(other, entry.0)
    case None => false
    case Some(v) => PyEquals(entry.1, v)
  }

  predicate EntriesEqual(entries: Table<Value>, other: Table<Value>)
    decreases entries, 2
  {
    entries == [] || (EntryEqual(entries[0], other) && EntriesEqual(entries[1..], other))
  }

  function Ordered(op: CompareOp, left: Value, right: Value, host: Host): Result<bool, EvalError> {
    match (AsNumber(left), AsNumber(right))
    case (Num(a), Num(b)) => Ok(match op case CLt => a < b case CLe => a <= b case CGt => a > b case _ => a >= b)
    case (Str(a), Str(b)) =>
      Ok(match op
         case CLt => host.less(a, b)
         case CLe => !host.less(b, a)
         case CGt => host.less(b, a)
         case _ => !host.less(a, b))
    case _ => Err(CannotOrder)
  }

  predicate Includes(s: string, part: string) {
    part <= s || (s != "" && Includes(s[1..], part))
  }

  function Contains(haystack: Value, needle: Value, host: Host): Result<bool, EvalError> {
    match haystack
    case Str(s) => Ok(Includes(s, PyStr(needle, host)))
    case List(items) => Ok(exists i :: 0 <= i < |items| && PyEquals(items[i], needle))
    case Obj(entries) => Ok(Find(entries, PyStr(needle, host)).Some?)
    case _ => Err(NotAContainer)
  }

  function SequenceOf(v: Value): Result<seq<Value>, EvalError> {
    match v
    case List(items) => Ok(items)
    case Str(s) => Ok(Characters(s))
    case Obj(entries) => Ok(seq(|entries|, i requires 0 <= i < |entries| => Str(entries[i].0)))
    case _ => Err(NotASequence)
  }

  const HOST_FILTERS := {"add_days", "sub_days", "format_date", "int", "float", "lower", "upper"}

  /** The closed filter table. `default` alone may see the undefined marker. */
  function ApplyFilter(name: string, value: Value, args: seq<Value>, host: Host): Answer {
    if name == "default" then DefaultOf(value, args)
    else if name == "first" || name == "last" then
      var items :- SequenceOf(value);
      Ok(if items == [] then Undefined else items[if name == "first" then 0 else |items| - 1])
    else if name == "length" then
      if value.Str? || value.List? || value.Obj? then
        var items :- SequenceOf(value);
        Ok(Num(|items| as real))
      else Err(NoLength)
    else if name == "string" then Ok(Str(PyStr(value, host)))
    else if name == "join" then
      var items :- SequenceOf(value);
      Ok(Str(Join(items, if args == [] then "" else PyStr(args[0], host), host)))
    else if name == "trim" then
      if args == [] then Ok(Str(Trimmed(PyStr(value, host))))
      else Ok(Str(StripEnd(StripStart(PyStr(value, host), PyStr(args[0], host)), PyStr(args[0], host))))
    else if name in HOST_FILTERS then host.filter(name, value, args)
    else Err(UnknownFilter(name))
  }

  /** `default(fallback, boolean=False)`: with the flag, any falsy value takes the fallback. */
  function DefaultOf(value: Value, args: seq<Value>): Answer {
    var fallback := if args == [] then Str("") else args[0];
    if value.Undefined? then Ok(fallback)
    else if |args| < 2 then Ok(value)
    else
      var flag :- PyTruth(args[1]);
      if !flag then Ok(value)
      else
        var truth :- PyTruth(value);
        Ok(if truth then value else fallback)
  }

  function Join(items: seq<Value>, separator: string, host: Host): string {
    if items == [] then ""
    else if |items| == 1 then PyStr(items[0], host)
    else PyStr(items[0], host) + separator + Join(items[1..], separator, host)
  }

  function StripStart(s: string, chars: string): string {
    if s != "" && s[0] in chars then StripStart(s[1..], chars) else s
  }

  function StripEnd(s: string, chars: string): string {
    if s != "" && s[|s| - 1] in chars then StripEnd(s[..|s| - 1], chars) else s
  }

  /** The whole pipeline on a source text. */
  function EvaluateSource(source: string, ctx: Context, host: Host): Result<Answer, SyntaxError> {
    var node :- ExprGrammar.Parse(source);
    Ok(Evaluate(node, ctx, host))
  }
}
