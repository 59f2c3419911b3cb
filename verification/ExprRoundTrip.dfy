/**
 * The fully parenthesised rendering of a tree, and the proof that the parser inverts it.
 * The rendering belongs to the specification: the source has no unparser.
 */
module ExprRoundTrip {
  import opened Common
  import opened ExprSyntax
  import opened ExprGrammar
  import ExprScanning
  import ExprLexer

  // ---- Rendering -----------------------------------------------------------

  function LiteralToken(l: Literal): Token {
    match l
    case LNull => Name("none")
    case LBool(b) => Name(if b then "true" else "false")
    case LNum(r) => Number(r)
    case LStr(s) => StringLit(s)
  }

  function UnaryToken(op: UnaryOp): Token {
    match op
    case UNot => Name("not")
    case UMinus => Op(Minus)
    case UPlus => Op(Plus)
  }

  function BinaryToken(op: BinaryOp): Token {
    match op
    case BAdd => Op(Plus)
    case BSub => Op(Minus)
    case BMul => Op(Star)
    case BDiv => Op(Slash)
    case BFloorDiv => Op(FloorDiv)
    case BMod => Op(Percent)
    case BConcat => Op(Tilde)
  }

  function CompareTokens(op: CompareOp): Tokens {
    match op
    case CEq => [Op(EqEq)]
    case CNe => [Op(NotEq)]
    case CLt => [Op(Less)]
    case CLe => [Op(LessEq)]
    case CGt => [Op(Greater)]
    case CGe => [Op(GreaterEq)]
    case CIn => [Name("in")]
    case CNotIn => [Name("not"), Name("in")]
    case CIs => [Name("is")]
    case CIsNot => [Name("is"), Name("not")]
  }

  /** A tree as one primary: a leaf, a display, or a parenthesised body. */
  function Atom(e: Expr): Tokens
    decreases e, 1
  {
    match e
    case Lit(l) => [LiteralToken(l)]
    case Var(x) => [Name(x)]
    case ListExpr(items) => [P(LBracket)] + (Items(items) + [P(RBracket)])
    case DictExpr(entries) => [P(LBrace)] + (Entries(entries) + [P(RBrace)])
    case _ => [P(LParen)] + (Body(e) + [P(RParen)])
  }

  function Body(e: Expr): Tokens
    requires !e.Lit? && !e.Var? && !e.ListExpr? && !e.DictExpr?
    decreases e, 0
  {
    match e
    case Attribute(t, a) => Atom(t) + [P(Dot), Name(a)]
    case Index(t, i) => Atom(t) + ([P(LBracket)] + (Atom(i) + [P(RBracket)]))
    case Call(t, args) => Atom(t) + ([P(LParen)] + (Items(args) + [P(RParen)]))
    case Filter(t, f, args) => Atom(t) + ([Op(Pipe), Name(f), P(LParen)] + (Items(args) + [P(RParen)]))
    case Test(t, n, negated) => Atom(t) + ([Name("is")] + (if negated then [Name("not"), Name(n)] else [Name(n)]))
    case Unary(op, x) => [UnaryToken(op)] + Atom(x)
    case Binary(op, l, r) => Atom(l) + ([BinaryToken(op)] + Atom(r))
    case Compare(op, l, r) => Atom(l) + (CompareTokens(op) + Atom(r))
    case Logical(op, l, r) => Atom(l) + ([Name(if op == BAnd then "and" else "or")] + Atom(r))
    case Conditional(b, c, None) => Atom(b) + ([Name("if")] + Atom(c))
    case Conditional(b, c, Some(o)) => Atom(b) + ([Name("if")] + (Atom(c) + ([Name("else")] + Atom(o))))
  }

  function Items(es: seq<Expr>): Tokens
    decreases es, 2
  {
    if es == [] then []
    else if |es| == 1 then Atom(es[0])
    else Atom(es[0]) + ([P(Comma)] + Items(es[1..]))
  }

  function Entry(entry: (Expr, Expr)): Tokens
    decreases entry
  {
    Atom(entry.0) + ([P(Colon)] + Atom(entry.1))
  }

  function Entries(es: seq<(Expr, Expr)>): Tokens
    decreases es, 2
  {
    if es == [] then []
    else if |es| == 1 then Entry(es[0])
    else Entry(es[0]) + ([P(Comma)] + Entries(es[1..]))
  }

  ghost function Render(e: Expr): string {
    ExprScanning.SpellAll(Atom(e))
  }

  /**
   * Where the word `not` can be read as a variable: as the operand of a sign, and as the right operand of an
   * arithmetic operator, of `~` or of a comparison. Everywhere else the grammar reads the operator first.
   */
  predicate Clear(e: Expr) {
    e != Var("not")
  }

  /** Every variable `not` in the tree stands where it can be read; the tree itself may be that variable. */
  ghost predicate Heard(e: Expr)
    decreases e
  {
    match e
    case Lit(_) => true
    case Var(_) => true
    case Attribute(t, _) => Clear(t) && Heard(t)
    case Index(t, i) => Clear(t) && Heard(t) && Clear(i) && Heard(i)
    case Call(t, args) => Clear(t) && Heard(t) && forall k :: 0 <= k < |args| ==> Clear(args[k]) && Heard(args[k])
    case Filter(t, _, args) =>
      Clear(t) && Heard(t) && forall k :: 0 <= k < |args| ==> Clear(args[k]) && Heard(args[k])
    case Test(t, _, _) => Clear(t) && Heard(t)
    case Unary(op, x) => Heard(x) && (op == UNot ==> Clear(x))
    case Binary(_, l, r) => Clear(l) && Heard(l) && Heard(r)
    case Compare(_, l, r) => Clear(l) && Heard(l) && Heard(r)
    case Logical(_, l, r) => Clear(l) && Heard(l) && Clear(r) && Heard(r)
    case Conditional(b, c, o) =>
      Clear(b) && Heard(b) && Clear(c) && Heard(c) && (o.Some? ==> Clear(o.value) && Heard(o.value))
    case ListExpr(items) => forall k :: 0 <= k < |items| ==> Clear(items[k]) && Heard(items[k])
    case DictExpr(entries) =>
      forall k :: 0 <= k < |entries| ==>
        Clear(entries[k].0) && Heard(entries[k].0) && Clear(entries[k].1) && Heard(entries[k].1)
  }

  /** A tree of the language that is read back as an operand; `Whole` is one that is read back anywhere. */
  ghost predicate Good(e: Expr) {
    WellFormed(e) && Heard(e)
  }

  ghost predicate Whole(e: Expr) {
    Good(e) && Clear(e)
  }

  // ---- Climbing the ladder -------------------------------------------------

  /** The ladder as one function of the level, tightest first. */
  ghost function Level(l: nat, ts: Tokens): Parsed
    requires l < 10
  {
    match l
    case 0 => PPrimary(ts)
    case 1 => PUnary(ts)
    case 2 => PBin(Math2Tier, ts)
    case 3 => PBin(ConcatTier, ts)
    case 4 => PBin(Math1Tier, ts)
    case 5 => PCompare(ts)
    case 6 => PNot(ts)
    case 7 => PBin(AndTier, ts)
    case 8 => PBin(OrTier, ts)
    case 9 => PExpr(ts)
  }

  lemma LevelZero(ts: Tokens)
    ensures Level(0, ts) == PPrimary(ts) && Level(1, ts) == PUnary(ts) && Level(9, ts) == PExpr(ts)
  {
    hide PPrimary, PUnary, PExpr;
  }

  /** The level whose loop would take the head of `ts`, or 10 when none would. */
  function Binds(ts: Tokens): nat {
    if ts == [] then 10
    else if ts[0] in {P(Dot), P(LBracket), P(LParen), Op(Pipe), Name("is")} then 1
    else if Joins(Math2Tier, ts[0]) then 2
    else if Joins(ConcatTier, ts[0]) then 3
    else if Joins(Math1Tier, ts[0]) then 4
    else if CompareAt(ts).Some? then 5
    else if ts[0] == Name("and") then 7
    else if ts[0] == Name("or") then 8
    else if ts[0] == Name("if") then 9
    else 10
  }

  /** No prefix operator that a level above `l` and up to `top` would take stands at the head. */
  ghost predicate PrefixFree(l: nat, top: nat, ts: Tokens) {
    && ts != []
    && (l == 0 < top ==> ts[0] != Op(Minus) && ts[0] != Op(Plus))
    && (l <= 5 < top ==> ts[0] != Name("not"))
  }

  /** Concatenation leans right. */
  lemma Push(a: Tokens, b: Tokens, c: Tokens)
    ensures (a + b) + c == a + (b + c)
  {
  }

  lemma ClimbOne(l: nat, ts: Tokens, e: Expr, rest: Tokens)
    requires l < 9 && Level(l, ts) == Ok((e, rest)) && PrefixFree(l, l + 1, ts) && Binds(rest) > l + 1
    ensures Level(l + 1, ts) == Ok((e, rest))
  {
    match l
    case 0 =>
      assert PPostfix(e, rest) == Ok((e, rest));
      assert PFilters(e, rest) == Ok((e, rest));
    case 4 =>
      assert PLinks(rest) == Ok(([], rest));
      assert Chain(e, []) == e;
    case 5 =>
    case 8 =>
    case _ =>
      var tier := match l case 1 => Math2Tier case 2 => ConcatTier case 3 => Math1Tier
                          case 6 => AndTier case _ => OrTier;
      OperandLevel(tier, ts);
      assert PBinRest(tier, e, rest) == Ok((e, rest));
  }

  lemma {:induction false} Climb(l: nat, top: nat, ts: Tokens, e: Expr, rest: Tokens)
    requires l <= top <= 9 && Level(l, ts) == Ok((e, rest)) && PrefixFree(l, top, ts) && Binds(rest) > top
    ensures Level(top, ts) == Ok((e, rest))
    decreases top - l
  {
    if l < top {
      ClimbOne(l, ts, e, rest);
      Climb(l + 1, top, ts, e, rest);
    }
  }

  lemma AtomHead(top: nat, e: Expr, rest: Tokens)
    requires top > 5 ==> Clear(e)
    ensures PrefixFree(0, top, Atom(e)) && PrefixFree(0, top, Atom(e) + rest)
  {
  }

  /** An atom read as some primary is read as that at every level below the next operator. */
  lemma AtomAt(top: nat, e: Expr, read: Expr, rest: Tokens)
    requires top <= 9 && Binds(rest) > top && (top > 5 ==> Clear(e))
    requires PPrimary(Atom(e) + rest) == Ok((read, rest))
    ensures Level(top, Atom(e) + rest) == Ok((read, rest))
  {
    hide Atom;
    AtomHead(top, e, rest);
    Climb(0, top, Atom(e) + rest, read, rest);
  }

  lemma AtomOr(e: Expr, read: Expr, rest: Tokens)
    requires Clear(e) && Binds(rest) > 8 && PPrimary(Atom(e) + rest) == Ok((read, rest))
    ensures PBin(OrTier, Atom(e) + rest) == Ok((read, rest))
  {
    hide PBin, PPrimary, Atom;
    AtomAt(8, e, read, rest);
  }

  lemma AtomExpr(e: Expr, read: Expr, rest: Tokens)
    requires Clear(e) && Binds(rest) > 9 && PPrimary(Atom(e) + rest) == Ok((read, rest))
    ensures PExpr(Atom(e) + rest) == Ok((read, rest))
  {
    hide PExpr, PPrimary, Atom;
    AtomAt(9, e, read, rest);
  }

  predicate IsBody(e: Expr) {
    !e.Lit? && !e.Var? && !e.ListExpr? && !e.DictExpr?
  }

  lemma AtomOfBody(e: Expr)
    requires IsBody(e)
    ensures Atom(e) == [P(LParen)] + (Body(e) + [P(RParen)])
  {
    hide Body;
  }

  lemma ParenthesesRead(inner: Tokens, read: Expr, rest: Tokens)
    requires PExpr(inner) == Ok((read, [P(RParen)] + rest))
    ensures PPrimary([P(LParen)] + inner) == Ok((read, rest))
  {
    hide PExpr, PList, PEntries, KeywordLiteral;
    assert ([P(LParen)] + inner)[1..] == inner;
    assert ([P(RParen)] + rest)[1..] == rest;
  }

  /** A body that reads as an expression is, in parentheses, a primary. */
  lemma Enclosed(e: Expr, read: Expr, rest: Tokens)
    requires IsBody(e)
    requires PExpr(Body(e) + ([P(RParen)] + rest)) == Ok((read, [P(RParen)] + rest))
    ensures PPrimary(Atom(e) + rest) == Ok((read, rest))
  {
    hide PExpr, PPrimary, Atom, Body;
    AtomOfBody(e);
    ParenthesesRead(Body(e) + ([P(RParen)] + rest), read, rest);
    assert Atom(e) + rest == [P(LParen)] + (Body(e) + ([P(RParen)] + rest));
  }

  lemma Parenthesised(l: nat, e: Expr, read: Expr, rest: Tokens)
    requires IsBody(e)
    requires 1 <= l <= 9 && PrefixFree(l, 9, Body(e))
    requires Level(l, Body(e) + ([P(RParen)] + rest)) == Ok((read, [P(RParen)] + rest))
    ensures PPrimary(Atom(e) + rest) == Ok((read, rest))
  {
    hide PExpr, PPrimary, Body, Atom;
    Climb(l, 9, Body(e) + ([P(RParen)] + rest), read, [P(RParen)] + rest);
    Enclosed(e, read, rest);
  }

  // ---- One constructor at a time, whatever its parts are read as ---------------

  // Steps of the postfix and filter loops, on tokens whose shape does not matter.

  lemma PostfixAttribute(t: Expr, name: string, close: Tokens)
    requires Binds(close) == 10
    ensures PPostfix(t, [P(Dot), Name(name)] + close) == Ok((Attribute(t, name), close))
  {
    var tail := [P(Dot), Name(name)] + close;
    assert tail[1..][1..] == close;
    assert PPostfix(Attribute(t, name), close) == Ok((Attribute(t, name), close));
  }

  lemma PostfixIndex(t: Expr, i: Expr, tail: Tokens, inner: Tokens, close: Tokens)
    requires tail != [] && tail[0] == P(LBracket) && PExpr(tail[1..]) == Ok((i, inner))
    requires inner == [P(RBracket)] + close && Binds(close) == 10
    ensures PPostfix(t, tail) == Ok((Index(t, i), close))
  {
    assert inner[1..] == close;
    assert PPostfix(Index(t, i), close) == Ok((Index(t, i), close));
  }

  lemma PostfixCall(t: Expr, args: seq<Expr>, tail: Tokens, close: Tokens)
    requires tail != [] && tail[0] == P(LParen) && PList(RParen, tail[1..]) == Ok((args, close))
    requires Binds(close) == 10
    ensures PPostfix(t, tail) == Ok((Call(t, args), close))
  {
    assert PPostfix(Call(t, args), close) == Ok((Call(t, args), close));
  }

  lemma FilterStep(t: Expr, f: string, args: seq<Expr>, list: Tokens, close: Tokens)
    requires PList(RParen, list) == Ok((args, close)) && Binds(close) == 10
    ensures var tail := [Op(Pipe), Name(f), P(LParen)] + list;
            PPostfix(t, tail) == Ok((t, tail)) && PFilters(t, tail) == Ok((Filter(t, f, args), close))
  {
    var tail := [Op(Pipe), Name(f), P(LParen)] + list;
    assert tail[1..][1..] == [P(LParen)] + list;
    assert ([P(LParen)] + list)[1..] == list;
    assert PFilter(t, tail) == Ok((Filter(t, f, args), close));
    assert PFilters(Filter(t, f, args), close) == Ok((Filter(t, f, args), close));
  }

  lemma TestStep(t: Expr, tail: Tokens, e: Expr, close: Tokens)
    requires tail != [] && tail[0] == Name("is") && PTest(t, tail) == Ok((e, close)) && Binds(close) == 10
    ensures PPostfix(t, tail) == Ok((t, tail)) && PFilters(t, tail) == Ok((e, close))
  {
    assert PFilters(e, close) == Ok((e, close));
  }

  lemma LoopsStop(e: Expr, close: Tokens)
    requires Binds(close) == 10
    ensures PPostfix(e, close) == Ok((e, close)) && PFilters(e, close) == Ok((e, close))
  {
  }

  /** Reading a target and then whatever the postfix and filter loops make of it. */
  lemma ReadTarget(t: Expr, tail: Tokens, read: Expr, e: Expr, mid: Expr, after: Tokens, rest: Tokens)
    requires PPrimary(Atom(t) + tail) == Ok((read, tail))
    requires PPostfix(read, tail) == Ok((mid, after)) && PFilters(mid, after) == Ok((e, rest))
    ensures PUnary(Atom(t) + tail) == Ok((e, rest))
  {
    AtomHead(1, t, tail);
  }

  lemma AttributeReads(e: Expr, target: Expr, rest: Tokens)
    requires e.Attribute? && Clear(e.target)
    requires var tail := [P(Dot), Name(e.attr)] + ([P(RParen)] + rest);
      PPrimary(Atom(e.target) + tail) == Ok((target, tail))
    ensures PPrimary(Atom(e) + rest) == Ok((Attribute(target, e.attr), rest))
  {
    hide Atom, Level, PExpr, PBin, PNot, PCompare, PUnary, PPrimary, PPostfix, PFilters, PList;
    var close := [P(RParen)] + rest;
    var read := Attribute(target, e.attr);
    var tail := [P(Dot), Name(e.attr)] + close;
    PostfixAttribute(target, e.attr, close);
    LoopsStop(read, close);
    ReadTarget(e.target, tail, target, read, read, close, close);
    AtomHead(9, e.target, []);
    Push(Atom(e.target), [P(Dot), Name(e.attr)], close);
    LevelZero(Body(e) + close);
    Parenthesised(1, e, read, rest);
  }

  lemma IndexReads(e: Expr, target: Expr, index: Expr, rest: Tokens)
    requires e.Index? && Clear(e.target) && Clear(e.index)
    requires var inner := [P(RBracket)] + ([P(RParen)] + rest);
      var tail := [P(LBracket)] + (Atom(e.index) + inner);
      PPrimary(Atom(e.target) + tail) == Ok((target, tail)) && PPrimary(Atom(e.index) + inner) == Ok((index, inner))
    ensures PPrimary(Atom(e) + rest) == Ok((Index(target, index), rest))
  {
    hide Atom, Level, PExpr, PBin, PNot, PCompare, PUnary, PPrimary, PPostfix, PFilters, PList;
    var close := [P(RParen)] + rest;
    var inner := [P(RBracket)] + close;
    var tail := [P(LBracket)] + (Atom(e.index) + inner);
    var read := Index(target, index);
    AtomExpr(e.index, index, inner);
    assert tail[1..] == Atom(e.index) + inner;
    PostfixIndex(target, index, tail, inner, close);
    LoopsStop(read, close);
    ReadTarget(e.target, tail, target, read, read, close, close);
    AtomHead(9, e.target, []);
    Push(Atom(e.target), [P(LBracket)] + (Atom(e.index) + [P(RBracket)]), close);
    Push([P(LBracket)], Atom(e.index) + [P(RBracket)], close);
    Push(Atom(e.index), [P(RBracket)], close);
    LevelZero(Body(e) + close);
    Parenthesised(1, e, read, rest);
  }

  lemma CallReads(e: Expr, target: Expr, args: seq<Expr>, rest: Tokens)
    requires e.Call? && Clear(e.target)
    requires var close := [P(RParen)] + rest;
      var list := Items(e.args) + ([P(RParen)] + close);
      PPrimary(Atom(e.target) + ([P(LParen)] + list)) == Ok((target, [P(LParen)] + list))
      && PList(RParen, list) == Ok((args, close))
    ensures PPrimary(Atom(e) + rest) == Ok((Call(target, args), rest))
  {
    hide Atom, Level, PExpr, PBin, PNot, PCompare, PUnary, PPrimary, PPostfix, PFilters, PList;
    var close := [P(RParen)] + rest;
    var list := Items(e.args) + ([P(RParen)] + close);
    var tail := [P(LParen)] + list;
    var read := Call(target, args);
    assert tail[1..] == list;
    PostfixCall(target, args, tail, close);
    LoopsStop(read, close);
    ReadTarget(e.target, tail, target, read, read, close, close);
    AtomHead(9, e.target, []);
    Push(Atom(e.target), [P(LParen)] + (Items(e.args) + [P(RParen)]), close);
    Push([P(LParen)], Items(e.args) + [P(RParen)], close);
    Push(Items(e.args), [P(RParen)], close);
    LevelZero(Body(e) + close);
    Parenthesised(1, e, read, rest);
  }

  lemma FilterReads(e: Expr, target: Expr, args: seq<Expr>, rest: Tokens)
    requires e.Filter? && Clear(e.target)
    requires var close := [P(RParen)] + rest;
      var list := Items(e.args) + ([P(RParen)] + close);
      var tail := [Op(Pipe), Name(e.filter), P(LParen)] + list;
      PPrimary(Atom(e.target) + tail) == Ok((target, tail)) && PList(RParen, list) == Ok((args, close))
    ensures PPrimary(Atom(e) + rest) == Ok((Filter(target, e.filter, args), rest))
  {
    hide Atom, Level, PExpr, PBin, PNot, PCompare, PUnary, PPrimary, PPostfix, PFilters, PList;
    var close := [P(RParen)] + rest;
    var open := [Op(Pipe), Name(e.filter), P(LParen)];
    var list := Items(e.args) + ([P(RParen)] + close);
    var read := Filter(target, e.filter, args);
    FilterStep(target, e.filter, args, list, close);
    ReadTarget(e.target, open + list, target, read, target, open + list, close);
    AtomHead(9, e.target, []);
    Push(Atom(e.target), open + (Items(e.args) + [P(RParen)]), close);
    Push(open, Items(e.args) + [P(RParen)], close);
    Push(Items(e.args), [P(RParen)], close);
    LevelZero(Body(e) + close);
    Parenthesised(1, e, read, rest);
  }

  lemma ReadTestTail(t: Expr, name: string, negated: bool, rest: Tokens)
    requires name == "not" ==> negated
    ensures var tail := [Name("is")] + ((if negated then [Name("not"), Name(name)] else [Name(name)]) + rest);
            PTest(t, tail) == Ok((TestNode(t, name, negated), rest))
  {
    var tail := [Name("is")] + ((if negated then [Name("not"), Name(name)] else [Name(name)]) + rest);
    if negated {
      assert tail[2..] == [Name(name)] + rest;
      assert tail[2..][1..] == rest;
    } else {
      assert tail[1..] == [Name(name)] + rest;
      assert tail[1..][1..] == rest;
    }
  }

  function TestWords(negated: bool, name: string): Tokens {
    if negated then [Name("not"), Name(name)] else [Name(name)]
  }

  lemma TestReads(e: Expr, target: Expr, rest: Tokens)
    requires e.Test? && WellFormed(e) && Clear(e.target)
    requires var tail := [Name("is")] + (TestWords(e.negated, e.test) + ([P(RParen)] + rest));
      PPrimary(Atom(e.target) + tail) == Ok((target, tail))
    ensures PPrimary(Atom(e) + rest) == Ok((Test(target, e.test, e.negated), rest))
  {
    hide Atom, Level, PExpr, PBin, PNot, PCompare, PUnary, PPrimary, PPostfix, PFilters, PList, PTest, Binds;
    var close := [P(RParen)] + rest;
    var words := TestWords(e.negated, e.test);
    var tail := [Name("is")] + (words + close);
    var read := Test(target, e.test, e.negated);
    ClosingBinds(rest);
    ReadTestTail(target, e.test, e.negated, close);
    TestStep(target, tail, read, close);
    ReadTarget(e.target, tail, target, read, target, tail, close);
    AtomHead(9, e.target, []);
    Push(Atom(e.target), [Name("is")] + words, close);
    Push([Name("is")], words, close);
    LevelZero(Body(e) + close);
    Parenthesised(1, e, read, rest);
  }

  lemma UnaryReads(e: Expr, operand: Expr, rest: Tokens)
    requires e.Unary? && (e.uop == UNot ==> Clear(e.operand))
    requires var close := [P(RParen)] + rest; PPrimary(Atom(e.operand) + close) == Ok((operand, close))
    ensures PPrimary(Atom(e) + rest) == Ok((Unary(e.uop, operand), rest))
  {
    hide Atom, PExpr, PPrimary, PBin, PCompare;
    var close := [P(RParen)] + rest;
    var tokens := Atom(e.operand) + close;
    var read := Unary(e.uop, operand);
    AtomAt(if e.uop == UNot then 6 else 1, e.operand, operand, close);
    assert Body(e) + close == [UnaryToken(e.uop)] + tokens;
    assert ([UnaryToken(e.uop)] + tokens)[1..] == tokens;
    if e.uop == UNot {
      Parenthesised(6, e, read, rest);
    } else {
      LoopsStop(read, close);
      Parenthesised(1, e, read, rest);
    }
  }

  function TierOf(op: BinaryOp): Tier {
    match op
    case BAdd => Math1Tier
    case BSub => Math1Tier
    case BConcat => ConcatTier
    case _ => Math2Tier
  }

  function TierLevel(tier: Tier): nat {
    match tier
    case OrTier => 8
    case AndTier => 7
    case Math1Tier => 4
    case ConcatTier => 3
    case Math2Tier => 2
  }

  lemma OperandLevel(tier: Tier, ts: Tokens)
    ensures POperand(tier, ts) == Level(TierLevel(tier) - 1, ts)
    ensures PBin(tier, ts) == Level(TierLevel(tier), ts)
  {
  }

  /** Operands of these tiers are read through the operator `not`. */
  predicate Loose(tier: Tier) {
    tier == OrTier || tier == AndTier
  }

  /** `l op r` at the tier of `op`, up to a closing parenthesis. */
  lemma ReadJoined(tier: Tier, l: Expr, left: Expr, t: Token, r: Expr, right: Expr, rest: Tokens)
    requires Joins(tier, t) && (Loose(tier) ==> Clear(l) && Clear(r))
    requires var close := [P(RParen)] + rest;
      var tail := [t] + (Atom(r) + close);
      PPrimary(Atom(l) + tail) == Ok((left, tail)) && PPrimary(Atom(r) + close) == Ok((right, close))
    ensures PBin(tier, Atom(l) + ([t] + (Atom(r) + ([P(RParen)] + rest)))) ==
            Ok((Join(tier, t, left, right), [P(RParen)] + rest))
  {
    hide Level, PExpr, PPrimary, PUnary, PCompare, PNot, Atom;
    var close := [P(RParen)] + rest;
    var tokens := Atom(r) + close;
    var tail := [t] + tokens;
    AtomAt(TierLevel(tier) - 1, l, left, tail);
    AtomAt(TierLevel(tier) - 1, r, right, close);
    OperandLevel(tier, Atom(l) + tail);
    OperandLevel(tier, tokens);
    assert tail[1..] == tokens;
    var e := Join(tier, t, left, right);
    assert PBinRest(tier, e, close) == Ok((e, close));
    assert PBinRest(tier, left, tail) == Ok((e, close));
  }

  lemma JoinedReads(e: Expr, tier: Tier, t: Token, l: Expr, left: Expr, r: Expr, right: Expr, rest: Tokens)
    requires IsBody(e) && Body(e) == Atom(l) + ([t] + Atom(r))
    requires Joins(tier, t) && Clear(l) && (Loose(tier) ==> Clear(r))
    requires var close := [P(RParen)] + rest;
      var tail := [t] + (Atom(r) + close);
      PPrimary(Atom(l) + tail) == Ok((left, tail)) && PPrimary(Atom(r) + close) == Ok((right, close))
    ensures PPrimary(Atom(e) + rest) == Ok((Join(tier, t, left, right), rest))
  {
    hide Atom, Body, PExpr, PBin, PNot, PCompare, PUnary, PPrimary, PPostfix, PFilters, PList;
    var close := [P(RParen)] + rest;
    ReadJoined(tier, l, left, t, r, right, rest);
    AtomHead(9, l, [t] + Atom(r));
    Push(Atom(l), [t] + Atom(r), close);
    Push([t], Atom(r), close);
    OperandLevel(tier, Body(e) + close);
    Parenthesised(TierLevel(tier), e, Join(tier, t, left, right), rest);
  }

  lemma BinaryShape(e: Expr, left: Expr, right: Expr)
    requires e.Binary?
    ensures Body(e) == Atom(e.left) + ([BinaryToken(e.bop)] + Atom(e.right))
    ensures Joins(TierOf(e.bop), BinaryToken(e.bop)) && !Loose(TierOf(e.bop))
    ensures Join(TierOf(e.bop), BinaryToken(e.bop), left, right) == Binary(e.bop, left, right)
  {
    hide Atom;
  }

  lemma BinaryReads(e: Expr, left: Expr, right: Expr, rest: Tokens)
    requires e.Binary? && Clear(e.left)
    requires var close := [P(RParen)] + rest;
      var tail := [BinaryToken(e.bop)] + (Atom(e.right) + close);
      PPrimary(Atom(e.left) + tail) == Ok((left, tail)) && PPrimary(Atom(e.right) + close) == Ok((right, close))
    ensures PPrimary(Atom(e) + rest) == Ok((Binary(e.bop, left, right), rest))
  {
    hide Atom, Body, Joins, Join, TierOf, BinaryToken, Loose, PPrimary;
    BinaryShape(e, left, right);
    JoinedReads(e, TierOf(e.bop), BinaryToken(e.bop), e.left, left, e.right, right, rest);
  }

  function LogicalTier(op: BoolOp): Tier {
    if op == BAnd then AndTier else OrTier
  }

  function LogicalToken(op: BoolOp): Token {
    Name(if op == BAnd then "and" else "or")
  }

  lemma LogicalReads(e: Expr, left: Expr, right: Expr, rest: Tokens)
    requires e.Logical? && Clear(e.left) && Clear(e.right)
    requires var close := [P(RParen)] + rest;
      var tail := [LogicalToken(e.lop)] + (Atom(e.right) + close);
      PPrimary(Atom(e.left) + tail) == Ok((left, tail)) && PPrimary(Atom(e.right) + close) == Ok((right, close))
    ensures PPrimary(Atom(e) + rest) == Ok((Logical(e.lop, left, right), rest))
  {
    hide Atom, PPrimary;
    JoinedReads(e, LogicalTier(e.lop), LogicalToken(e.lop), e.left, left, e.right, right, rest);
  }

  predicate IsIdentity(op: CompareOp) {
    op == CIs || op == CIsNot
  }

  lemma IdentityReads(e: Expr, left: Expr, rest: Tokens)
    requires e.Compare? && WellFormed(e) && IsIdentity(e.cop) && Clear(e.left)
    requires var tail := CompareTokens(e.cop) + (Atom(e.right) + ([P(RParen)] + rest));
      PPrimary(Atom(e.left) + tail) == Ok((left, tail))
    ensures PPrimary(Atom(e) + rest) == Ok((Compare(e.cop, left, e.right), rest))
  {
    hide Atom, Level, PExpr, PBin, PNot, PCompare, PUnary, PPrimary, PPostfix, PFilters, PList, PTest;
    hide CompareTokens, Binds;
    var close := [P(RParen)] + rest;
    var tail := CompareTokens(e.cop) + (Atom(e.right) + close);
    var read := Compare(e.cop, left, e.right);
    ClosingBinds(rest);
    ReadIdentity(read, tail, close);
    TestStep(left, tail, read, close);
    ReadTarget(e.left, tail, left, read, left, tail, close);
    AtomHead(9, e.left, []);
    Push(Atom(e.left), CompareTokens(e.cop) + Atom(e.right), close);
    Push(CompareTokens(e.cop), Atom(e.right), close);
    LevelZero(Body(e) + close);
    Parenthesised(1, e, read, rest);
  }

  lemma ReadIdentity(e: Expr, tail: Tokens, close: Tokens)
    requires e.Compare? && IsIdentity(e.cop) && e.right.Lit? && (e.right.value.LNull? || e.right.value.LBool?)
    requires tail == CompareTokens(e.cop) + (Atom(e.right) + close)
    ensures tail != [] && tail[0] == Name("is") && PTest(e.left, tail) == Ok((e, close))
  {
    var name := LiteralToken(e.right.value).id;
    var negated := e.cop == CIsNot;
    ReadTestTail(e.left, name, negated, close);
    assert tail == [Name("is")] + ((if negated then [Name("not"), Name(name)] else [Name(name)]) + close);
    assert TestNode(e.left, name, negated) == e;
  }

  lemma ComparisonReads(e: Expr, left: Expr, right: Expr, rest: Tokens)
    requires e.Compare? && !IsIdentity(e.cop) && Clear(e.left)
    requires var close := [P(RParen)] + rest;
      var tail := CompareTokens(e.cop) + (Atom(e.right) + close);
      PPrimary(Atom(e.left) + tail) == Ok((left, tail)) && PPrimary(Atom(e.right) + close) == Ok((right, close))
    ensures PPrimary(Atom(e) + rest) == Ok((Compare(e.cop, left, right), rest))
  {
    hide Atom, PExpr, PBin, PNot, PCompare, PUnary, PPrimary, PPostfix, PFilters, PList;
    hide Binds, CompareTokens, CompareAt;
    var close := [P(RParen)] + rest;
    var tokens := Atom(e.right) + close;
    var tail := CompareTokens(e.cop) + tokens;
    ClosingBinds(rest);
    ComparisonAhead(e.cop, tokens);
    AtomAt(4, e.left, left, tail);
    AtomAt(4, e.right, right, close);
    CompareStep(Compare(e.cop, left, right), Atom(e.left) + tail, tail, tokens, close);
    AtomHead(9, e.left, []);
    Push(Atom(e.left), CompareTokens(e.cop) + Atom(e.right), close);
    Push(CompareTokens(e.cop), Atom(e.right), close);
    Parenthesised(5, e, Compare(e.cop, left, right), rest);
  }

  lemma ComparisonAhead(op: CompareOp, right: Tokens)
    requires !IsIdentity(op)
    ensures var tail := CompareTokens(op) + right;
      CompareAt(tail) == Some((op, |CompareTokens(op)|)) && Binds(tail) == 5
  {
  }

  lemma CompareStep(e: Expr, ts: Tokens, tail: Tokens, right: Tokens, close: Tokens)
    requires e.Compare? && tail == CompareTokens(e.cop) + right && close != [] && close[0] == P(RParen)
    requires CompareAt(tail) == Some((e.cop, |CompareTokens(e.cop)|))
    requires PBin(Math1Tier, ts) == Ok((e.left, tail))
    requires PBin(Math1Tier, right) == Ok((e.right, close))
    ensures PCompare(ts) == Ok((e, close))
  {
    hide PBin, CompareTokens;
    assert tail[|CompareTokens(e.cop)|..] == right;
    assert PLinks(close) == Ok(([], close));
    assert [(e.cop, e.right)] + [] == [(e.cop, e.right)];
    assert PLinks(tail) == Ok(([(e.cop, e.right)], close));
    assert Chain(e.left, [(e.cop, e.right)]) == e;
  }

  lemma ConditionalStep(e: Expr, ts: Tokens, tail: Tokens, otherwise: Tokens, close: Tokens)
    requires e.Conditional? && tail != [] && tail[0] == Name("if") && close != [] && close[0] == P(RParen)
    requires PBin(OrTier, ts) == Ok((e.body, tail))
    requires PBin(OrTier, tail[1..]) == Ok((e.condition, otherwise))
    requires match e.orElse
             case None => otherwise == close
             case Some(o) =>
               otherwise != [] && otherwise[0] == Name("else") && PExpr(otherwise[1..]) == Ok((o, close))
    ensures PExpr(ts) == Ok((e, close))
  {
    hide PBin, PPrimary;
  }

  /** What follows the condition: the other branch, if there is one. */
  function Otherwise(e: Expr, close: Tokens): Tokens
    requires e.Conditional?
  {
    if e.orElse.Some? then [Name("else")] + (Atom(e.orElse.value) + close) else close
  }

  lemma ConditionalShape(e: Expr, close: Tokens)
    requires e.Conditional?
    ensures Body(e) + close == Atom(e.body) + ([Name("if")] + (Atom(e.condition) + Otherwise(e, close)))
  {
    hide Atom;
    if e.orElse.Some? {
      Push(Atom(e.body), [Name("if")] + (Atom(e.condition) + ([Name("else")] + Atom(e.orElse.value))), close);
      Push([Name("if")], Atom(e.condition) + ([Name("else")] + Atom(e.orElse.value)), close);
      Push(Atom(e.condition), [Name("else")] + Atom(e.orElse.value), close);
      Push([Name("else")], Atom(e.orElse.value), close);
    } else {
      Push(Atom(e.body), [Name("if")] + Atom(e.condition), close);
      Push([Name("if")], Atom(e.condition), close);
    }
  }

  lemma ClosingBinds(rest: Tokens)
    ensures Binds([P(RParen)] + rest) == 10
  {
  }

  lemma KeywordsBind(rest: Tokens)
    ensures Binds([Name("if")] + rest) == 9 && Binds([Name("else")] + rest) == 10
  {
  }

  lemma OtherwiseBinds(e: Expr, rest: Tokens)
    requires e.Conditional?
    ensures Binds(Otherwise(e, [P(RParen)] + rest)) == 10
  {
  }

  lemma ConditionalReads(e: Expr, body: Expr, condition: Expr, orElse: Option<Expr>, rest: Tokens)
    requires e.Conditional? && Clear(e.body) && Clear(e.condition) && (orElse.Some? <==> e.orElse.Some?)
    requires var close := [P(RParen)] + rest;
      var otherwise := Otherwise(e, close);
      var tail := [Name("if")] + (Atom(e.condition) + otherwise);
      && PPrimary(Atom(e.body) + tail) == Ok((body, tail))
      && PPrimary(Atom(e.condition) + otherwise) == Ok((condition, otherwise))
      && (e.orElse.Some? ==>
            Clear(e.orElse.value) && PPrimary(Atom(e.orElse.value) + close) == Ok((orElse.value, close)))
    ensures PPrimary(Atom(e) + rest) == Ok((Conditional(body, condition, orElse), rest))
  {
    hide Atom, PExpr, PBin, PPrimary, PUnary, PCompare, PNot, Binds, CompareAt;
    var close := [P(RParen)] + rest;
    var otherwise := Otherwise(e, close);
    var tail := [Name("if")] + (Atom(e.condition) + otherwise);
    ClosingBinds(rest);
    OtherwiseBinds(e, rest);
    KeywordsBind(Atom(e.condition) + otherwise);
    AtomOr(e.body, body, tail);
    AtomOr(e.condition, condition, otherwise);
    assert tail[1..] == Atom(e.condition) + otherwise;
    if e.orElse.Some? {
      AtomExpr(e.orElse.value, orElse.value, close);
      assert otherwise[1..] == Atom(e.orElse.value) + close;
    }
    ConditionalShape(e, close);
    ConditionalStep(Conditional(body, condition, orElse), Atom(e.body) + tail, tail, otherwise, close);
    Enclosed(e, Conditional(body, condition, orElse), rest);
  }

  // ---- The round trip on tokens ---------------------------------------------

  lemma ReadLeaf(e: Expr, rest: Tokens)
    requires WellFormed(e) && (e.Lit? || e.Var?)
    ensures PPrimary(Atom(e) + rest) == Ok((e, rest))
  {
    assert (Atom(e) + rest)[1..] == rest;
  }

  lemma ListReads(items: seq<Expr>, rest: Tokens)
    requires PList(RBracket, Items(items) + ([P(RBracket)] + rest)) == Ok((items, rest))
    ensures PPrimary(Atom(ListExpr(items)) + rest) == Ok((ListExpr(items), rest))
  {
    hide PExpr, PList, PEntries, Items;
    assert (Atom(ListExpr(items)) + rest)[1..] == Items(items) + ([P(RBracket)] + rest);
  }

  lemma {:induction false} ReadAtom(e: Expr, rest: Tokens)
    requires Good(e)
    ensures PPrimary(Atom(e) + rest) == Ok((e, rest))
    decreases e, 1
  {
    hide PExpr, PBin, PUnary, PPrimary, PList, PEntries, Atom;
    match e
    case Lit(_) => ReadLeaf(e, rest);
    case Var(_) => ReadLeaf(e, rest);
    case ListExpr(items) =>
      ReadList(items, RBracket, rest);
      ListReads(items, rest);
    case DictExpr(entries) => ReadDict(entries, rest);
    case _ => ReadBody(e, rest);
  }

  predicate IsPostfix(e: Expr) {
    e.Attribute? || e.Index? || e.Call? || e.Filter? || e.Test?
  }

  lemma {:induction false} ReadBody(e: Expr, rest: Tokens)
    requires Good(e) && IsBody(e)
    ensures PPrimary(Atom(e) + rest) == Ok((e, rest))
    decreases e, 0, 1
  {
    hide Atom, PExpr, PBin, PUnary, PList, PEntries, PPrimary, Items, Good;
    if IsPostfix(e) {
      ReadPostfix(e, rest);
    } else {
      ReadOperator(e, rest);
    }
  }

  lemma {:induction false} ReadPostfix(e: Expr, rest: Tokens)
    requires Good(e) && IsPostfix(e)
    ensures PPrimary(Atom(e) + rest) == Ok((e, rest))
    decreases e, 0, 0
  {
    hide Atom, PExpr, PBin, PUnary, PList, PEntries, PPrimary, Items;
    var close := [P(RParen)] + rest;
    match e
    case Attribute(t, a) =>
      ReadAtom(t, [P(Dot), Name(a)] + close);
      AttributeReads(e, t, rest);
    case Index(t, i) =>
      var inner := [P(RBracket)] + close;
      ReadAtom(t, [P(LBracket)] + (Atom(i) + inner));
      ReadAtom(i, inner);
      IndexReads(e, t, i, rest);
    case Call(t, args) =>
      ReadAtom(t, [P(LParen)] + (Items(args) + ([P(RParen)] + close)));
      ReadList(args, RParen, close);
      CallReads(e, t, args, rest);
    case Filter(t, f, args) =>
      ReadAtom(t, [Op(Pipe), Name(f), P(LParen)] + (Items(args) + ([P(RParen)] + close)));
      ReadList(args, RParen, close);
      FilterReads(e, t, args, rest);
    case Test(t, n, negated) =>
      ReadAtom(t, [Name("is")] + (TestWords(negated, n) + close));
      TestReads(e, t, rest);
  }

  lemma {:induction false} ReadOperator(e: Expr, rest: Tokens)
    requires Good(e) && (e.Unary? || e.Binary? || e.Compare? || e.Logical? || e.Conditional?)
    ensures PPrimary(Atom(e) + rest) == Ok((e, rest))
    decreases e, 0, 0
  {
    hide Atom, PExpr, PBin, PUnary, PList, PEntries, PPrimary, Items;
    var close := [P(RParen)] + rest;
    match e
    case Unary(op, x) =>
      ReadAtom(x, close);
      UnaryReads(e, x, rest);
    case Binary(op, l, r) =>
      ReadAtom(l, [BinaryToken(op)] + (Atom(r) + close));
      ReadAtom(r, close);
      BinaryReads(e, l, r, rest);
    case Compare(op, l, r) =>
      ReadAtom(l, CompareTokens(op) + (Atom(r) + close));
      ReadAtom(r, close);
      if IsIdentity(op) {
        IdentityReads(e, l, rest);
      } else {
        ComparisonReads(e, l, r, rest);
      }
    case Logical(op, l, r) =>
      ReadAtom(l, [LogicalToken(op)] + (Atom(r) + close));
      ReadAtom(r, close);
      LogicalReads(e, l, r, rest);
    case Conditional(b, c, o) =>
      var otherwise := Otherwise(e, close);
      ReadAtom(b, [Name("if")] + (Atom(c) + otherwise));
      ReadAtom(c, otherwise);
      if o.Some? {
        ReadAtom(o.value, close);
      }
      ConditionalReads(e, b, c, o, rest);
  }

  lemma {:induction false} ReadItems(es: seq<Expr>, rest: Tokens)
    requires es != [] && (forall k :: 0 <= k < |es| ==> Whole(es[k]))
    requires Binds(rest) == 10 && !AtPunct(rest, Comma)
    ensures PItems(Items(es) + rest) == Ok((es, rest))
    decreases es, 2
  {
    hide Atom;
    hide PExpr, PBin, POperand, PBinRest, PNot, PCompare, PLinks, PUnary, PPrimary, PPostfix, PFilters, PList;
    if |es| == 1 {
      ReadAtom(es[0], rest);
      AtomExpr(es[0], es[0], rest);
      assert [es[0]] == es;
    } else {
      var tail := [P(Comma)] + (Items(es[1..]) + rest);
      ReadAtom(es[0], tail);
      AtomExpr(es[0], es[0], tail);
      ReadItems(es[1..], rest);
      Push(Atom(es[0]), [P(Comma)] + Items(es[1..]), rest);
      Push([P(Comma)], Items(es[1..]), rest);
      assert tail[1..] == Items(es[1..]) + rest;
      assert [es[0]] + es[1..] == es;
    }
  }

  lemma {:induction false} ReadList(es: seq<Expr>, close: Punct, rest: Tokens)
    requires forall k :: 0 <= k < |es| ==> Whole(es[k])
    requires close == RParen || close == RBracket
    ensures PList(close, Items(es) + ([P(close)] + rest)) == Ok((es, rest))
    decreases es, 3
  {
    var tail := [P(close)] + rest;
    assert tail[1..] == rest;
    if es == [] {
      assert Items(es) + tail == tail;
    } else {
      ReadItems(es, tail);
      ItemsHead(es);
      assert (Items(es) + tail)[0] == Items(es)[0];
    }
  }

  lemma ItemsHead(es: seq<Expr>)
    requires es != []
    ensures Items(es) != [] && Items(es)[0] != P(RParen) && Items(es)[0] != P(RBracket)
  {
    AtomOpens(es[0]);
  }

  /** An atom begins with no closing mark and no comma. */
  lemma AtomOpens(e: Expr)
    ensures Atom(e) != [] && Atom(e)[0] !in {P(RParen), P(RBracket), P(RBrace), P(Comma), P(Colon)}
  {
  }

  lemma CommaBinds(rest: Tokens)
    ensures Binds([P(Comma)] + rest) == 10
  {
  }

  lemma {:induction false} ReadEntries(es: seq<(Expr, Expr)>, rest: Tokens)
    requires es != [] && forall k :: 0 <= k < |es| ==> Whole(es[k].0) && Whole(es[k].1)
    requires Binds(rest) == 10 && !AtPunct(rest, Comma)
    ensures PEntries(Entries(es) + rest) == Ok((es, rest))
    decreases es, 2
  {
    hide Entry, PEntry, Binds, Whole;
    CommaBinds(Entries(es[1..]) + rest);
    if |es| == 1 {
      ReadEntry(es[0], rest);
      assert [es[0]] == es;
    } else {
      var tail := [P(Comma)] + (Entries(es[1..]) + rest);
      ReadEntry(es[0], tail);
      ReadEntries(es[1..], rest);
      Push(Entry(es[0]), [P(Comma)] + Entries(es[1..]), rest);
      Push([P(Comma)], Entries(es[1..]), rest);
      assert tail[1..] == Entries(es[1..]) + rest;
      assert [es[0]] + es[1..] == es;
    }
  }

  lemma {:induction false} ReadEntry(entry: (Expr, Expr), rest: Tokens)
    requires Whole(entry.0) && Whole(entry.1) && Binds(rest) == 10
    ensures PEntry(Entry(entry) + rest) == Ok((entry, rest))
    decreases entry
  {
    hide Atom;
    hide PExpr, PPrimary;
    var tail := [P(Colon)] + (Atom(entry.1) + rest);
    Push(Atom(entry.0), [P(Colon)] + Atom(entry.1), rest);
    Push([P(Colon)], Atom(entry.1), rest);
    ReadAtom(entry.0, tail);
    AtomExpr(entry.0, entry.0, tail);
    assert tail[1..] == Atom(entry.1) + rest;
    ReadAtom(entry.1, rest);
    AtomExpr(entry.1, entry.1, rest);
  }

  lemma EntriesHead(es: seq<(Expr, Expr)>)
    requires es != []
    ensures Entries(es) != [] && Entries(es)[0] != P(RBrace)
  {
    AtomOpens(es[0].0);
    assert Entry(es[0])[0] == Atom(es[0].0)[0];
  }

  lemma NoEntries()
    ensures Entries([]) == []
  {
  }

  lemma {:induction false} ReadDict(es: seq<(Expr, Expr)>, rest: Tokens)
    requires forall k :: 0 <= k < |es| ==> Whole(es[k].0) && Whole(es[k].1)
    ensures PPrimary(Atom(DictExpr(es)) + rest) == Ok((DictExpr(es), rest))
    decreases es, 3
  {
    hide PExpr, PList, PEntries, Entries, Whole, KeywordLiteral;
    var ts := Atom(DictExpr(es)) + rest;
    var tail := [P(RBrace)] + rest;
    assert ts[1..] == Entries(es) + tail;
    assert tail[1..] == rest;
    if es == [] {
      NoEntries();
      assert ts[1..] == tail;
    } else {
      ReadEntries(es, tail);
      EntriesHead(es);
      assert (Entries(es) + tail)[0] == Entries(es)[0];
    }
  }

  // ---- The round trip on text ------------------------------------------------

  lemma {:induction false} AtomTokens(e: Expr)
    requires WellFormed(e)
    ensures TokensOk(Atom(e))
    decreases e, 1
  {
    hide Body, Items, Entries;
    match e
    case Lit(_) =>
    case Var(_) =>
    case ListExpr(items) => ItemsTokens(items);
    case DictExpr(entries) => EntriesTokens(entries);
    case _ => BodyTokens(e);
  }

  lemma Both(a: Tokens, b: Tokens)
    requires TokensOk(a) && TokensOk(b)
    ensures TokensOk(a + b)
  {
  }

  lemma {:induction false} BodyTokens(e: Expr)
    requires WellFormed(e) && IsBody(e)
    ensures TokensOk(Body(e))
    decreases e, 0, 1
  {
    hide Atom, Body, TokensOk;
    if IsPostfix(e) {
      PostfixTokens(e);
    } else {
      OperatorTokens(e);
    }
  }

  lemma {:induction false} PostfixTokens(e: Expr)
    requires WellFormed(e) && IsPostfix(e)
    ensures TokensOk(Body(e))
    decreases e, 0, 0
  {
    hide Atom, Items;
    match e
    case Attribute(t, a) => AtomTokens(t); Both(Atom(t), [P(Dot), Name(a)]);
    case Index(t, i) =>
      OperandTokens(t, [P(LBracket)], i);
      Both(Atom(i), [P(RBracket)]);
      Three(Atom(t), [P(LBracket)], Atom(i) + [P(RBracket)]);
    case Call(t, args) =>
      AtomTokens(t);
      ItemsTokens(args);
      Both(Items(args), [P(RParen)]);
      Three(Atom(t), [P(LParen)], Items(args) + [P(RParen)]);
    case Filter(t, f, args) =>
      AtomTokens(t);
      ItemsTokens(args);
      Both(Items(args), [P(RParen)]);
      Three(Atom(t), [Op(Pipe), Name(f), P(LParen)], Items(args) + [P(RParen)]);
    case Test(t, n, negated) =>
      AtomTokens(t);
      Three(Atom(t), [Name("is")], if negated then [Name("not"), Name(n)] else [Name(n)]);
  }

  lemma {:induction false} OperatorTokens(e: Expr)
    requires WellFormed(e) && (e.Unary? || e.Binary? || e.Compare? || e.Logical? || e.Conditional?)
    ensures TokensOk(Body(e))
    decreases e, 0, 0
  {
    hide Atom, Items;
    match e
    case Unary(op, x) => AtomTokens(x); Both([UnaryToken(op)], Atom(x));
    case Binary(op, l, r) => OperandTokens(l, [BinaryToken(op)], r);
    case Compare(op, l, r) => OperandTokens(l, CompareTokens(op), r);
    case Logical(op, l, r) => OperandTokens(l, [Name(if op == BAnd then "and" else "or")], r);
    case Conditional(b, c, o) =>
      OperandTokens(b, [Name("if")], c);
      if o.Some? {
        OperandTokens(c, [Name("else")], o.value);
        Three(Atom(b), [Name("if")], Atom(c) + ([Name("else")] + Atom(o.value)));
      }
  }

  lemma Three(a: Tokens, b: Tokens, c: Tokens)
    requires TokensOk(a) && TokensOk(b) && TokensOk(c)
    ensures TokensOk(a + (b + c))
  {
    Both(b, c);
    Both(a, b + c);
  }

  lemma {:induction false} OperandTokens(l: Expr, t: Tokens, r: Expr)
    requires WellFormed(l) && WellFormed(r) && TokensOk(t)
    ensures TokensOk(Atom(l)) && TokensOk(Atom(r)) && TokensOk(Atom(l) + (t + Atom(r)))
    decreases if l < r then r else l, 2
  {
    AtomTokens(l);
    AtomTokens(r);
    Three(Atom(l), t, Atom(r));
  }

  lemma {:induction false} ItemsTokens(es: seq<Expr>)
    requires forall k :: 0 <= k < |es| ==> WellFormed(es[k])
    ensures TokensOk(Items(es))
    decreases es, 2
  {
    if es != [] {
      AtomTokens(es[0]);
      ItemsTokens(es[1..]);
    }
  }

  lemma {:induction false} EntriesTokens(es: seq<(Expr, Expr)>)
    requires forall k :: 0 <= k < |es| ==> WellFormed(es[k].0) && WellFormed(es[k].1)
    ensures TokensOk(Entries(es))
    decreases es, 2
  {
    if es != [] {
      EntryTokens(es[0]);
      EntriesTokens(es[1..]);
    }
  }

  lemma {:induction false} EntryTokens(entry: (Expr, Expr))
    requires WellFormed(entry.0) && WellFormed(entry.1)
    ensures TokensOk(Atom(entry.0)) && TokensOk(Atom(entry.1))
    decreases entry
  {
    AtomTokens(entry.0);
    AtomTokens(entry.1);
  }

  /** A tree of the language whose `not` variables stand where they can be read is read back from its text. */
  lemma ReadRendered(e: Expr)
    requires Whole(e)
    ensures Parse(Render(e)) == Ok(e)
  {
    hide PBin, PPrimary, Atom, ExprScanning.SpellAll;
    AtomTokens(e);
    ExprScanning.LexSpelled(Atom(e));
    ReadAtom(e, []);
    AtomExpr(e, e, []);
    assert Atom(e) + [] == Atom(e);
  }

  lemma {:induction false} EmptyFails(l: nat)
    requires l < 10
    ensures Level(l, []).Err?
  {
    if l > 0 {
      EmptyFails(l - 1);
      if l in {2, 3, 4, 7, 8} {
        OperandLevel(match l case 2 => Math2Tier case 3 => ConcatTier case 4 => Math1Tier
                             case 7 => AndTier case _ => OrTier, []);
      }
    }
  }
}
