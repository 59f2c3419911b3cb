/**
 * The rendering with no more parentheses than the tree asks for: a part is parenthesised only where it binds looser
 * than its place allows. The places are given by the precedence and associativity of trees alone; that the parser
 * reads every such rendering back pins each tier of the ladder, its order, and the loops that lean left.
 */
module ExprMinimal {
  import opened Common
  import opened ExprSyntax
  import opened ExprGrammar
  import opened ExprRoundTrip
  import ExprScanning
  import ExprLexer

  // ---- Precedence and associativity of trees ---------------------------------

  function BinaryLevel(op: BinaryOp): nat {
    match op
    case BAdd => 6
    case BSub => 6
    case BConcat => 5
    case _ => 4
  }

  /** How loosely a tree binds: 0 for what stands alone, 11 for the inline conditional. */
  function Tight(e: Expr): (k: nat)
    ensures k <= 11
  {
    match e
    case Lit(_) => 0
    case Var(_) => 0
    case ListExpr(_) => 0
    case DictExpr(_) => 0
    case Attribute(_, _) => 1
    case Index(_, _) => 1
    case Call(_, _) => 1
    case Filter(_, _, _) => 2
    case Test(_, _, _) => 2
    case Unary(op, _) => if op == UNot then 8 else 3
    case Binary(op, _, _) => BinaryLevel(op)
    case Compare(op, _, _) => if IsIdentity(op) then 2 else 7
    case Logical(op, _, _) => if op == BAnd then 9 else 10
    case Conditional(_, _, _) => 11
  }

  /** The part `e` in a place that takes level `k` at most. */
  function Slot(k: nat, e: Expr): Tokens
    decreases e, 1
  {
    if Tight(e) <= k then Bare(e) else [P(LParen)] + (Bare(e) + [P(RParen)])
  }

  /** Left operands take the level of their operator, right ones the next tighter: operators lean left. */
  function Bare(e: Expr): Tokens
    decreases e, 0
  {
    match e
    case Lit(l) => [LiteralToken(l)]
    case Var(x) => [Name(x)]
    case ListExpr(items) => [P(LBracket)] + (Listed(items) + [P(RBracket)])
    case DictExpr(entries) => [P(LBrace)] + (Paired(entries) + [P(RBrace)])
    case Attribute(t, a) => Slot(1, t) + [P(Dot), Name(a)]
    case Index(t, i) => Slot(1, t) + ([P(LBracket)] + (Slot(11, i) + [P(RBracket)]))
    case Call(t, args) => Slot(1, t) + ([P(LParen)] + (Listed(args) + [P(RParen)]))
    case Filter(t, f, args) =>
      Slot(2, t) + ([Op(Pipe), Name(f)] + (if args == [] then [] else [P(LParen)] + (Listed(args) + [P(RParen)])))
    case Test(t, n, negated) => Slot(2, t) + ([Name("is")] + TestWords(negated, n))
    case Unary(op, x) => [UnaryToken(op)] + Slot(if op == UNot then 8 else 3, x)
    case Binary(op, l, r) => Slot(BinaryLevel(op), l) + ([BinaryToken(op)] + Slot(BinaryLevel(op) - 1, r))
    case Compare(op, l, r) =>
      if IsIdentity(op) then Slot(2, l) + (CompareTokens(op) + Slot(0, r))
      else Slot(6, l) + (CompareTokens(op) + Slot(6, r))
    case Logical(op, l, r) =>
      var k := if op == BAnd then 9 else 10;
      Slot(k, l) + ([LogicalToken(op)] + Slot(k - 1, r))
    case Conditional(b, c, None) => Slot(10, b) + ([Name("if")] + Slot(10, c))
    case Conditional(b, c, Some(o)) => Slot(10, b) + ([Name("if")] + (Slot(10, c) + ([Name("else")] + Slot(11, o))))
  }

  function Listed(es: seq<Expr>): Tokens
    decreases es, 2
  {
    if es == [] then []
    else if |es| == 1 then Slot(11, es[0])
    else Slot(11, es[0]) + ([P(Comma)] + Listed(es[1..]))
  }

  function Pair(entry: (Expr, Expr)): Tokens
    decreases entry
  {
    Slot(11, entry.0) + ([P(Colon)] + Slot(11, entry.1))
  }

  function Paired(es: seq<(Expr, Expr)>): Tokens
    decreases es, 2
  {
    if es == [] then []
    else if |es| == 1 then Pair(es[0])
    else Pair(es[0]) + ([P(Comma)] + Paired(es[1..]))
  }

  ghost function MinimalRender(e: Expr): string {
    ExprScanning.SpellAll(Bare(e))
  }

  // ---- The ladder, with the loops of the postfix level apart -----------------

  function Postfixed(ts: Tokens): Parsed {
    var (node, rest) :- PPrimary(ts);
    PPostfix(node, rest)
  }

  function TierAt(k: nat): Tier {
    match k
    case 4 => Math2Tier
    case 5 => ConcatTier
    case 6 => Math1Tier
    case 9 => AndTier
    case _ => OrTier
  }

  predicate IsTier(k: nat) {
    k in {4, 5, 6, 9, 10}
  }

  function Reads(k: nat, ts: Tokens): Parsed
    requires k <= 11
  {
    if k == 0 then PPrimary(ts)
    else if k == 1 then Postfixed(ts)
    else if k <= 3 then PUnary(ts)
    else if k == 7 then PCompare(ts)
    else if k == 8 then PNot(ts)
    else if k == 11 then PExpr(ts)
    else PBin(TierAt(k), ts)
  }

  /** What reading at level `k` becomes once `e` has been read: the loop of that level goes on from `e`. */
  function Resume(k: nat, e: Expr, rest: Tokens): Parsed {
    if k == 1 then PPostfix(e, rest)
    else if k == 2 then PFilters(e, rest)
    else if IsTier(k) then PBinRest(TierAt(k), e, rest)
    else Ok((e, rest))
  }

  /** The level whose loop would take the head of `ts`, or 12 when none would. */
  function Pull(ts: Tokens): nat {
    if ts == [] then 12
    else if ts[0] in {P(Dot), P(LBracket), P(LParen)} then 1
    else if ts[0] in {Op(Pipe), Name("is")} then 2
    else if Joins(Math2Tier, ts[0]) then 4
    else if Joins(ConcatTier, ts[0]) then 5
    else if Joins(Math1Tier, ts[0]) then 6
    else if CompareAt(ts).Some? then 7
    else if ts[0] == Name("and") then 9
    else if ts[0] == Name("or") then 10
    else if ts[0] == Name("if") then 11
    else 12
  }

  /** Nothing tighter than level `k` goes on at `rest`; `else` belongs to the conditional that is open. */
  predicate Halts(k: nat, rest: Tokens) {
    if k == 7 then Pull(rest) > 7
    else if k == 11 then Pull(rest) > 11 && !AtName(rest, "else")
    else Pull(rest) >= k
  }

  /** No prefix operator of level `k` stands at the head. */
  predicate Heads(k: nat, ts: Tokens) {
    && ts != []
    && (k == 2 ==> ts[0] != Op(Minus) && ts[0] != Op(Plus))
    && (k == 8 ==> ts[0] != Name("not"))
  }

  lemma Stops(k: nat, e: Expr, rest: Tokens)
    requires k <= 11 && Pull(rest) > k
    ensures Resume(k, e, rest) == Ok((e, rest))
  {
  }

  lemma TierStep(k: nat, ts: Tokens, e: Expr, rest: Tokens)
    requires k < 11 && IsTier(k + 1) && Reads(k, ts) == Ok((e, rest))
    ensures Reads(k + 1, ts) == Resume(k + 1, e, rest)
  {
    hide Reads, PBinRest, POperand;
    OperandIs(k + 1, ts);
    TierIs(k + 1, ts);
  }

  lemma TierIs(k: nat, ts: Tokens)
    requires k <= 11 && IsTier(k)
    ensures var left := POperand(TierAt(k), ts);
      Reads(k, ts) == if left.Err? then Err(left.error) else PBinRest(TierAt(k), left.value.0, left.value.1)
  {
    hide PBinRest, POperand;
  }

  lemma OperandIs(k: nat, ts: Tokens)
    requires k <= 11 && IsTier(k)
    ensures POperand(TierAt(k), ts) == Reads(k - 1, ts)
  {
    hide PUnary, PNot, PBinRest;
  }

  lemma StepUp(k: nat, ts: Tokens, e: Expr, rest: Tokens)
    requires k < 11 && Reads(k, ts) == Resume(k, e, rest) && Halts(k + 1, rest) && Heads(k + 1, ts)
    ensures Reads(k + 1, ts) == Resume(k + 1, e, rest)
  {
    hide Reads, Resume, Pull, Heads, IsTier;
    Stops(k, e, rest);
    if IsTier(k + 1) {
      TierStep(k, ts, e, rest);
    } else {
      LoneStep(k, ts, e, rest);
    }
  }

  lemma LoneStep(k: nat, ts: Tokens, e: Expr, rest: Tokens)
    requires k < 11 && !IsTier(k + 1) && Reads(k, ts) == Ok((e, rest)) && Halts(k + 1, rest) && Heads(k + 1, ts)
    ensures Reads(k + 1, ts) == Resume(k + 1, e, rest)
  {
    hide PPrimary, PBin, PList, PUnary, PCompare, PNot, PExpr, PPostfix, PFilters, Pull;
    if k == 0 {
      assert Reads(1, ts) == PPostfix(e, rest);
    } else if k == 1 {
      UnsignedReads(ts);
    } else if k == 6 {
      CompareStops(ts, e, rest);
    } else if k == 7 {
      NotStops(ts);
    } else if k == 10 {
      ExprStops(ts, e, rest);
    } else {
      assert k == 2;
    }
  }

  lemma UnsignedReads(ts: Tokens)
    requires Heads(2, ts)
    ensures var read := Postfixed(ts);
      PUnary(ts) == if read.Err? then Err(read.error) else PFilters(read.value.0, read.value.1)
  {
    hide PPrimary, PPostfix, PFilters;
  }

  lemma CompareStops(ts: Tokens, e: Expr, rest: Tokens)
    requires PBin(Math1Tier, ts) == Ok((e, rest)) && Pull(rest) > 7
    ensures PCompare(ts) == Ok((e, rest))
  {
    hide PBin;
    assert PLinks(rest) == Ok(([], rest));
    assert Chain(e, []) == e;
  }

  lemma NotStops(ts: Tokens)
    requires Heads(8, ts)
    ensures PNot(ts) == PCompare(ts)
  {
    hide PCompare;
  }

  lemma ExprStops(ts: Tokens, e: Expr, rest: Tokens)
    requires PBin(OrTier, ts) == Ok((e, rest)) && Pull(rest) > 11
    ensures PExpr(ts) == Ok((e, rest))
  {
    hide PBin;
  }

  lemma {:induction false} ClimbUp(j: nat, k: nat, ts: Tokens, e: Expr, rest: Tokens)
    requires j <= k <= 11 && Reads(j, ts) == Resume(j, e, rest) && Halts(k, rest)
    requires forall i :: j < i <= k ==> Heads(i, ts)
    ensures Reads(k, ts) == Resume(k, e, rest)
    decreases k - j
  {
    hide Reads, Resume, Heads, Pull;
    if j < k {
      StepUp(j, ts, e, rest);
      ClimbUp(j + 1, k, ts, e, rest);
    }
  }

  // ---- What a rendering begins with ------------------------------------------

  lemma SlotHead(k: nat, e: Expr)
    requires Bare(e) != []
    ensures Slot(k, e) != []
    ensures Slot(k, e)[0] == if Tight(e) <= k then Bare(e)[0] else P(LParen)
  {
    hide Bare;
  }

  /** The part a rendering begins with, and its place, if it does not begin with a token of its own. */
  function Front(e: Expr): Option<(nat, Expr)> {
    match e
    case Attribute(t, _) => Some((1, t))
    case Index(t, _) => Some((1, t))
    case Call(t, _) => Some((1, t))
    case Filter(t, _, _) => Some((2, t))
    case Test(t, _, _) => Some((2, t))
    case Binary(op, l, _) => Some((BinaryLevel(op), l))
    case Compare(op, l, _) => Some((if IsIdentity(op) then 2 else 6, l))
    case Logical(op, l, _) => Some((if op == BAnd then 9 else 10, l))
    case Conditional(b, _, _) => Some((10, b))
    case _ => None
  }

  lemma FrontLeads(e: Expr)
    requires Front(e).Some? && Slot(Front(e).value.0, Front(e).value.1) != []
    ensures Bare(e) != [] && Bare(e)[0] == Slot(Front(e).value.0, Front(e).value.1)[0]
    ensures Front(e).value.0 <= Tight(e) && (Heard(e) ==> Heard(Front(e).value.1) && Clear(Front(e).value.1))
  {
    hide Slot, Listed;
  }

  lemma {:induction false} BareHead(e: Expr)
    ensures Bare(e) != []
    ensures Tight(e) <= 2 ==> Bare(e)[0] != Op(Minus) && Bare(e)[0] != Op(Plus)
    ensures Tight(e) <= 7 && Clear(e) && Heard(e) ==> Bare(e)[0] != Name("not")
    ensures Bare(e)[0] !in {P(RParen), P(RBracket), P(RBrace), P(Comma), P(Colon)}
    decreases e
  {
    if Front(e).Some? {
      hide Bare, Slot, Heard;
      var (k, first) := Front(e).value;
      FrontSmaller(e);
      BareHead(first);
      SlotHead(k, first);
      FrontLeads(e);
    }
  }

  lemma FrontSmaller(e: Expr)
    requires Front(e).Some?
    ensures Front(e).value.1 < e
  {
  }

  // ---- Reading a rendering ---------------------------------------------------

  /** A tree read back at level `k`: one of the language, with its variables `not` where they can be read. */
  ghost predicate Legible(k: nat, e: Expr) {
    Good(e) && (k >= 8 ==> Clear(e))
  }

  /** Whatever follows, an unparenthesised part is read, and the loop of its level goes on from it. */
  lemma {:induction false} BareReads(k: nat, e: Expr, rest: Tokens)
    requires Tight(e) <= k <= 11 && Legible(k, e) && Halts(k, rest)
    ensures Reads(k, Bare(e) + rest) == Resume(k, e, rest)
    decreases e, 1, k
  {
    hide Reads, Resume, Bare, Pull, Good;
    if Tight(e) == k {
      OwnReads(e, rest);
    } else {
      BareReads(k - 1, e, rest);
      BareHead(e);
      GoodIsHeard(e);
      StepUp(k - 1, Bare(e) + rest, e, rest);
    }
  }

  lemma GoodIsHeard(e: Expr)
    requires Good(e)
    ensures Heard(e) && WellFormed(e)
  {
  }

  lemma {:induction false} SlotReads(k: nat, e: Expr, rest: Tokens)
    requires k <= 11 && Legible(k, e) && Halts(k, rest)
    ensures Reads(k, Slot(k, e) + rest) == Resume(k, e, rest)
    decreases e, 2
  {
    hide Reads, Resume, Bare, Pull, Good;
    if Tight(e) <= k {
      BareReads(k, e, rest);
    } else {
      var close := [P(RParen)] + rest;
      CloseHalts(P(RParen), rest);
      LooseIsClear(e);
      BareReads(11, e, close);
      ParenthesesSlot(Bare(e), e, rest);
      Push([P(LParen)], Bare(e) + [P(RParen)], rest);
      Push(Bare(e), [P(RParen)], rest);
      ClimbUp(0, k, Slot(k, e) + rest, e, rest);
    }
  }

  lemma LooseIsClear(e: Expr)
    requires Tight(e) > 0
    ensures Clear(e)
  {
  }

  lemma CloseHalts(t: Token, rest: Tokens)
    requires t in {P(RParen), P(RBracket), P(RBrace), P(Comma), P(Colon)}
    ensures Pull([t] + rest) == 12 && Halts(11, [t] + rest)
  {
  }

  lemma ParenthesesSlot(inner: Tokens, e: Expr, rest: Tokens)
    requires Reads(11, inner + ([P(RParen)] + rest)) == Resume(11, e, [P(RParen)] + rest)
    ensures Reads(0, [P(LParen)] + (inner + ([P(RParen)] + rest))) == Resume(0, e, rest)
  {
    hide PExpr, PPrimary;
    ParenthesesRead(inner + ([P(RParen)] + rest), e, rest);
  }

  /** One node, at its own level. */
  lemma {:induction false} OwnReads(e: Expr, rest: Tokens)
    requires Legible(Tight(e), e) && Halts(Tight(e), rest)
    ensures Reads(Tight(e), Bare(e) + rest) == Resume(Tight(e), e, rest)
    decreases e, 0, 1
  {
    hide Reads, Resume, Bare, Slot, Good, Heard, WellFormed, Pull, Halts;
    match e
    case Lit(_) => LeafOwn(e, rest);
    case Var(_) => LeafOwn(e, rest);
    case ListExpr(_) => DisplayOwn(e, rest);
    case DictExpr(_) => DisplayOwn(e, rest);
    case Attribute(_, _) => PostfixOwn(e, rest);
    case Index(_, _) => PostfixOwn(e, rest);
    case Call(_, _) => PostfixOwn(e, rest);
    case Filter(_, _, _) => FilterOwn(e, rest);
    case Test(_, _, _) => TestOwn(e, rest);
    case Unary(_, _) => UnaryOwn(e, rest);
    case Binary(_, _, _) => BinaryOwn(e, rest);
    case Compare(op, _, _) =>
      if IsIdentity(op) {
        IdentityOwn(e, rest);
      } else {
        CompareOwn(e, rest);
      }
    case Logical(_, _, _) => LogicalOwn(e, rest);
    case Conditional(_, _, _) => ConditionalOwn(e, rest);
  }

  lemma LeafOwn(e: Expr, rest: Tokens)
    requires (e.Lit? || e.Var?) && Good(e)
    ensures Reads(0, Bare(e) + rest) == Resume(0, e, rest)
  {
    ReadLeaf(e, rest);
    assert Bare(e) == Atom(e);
  }

  lemma {:induction false} DisplayOwn(e: Expr, rest: Tokens)
    requires (e.ListExpr? || e.DictExpr?) && Good(e)
    ensures Reads(0, Bare(e) + rest) == Resume(0, e, rest)
    decreases e, 0, 0
  {
    hide PPrimary, PList, PEntries, Listed, Paired;
    if e.ListExpr? {
      var inner := Listed(e.items) + ([P(RBracket)] + rest);
      ListedReads(e.items, RBracket, rest);
      Push([P(LBracket)], Listed(e.items) + [P(RBracket)], rest);
      Push(Listed(e.items), [P(RBracket)], rest);
      ListPrimary(e.items, inner, rest);
    } else {
      PairedDict(e.entries, rest);
      Push([P(LBrace)], Paired(e.entries) + [P(RBrace)], rest);
      Push(Paired(e.entries), [P(RBrace)], rest);
    }
  }

  lemma ListPrimary(items: seq<Expr>, inner: Tokens, rest: Tokens)
    requires PList(RBracket, inner) == Ok((items, rest))
    ensures PPrimary([P(LBracket)] + inner) == Ok((ListExpr(items), rest))
  {
    hide PExpr, PList, PEntries;
    assert ([P(LBracket)] + inner)[1..] == inner;
  }

  lemma {:induction false} PostfixOwn(e: Expr, rest: Tokens)
    requires (e.Attribute? || e.Index? || e.Call?) && Good(e)
    ensures Reads(1, Bare(e) + rest) == Resume(1, e, rest)
    decreases e, 0, 0
  {
    hide Reads, Slot, Listed, PPostfix, PExpr, PList, Pull;
    if e.Attribute? {
      var tail := [P(Dot), Name(e.attr)] + rest;
      PullPostfix(tail);
      SlotReads(1, e.target, tail);
      Push(Slot(1, e.target), [P(Dot), Name(e.attr)], rest);
      AttributeStep(e.target, e.attr, rest);
    } else if e.Index? {
      var inner := [P(RBracket)] + rest;
      var tail := [P(LBracket)] + (Slot(11, e.index) + inner);
      PullPostfix(tail);
      CloseHalts(P(RBracket), rest);
      SlotReads(1, e.target, tail);
      SlotReads(11, e.index, inner);
      Push(Slot(1, e.target), [P(LBracket)] + (Slot(11, e.index) + [P(RBracket)]), rest);
      Push([P(LBracket)], Slot(11, e.index) + [P(RBracket)], rest);
      Push(Slot(11, e.index), [P(RBracket)], rest);
      IndexStep(e.target, e.index, Slot(11, e.index) + inner, rest);
    } else {
      var list := Listed(e.args) + ([P(RParen)] + rest);
      var tail := [P(LParen)] + list;
      PullPostfix(tail);
      SlotReads(1, e.target, tail);
      ListedReads(e.args, RParen, rest);
      Push(Slot(1, e.target), [P(LParen)] + (Listed(e.args) + [P(RParen)]), rest);
      Push([P(LParen)], Listed(e.args) + [P(RParen)], rest);
      Push(Listed(e.args), [P(RParen)], rest);
      CallStep(e.target, e.args, list, rest);
    }
  }

  lemma PullPostfix(tail: Tokens)
    requires tail != [] && tail[0] in {P(Dot), P(LBracket), P(LParen)}
    ensures Halts(1, tail)
  {
  }

  lemma AttributeStep(t: Expr, name: string, rest: Tokens)
    ensures PPostfix(t, [P(Dot), Name(name)] + rest) == PPostfix(Attribute(t, name), rest)
  {
    var tail := [P(Dot), Name(name)] + rest;
    assert tail[1..][1..] == rest;
  }

  lemma IndexStep(t: Expr, i: Expr, inner: Tokens, rest: Tokens)
    requires Reads(11, inner) == Resume(11, i, [P(RBracket)] + rest)
    ensures PPostfix(t, [P(LBracket)] + inner) == PPostfix(Index(t, i), rest)
  {
    hide PExpr;
    assert ([P(LBracket)] + inner)[1..] == inner;
    assert ([P(RBracket)] + rest)[1..] == rest;
  }

  lemma CallStep(t: Expr, args: seq<Expr>, list: Tokens, rest: Tokens)
    requires PList(RParen, list) == Ok((args, rest))
    ensures PPostfix(t, [P(LParen)] + list) == PPostfix(Call(t, args), rest)
  {
    hide PList;
    assert ([P(LParen)] + list)[1..] == list;
  }

  lemma {:induction false} FilterOwn(e: Expr, rest: Tokens)
    requires e.Filter? && Good(e) && Halts(2, rest)
    ensures Reads(2, Bare(e) + rest) == Resume(2, e, rest)
    decreases e, 0, 0
  {
    hide Reads, Slot, Listed, PFilters, PList, Pull;
    var head := [Op(Pipe), Name(e.filter)];
    if e.args == [] {
      PullFilter(head + rest);
      SlotReads(2, e.target, head + rest);
      assert head + [] == head;
      Push(Slot(2, e.target), head, rest);
      PlainFilterStep(e.target, e.filter, rest);
    } else {
      var list := Listed(e.args) + ([P(RParen)] + rest);
      PullFilter(head + ([P(LParen)] + list));
      SlotReads(2, e.target, head + ([P(LParen)] + list));
      ListedReads(e.args, RParen, rest);
      Push(Slot(2, e.target), head + ([P(LParen)] + (Listed(e.args) + [P(RParen)])), rest);
      Push(head, [P(LParen)] + (Listed(e.args) + [P(RParen)]), rest);
      Push([P(LParen)], Listed(e.args) + [P(RParen)], rest);
      Push(Listed(e.args), [P(RParen)], rest);
      CalledFilterStep(e.target, e.filter, e.args, list, rest);
    }
  }

  lemma PullFilter(tail: Tokens)
    requires tail != [] && tail[0] in {Op(Pipe), Name("is")}
    ensures Halts(2, tail)
  {
  }

  lemma PlainFilterStep(t: Expr, f: string, rest: Tokens)
    requires Halts(2, rest)
    ensures PFilters(t, [Op(Pipe), Name(f)] + rest) == PFilters(Filter(t, f, []), rest)
  {
    var tail := [Op(Pipe), Name(f)] + rest;
    assert tail[1..][1..] == rest;
    assert PFilter(t, tail) == Ok((Filter(t, f, []), rest));
  }

  lemma CalledFilterStep(t: Expr, f: string, args: seq<Expr>, list: Tokens, rest: Tokens)
    requires PList(RParen, list) == Ok((args, rest))
    ensures PFilters(t, [Op(Pipe), Name(f)] + ([P(LParen)] + list)) == PFilters(Filter(t, f, args), rest)
  {
    hide PList;
    var tail := [Op(Pipe), Name(f)] + ([P(LParen)] + list);
    assert tail[1..][1..] == [P(LParen)] + list;
    assert ([P(LParen)] + list)[1..] == list;
    assert PFilter(t, tail) == Ok((Filter(t, f, args), rest));
  }

  lemma {:induction false} TestOwn(e: Expr, rest: Tokens)
    requires e.Test? && Good(e) && Halts(2, rest)
    ensures Reads(2, Bare(e) + rest) == Resume(2, e, rest)
    decreases e, 0, 0
  {
    hide Reads, Slot, PFilters, PTest, Pull;
    var words := TestWords(e.negated, e.test);
    var tail := [Name("is")] + (words + rest);
    PullFilter(tail);
    SlotReads(2, e.target, tail);
    Push(Slot(2, e.target), [Name("is")] + words, rest);
    Push([Name("is")], words, rest);
    ReadTestTail(e.target, e.test, e.negated, rest);
    TestGoesOn(e.target, tail, e, rest);
  }

  lemma TestGoesOn(t: Expr, tail: Tokens, e: Expr, rest: Tokens)
    requires tail != [] && tail[0] == Name("is") && PTest(t, tail) == Ok((e, rest))
    ensures PFilters(t, tail) == PFilters(e, rest)
  {
    hide PTest;
  }

  lemma {:induction false} IdentityOwn(e: Expr, rest: Tokens)
    requires e.Compare? && IsIdentity(e.cop) && Good(e) && Halts(2, rest)
    ensures Reads(2, Bare(e) + rest) == Resume(2, e, rest)
    decreases e, 0, 0
  {
    hide Reads, PFilters, PTest, Pull, CompareTokens;
    var word := Atom(e.right);
    assert Slot(0, e.right) == word;
    var tail := CompareTokens(e.cop) + (word + rest);
    ReadIdentity(e, tail, rest);
    PullFilter(tail);
    SlotReads(2, e.left, tail);
    Push(Slot(2, e.left), CompareTokens(e.cop) + word, rest);
    Push(CompareTokens(e.cop), word, rest);
    TestGoesOn(e.left, tail, e, rest);
  }

  lemma {:induction false} UnaryOwn(e: Expr, rest: Tokens)
    requires e.Unary? && Good(e) && Halts(Tight(e), rest)
    ensures Reads(Tight(e), Bare(e) + rest) == Resume(Tight(e), e, rest)
    decreases e, 0, 0
  {
    hide Slot, PUnary, PNot, PCompare, PPostfix, PFilters, Pull;
    var k := Tight(e);
    var tokens := Slot(k, e.operand) + rest;
    SlotReads(k, e.operand, rest);
    Push([UnaryToken(e.uop)], Slot(k, e.operand), rest);
    if e.uop == UNot {
      NotStep(e.operand, tokens, rest);
    } else {
      SignStep(e, tokens, rest);
    }
  }

  lemma NotStep(x: Expr, tokens: Tokens, rest: Tokens)
    requires PNot(tokens) == Ok((x, rest))
    ensures PNot([Name("not")] + tokens) == Ok((Unary(UNot, x), rest))
  {
    hide PCompare;
    assert ([Name("not")] + tokens)[1..] == tokens;
  }

  lemma SignStep(e: Expr, tokens: Tokens, rest: Tokens)
    requires e.Unary? && e.uop != UNot && PUnary(tokens) == Ok((e.operand, rest)) && Halts(3, rest)
    ensures PUnary([UnaryToken(e.uop)] + tokens) == Ok((e, rest))
  {
    var ts := [UnaryToken(e.uop)] + tokens;
    assert ts[1..] == tokens;
    Stops(1, e, rest);
    Stops(2, e, rest);
    SignUnfolds(e, ts, tokens, rest);
  }

  lemma SignUnfolds(e: Expr, ts: Tokens, tokens: Tokens, rest: Tokens)
    requires e.Unary? && e.uop != UNot && ts == [UnaryToken(e.uop)] + tokens && ts[1..] == tokens
    requires PUnary(tokens) == Ok((e.operand, rest))
    requires PPostfix(e, rest) == Ok((e, rest)) && PFilters(e, rest) == Ok((e, rest))
    ensures PUnary(ts) == Ok((e, rest))
  {
    hide PPrimary, PPostfix, PFilters;
  }

  /** `l op r` at the tier of `op`: the loop reads on from the left operand, and goes on from the pair. */
  lemma {:induction false} JoinedOwn(k: nat, e: Expr, l: Expr, t: Token, r: Expr, rest: Tokens)
    requires IsTier(k) && Joins(TierAt(k), t) && e == Join(TierAt(k), t, l, r) && l < e && r < e
    requires Legible(k, l) && Legible(k - 1, r) && Halts(k, rest)
    ensures Reads(k, Slot(k, l) + ([t] + (Slot(k - 1, r) + rest))) == Resume(k, e, rest)
    decreases e, -1
  {
    hide Slot, Pull, Join, Joins, PBinRest, PUnary, PNot, PCompare, Legible;
    var tokens := Slot(k - 1, r) + rest;
    TierPulls(k, t, tokens);
    SlotReads(k, l, [t] + tokens);
    SlotReads(k - 1, r, rest);
    Stops(k - 1, r, rest);
    TierTakes(k, e, l, t, r, tokens, rest);
  }

  lemma TierPulls(k: nat, t: Token, tokens: Tokens)
    requires IsTier(k) && Joins(TierAt(k), t)
    ensures Pull([t] + tokens) == k
  {
  }

  lemma TierTakes(k: nat, e: Expr, l: Expr, t: Token, r: Expr, tokens: Tokens, rest: Tokens)
    requires k <= 11 && IsTier(k) && Joins(TierAt(k), t) && e == Join(TierAt(k), t, l, r)
    requires Reads(k - 1, tokens) == Ok((r, rest))
    ensures PBinRest(TierAt(k), l, [t] + tokens) == PBinRest(TierAt(k), e, rest)
  {
    hide Join, Joins, PUnary, PNot;
    assert ([t] + tokens)[1..] == tokens;
    OperandIs(k, tokens);
    assert POperand(TierAt(k), tokens) == Ok((r, rest));
  }

  lemma {:induction false} BinaryOwn(e: Expr, rest: Tokens)
    requires e.Binary? && Good(e) && Halts(Tight(e), rest)
    ensures Reads(Tight(e), Bare(e) + rest) == Resume(Tight(e), e, rest)
    decreases e, 0, 0
  {
    hide Reads, Resume, Slot, Pull, Join, Joins, Halts;
    var k, t := Tight(e), BinaryToken(e.bop);
    BinaryJoins(e);
    JoinedOwn(k, e, e.left, t, e.right, rest);
    Push(Slot(k, e.left), [t] + Slot(k - 1, e.right), rest);
    Push([t], Slot(k - 1, e.right), rest);
  }

  lemma BinaryJoins(e: Expr)
    requires e.Binary?
    ensures IsTier(Tight(e)) && TierAt(Tight(e)) == TierOf(e.bop)
    ensures Joins(TierOf(e.bop), BinaryToken(e.bop)) && Join(TierOf(e.bop), BinaryToken(e.bop), e.left, e.right) == e
  {
  }

  lemma {:induction false} LogicalOwn(e: Expr, rest: Tokens)
    requires e.Logical? && Good(e) && Halts(Tight(e), rest)
    ensures Reads(Tight(e), Bare(e) + rest) == Resume(Tight(e), e, rest)
    decreases e, 0, 0
  {
    hide Reads, Resume, Slot, Pull, Halts;
    var k, t := Tight(e), LogicalToken(e.lop);
    JoinedOwn(k, e, e.left, t, e.right, rest);
    Push(Slot(k, e.left), [t] + Slot(k - 1, e.right), rest);
    Push([t], Slot(k - 1, e.right), rest);
  }

  // ---- Comparisons, alone and chained ----------------------------------------

  function LinkTokens(links: seq<Link>): Tokens {
    if links == [] then [] else CompareTokens(links[0].0) + (Slot(6, links[0].1) + LinkTokens(links[1..]))
  }

  ghost predicate LegibleLinks(links: seq<Link>) {
    forall k :: 0 <= k < |links| ==> !IsIdentity(links[k].0) && Good(links[k].1)
  }

  lemma LinkPulls(op: CompareOp, tokens: Tokens)
    requires !IsIdentity(op)
    ensures CompareAt(CompareTokens(op) + tokens) == Some((op, |CompareTokens(op)|))
    ensures Pull(CompareTokens(op) + tokens) == 7
  {
  }

  lemma LinksPull(links: seq<Link>, rest: Tokens)
    requires LegibleLinks(links) && Pull(rest) > 7
    ensures Pull(LinkTokens(links) + rest) >= 7
  {
    hide Pull, CompareTokens, CompareAt, Slot;
    if links == [] {
      assert LinkTokens(links) + rest == rest;
    } else {
      var more := Slot(6, links[0].1) + LinkTokens(links[1..]);
      Push(CompareTokens(links[0].0), more, rest);
      LinkPulls(links[0].0, more + rest);
    }
  }

  lemma {:induction false} LinksRead(links: seq<Link>, bound: Expr, rest: Tokens)
    requires LegibleLinks(links) && Pull(rest) > 7
    requires forall k :: 0 <= k < |links| ==> links[k].1 < bound
    ensures PLinks(LinkTokens(links) + rest) == Ok((links, rest))
    decreases bound, -2, |links|
  {
    hide Slot, Pull, CompareAt, CompareTokens, Reads, PBin, Good;
    if links == [] {
      assert LinkTokens(links) + rest == rest;
      NoLinks(rest);
    } else {
      var more := LinkTokens(links[1..]) + rest;
      var (op, x) := links[0];
      LinksRead(links[1..], bound, rest);
      LinksPull(links[1..], rest);
      SlotReads(6, x, more);
      Stops(6, x, more);
      Push(CompareTokens(op), Slot(6, x) + LinkTokens(links[1..]), rest);
      Push(Slot(6, x), LinkTokens(links[1..]), rest);
      LinkPulls(op, Slot(6, x) + more);
      LinkStep(op, x, Slot(6, x) + more, more, links[1..], rest);
      assert [links[0]] + links[1..] == links;
    }
  }

  lemma NoLinks(rest: Tokens)
    requires Pull(rest) > 7
    ensures PLinks(rest) == Ok(([], rest))
  {
  }

  lemma LinkStep(op: CompareOp, x: Expr, tokens: Tokens, more: Tokens, links: seq<Link>, rest: Tokens)
    requires CompareAt(CompareTokens(op) + tokens) == Some((op, |CompareTokens(op)|))
    requires Reads(6, tokens) == Ok((x, more)) && PLinks(more) == Ok((links, rest))
    ensures PLinks(CompareTokens(op) + tokens) == Ok(([(op, x)] + links, rest))
  {
    hide PBin, CompareAt, CompareTokens;
    assert (CompareTokens(op) + tokens)[|CompareTokens(op)|..] == tokens;
  }

  /** `a < b < c …`, with operands that bind tighter, is read as the chain of its links. */
  lemma {:induction false} ChainReads(first: Expr, links: seq<Link>, bound: Expr, rest: Tokens)
    requires Good(first) && LegibleLinks(links) && Pull(rest) > 7
    requires first < bound && forall k :: 0 <= k < |links| ==> links[k].1 < bound
    ensures PCompare(Slot(6, first) + (LinkTokens(links) + rest)) == Ok((Chain(first, links), rest))
    decreases bound, -1
  {
    hide Slot, Pull, PBin, PLinks, LinkTokens, Chain, Good;
    var tail := LinkTokens(links) + rest;
    LinksPull(links, rest);
    LinksRead(links, bound, rest);
    SlotReads(6, first, tail);
    Stops(6, first, tail);
    ChainStep(first, links, Slot(6, first) + tail, tail, rest);
  }

  lemma ChainStep(first: Expr, links: seq<Link>, ts: Tokens, tail: Tokens, rest: Tokens)
    requires Reads(6, ts) == Ok((first, tail)) && PLinks(tail) == Ok((links, rest))
    ensures PCompare(ts) == Ok((Chain(first, links), rest))
  {
    hide PBin, PLinks, Chain;
  }

  lemma {:induction false} CompareOwn(e: Expr, rest: Tokens)
    requires e.Compare? && !IsIdentity(e.cop) && Good(e) && Halts(7, rest)
    ensures Reads(7, Bare(e) + rest) == Resume(7, e, rest)
    decreases e, 0, 0
  {
    hide Slot, Pull, CompareTokens;
    var links := [(e.cop, e.right)];
    ChainReads(e.left, links, e, rest);
    assert LinkTokens(links) == CompareTokens(e.cop) + Slot(6, e.right) by {
      assert links[1..] == [];
      assert Slot(6, e.right) + [] == Slot(6, e.right);
    }
    assert Chain(e.left, links) == e;
    Push(Slot(6, e.left), LinkTokens(links), rest);
  }

  // ---- Conditionals ----------------------------------------------------------

  /** What follows the condition: the other branch, if there is one. */
  function ElsePart(e: Expr, rest: Tokens): Tokens
    requires e.Conditional?
  {
    if e.orElse.Some? then [Name("else")] + (Slot(11, e.orElse.value) + rest) else rest
  }

  lemma ConditionalBare(e: Expr, rest: Tokens)
    requires e.Conditional?
    ensures Bare(e) + rest == Slot(10, e.body) + ([Name("if")] + (Slot(10, e.condition) + ElsePart(e, rest)))
  {
    hide Slot;
    if e.orElse.Some? {
      var more := Slot(10, e.condition) + ([Name("else")] + Slot(11, e.orElse.value));
      Push(Slot(10, e.body), [Name("if")] + more, rest);
      Push([Name("if")], more, rest);
      Push(Slot(10, e.condition), [Name("else")] + Slot(11, e.orElse.value), rest);
      Push([Name("else")], Slot(11, e.orElse.value), rest);
    } else {
      Push(Slot(10, e.body), [Name("if")] + Slot(10, e.condition), rest);
      Push([Name("if")], Slot(10, e.condition), rest);
    }
  }

  lemma ElsePulls(e: Expr, rest: Tokens)
    requires e.Conditional? && Halts(11, rest)
    ensures Pull(ElsePart(e, rest)) == 12
    ensures forall tokens: Tokens :: Pull([Name("if")] + tokens) == 11
  {
  }

  lemma {:induction false} ConditionalOwn(e: Expr, rest: Tokens)
    requires e.Conditional? && Good(e) && Halts(11, rest)
    ensures Reads(11, Bare(e) + rest) == Resume(11, e, rest)
    decreases e, 0, 0
  {
    hide Bare, Slot, Pull, PBin, PBinRest, PExpr, Good;
    var otherwise := ElsePart(e, rest);
    var tail := [Name("if")] + (Slot(10, e.condition) + otherwise);
    ConditionalParts(e);
    ConditionalBare(e, rest);
    ElsePulls(e, rest);
    SlotReads(10, e.body, tail);
    Stops(10, e.body, tail);
    SlotReads(10, e.condition, otherwise);
    Stops(10, e.condition, otherwise);
    assert tail[1..] == Slot(10, e.condition) + otherwise;
    if e.orElse.Some? {
      SlotReads(11, e.orElse.value, rest);
      assert otherwise[1..] == Slot(11, e.orElse.value) + rest;
    }
    ConditionalReadsOn(e, Slot(10, e.body) + tail, tail, otherwise, rest);
  }

  lemma ConditionalParts(e: Expr)
    requires e.Conditional? && Good(e)
    ensures Legible(10, e.body) && Legible(10, e.condition) && (e.orElse.Some? ==> Legible(11, e.orElse.value))
  {
  }

  lemma ConditionalReadsOn(e: Expr, ts: Tokens, tail: Tokens, otherwise: Tokens, rest: Tokens)
    requires e.Conditional? && AtName(tail, "if") && Reads(10, ts) == Ok((e.body, tail))
    requires Reads(10, tail[1..]) == Ok((e.condition, otherwise))
    requires match e.orElse
             case None => otherwise == rest && !AtName(rest, "else")
             case Some(o) => AtName(otherwise, "else") && Reads(11, otherwise[1..]) == Ok((o, rest))
    ensures PExpr(ts) == Ok((e, rest))
  {
    hide PBin;
  }

  // ---- Lists and dictionaries ------------------------------------------------

  lemma {:induction false} ListedItems(es: seq<Expr>, rest: Tokens)
    requires es != [] && (forall k :: 0 <= k < |es| ==> Whole(es[k]))
    requires Halts(11, rest) && !AtPunct(rest, Comma)
    ensures PItems(Listed(es) + rest) == Ok((es, rest))
    decreases es, 2
  {
    hide Slot, Pull, PExpr, Good;
    if |es| == 1 {
      SlotReads(11, es[0], rest);
      assert [es[0]] == es;
    } else {
      var tail := [P(Comma)] + (Listed(es[1..]) + rest);
      CloseHalts(P(Comma), Listed(es[1..]) + rest);
      SlotReads(11, es[0], tail);
      ListedItems(es[1..], rest);
      Push(Slot(11, es[0]), [P(Comma)] + Listed(es[1..]), rest);
      Push([P(Comma)], Listed(es[1..]), rest);
      assert tail[1..] == Listed(es[1..]) + rest;
      assert [es[0]] + es[1..] == es;
    }
  }

  lemma {:induction false} ListedReads(es: seq<Expr>, close: Punct, rest: Tokens)
    requires forall k :: 0 <= k < |es| ==> Whole(es[k])
    requires close == RParen || close == RBracket
    ensures PList(close, Listed(es) + ([P(close)] + rest)) == Ok((es, rest))
    decreases es, 3
  {
    hide PItems, Slot;
    var tail := [P(close)] + rest;
    assert tail[1..] == rest;
    if es == [] {
      assert Listed(es) + tail == tail;
    } else {
      CloseHalts(P(close), rest);
      ListedItems(es, tail);
      BareHead(es[0]);
      SlotHead(11, es[0]);
      assert (Listed(es) + tail)[0] == Slot(11, es[0])[0];
    }
  }

  lemma {:induction false} PairReads(entry: (Expr, Expr), rest: Tokens)
    requires Whole(entry.0) && Whole(entry.1) && Halts(11, rest)
    ensures PEntry(Pair(entry) + rest) == Ok((entry, rest))
    decreases entry
  {
    hide Slot, Pull, PExpr, Good;
    var tail := [P(Colon)] + (Slot(11, entry.1) + rest);
    CloseHalts(P(Colon), Slot(11, entry.1) + rest);
    Push(Slot(11, entry.0), [P(Colon)] + Slot(11, entry.1), rest);
    Push([P(Colon)], Slot(11, entry.1), rest);
    SlotReads(11, entry.0, tail);
    assert tail[1..] == Slot(11, entry.1) + rest;
    SlotReads(11, entry.1, rest);
  }

  lemma {:induction false} PairedEntries(es: seq<(Expr, Expr)>, rest: Tokens)
    requires es != [] && forall k :: 0 <= k < |es| ==> Whole(es[k].0) && Whole(es[k].1)
    requires Halts(11, rest) && !AtPunct(rest, Comma)
    ensures PEntries(Paired(es) + rest) == Ok((es, rest))
    decreases es, 2
  {
    hide Pair, PEntry, Pull, Whole;
    if |es| == 1 {
      PairReads(es[0], rest);
      assert [es[0]] == es;
    } else {
      var tail := [P(Comma)] + (Paired(es[1..]) + rest);
      CloseHalts(P(Comma), Paired(es[1..]) + rest);
      PairReads(es[0], tail);
      PairedEntries(es[1..], rest);
      Push(Pair(es[0]), [P(Comma)] + Paired(es[1..]), rest);
      Push([P(Comma)], Paired(es[1..]), rest);
      assert tail[1..] == Paired(es[1..]) + rest;
      assert [es[0]] + es[1..] == es;
    }
  }

  lemma {:induction false} PairedDict(es: seq<(Expr, Expr)>, rest: Tokens)
    requires forall k :: 0 <= k < |es| ==> Whole(es[k].0) && Whole(es[k].1)
    ensures PPrimary([P(LBrace)] + (Paired(es) + ([P(RBrace)] + rest))) == Ok((DictExpr(es), rest))
    decreases es, 3
  {
    hide PExpr, PList, PEntries, Paired, Whole, KeywordLiteral;
    var tail := [P(RBrace)] + rest;
    var ts := [P(LBrace)] + (Paired(es) + tail);
    assert ts[1..] == Paired(es) + tail;
    assert tail[1..] == rest;
    if es == [] {
      NoPairs();
      assert ts[1..] == tail;
    } else {
      CloseHalts(P(RBrace), rest);
      PairedEntries(es, tail);
      PairedHead(es);
      assert (Paired(es) + tail)[0] == Paired(es)[0];
    }
  }

  lemma NoPairs()
    ensures Paired([]) == []
  {
  }

  lemma PairedHead(es: seq<(Expr, Expr)>)
    requires es != []
    ensures Paired(es) != [] && Paired(es)[0] != P(RBrace)
  {
    hide Slot;
    BareHead(es[0].0);
    SlotHead(11, es[0].0);
    assert Pair(es[0])[0] == Slot(11, es[0].0)[0];
  }

  // ---- The text --------------------------------------------------------------

  lemma {:induction false} SlotTokens(k: nat, e: Expr)
    requires WellFormed(e)
    ensures TokensOk(Slot(k, e))
    decreases e, 1
  {
    hide Bare, TokensOk, WellFormed;
    BareTokens(e);
    if Tight(e) > k {
      Enclosing(P(LParen), Bare(e), P(RParen));
    }
  }

  lemma Enclosing(open: Token, inner: Tokens, close: Token)
    requires TokensOk(inner) && open.P? && close.P?
    ensures TokensOk([open] + (inner + [close]))
  {
    hide TokensOk;
    BracketOk(open);
    BracketOk(close);
    Three([open], inner, [close]);
  }

  lemma BracketOk(t: Token)
    requires t.P?
    ensures TokensOk([t])
  {
  }

  lemma {:induction false} BareTokens(e: Expr)
    requires WellFormed(e)
    ensures TokensOk(Bare(e))
    decreases e, 0, 1
  {
    hide Bare, TokensOk, WellFormed;
    match e
    case Lit(_) => LeafTokens(e);
    case Var(_) => LeafTokens(e);
    case ListExpr(_) => DisplayTokens(e);
    case DictExpr(_) => DisplayTokens(e);
    case Attribute(_, _) => TargetTokens(e);
    case Index(_, _) => TargetTokens(e);
    case Call(_, _) => TargetTokens(e);
    case Filter(_, _, _) => TargetTokens(e);
    case Test(_, _, _) => TargetTokens(e);
    case Unary(_, _) => NodeTokens(e);
    case Binary(_, _, _) => NodeTokens(e);
    case Compare(_, _, _) => NodeTokens(e);
    case Logical(_, _, _) => NodeTokens(e);
    case Conditional(_, _, _) => NodeTokens(e);
  }

  lemma LeafTokens(e: Expr)
    requires WellFormed(e) && (e.Lit? || e.Var?)
    ensures TokensOk(Bare(e))
  {
  }

  lemma {:induction false} DisplayTokens(e: Expr)
    requires WellFormed(e) && (e.ListExpr? || e.DictExpr?)
    ensures TokensOk(Bare(e))
    decreases e, 0, 0
  {
    hide TokensOk, Listed, Paired;
    if e.ListExpr? {
      ListedTokens(e.items);
      Enclosing(P(LBracket), Listed(e.items), P(RBracket));
    } else {
      PairedTokens(e.entries);
      Enclosing(P(LBrace), Paired(e.entries), P(RBrace));
    }
  }

  lemma {:induction false} TargetTokens(e: Expr)
    requires WellFormed(e) && IsPostfix(e)
    ensures TokensOk(Bare(e))
    decreases e, 0, 0
  {
    hide Slot, Listed;
    match e
    case Attribute(t, a) =>
      SlotTokens(1, t);
      Both(Slot(1, t), [P(Dot), Name(a)]);
    case Index(t, i) =>
      SlotTokens(1, t);
      SlotTokens(11, i);
      Enclosing(P(LBracket), Slot(11, i), P(RBracket));
      Both(Slot(1, t), [P(LBracket)] + (Slot(11, i) + [P(RBracket)]));
    case Call(t, args) =>
      SlotTokens(1, t);
      ListedTokens(args);
      Enclosing(P(LParen), Listed(args), P(RParen));
      Both(Slot(1, t), [P(LParen)] + (Listed(args) + [P(RParen)]));
    case Filter(t, f, args) =>
      SlotTokens(2, t);
      ListedTokens(args);
      Enclosing(P(LParen), Listed(args), P(RParen));
      Three(Slot(2, t), [Op(Pipe), Name(f)], if args == [] then [] else [P(LParen)] + (Listed(args) + [P(RParen)]));
    case Test(t, n, negated) =>
      SlotTokens(2, t);
      Three(Slot(2, t), [Name("is")], TestWords(negated, n));
  }

  lemma {:induction false} NodeTokens(e: Expr)
    requires WellFormed(e) && (e.Unary? || e.Binary? || e.Compare? || e.Logical? || e.Conditional?)
    ensures TokensOk(Bare(e))
    decreases e, 0, 0
  {
    hide Slot;
    match e
    case Unary(op, x) =>
      SlotTokens(if op == UNot then 8 else 3, x);
      Both([UnaryToken(op)], Slot(if op == UNot then 8 else 3, x));
    case Binary(op, l, r) => SidesTokens(BinaryLevel(op), l, [BinaryToken(op)], BinaryLevel(op) - 1, r);
    case Compare(op, l, r) =>
      if IsIdentity(op) {
        SidesTokens(2, l, CompareTokens(op), 0, r);
      } else {
        SidesTokens(6, l, CompareTokens(op), 6, r);
      }
    case Logical(op, l, r) =>
      var k := if op == BAnd then 9 else 10;
      SidesTokens(k, l, [LogicalToken(op)], k - 1, r);
    case Conditional(b, c, o) =>
      SidesTokens(10, b, [Name("if")], 10, c);
      if o.Some? {
        SidesTokens(10, c, [Name("else")], 11, o.value);
        Three(Slot(10, b), [Name("if")], Slot(10, c) + ([Name("else")] + Slot(11, o.value)));
      }
  }

  lemma {:induction false} SidesTokens(j: nat, l: Expr, t: Tokens, k: nat, r: Expr)
    requires WellFormed(l) && WellFormed(r) && TokensOk(t)
    ensures TokensOk(Slot(j, l)) && TokensOk(Slot(j, l) + (t + Slot(k, r)))
    decreases if l < r then r else l, 2
  {
    hide Slot, TokensOk, WellFormed;
    SlotTokens(j, l);
    SlotTokens(k, r);
    Three(Slot(j, l), t, Slot(k, r));
  }

  lemma {:induction false} ListedTokens(es: seq<Expr>)
    requires forall k :: 0 <= k < |es| ==> WellFormed(es[k])
    ensures TokensOk(Listed(es))
    decreases es, 2
  {
    hide Slot, TokensOk, WellFormed;
    if es == [] {
      NothingOk();
    } else {
      SlotTokens(11, es[0]);
      if |es| > 1 {
        ListedTokens(es[1..]);
        BracketOk(P(Comma));
        Three(Slot(11, es[0]), [P(Comma)], Listed(es[1..]));
      }
    }
  }

  lemma NothingOk()
    ensures TokensOk([])
  {
  }

  lemma {:induction false} PairedTokens(es: seq<(Expr, Expr)>)
    requires forall k :: 0 <= k < |es| ==> WellFormed(es[k].0) && WellFormed(es[k].1)
    ensures TokensOk(Paired(es))
    decreases es, 2
  {
    hide Pair, TokensOk, WellFormed;
    if es == [] {
      NothingOk();
    } else {
      PairTokens(es[0]);
      if |es| > 1 {
        PairedTokens(es[1..]);
        BracketOk(P(Comma));
        Three(Pair(es[0]), [P(Comma)], Paired(es[1..]));
      }
    }
  }

  lemma {:induction false} PairTokens(entry: (Expr, Expr))
    requires WellFormed(entry.0) && WellFormed(entry.1)
    ensures TokensOk(Pair(entry))
    decreases entry
  {
    hide Slot, TokensOk, WellFormed;
    SlotTokens(11, entry.0);
    SlotTokens(11, entry.1);
    BracketOk(P(Colon));
    Three(Slot(11, entry.0), [P(Colon)], Slot(11, entry.1));
  }

  /** Without needless parentheses, too, a tree is read back: precedence and associativity are the tree's. */
  lemma ParseInvertsMinimalRender(e: Expr)
    requires WellFormed(e) && Heard(e) && Clear(e)
    ensures Parse(MinimalRender(e)) == Ok(e)
  {
    hide Bare, PExpr, Good, ExprScanning.SpellAll, Heard, WellFormed, TokensOk;
    BareTokens(e);
    ExprScanning.LexSpelled(Bare(e));
    IsGood(e);
    BareReads(11, e, []);
    assert Bare(e) + [] == Bare(e);
  }

  lemma IsGood(e: Expr)
    requires WellFormed(e) && Heard(e)
    ensures Good(e)
  {
  }

  lemma {:induction false} LinksTokens(links: seq<Link>)
    requires forall k :: 0 <= k < |links| ==> WellFormed(links[k].1)
    ensures TokensOk(LinkTokens(links))
  {
    hide Slot, WellFormed;
    if links != [] {
      SlotTokens(6, links[0].1);
      LinksTokens(links[1..]);
      Three(CompareTokens(links[0].0), Slot(6, links[0].1), LinkTokens(links[1..]));
    }
  }

  /** `a < b < c …` of any length: the text of the links is parsed to their chain. */
  lemma ParseReadsChains(first: Expr, links: seq<Link>)
    requires Whole(first) && LegibleLinks(links)
    ensures Parse(ExprScanning.SpellAll(Slot(6, first) + LinkTokens(links))) == Ok(Chain(first, links))
  {
    hide Bare, PExpr, PCompare, PNot, PBin, Chain, LinkTokens, ExprScanning.SpellAll, Heard, WellFormed, TokensOk;
    hide Slot, Pull, ExprLexer.Lex;
    var ts := Slot(6, first) + LinkTokens(links);
    ChainTokens(first, links);
    ExprScanning.LexSpelled(ts);
    var all := ListExpr([first] + seq(|links|, i requires 0 <= i < |links| => links[i].1));
    assert first == all.items[0] && forall k :: 0 <= k < |links| ==> links[k].1 == all.items[k + 1];
    NothingPulls();
    ChainReads(first, links, all, []);
    assert LinkTokens(links) + [] == LinkTokens(links);
    BareHead(first);
    SlotHead(6, first);
    ChainClimbs(ts, Chain(first, links));
  }

  lemma NothingPulls()
    ensures Pull([]) == 12
  {
  }

  lemma ChainTokens(first: Expr, links: seq<Link>)
    requires Whole(first) && LegibleLinks(links)
    ensures TokensOk(Slot(6, first) + LinkTokens(links))
  {
    hide Slot, LinkTokens, TokensOk, WellFormed, Heard;
    SlotTokens(6, first);
    LinksTokens(links);
    Both(Slot(6, first), LinkTokens(links));
  }

  lemma ChainClimbs(ts: Tokens, e: Expr)
    requires PCompare(ts) == Ok((e, [])) && Heads(8, ts)
    ensures PExpr(ts) == Ok((e, []))
  {
    hide PExpr, PCompare, PNot, PBin;
    ClimbUp(7, 11, ts, e, []);
  }
}
