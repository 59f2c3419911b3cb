/**
 * Brackets balance in whatever the grammar reads. A primary therefore ends where its bracket closes,
 * and an atom of the rendering is consumed whole or not at all, whatever tree it is read as.
 */
module ExprBrackets {
  import opened Common
  import opened ExprSyntax
  import opened ExprGrammar
  import opened ExprRoundTrip

  predicate Opens(t: Token) {
    t in {P(LParen), P(LBracket), P(LBrace)}
  }

  predicate Closes(t: Token) {
    t in {P(RParen), P(RBracket), P(RBrace)}
  }

  /** The tokens left once `d` open brackets have been closed. */
  function After(d: nat, ts: Tokens): Tokens
    decreases |ts|
  {
    if d == 0 || ts == [] then ts
    else After(if Opens(ts[0]) then d + 1 else if Closes(ts[0]) then d - 1 else d, ts[1..])
  }

  /** Where a primary at the head of `ts` can end. */
  function End(ts: Tokens): Tokens
    requires ts != []
  {
    if Opens(ts[0]) then After(1, ts[1..]) else ts[1..]
  }

  lemma Word(d: nat, ts: Tokens)
    requires d > 0 && ts != [] && !Opens(ts[0]) && !Closes(ts[0])
    ensures After(d, ts) == After(d, ts[1..])
  {
  }

  // ---- What the grammar reads ------------------------------------------------

  lemma {:induction false} ExprPasses(d: nat, ts: Tokens)
    requires d > 0 && PExpr(ts).Ok?
    ensures After(d, PExpr(ts).value.1) == After(d, ts)
    decreases |ts|, 20
  {
    hide PBin;
    BinPasses(d, OrTier, ts);
    var (body, rest) := PBin(OrTier, ts).value;
    if AtName(rest, "if") {
      BinPasses(d, OrTier, rest[1..]);
      var (condition, after) := PBin(OrTier, rest[1..]).value;
      if AtName(after, "else") {
        ExprPasses(d, after[1..]);
      }
    }
  }

  lemma {:induction false} OperandPasses(d: nat, tier: Tier, ts: Tokens)
    requires d > 0 && POperand(tier, ts).Ok?
    ensures After(d, POperand(tier, ts).value.1) == After(d, ts)
    decreases |ts|, Rank(tier) - 1
  {
    match tier
    case OrTier => BinPasses(d, AndTier, ts);
    case AndTier => NotPasses(d, ts);
    case Math1Tier => BinPasses(d, ConcatTier, ts);
    case ConcatTier => BinPasses(d, Math2Tier, ts);
    case Math2Tier => UnaryPasses(d, ts);
  }

  lemma {:induction false} BinPasses(d: nat, tier: Tier, ts: Tokens)
    requires d > 0 && PBin(tier, ts).Ok?
    ensures After(d, PBin(tier, ts).value.1) == After(d, ts)
    decreases |ts|, Rank(tier)
  {
    hide POperand, PBinRest;
    OperandPasses(d, tier, ts);
    var (left, rest) := POperand(tier, ts).value;
    BinRestPasses(d, tier, left, rest);
  }

  lemma {:induction false} BinRestPasses(d: nat, tier: Tier, left: Expr, ts: Tokens)
    requires d > 0 && PBinRest(tier, left, ts).Ok?
    ensures After(d, PBinRest(tier, left, ts).value.1) == After(d, ts)
    decreases |ts|, Rank(tier)
  {
    hide POperand;
    if ts != [] && Joins(tier, ts[0]) {
      OperandPasses(d, tier, ts[1..]);
      var (right, rest) := POperand(tier, ts[1..]).value;
      BinRestPasses(d, tier, Join(tier, ts[0], left, right), rest);
    }
  }

  lemma {:induction false} NotPasses(d: nat, ts: Tokens)
    requires d > 0 && PNot(ts).Ok?
    ensures After(d, PNot(ts).value.1) == After(d, ts)
    decreases |ts|, 12
  {
    hide PCompare;
    if AtName(ts, "not") {
      NotPasses(d, ts[1..]);
    } else {
      ComparePasses(d, ts);
    }
  }

  lemma {:induction false} ComparePasses(d: nat, ts: Tokens)
    requires d > 0 && PCompare(ts).Ok?
    ensures After(d, PCompare(ts).value.1) == After(d, ts)
    decreases |ts|, 11
  {
    hide PBin, PLinks;
    BinPasses(d, Math1Tier, ts);
    LinksPass(d, PBin(Math1Tier, ts).value.1);
  }

  lemma {:induction false} LinksPass(d: nat, ts: Tokens)
    requires d > 0 && PLinks(ts).Ok?
    ensures After(d, PLinks(ts).value.1) == After(d, ts)
    decreases |ts|, 10
  {
    hide PBin;
    match CompareAt(ts)
    case None =>
    case Some((op, n)) =>
      BinPasses(d, Math1Tier, ts[n..]);
      var (node, rest) := PBin(Math1Tier, ts[n..]).value;
      LinksPass(d, rest);
      if n == 2 {
        assert ts[1..][1..] == ts[2..];
      }
  }

  lemma {:induction false} UnaryPasses(d: nat, ts: Tokens)
    requires d > 0 && PUnary(ts).Ok?
    ensures After(d, PUnary(ts).value.1) == After(d, ts)
    decreases |ts|, 3
  {
    hide PPrimary, PPostfix, PFilters;
    if At(ts, Op(Minus)) || At(ts, Op(Plus)) {
      UnaryPasses(d, ts[1..]);
      var (operand, rest) := PUnary(ts[1..]).value;
      LoopsPass(d, Unary(if ts[0] == Op(Minus) then UMinus else UPlus, operand), rest);
    } else {
      PrimaryPasses(d, ts);
      var (node, rest) := PPrimary(ts).value;
      LoopsPass(d, node, rest);
    }
  }

  lemma {:induction false} LoopsPass(d: nat, node: Expr, ts: Tokens)
    requires d > 0 && PPostfix(node, ts).Ok?
    requires var (target, rest) := PPostfix(node, ts).value; PFilters(target, rest).Ok?
    ensures var (target, rest) := PPostfix(node, ts).value; After(d, PFilters(target, rest).value.1) == After(d, ts)
    decreases |ts|, 4
  {
    hide PPostfix, PFilters;
    PostfixPasses(d, node, ts);
    var (target, rest) := PPostfix(node, ts).value;
    FiltersPass(d, target, rest);
  }

  lemma {:induction false} PostfixPasses(d: nat, node: Expr, ts: Tokens)
    requires d > 0 && PPostfix(node, ts).Ok?
    ensures After(d, PPostfix(node, ts).value.1) == After(d, ts)
    decreases |ts|, 2
  {
    hide PExpr, PList;
    if AtPunct(ts, Dot) {
      var (name, rest) := ExpectName(ts[1..]).value;
      PostfixPasses(d, Attribute(node, name), rest);
    } else if AtPunct(ts, LBracket) {
      ExprPasses(d + 1, ts[1..]);
      var (index, rest) := PExpr(ts[1..]).value;
      PostfixPasses(d, Index(node, index), rest[1..]);
    } else if AtPunct(ts, LParen) {
      ListPasses(d, RParen, ts[1..]);
      var (args, rest) := PList(RParen, ts[1..]).value;
      PostfixPasses(d, Call(node, args), rest);
    }
  }

  lemma {:induction false} FiltersPass(d: nat, node: Expr, ts: Tokens)
    requires d > 0 && PFilters(node, ts).Ok?
    ensures After(d, PFilters(node, ts).value.1) == After(d, ts)
    decreases |ts|, 3
  {
    hide PFilter, PTest;
    if At(ts, Op(Pipe)) {
      FilterPasses(d, node, ts);
      var (next, rest) := PFilter(node, ts).value;
      FiltersPass(d, next, rest);
    } else if AtName(ts, "is") {
      TestPasses(d, node, ts);
      var (next, rest) := PTest(node, ts).value;
      FiltersPass(d, next, rest);
    }
  }

  lemma {:induction false} FilterPasses(d: nat, node: Expr, ts: Tokens)
    requires d > 0 && At(ts, Op(Pipe)) && PFilter(node, ts).Ok?
    ensures After(d, PFilter(node, ts).value.1) == After(d, ts)
    decreases |ts|, 2
  {
    hide PList;
    Word(d, ts);
    Word(d, ts[1..]);
    var rest := ts[1..][1..];
    if AtPunct(rest, LParen) {
      ListPasses(d, RParen, rest[1..]);
    }
  }

  lemma TestPasses(d: nat, node: Expr, ts: Tokens)
    requires d > 0 && AtName(ts, "is") && PTest(node, ts).Ok?
    ensures After(d, PTest(node, ts).value.1) == After(d, ts)
  {
    Word(d, ts);
    Word(d, ts[1..]);
    if AtName(ts[1..], "not") {
      assert ts[1..][1..] == ts[2..];
      Word(d, ts[2..]);
    }
  }

  /** A list takes with it the bracket that closes it. */
  lemma {:induction false} ListPasses(d: nat, close: Punct, ts: Tokens)
    requires Closes(P(close)) && PList(close, ts).Ok?
    ensures After(d, PList(close, ts).value.1) == After(d + 1, ts)
    decreases |ts|, 22
  {
    hide PItems;
    if !AtPunct(ts, close) {
      ItemsPass(d + 1, ts);
    }
  }

  lemma {:induction false} ItemsPass(d: nat, ts: Tokens)
    requires d > 0 && PItems(ts).Ok?
    ensures After(d, PItems(ts).value.1) == After(d, ts)
    decreases |ts|, 21
  {
    hide PExpr;
    ExprPasses(d, ts);
    var (item, rest) := PExpr(ts).value;
    if AtPunct(rest, Comma) {
      ItemsPass(d, rest[1..]);
    }
  }

  lemma {:induction false} EntryPasses(d: nat, ts: Tokens)
    requires d > 0 && PEntry(ts).Ok?
    ensures After(d, PEntry(ts).value.1) == After(d, ts)
    decreases |ts|, 21
  {
    hide PExpr;
    ExprPasses(d, ts);
    var (key, rest) := PExpr(ts).value;
    ExprPasses(d, rest[1..]);
  }

  lemma {:induction false} EntriesPass(d: nat, ts: Tokens)
    requires d > 0 && PEntries(ts).Ok?
    ensures After(d, PEntries(ts).value.1) == After(d, ts)
    decreases |ts|, 22
  {
    hide PEntry;
    EntryPasses(d, ts);
    var (entry, rest) := PEntry(ts).value;
    if AtPunct(rest, Comma) {
      EntriesPass(d, rest[1..]);
    }
  }

  lemma {:induction false} PrimaryPasses(d: nat, ts: Tokens)
    requires d > 0 && PPrimary(ts).Ok?
    ensures After(d, PPrimary(ts).value.1) == After(d, ts)
    decreases |ts|, 1
  {
    hide PExpr, PList, PEntries;
    if Opens(ts[0]) {
      InsidePasses(d, ts);
    }
  }

  /** Inside the brackets of a primary, and the closing one. */
  lemma {:induction false} InsidePasses(d: nat, ts: Tokens)
    requires ts != [] && Opens(ts[0]) && PPrimary(ts).Ok?
    ensures After(d, PPrimary(ts).value.1) == After(d + 1, ts[1..])
    decreases |ts|, 0
  {
    hide PExpr, PList, PEntries;
    match ts[0].punct
    case LParen => ExprPasses(d + 1, ts[1..]);
    case LBracket => ListPasses(d, RBracket, ts[1..]);
    case LBrace =>
      if AtPunct(ts[1..], RBrace) {
        assert ts[1..][1..] == ts[2..];
      } else {
        EntriesPass(d + 1, ts[1..]);
      }
  }

  /** A primary, once read, has ended at its own closing bracket. */
  lemma PrimaryEnds(ts: Tokens)
    requires PPrimary(ts).Ok?
    ensures PPrimary(ts).value.1 == End(ts)
  {
    hide PExpr, PList, PEntries;
    if Opens(ts[0]) {
      InsidePasses(0, ts);
    }
  }

  // ---- What the rendering writes ---------------------------------------------

  /** Tokens whose brackets are all closed among themselves, and nothing else is. */
  ghost predicate Balanced(ts: Tokens) {
    forall d: nat, rest: Tokens :: d > 0 ==> After(d, ts + rest) == After(d, rest)
  }

  lemma BalancedWord(t: Token)
    requires !Opens(t) && !Closes(t)
    ensures Balanced([t])
  {
    forall d: nat, rest: Tokens | d > 0 ensures After(d, [t] + rest) == After(d, rest) {
      assert ([t] + rest)[1..] == rest;
    }
  }

  lemma BalancedJoin(a: Tokens, b: Tokens)
    requires Balanced(a) && Balanced(b)
    ensures Balanced(a + b)
  {
    forall d: nat, rest: Tokens | d > 0 ensures After(d, (a + b) + rest) == After(d, rest) {
      Push(a, b, rest);
      assert After(d, a + (b + rest)) == After(d, b + rest);
    }
  }

  lemma BalancedInside(open: Token, inner: Tokens, close: Token)
    requires Opens(open) && Closes(close) && Balanced(inner)
    ensures Balanced([open] + (inner + [close]))
    ensures forall rest: Tokens {:trigger (inner + [close]) + rest} :: After(1, (inner + [close]) + rest) == rest
  {
    forall d: nat, rest: Tokens ensures After(d + 1, (inner + [close]) + rest) == After(d, rest) {
      Push(inner, [close], rest);
      assert After(d + 1, inner + ([close] + rest)) == After(d + 1, [close] + rest);
      assert ([close] + rest)[1..] == rest;
    }
    forall rest: Tokens ensures After(1, (inner + [close]) + rest) == rest {
      assert After(0 + 1, (inner + [close]) + rest) == After(0, rest);
    }
    var ts := [open] + (inner + [close]);
    forall d: nat, rest: Tokens | d > 0 ensures After(d, ts + rest) == After(d, rest) {
      assert (ts + rest)[1..] == (inner + [close]) + rest;
    }
  }

  lemma BalancedWords(ts: Tokens)
    requires forall k :: 0 <= k < |ts| ==> !Opens(ts[k]) && !Closes(ts[k])
    ensures Balanced(ts)
  {
    hide Balanced;
    if ts == [] {
      BalancedNone();
    } else {
      BalancedWord(ts[0]);
      BalancedWords(ts[1..]);
      BalancedJoin([ts[0]], ts[1..]);
      assert [ts[0]] + ts[1..] == ts;
    }
  }

  lemma BalancedNone()
    ensures Balanced([])
  {
    forall d: nat, rest: Tokens | d > 0 ensures After(d, [] + rest) == After(d, rest) {
      assert [] + rest == rest;
    }
  }

  lemma Balanced3(a: Tokens, b: Tokens, c: Tokens)
    requires Balanced(a) && Balanced(b) && Balanced(c)
    ensures Balanced(a + (b + c))
  {
    hide Balanced;
    BalancedJoin(b, c);
    BalancedJoin(a, b + c);
  }

  /** The token an atom in brackets begins with, what the brackets hold, and the one it ends with. */
  function Brackets(e: Expr): (Token, Tokens, Token)
    requires !e.Lit? && !e.Var?
  {
    if e.ListExpr? then (P(LBracket), Items(e.items), P(RBracket))
    else if e.DictExpr? then (P(LBrace), Entries(e.entries), P(RBrace))
    else (P(LParen), Body(e), P(RParen))
  }

  lemma {:induction false} InnerBalanced(e: Expr)
    requires !e.Lit? && !e.Var?
    ensures Balanced(Brackets(e).1)
    decreases e, 1
  {
    hide Balanced, Body, Items, Entries;
    if e.ListExpr? {
      ItemsBalanced(e.items);
    } else if e.DictExpr? {
      EntriesBalanced(e.entries);
    } else {
      BodyBalanced(e);
    }
  }

  lemma {:induction false} AtomBalanced(e: Expr)
    ensures Balanced(Atom(e))
    decreases e, 2
  {
    hide Balanced, Body, Items, Entries;
    if e.Lit? || e.Var? {
      BalancedWords(Atom(e));
    } else {
      InnerBalanced(e);
      var (open, inner, close) := Brackets(e);
      BalancedInside(open, inner, close);
    }
  }

  lemma {:induction false} BodyBalanced(e: Expr)
    requires IsBody(e)
    ensures Balanced(Body(e))
    decreases e, 0
  {
    hide Balanced, Atom, Items;
    match e
    case Attribute(t, a) =>
      AtomBalanced(t);
      BalancedWords([P(Dot), Name(a)]);
      BalancedJoin(Atom(t), [P(Dot), Name(a)]);
    case Index(t, i) =>
      AtomBalanced(t);
      AtomBalanced(i);
      BalancedInside(P(LBracket), Atom(i), P(RBracket));
      BalancedJoin(Atom(t), [P(LBracket)] + (Atom(i) + [P(RBracket)]));
    case Call(t, args) =>
      AtomBalanced(t);
      ItemsBalanced(args);
      BalancedInside(P(LParen), Items(args), P(RParen));
      BalancedJoin(Atom(t), [P(LParen)] + (Items(args) + [P(RParen)]));
    case Filter(t, f, args) =>
      AtomBalanced(t);
      ItemsBalanced(args);
      FilterBalanced(Atom(t), f, Items(args));
    case Test(t, n, negated) =>
      AtomBalanced(t);
      BalancedWords([Name("is")] + (if negated then [Name("not"), Name(n)] else [Name(n)]));
      BalancedJoin(Atom(t), [Name("is")] + (if negated then [Name("not"), Name(n)] else [Name(n)]));
    case Unary(op, x) =>
      AtomBalanced(x);
      BalancedWords([UnaryToken(op)]);
      BalancedJoin([UnaryToken(op)], Atom(x));
    case Binary(op, l, r) => OperandsBalanced(e, l, [BinaryToken(op)], r);
    case Compare(op, l, r) => OperandsBalanced(e, l, CompareTokens(op), r);
    case Logical(op, l, r) => OperandsBalanced(e, l, [Name(if op == BAnd then "and" else "or")], r);
    case Conditional(b, c, o) =>
      OperandsBalanced(e, b, [Name("if")], c);
      if o.Some? {
        OperandsBalanced(e, c, [Name("else")], o.value);
        AtomBalanced(b);
        BalancedWords([Name("if")]);
        Balanced3(Atom(b), [Name("if")], Atom(c) + ([Name("else")] + Atom(o.value)));
      }
  }

  lemma FilterBalanced(target: Tokens, f: string, items: Tokens)
    requires Balanced(target) && Balanced(items)
    ensures Balanced(target + ([Op(Pipe), Name(f), P(LParen)] + (items + [P(RParen)])))
  {
    hide Balanced;
    BalancedInside(P(LParen), items, P(RParen));
    BalancedWords([Op(Pipe), Name(f)]);
    Balanced3(target, [Op(Pipe), Name(f)], [P(LParen)] + (items + [P(RParen)]));
    assert [Op(Pipe), Name(f), P(LParen)] + (items + [P(RParen)])
        == [Op(Pipe), Name(f)] + ([P(LParen)] + (items + [P(RParen)]));
  }

  lemma {:induction false} OperandsBalanced(e: Expr, l: Expr, words: Tokens, r: Expr)
    requires l < e && r < e && forall k :: 0 <= k < |words| ==> !Opens(words[k]) && !Closes(words[k])
    ensures Balanced(Atom(l) + (words + Atom(r)))
    decreases e, -1
  {
    hide Balanced, Atom;
    AtomBalanced(l);
    AtomBalanced(r);
    BalancedWords(words);
    Balanced3(Atom(l), words, Atom(r));
  }

  lemma {:induction false} ItemsBalanced(es: seq<Expr>)
    ensures Balanced(Items(es))
    decreases es, 2
  {
    hide Balanced, Atom;
    if es == [] {
      BalancedNone();
    } else {
      AtomBalanced(es[0]);
      if |es| > 1 {
        ItemsBalanced(es[1..]);
        BalancedWords([P(Comma)]);
        Balanced3(Atom(es[0]), [P(Comma)], Items(es[1..]));
      }
    }
  }

  lemma {:induction false} EntriesBalanced(es: seq<(Expr, Expr)>)
    ensures Balanced(Entries(es))
    decreases es, 2
  {
    hide Balanced, Atom;
    if es == [] {
      BalancedNone();
    } else {
      EntryBalanced(es[0]);
      if |es| > 1 {
        EntriesBalanced(es[1..]);
        BalancedWords([P(Comma)]);
        Balanced3(Entry(es[0]), [P(Comma)], Entries(es[1..]));
      }
    }
  }

  lemma {:induction false} EntryBalanced(entry: (Expr, Expr))
    ensures Balanced(Entry(entry))
    decreases entry
  {
    hide Balanced, Atom;
    AtomBalanced(entry.0);
    AtomBalanced(entry.1);
    BalancedWords([P(Colon)]);
    Balanced3(Atom(entry.0), [P(Colon)], Atom(entry.1));
  }

  lemma AtomEnds(e: Expr, rest: Tokens)
    ensures End(Atom(e) + rest) == rest
  {
    hide Balanced, Body, Items, Entries;
    if e.Lit? || e.Var? {
      assert (Atom(e) + rest)[1..] == rest;
    } else {
      InnerBalanced(e);
      var (open, inner, close) := Brackets(e);
      BalancedInside(open, inner, close);
      assert (Atom(e) + rest)[1..] == (inner + [close]) + rest;
    }
  }

  /** Whatever tree an atom is read as, it is read whole and nothing more is. */
  lemma Exact(e: Expr, rest: Tokens)
    requires PPrimary(Atom(e) + rest).Ok?
    ensures PPrimary(Atom(e) + rest).value.1 == rest
  {
    hide PPrimary, Atom, After;
    PrimaryEnds(Atom(e) + rest);
    AtomEnds(e, rest);
  }
}
