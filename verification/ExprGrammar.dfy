/**
 * The grammar as functions on the tokens that remain, end marker excluded.
 * The left-associative tiers share one definition, indexed by the tier.
 */
module ExprGrammar {
  import opened Common
  import ExprLexer
  import opened ExprSyntax

  type Tokens = seq<Token>
  type Parsed = Result<(Expr, Tokens), SyntaxError>
  type ParsedMany = Result<(seq<Expr>, Tokens), SyntaxError>
  type ParsedEntries = Result<(seq<(Expr, Expr)>, Tokens), SyntaxError>
  type Link = (CompareOp, Expr)
  type ParsedLinks = Result<(seq<Link>, Tokens), SyntaxError>

  function Current(ts: Tokens): Token {
    if ts == [] then Eof else ts[0]
  }

  predicate At(ts: Tokens, t: Token)
    requires t != Eof
  {
    ts != [] && ts[0] == t
  }

  predicate AtName(ts: Tokens, id: string) {
    At(ts, Name(id))
  }

  predicate AtPunct(ts: Tokens, p: Punct) {
    At(ts, P(p))
  }

  /** Left-associative binary operators, loosest first. */
  datatype Tier = OrTier | AndTier | Math1Tier | ConcatTier | Math2Tier

  function Rank(tier: Tier): nat {
    match tier
    case OrTier => 16
    case AndTier => 14
    case Math1Tier => 9
    case ConcatTier => 7
    case Math2Tier => 5
  }

  predicate Joins(tier: Tier, t: Token) {
    match tier
    case OrTier => t == Name("or")
    case AndTier => t == Name("and")
    case Math1Tier => t == Op(Plus) || t == Op(Minus)
    case ConcatTier => t == Op(Tilde)
    case Math2Tier => t == Op(Star) || t == Op(Slash) || t == Op(FloorDiv) || t == Op(Percent)
  }

  function Join(tier: Tier, t: Token, left: Expr, right: Expr): Expr
    requires Joins(tier, t)
  {
    match t
    case Op(Plus) => Binary(BAdd, left, right)
    case Op(Minus) => Binary(BSub, left, right)
    case Op(Tilde) => Binary(BConcat, left, right)
    case Op(Star) => Binary(BMul, left, right)
    case Op(Slash) => Binary(BDiv, left, right)
    case Op(FloorDiv) => Binary(BFloorDiv, left, right)
    case Op(Percent) => Binary(BMod, left, right)
    case _ => Logical(if tier == OrTier then BOr else BAnd, left, right)
  }

  /** The comparison operator at the head, and the number of tokens it takes. */
  function CompareAt(ts: Tokens): (r: Option<(CompareOp, nat)>)
    ensures r.Some? ==> 0 < r.value.1 <= |ts|
  {
    if ts == [] then None
    else
      match ts[0]
      case Op(EqEq) => Some((CEq, 1))
      case Op(NotEq) => Some((CNe, 1))
      case Op(Less) => Some((CLt, 1))
      case Op(LessEq) => Some((CLe, 1))
      case Op(Greater) => Some((CGt, 1))
      case Op(GreaterEq) => Some((CGe, 1))
      case Name(id) =>
        if id == "in" then Some((CIn, 1))
        else if id == "not" && |ts| > 1 && ts[1] == Name("in") then Some((CNotIn, 2))
        else None
      case _ => None
  }

  /** `a < b < c` reads `a < b and b < c`. */
  function Chain(first: Expr, links: seq<Link>): Expr {
    if links == [] then first else ChainFrom(Compare(links[0].0, first, links[0].1), links[0].1, links[1..])
  }

  function ChainFrom(acc: Expr, left: Expr, links: seq<Link>): Expr
    decreases |links|
  {
    if links == [] then acc
    else
      ChainFrom(Logical(BAnd, acc, Compare(links[0].0, left, links[0].1)), links[0].1, links[1..])
  }

  /** A comparison operator a chain can carry: `is` comes from the test syntax only. */
  ghost predicate LinksOk(links: seq<Link>) {
    forall k :: 0 <= k < |links| ==>
      WellFormed(links[k].1) && links[k].0 != CIs && links[k].0 != CIsNot
  }

  lemma ChainFromWellFormed(acc: Expr, left: Expr, links: seq<Link>)
    requires WellFormed(acc) && WellFormed(left) && LinksOk(links)
    ensures WellFormed(ChainFrom(acc, left, links))
    decreases |links|
  {
    if links != [] {
      ChainFromWellFormed(Logical(BAnd, acc, Compare(links[0].0, left, links[0].1)), links[0].1, links[1..]);
    }
  }

  /** What a parsing function owes: it consumes a token, and keeps the tree inside the language. */
  ghost predicate Sound(ts: Tokens, r: Parsed) {
    r.Ok? ==> |r.value.1| < |ts| && (TokensOk(ts) ==> WellFormed(r.value.0) && TokensOk(r.value.1))
  }

  /** The same for the loops that extend `left`, which may consume nothing. */
  ghost predicate Extends(left: Expr, ts: Tokens, r: Parsed) {
    r.Ok? ==>
      |r.value.1| <= |ts|
      && (WellFormed(left) && TokensOk(ts) ==> WellFormed(r.value.0) && TokensOk(r.value.1))
  }

  ghost predicate SoundMany(ts: Tokens, r: ParsedMany) {
    r.Ok? ==>
      |r.value.1| < |ts|
      && (TokensOk(ts) ==>
            TokensOk(r.value.1) && forall k :: 0 <= k < |r.value.0| ==> WellFormed(r.value.0[k]))
  }

  ghost predicate SoundEntries(ts: Tokens, r: ParsedEntries) {
    r.Ok? ==>
      |r.value.1| < |ts|
      && (TokensOk(ts) ==>
            TokensOk(r.value.1)
            && forall k :: 0 <= k < |r.value.0| ==>
                 WellFormed(r.value.0[k].0) && WellFormed(r.value.0[k].1))
  }

  function Expect(t: Token, ts: Tokens): (r: Result<Tokens, SyntaxError>)
    requires t != Eof
    ensures r.Ok? ==> ts != [] && r.value == ts[1..]
  {
    if At(ts, t) then Ok(ts[1..]) else Err(Expected(t, Current(ts)))
  }

  function ExpectName(ts: Tokens): (r: Result<(string, Tokens), SyntaxError>)
    ensures r.Ok? ==> ts != [] && ts[0] == Name(r.value.0) && r.value.1 == ts[1..]
  {
    if ts != [] && ts[0].Name? then Ok((ts[0].id, ts[1..])) else Err(ExprSyntax.ExpectedName(Current(ts)))
  }

  /** `body if condition [else orElse]`. */
  function PExpr(ts: Tokens): (r: Parsed)
    ensures Sound(ts, r)
    decreases |ts|, 20
  {
    var (body, rest) :- PBin(OrTier, ts);
    if !AtName(rest, "if") then Ok((body, rest))
    else
      var (condition, rest) :- PBin(OrTier, rest[1..]);
      if AtName(rest, "else") then
        var (orElse, rest) :- PExpr(rest[1..]);
        Ok((Conditional(body, condition, Some(orElse)), rest))
      else Ok((Conditional(body, condition, None), rest))
  }

  function POperand(tier: Tier, ts: Tokens): (r: Parsed)
    ensures Sound(ts, r)
    decreases |ts|, Rank(tier) - 1
  {
    match tier
    case OrTier => PBin(AndTier, ts)
    case AndTier => PNot(ts)
    case Math1Tier => PBin(ConcatTier, ts)
    case ConcatTier => PBin(Math2Tier, ts)
    case Math2Tier => PUnary(ts)
  }

  function PBin(tier: Tier, ts: Tokens): (r: Parsed)
    ensures Sound(ts, r)
    decreases |ts|, Rank(tier)
  {
    var (left, rest) :- POperand(tier, ts);
    PBinRest(tier, left, rest)
  }

  function PBinRest(tier: Tier, left: Expr, ts: Tokens): (r: Parsed)
    ensures Extends(left, ts, r)
    decreases |ts|, Rank(tier)
  {
    if ts != [] && Joins(tier, ts[0]) then
      var (right, rest) :- POperand(tier, ts[1..]);
      PBinRest(tier, Join(tier, ts[0], left, right), rest)
    else Ok((left, ts))
  }

  function PNot(ts: Tokens): (r: Parsed)
    ensures Sound(ts, r)
    decreases |ts|, 12
  {
    if AtName(ts, "not") then
      var (operand, rest) :- PNot(ts[1..]);
      Ok((Unary(UNot, operand), rest))
    else PCompare(ts)
  }

  function PCompare(ts: Tokens): (r: Parsed)
    ensures Sound(ts, r)
    decreases |ts|, 11
  {
    var (first, rest) :- PBin(Math1Tier, ts);
    var (links, rest) :- PLinks(rest);
    assert TokensOk(ts) ==> WellFormed(Chain(first, links)) by {
      if TokensOk(ts) && links != [] {
        ChainFromWellFormed(Compare(links[0].0, first, links[0].1), links[0].1, links[1..]);
      }
    }
    Ok((Chain(first, links), rest))
  }

  function PLinks(ts: Tokens): (r: ParsedLinks)
    ensures r.Ok? ==> |r.value.1| <= |ts| && (TokensOk(ts) ==> LinksOk(r.value.0) && TokensOk(r.value.1))
    decreases |ts|, 10
  {
    match CompareAt(ts)
    case None => Ok(([], ts))
    case Some((op, n)) =>
      var (node, rest) :- PBin(Math1Tier, ts[n..]);
      var (links, rest) :- PLinks(rest);
      Ok(([(op, node)] + links, rest))
  }

  function PUnary(ts: Tokens): (r: Parsed)
    ensures Sound(ts, r)
    decreases |ts|, 3
  {
    var (node, rest) :-
      if At(ts, Op(Minus)) || At(ts, Op(Plus)) then
        var (operand, rest) :- PUnary(ts[1..]);
        Ok((Unary(if ts[0] == Op(Minus) then UMinus else UPlus, operand), rest))
      else PPrimary(ts);
    var (node, rest) :- PPostfix(node, rest);
    PFilters(node, rest)
  }

  /** Attribute access, subscripting and calls. */
  function PPostfix(node: Expr, ts: Tokens): (r: Parsed)
    ensures Extends(node, ts, r)
    decreases |ts|, 2
  {
    if AtPunct(ts, Dot) then
      var (name, rest) :- ExpectName(ts[1..]);
      PPostfix(Attribute(node, name), rest)
    else if AtPunct(ts, LBracket) then
      var (index, rest) :- PExpr(ts[1..]);
      var rest :- Expect(P(RBracket), rest);
      PPostfix(Index(node, index), rest)
    else if AtPunct(ts, LParen) then
      var (args, rest) :- PList(RParen, ts[1..]);
      PPostfix(Call(node, args), rest)
    else Ok((node, ts))
  }

  /** `| filter[(args)]` and `is [not] test`: same level, left to right. */
  function PFilters(node: Expr, ts: Tokens): (r: Parsed)
    ensures Extends(node, ts, r)
    decreases |ts|, 3
  {
    if At(ts, Op(Pipe)) then
      var (node, rest) :- PFilter(node, ts);
      PFilters(node, rest)
    else if AtName(ts, "is") then
      var (node, rest) :- PTest(node, ts);
      PFilters(node, rest)
    else Ok((node, ts))
  }

  function PFilter(node: Expr, ts: Tokens): (r: Parsed)
    requires ts != []
    ensures Extends(node, ts, r) && (r.Ok? ==> |r.value.1| < |ts|)
    decreases |ts|, 2
  {
    var (name, rest) :- ExpectName(ts[1..]);
    if AtPunct(rest, LParen) then
      var (args, rest) :- PList(RParen, rest[1..]);
      Ok((Filter(node, name, args), rest))
    else Ok((Filter(node, name, []), rest))
  }

  function PTest(node: Expr, ts: Tokens): (r: Parsed)
    requires ts != []
    ensures Extends(node, ts, r) && (r.Ok? ==> |r.value.1| < |ts|)
  {
    var negated := AtName(ts[1..], "not");
    var (name, rest) :- ExpectName(if negated then ts[2..] else ts[1..]);
    Ok((TestNode(node, name, negated), rest))
  }

  /** `x is None` is an identity comparison; any other name is a test. */
  function TestNode(node: Expr, name: string, negated: bool): Expr {
    match KeywordLiteral(name)
    case Some(literal) => Compare(if negated then CIsNot else CIs, node, Lit(literal))
    case None => Test(node, name, negated)
  }

  /** A comma-separated list up to `close`, the opening bracket having been read. */
  function PList(close: Punct, ts: Tokens): (r: ParsedMany)
    ensures SoundMany(ts, r)
    decreases |ts|, 22
  {
    if AtPunct(ts, close) then Ok(([], ts[1..]))
    else
      var (items, rest) :- PItems(ts);
      var rest :- Expect(P(close), rest);
      Ok((items, rest))
  }

  function PItems(ts: Tokens): (r: ParsedMany)
    ensures SoundMany(ts, r)
    decreases |ts|, 21
  {
    var (item, rest) :- PExpr(ts);
    if AtPunct(rest, Comma) then
      var (items, rest) :- PItems(rest[1..]);
      Ok(([item] + items, rest))
    else Ok(([item], rest))
  }

  function PEntry(ts: Tokens): (r: Result<((Expr, Expr), Tokens), SyntaxError>)
    ensures r.Ok? ==>
              |r.value.1| < |ts|
              && (TokensOk(ts) ==>
                    TokensOk(r.value.1) && WellFormed(r.value.0.0) && WellFormed(r.value.0.1))
    decreases |ts|, 21
  {
    var (key, rest) :- PExpr(ts);
    var rest :- Expect(P(Colon), rest);
    var (value, rest) :- PExpr(rest);
    Ok(((key, value), rest))
  }

  function PEntries(ts: Tokens): (r: ParsedEntries)
    ensures SoundEntries(ts, r)
    decreases |ts|, 22
  {
    var (entry, rest) :- PEntry(ts);
    if AtPunct(rest, Comma) then
      var (entries, rest) :- PEntries(rest[1..]);
      Ok(([entry] + entries, rest))
    else Ok(([entry], rest))
  }

  function PPrimary(ts: Tokens): (r: Parsed)
    ensures Sound(ts, r)
    decreases |ts|, 1
  {
    if ts == [] then Err(Unexpected(Eof))
    else
      match ts[0]
      case StringLit(text) => Ok((Lit(LStr(text)), ts[1..]))
      case Number(value) => Ok((Lit(LNum(value)), ts[1..]))
      case Name(id) =>
        Ok((match KeywordLiteral(id) case Some(literal) => Lit(literal) case None => Var(id), ts[1..]))
      case P(LParen) =>
        var (node, rest) :- PExpr(ts[1..]);
        if AtPunct(rest, Comma) then Err(TuplesUnsupported)
        else
          var rest :- Expect(P(RParen), rest);
          Ok((node, rest))
      case P(LBracket) =>
        var (items, rest) :- PList(RBracket, ts[1..]);
        Ok((ListExpr(items), rest))
      case P(LBrace) =>
        if AtPunct(ts[1..], RBrace) then Ok((DictExpr([]), ts[2..]))
        else
          var (entries, rest) :- PEntries(ts[1..]);
          var rest :- Expect(P(RBrace), rest);
          Ok((DictExpr(entries), rest))
      case _ => Err(Unexpected(ts[0]))
  }

  /** A whole expression: the text is scanned, parsed, and must be used up. */
  function Parse(source: string): (r: Result<Expr, SyntaxError>)
  {
    var ts :- ExprLexer.Lex(source);
    ParseTokens(ts)
  }

  function ParseTokens(ts: Tokens): (r: Result<Expr, SyntaxError>)
    ensures r.Ok? && TokensOk(ts) ==> WellFormed(r.value)
  {
    var (node, rest) :- PExpr(ts);
    if rest == [] then Ok(node) else Err(Unexpected(rest[0]))
  }

}
