/**
 * The recursive-descent parser over a mutable cursor. Every method is proved against the grammar
 * function of the same name: same tree or same error, and the cursor left where the grammar says.
 */
module ExprParser {
  import opened Common
  import opened ExprSyntax
  import opened ExprGrammar
  import ExprLexer

  /** The outcome of a method against the grammar's answer on the tokens it started from. */
  ghost predicate Agrees<T>(spec: Result<(T, Tokens), SyntaxError>, r: Result<T, SyntaxError>, rest: Tokens) {
    match spec
    case Ok((value, after)) => r == Ok(value) && rest == after
    case Err(e) => r == Err(e)
  }

  /** One turn of a left-associative tier. */
  lemma Turn(tier: Tier, left: Expr, ts: Tokens)
    ensures ts == [] || !Joins(tier, ts[0]) ==> PBinRest(tier, left, ts) == Ok((left, ts))
    ensures ts != [] && Joins(tier, ts[0]) ==>
      var right := POperand(tier, ts[1..]);
      PBinRest(tier, left, ts) ==
      if right.Err? then Err(right.error)
      else PBinRest(tier, Join(tier, ts[0], left, right.value.0), right.value.1)
  {
    hide POperand, Joins, Join;
  }

  lemma SumTokens(t: Token, left: Expr, right: Expr)
    ensures Joins(Math1Tier, t) <==> t == Op(Plus) || t == Op(Minus)
    ensures Joins(Math1Tier, t) ==>
      Join(Math1Tier, t, left, right) == Binary(if t == Op(Plus) then BAdd else BSub, left, right)
  {
  }

  lemma ConcatToken(left: Expr, right: Expr)
    ensures forall t :: Joins(ConcatTier, t) <==> t == Op(Tilde)
    ensures Join(ConcatTier, Op(Tilde), left, right) == Binary(BConcat, left, right)
  {
  }

  lemma Opening(tier: Tier, ts: Tokens)
    ensures var left := POperand(tier, ts);
      PBin(tier, ts) == if left.Err? then Err(left.error) else PBinRest(tier, left.value.0, left.value.1)
  {
    hide POperand, PBinRest;
  }

  /** What a primary is, by the token it begins with. */
  lemma PrimaryAt(ts: Tokens)
    ensures ts != [] && ts[0].StringLit? ==> PPrimary(ts) == Ok((Lit(LStr(ts[0].text)), ts[1..]))
    ensures ts != [] && ts[0].Number? ==> PPrimary(ts) == Ok((Lit(LNum(ts[0].value)), ts[1..]))
    ensures ts != [] && ts[0].Name? ==>
      var literal := KeywordLiteral(ts[0].id);
      PPrimary(ts) == Ok((if literal.Some? then Lit(literal.value) else Var(ts[0].id), ts[1..]))
    ensures AtPunct(ts, LParen) ==>
      var inner := PExpr(ts[1..]);
      PPrimary(ts) ==
      if inner.Err? then Err(inner.error)
      else if AtPunct(inner.value.1, Comma) then Err(TuplesUnsupported)
      else
        var close := Expect(P(RParen), inner.value.1);
        if close.Err? then Err(close.error) else Ok((inner.value.0, close.value))
    ensures AtPunct(ts, LBracket) ==>
      var items := PList(RBracket, ts[1..]);
      PPrimary(ts) == if items.Err? then Err(items.error) else Ok((ListExpr(items.value.0), items.value.1))
    ensures AtPunct(ts, LBrace) && AtPunct(ts[1..], RBrace) ==> PPrimary(ts) == Ok((DictExpr([]), ts[2..]))
    ensures AtPunct(ts, LBrace) && !AtPunct(ts[1..], RBrace) ==>
      var entries := PEntries(ts[1..]);
      PPrimary(ts) ==
      if entries.Err? then Err(entries.error)
      else
        var close := Expect(P(RBrace), entries.value.1);
        if close.Err? then Err(close.error) else Ok((DictExpr(entries.value.0), close.value))
    ensures ts == [] || !(Begins(ts[0]) || AtPunct(ts, LParen) || AtPunct(ts, LBracket) || AtPunct(ts, LBrace)) ==>
      PPrimary(ts) == Err(Unexpected(Current(ts)))
  {
    hide PExpr, PList, PEntries, KeywordLiteral;
  }

  predicate Begins(t: Token) {
    t.StringLit? || t.Number? || t.Name?
  }

  class Parser {
    const tokens: seq<Token>
    var index: nat

    ghost predicate Valid()
      reads this
    {
      index < |tokens|
      && tokens[|tokens| - 1] == Eof
      && forall i :: 0 <= i < |tokens| - 1 ==> tokens[i] != Eof
    }

    ghost function Rest(): Tokens
      requires Valid()
      reads this
    {
      tokens[index..|tokens| - 1]
    }

    constructor (tokens: seq<Token>)
      requires tokens != [] && tokens[|tokens| - 1] == Eof
      requires forall i :: 0 <= i < |tokens| - 1 ==> tokens[i] != Eof
      ensures Valid() && Rest() == tokens[..|tokens| - 1] && this.tokens == tokens
    {
      this.tokens := tokens;
      index := 0;
    }

    function CurrentToken(): (t: Token)
      requires Valid()
      reads this
      ensures t == Current(Rest())
    {
      tokens[index]
    }

    /** One token ahead; the end marker when the list is used up. */
    function Peek(): (t: Token)
      requires Valid()
      reads this
      ensures Rest() != [] ==> t == Current(Rest()[1..])
    {
      if index + 1 < |tokens| then tokens[index + 1] else tokens[|tokens| - 1]
    }

    method Advance() returns (t: Token)
      requires Valid()
      modifies this
      ensures Valid() && t == Current(old(Rest()))
      ensures Rest() == if old(Rest()) == [] then [] else old(Rest())[1..]
    {
      t := CurrentToken();
      if t != Eof { index := index + 1; }
    }

    method Accept(t: Token) returns (yes: bool)
      requires Valid() && t != Eof
      modifies this
      ensures Valid() && yes == At(old(Rest()), t)
      ensures Rest() == if yes then old(Rest())[1..] else old(Rest())
    {
      yes := CurrentToken() == t;
      if yes { var _ := Advance(); }
    }

    method ExpectToken(t: Token) returns (r: Result<(), SyntaxError>)
      requires Valid() && t != Eof
      modifies this
      ensures Valid()
      ensures match Expect(t, old(Rest()))
              case Ok(after) => r == Ok(()) && Rest() == after
              case Err(e) => r == Err(e)
    {
      if CurrentToken() != t { return Err(Expected(t, CurrentToken())); }
      var _ := Advance();
      return Ok(());
    }

    method ExpectIdentifier() returns (r: Result<string, SyntaxError>)
      requires Valid()
      modifies this
      ensures Valid() && Agrees(ExpectName(old(Rest())), r, Rest())
    {
      if !CurrentToken().Name? { return Err(SyntaxError.ExpectedName(CurrentToken())); }
      var t := Advance();
      return Ok(t.id);
    }

    method ExpectEnd() returns (r: Result<(), SyntaxError>)
      requires Valid()
      ensures r == if Rest() == [] then Ok(()) else Err(Unexpected(Rest()[0]))
    {
      return if CurrentToken() == Eof then Ok(()) else Err(Unexpected(CurrentToken()));
    }

    method ParseExpression() returns (r: Result<Expr, SyntaxError>)
      requires Valid()
      modifies this
      ensures Valid() && Agrees(PExpr(old(Rest())), r, Rest())
      decreases |Rest()|, 20
    {
      var body :- ParseOr();
      var isIf := Accept(Name("if"));
      if !isIf { return Ok(body); }
      var condition :- ParseOr();
      var isElse := Accept(Name("else"));
      if isElse {
        var orElse :- ParseExpression();
        return Ok(Conditional(body, condition, Some(orElse)));
      }
      return Ok(Conditional(body, condition, None));
    }

    method ParseOr() returns (r: Result<Expr, SyntaxError>)
      requires Valid()
      modifies this
      ensures Valid() && Agrees(PBin(OrTier, old(Rest())), r, Rest())
      decreases |Rest()|, 16
    {
      hide PExpr, PBin, PBinRest, PNot, PCompare, PLinks, PUnary;
      hide PPrimary, PPostfix, PFilters, PFilter, PTest, PList, PItems, PEntries;
      Opening(OrTier, Rest());
      var left :- ParseAnd();
      while true
        invariant Valid() && |Rest()| < |old(Rest())|
        invariant PBin(OrTier, old(Rest())) == PBinRest(OrTier, left, Rest())
        decreases |Rest()|
      {
        Turn(OrTier, left, Rest());
        var more := Accept(Name("or"));
        if !more { return Ok(left); }
        var right :- ParseAnd();
        left := Logical(BOr, left, right);
      }
    }

    method ParseAnd() returns (r: Result<Expr, SyntaxError>)
      requires Valid()
      modifies this
      ensures Valid() && Agrees(PBin(AndTier, old(Rest())), r, Rest())
      decreases |Rest()|, 14
    {
      hide PExpr, PBin, PBinRest, PNot, PCompare, PLinks, PUnary;
      hide PPrimary, PPostfix, PFilters, PFilter, PTest, PList, PItems, PEntries;
      Opening(AndTier, Rest());
      var left :- ParseNot();
      while true
        invariant Valid() && |Rest()| < |old(Rest())|
        invariant PBin(AndTier, old(Rest())) == PBinRest(AndTier, left, Rest())
        decreases |Rest()|
      {
        Turn(AndTier, left, Rest());
        var more := Accept(Name("and"));
        if !more { return Ok(left); }
        var right :- ParseNot();
        left := Logical(BAnd, left, right);
      }
    }

    method ParseNot() returns (r: Result<Expr, SyntaxError>)
      requires Valid()
      modifies this
      ensures Valid() && Agrees(PNot(old(Rest())), r, Rest())
      decreases |Rest()|, 12
    {
      var isNot := Accept(Name("not"));
      if isNot {
        var operand :- ParseNot();
        return Ok(Unary(UNot, operand));
      }
      r := ParseCompare();
    }

    method ParseCompare() returns (r: Result<Expr, SyntaxError>)
      requires Valid()
      modifies this
      ensures Valid() && Agrees(PCompare(old(Rest())), r, Rest())
      decreases |Rest()|, 11
    {
      hide PExpr, PBin, POperand, PBinRest, PNot, PUnary, PPrimary;
      hide PPostfix, PFilters, PFilter, PTest, PList, PItems, PEntries;
      var first :- ParseMath1();
      ghost var afterFirst := Rest();
      var links: seq<Link> := [];
      assert PLinks(afterFirst).Ok? ==> links + PLinks(afterFirst).value.0 == PLinks(afterFirst).value.0;
      while true
        invariant Valid() && |Rest()| <= |afterFirst| < |old(Rest())|
        invariant PLinks(afterFirst) == LinksThen(links, PLinks(Rest()))
        decreases |Rest()|
      {
        var op := NextCompareOperator();
        if op.None? {
          assert links + [] == links;
          break;
        }
        var node :- ParseMath1();
        LinksSnoc(links, (op.value, node), PLinks(Rest()));
        links := links + [(op.value, node)];
      }
      assert PLinks(afterFirst) == Ok((links, Rest()));
      if |links| == 0 { return Ok(first); }
      var left := links[0].1;
      var result := Compare(links[0].0, first, left);
      var k := 1;
      while k < |links|
        invariant 1 <= k <= |links|
        invariant Chain(first, links) == ChainFrom(result, left, links[k..])
      {
        var link := links[k];
        assert links[k..][1..] == links[k + 1..];
        result := Logical(BAnd, result, Compare(link.0, left, link.1));
        left := link.1;
        k := k + 1;
      }
      return Ok(result);
    }

    method NextCompareOperator() returns (op: Option<CompareOp>)
      requires Valid()
      modifies this
      ensures Valid()
      ensures match CompareAt(old(Rest()))
              case None => op == None && Rest() == old(Rest())
              case Some((c, n)) => op == Some(c) && Rest() == old(Rest())[n..]
    {
      var t := CurrentToken();
      if t.Op? && t.op in {EqEq, NotEq, Less, LessEq, Greater, GreaterEq} {
        var _ := Advance();
        return Some(match t.op
                    case EqEq => CEq
                    case NotEq => CNe
                    case Less => CLt
                    case LessEq => CLe
                    case Greater => CGt
                    case _ => CGe);
      }
      var isIn := Accept(Name("in"));
      if isIn { return Some(CIn); }
      if CurrentToken() == Name("not") && Peek() == Name("in") {
        var _ := Advance();
        var _ := Advance();
        return Some(CNotIn);
      }
      return None;
    }

    method ParseMath1() returns (r: Result<Expr, SyntaxError>)
      requires Valid()
      modifies this
      ensures Valid() && Agrees(PBin(Math1Tier, old(Rest())), r, Rest())
      decreases |Rest()|, 9
    {
      hide PExpr, PBin, PBinRest, PNot, PCompare, PLinks, PUnary;
      hide PPrimary, PPostfix, PFilters, PFilter, PTest, PList, PItems, PEntries;
      hide Join, Joins;
      Opening(Math1Tier, Rest());
      var left :- ParseConcat();
      while CurrentToken() == Op(Plus) || CurrentToken() == Op(Minus)
        invariant Valid() && |Rest()| < |old(Rest())|
        invariant PBin(Math1Tier, old(Rest())) == PBinRest(Math1Tier, left, Rest())
        decreases |Rest()|
      {
        Turn(Math1Tier, left, Rest());
        SumTokens(CurrentToken(), left, left);
        var t := Advance();
        var right :- ParseConcat();
        SumTokens(t, left, right);
        left := Binary(if t == Op(Plus) then BAdd else BSub, left, right);
      }
      Turn(Math1Tier, left, Rest());
      SumTokens(CurrentToken(), left, left);
      return Ok(left);
    }

    method ParseConcat() returns (r: Result<Expr, SyntaxError>)
      requires Valid()
      modifies this
      ensures Valid() && Agrees(PBin(ConcatTier, old(Rest())), r, Rest())
      decreases |Rest()|, 7
    {
      hide PExpr, PBin, PBinRest, PNot, PCompare, PLinks, PUnary;
      hide PPrimary, PPostfix, PFilters, PFilter, PTest, PList, PItems, PEntries;
      hide Join, Joins;
      Opening(ConcatTier, Rest());
      var left :- ParseMath2();
      while true
        invariant Valid() && |Rest()| < |old(Rest())|
        invariant PBin(ConcatTier, old(Rest())) == PBinRest(ConcatTier, left, Rest())
        decreases |Rest()|
      {
        Turn(ConcatTier, left, Rest());
        ConcatToken(left, left);
        var more := Accept(Op(Tilde));
        if !more { return Ok(left); }
        var right :- ParseMath2();
        ConcatToken(left, right);
        left := Binary(BConcat, left, right);
      }
    }

    method ParseMath2() returns (r: Result<Expr, SyntaxError>)
      requires Valid()
      modifies this
      ensures Valid() && Agrees(PBin(Math2Tier, old(Rest())), r, Rest())
      decreases |Rest()|, 5
    {
      hide PExpr, PBin, PBinRest, PNot, PCompare, PLinks, PUnary;
      hide PPrimary, PPostfix, PFilters, PFilter, PTest, PList, PItems, PEntries;
      Opening(Math2Tier, Rest());
      var left :- ParseUnary();
      while CurrentToken() in {Op(Star), Op(Slash), Op(FloorDiv), Op(Percent)}
        invariant Valid() && |Rest()| < |old(Rest())|
        invariant PBin(Math2Tier, old(Rest())) == PBinRest(Math2Tier, left, Rest())
        decreases |Rest()|
      {
        Turn(Math2Tier, left, Rest());
        var t := Advance();
        var right :- ParseUnary();
        left := Binary(match t
                       case Op(Star) => BMul
                       case Op(Slash) => BDiv
                       case Op(FloorDiv) => BFloorDiv
                       case _ => BMod, left, right);
      }
      Turn(Math2Tier, left, Rest());
      return Ok(left);
    }

    method ParseUnary() returns (r: Result<Expr, SyntaxError>)
      requires Valid()
      modifies this
      ensures Valid() && Agrees(PUnary(old(Rest())), r, Rest())
      decreases |Rest()|, 4
    {
      hide PExpr, PBin, POperand, PBinRest, PNot, PCompare, PLinks;
      hide PPrimary, PPostfix, PFilters, PFilter, PTest, PList, PItems, PEntries;
      var node: Expr;
      if CurrentToken() == Op(Minus) || CurrentToken() == Op(Plus) {
        var t := Advance();
        var operand :- ParseUnary();
        node := Unary(if t == Op(Minus) then UMinus else UPlus, operand);
      } else {
        node :- ParsePrimary();
      }
      node :- ParsePostfix(node);
      r := ParseFilterExpression(node);
    }

    method ParsePostfix(start: Expr) returns (r: Result<Expr, SyntaxError>)
      requires Valid()
      modifies this
      ensures Valid() && Agrees(PPostfix(start, old(Rest())), r, Rest())
      decreases |Rest()|, 2
    {
      var node := start;
      while true
        invariant Valid() && |Rest()| <= |old(Rest())|
        invariant PPostfix(start, old(Rest())) == PPostfix(node, Rest())
        decreases |Rest()|
      {
        var dot := Accept(P(Dot));
        if dot {
          var name :- ExpectIdentifier();
          node := Attribute(node, name);
          continue;
        }
        var bracket := Accept(P(LBracket));
        if bracket {
          var index :- ParseExpression();
          var _ :- ExpectToken(P(RBracket));
          node := Index(node, index);
          continue;
        }
        if CurrentToken() == P(LParen) {
          var args :- ParseArguments();
          node := Call(node, args);
          continue;
        }
        return Ok(node);
      }
    }

    method ParseFilterExpression(start: Expr) returns (r: Result<Expr, SyntaxError>)
      requires Valid()
      modifies this
      ensures Valid() && Agrees(PFilters(start, old(Rest())), r, Rest())
      decreases |Rest()|, 3
    {
      var node := start;
      while true
        invariant Valid() && |Rest()| <= |old(Rest())|
        invariant PFilters(start, old(Rest())) == PFilters(node, Rest())
        decreases |Rest()|
      {
        var pipe := Accept(Op(Pipe));
        if pipe {
          var name :- ExpectIdentifier();
          var args: seq<Expr> := [];
          if CurrentToken() == P(LParen) { args :- ParseArguments(); }
          node := Filter(node, name, args);
          continue;
        }
        var isTest := Accept(Name("is"));
        if isTest {
          var negated := Accept(Name("not"));
          var name :- ExpectIdentifier();
          node := TestNode(node, name, negated);
          continue;
        }
        return Ok(node);
      }
    }

    method ParseArguments() returns (r: Result<seq<Expr>, SyntaxError>)
      requires Valid() && AtPunct(Rest(), LParen)
      modifies this
      ensures Valid() && Agrees(PList(RParen, old(Rest())[1..]), r, Rest())
      decreases |Rest()|, 1
    {
      var _ := Advance();
      r := ParseSequence(RParen);
    }

    /** The `do … while (accept(","))` loop shared by argument lists and list displays. */
    method ParseSequence(close: Punct) returns (r: Result<seq<Expr>, SyntaxError>)
      requires Valid()
      modifies this
      ensures Valid() && Agrees(PList(close, old(Rest())), r, Rest())
      decreases |Rest()|, 22
    {
      hide PExpr, PBin, POperand, PBinRest, PNot, PCompare, PLinks;
      hide PUnary, PPrimary, PPostfix, PFilters, PFilter, PTest, PEntries;
      var items: seq<Expr> := [];
      var empty := Accept(P(close));
      if empty { return Ok(items); }
      ghost var start := Rest();
      assert PItems(start).Ok? ==> items + PItems(start).value.0 == PItems(start).value.0;
      var more := true;
      while more
        invariant Valid() && |Rest()| <= |start|
        invariant more ==> PItems(start) == ItemsThen(items, PItems(Rest()))
        invariant !more ==> PItems(start) == Ok((items, Rest()))
        decreases more, |Rest()|
      {
        var item :- ParseExpression();
        more := Accept(P(Comma));
        if more { ItemsSnoc(items, item, PItems(Rest())); }
        items := items + [item];
      }
      var _ :- ExpectToken(P(close));
      return Ok(items);
    }

    method ParseEntries() returns (r: Result<seq<(Expr, Expr)>, SyntaxError>)
      requires Valid()
      modifies this
      ensures Valid() && Agrees(PEntries(old(Rest())), r, Rest())
      decreases |Rest()|, 22
    {
      hide PExpr, PBin, POperand, PBinRest, PNot, PCompare, PLinks;
      hide PUnary, PPrimary, PPostfix, PFilters, PFilter, PTest, PList, PItems;
      var entries: seq<(Expr, Expr)> := [];
      ghost var start := Rest();
      assert PEntries(start).Ok? ==> entries + PEntries(start).value.0 == PEntries(start).value.0;
      var more := true;
      while more
        invariant Valid() && |Rest()| <= |start|
        invariant more ==> PEntries(start) == EntriesThen(entries, PEntries(Rest()))
        invariant !more ==> PEntries(start) == Ok((entries, Rest()))
        decreases more, |Rest()|
      {
        var key :- ParseExpression();
        var _ :- ExpectToken(P(Colon));
        var value :- ParseExpression();
        more := Accept(P(Comma));
        if more { EntriesSnoc(entries, (key, value), PEntries(Rest())); }
        entries := entries + [(key, value)];
      }
      return Ok(entries);
    }

    method ParsePrimary() returns (r: Result<Expr, SyntaxError>)
      requires Valid()
      modifies this
      ensures Valid() && Agrees(PPrimary(old(Rest())), r, Rest())
      decreases |Rest()|, 1
    {
      hide PExpr, PBin, POperand, PBinRest, PNot, PCompare, PLinks;
      hide PUnary, PPrimary, PPostfix, PFilters, PFilter, PTest, PList, PItems, PEntries, KeywordLiteral;
      PrimaryAt(Rest());
      var token := CurrentToken();
      if token.StringLit? {
        var _ := Advance();
        return Ok(Lit(LStr(token.text)));
      }
      if token.Number? {
        var _ := Advance();
        return Ok(Lit(LNum(token.value)));
      }
      if token.Name? {
        var _ := Advance();
        var literal := KeywordLiteral(token.id);
        return Ok(if literal.Some? then Lit(literal.value) else Var(token.id));
      }
      var paren := Accept(P(LParen));
      if paren {
        var node :- ParseExpression();
        if CurrentToken() == P(Comma) { return Err(TuplesUnsupported); }
        var _ :- ExpectToken(P(RParen));
        return Ok(node);
      }
      var bracket := Accept(P(LBracket));
      if bracket {
        var items :- ParseSequence(RBracket);
        return Ok(ListExpr(items));
      }
      var brace := Accept(P(LBrace));
      if brace {
        var empty := Accept(P(RBrace));
        if empty { return Ok(DictExpr([])); }
        var entries :- ParseEntries();
        var _ :- ExpectToken(P(RBrace));
        return Ok(DictExpr(entries));
      }
      return Err(Unexpected(token));
    }
  }

  ghost function LinksThen(links: seq<Link>, r: ParsedLinks): ParsedLinks {
    match r case Ok((more, rest)) => Ok((links + more, rest)) case Err(e) => Err(e)
  }

  ghost function ItemsThen(items: seq<Expr>, r: ParsedMany): ParsedMany {
    match r case Ok((more, rest)) => Ok((items + more, rest)) case Err(e) => Err(e)
  }

  ghost function EntriesThen(entries: seq<(Expr, Expr)>, r: ParsedEntries): ParsedEntries {
    match r case Ok((more, rest)) => Ok((entries + more, rest)) case Err(e) => Err(e)
  }

  lemma LinksSnoc(links: seq<Link>, link: Link, r: ParsedLinks)
    ensures LinksThen(links, LinksThen([link], r)) == LinksThen(links + [link], r)
  {
    if r.Ok? { assert links + ([link] + r.value.0) == links + [link] + r.value.0; }
  }

  lemma ItemsSnoc(items: seq<Expr>, item: Expr, r: ParsedMany)
    ensures ItemsThen(items, ItemsThen([item], r)) == ItemsThen(items + [item], r)
  {
    if r.Ok? { assert items + ([item] + r.value.0) == items + [item] + r.value.0; }
  }

  lemma EntriesSnoc(entries: seq<(Expr, Expr)>, entry: (Expr, Expr), r: ParsedEntries)
    ensures EntriesThen(entries, EntriesThen([entry], r)) == EntriesThen(entries + [entry], r)
  {
    if r.Ok? { assert entries + ([entry] + r.value.0) == entries + [entry] + r.value.0; }
  }

  /** `parse`: scan, parse, and require the end. */
  method ParseSource(source: string) returns (r: Result<Expr, SyntaxError>)
    ensures r == Parse(source)
  {
    var tokens :- ExprLexer.Tokenize(source);
    var ts := tokens[..|tokens| - 1];
    assert ExprLexer.Lex(source) == Ok(ts);
    var parser := new Parser(tokens);
    var node :- parser.ParseExpression();
    var _ :- parser.ExpectEnd();
    return Ok(node);
  }
}
