/**
 * The round trip of expressions, exactly. The parser reserves no words, so the word `not` is also a variable;
 * where the grammar looks for the operator first the variable cannot be read. A tree survives being written
 * out and read back if and only if every variable `not` in it stands elsewhere.
 */
module ExprHeard {
  import opened Common
  import opened ExprSyntax
  import opened ExprGrammar
  import opened ExprRoundTrip
  import opened ExprBrackets
  import ExprScanning
  import ExprLexer

  // ---- Failing up the ladder -------------------------------------------------

  lemma FailsOne(l: nat, ts: Tokens)
    requires l < 9 && Level(l, ts).Err? && PrefixFree(l, l + 1, ts)
    ensures Level(l + 1, ts).Err?
  {
    hide PPrimary, PExpr, PPostfix, PFilters, PLinks, PList;
    match l
    case 0 =>
    case 4 =>
    case 5 =>
    case 8 => EitherWay(ts);
    case _ =>
      var tier := match l case 1 => Math2Tier case 2 => ConcatTier case 3 => Math1Tier
                          case 6 => AndTier case _ => OrTier;
      OperandLevel(tier, ts);
  }

  lemma EitherWay(ts: Tokens)
    requires PBin(OrTier, ts).Err?
    ensures PExpr(ts).Err?
  {
    hide PBin;
  }

  lemma {:induction false} FailsUp(l: nat, top: nat, ts: Tokens)
    requires l <= top <= 9 && Level(l, ts).Err? && PrefixFree(l, top, ts)
    ensures Level(top, ts).Err?
    decreases top - l
  {
    hide Level;
    if l < top {
      FailsOne(l, ts);
      FailsUp(l + 1, top, ts);
    }
  }

  /** Tokens at which a bracketed part, a list item or the text ends. */
  predicate Ends(ts: Tokens) {
    ts == [] || ts[0] in {P(RParen), P(RBracket), P(RBrace), P(Comma), P(Colon)}
  }

  /** With nothing after it to negate, the word `not` is no operand of the looser levels. */
  lemma NotFails(l: nat, tail: Tokens)
    requires 6 <= l <= 9 && Ends(tail)
    ensures Level(l, [Name("not")] + tail).Err?
  {
    hide PBin, PExpr, PUnary, PCompare;
    var ts := [Name("not")] + tail;
    assert ts[1..] == tail;
    if tail == [] {
      EmptyFails(6);
    } else {
      FailsUp(0, 6, tail);
    }
    assert PNot(ts).Err?;
    FailsUp(6, l, ts);
  }

  /** A tree whose leftmost part is a negation: what any text that begins with `not` is read as. */
  predicate Led(e: Expr) {
    match e
    case Unary(op, _) => op == UNot
    case Logical(_, l, _) => Led(l)
    case Conditional(b, _, _) => Led(b)
    case _ => false
  }

  lemma {:induction false} RestLed(tier: Tier, left: Expr, ts: Tokens)
    requires Loose(tier) && Led(left) && PBinRest(tier, left, ts).Ok?
    ensures Led(PBinRest(tier, left, ts).value.0)
    decreases |ts|
  {
    hide POperand;
    if ts != [] && Joins(tier, ts[0]) {
      var (right, rest) := POperand(tier, ts[1..]).value;
      RestLed(tier, Join(tier, ts[0], left, right), rest);
    }
  }

  lemma {:induction false} NotLeads(l: nat, ts: Tokens)
    requires 6 <= l <= 9 && AtName(ts, "not") && Level(l, ts).Ok?
    ensures Led(Level(l, ts).value.0)
    decreases l
  {
    hide PCompare, PBinRest;
    if l == 7 || l == 8 {
      var tier := if l == 7 then AndTier else OrTier;
      OperandLevel(tier, ts);
      NotLeads(l - 1, ts);
      var (left, rest) := POperand(tier, ts).value;
      RestLed(tier, left, rest);
    } else if l == 9 {
      NotLeads(8, ts);
    }
  }

  // ---- The slots of a rendering ----------------------------------------------

  /** The atom of `c`, in some place, is read as `read`. */
  ghost predicate ReadAs(c: Expr, read: Expr) {
    exists tail: Tokens :: PPrimary(Atom(c) + tail) == Ok((read, tail))
  }

  /** If a level reads on from an atom, it began by reading that atom. */
  lemma Slot(top: nat, c: Expr, tail: Tokens) returns (read: Expr)
    requires top <= 9 && Level(top, Atom(c) + tail).Ok? && (top > 5 ==> Clear(c))
    ensures PPrimary(Atom(c) + tail) == Ok((read, tail))
    ensures ReadAs(c, read)
  {
    hide Level, Atom, PPrimary;
    AtomHead(top, c, tail);
    LevelZero(Atom(c) + tail);
    if PPrimary(Atom(c) + tail).Err? {
      FailsUp(0, top, Atom(c) + tail);
    }
    Exact(c, tail);
    read := PPrimary(Atom(c) + tail).value.0;
  }

  /** A slot for a whole expression. */
  lemma SlotExpr(c: Expr, tail: Tokens) returns (read: Expr)
    requires Ends(tail) && PExpr(Atom(c) + tail).Ok?
    ensures Clear(c) && PPrimary(Atom(c) + tail) == Ok((read, tail)) && PExpr(Atom(c) + tail) == Ok((read, tail))
    ensures ReadAs(c, read)
  {
    hide PExpr, PPrimary, ReadAs;
    if !Clear(c) {
      NotFails(9, tail);
    }
    read := Slot(9, c, tail);
    AtomExpr(c, read, tail);
  }

  lemma ParenthesesOpen(inner: Tokens, read: Expr, rest: Tokens)
    requires PPrimary([P(LParen)] + inner) == Ok((read, rest))
    ensures PExpr(inner) == Ok((read, [P(RParen)] + rest))
  {
    hide PExpr, PList, PEntries, KeywordLiteral;
    assert ([P(LParen)] + inner)[1..] == inner;
    var after := PExpr(inner).value.1;
    assert after == [after[0]] + after[1..];
  }

  /** A parenthesised body that was read back was read back without its parentheses. */
  lemma Opened(e: Expr, rest: Tokens)
    requires IsBody(e) && PPrimary(Atom(e) + rest) == Ok((e, rest))
    ensures PExpr(Body(e) + ([P(RParen)] + rest)) == Ok((e, [P(RParen)] + rest))
  {
    hide PExpr, PPrimary, Atom, Body;
    AtomOfBody(e);
    assert Atom(e) + rest == [P(LParen)] + (Body(e) + ([P(RParen)] + rest));
    ParenthesesOpen(Body(e) + ([P(RParen)] + rest), e, rest);
  }

  /** The first part of a body that was read back is not the variable `not`, and was read as some tree. */
  lemma First(e: Expr, l: Expr, tail: Tokens) returns (read: Expr)
    requires PExpr(Atom(l) + tail).Ok? && PExpr(Atom(l) + tail).value.0 == e
    requires Led(e) ==> Led(l)
    ensures Clear(l) && PPrimary(Atom(l) + tail) == Ok((read, tail))
    ensures ReadAs(l, read)
  {
    hide PExpr, PPrimary, ReadAs;
    if !Clear(l) {
      NotLeads(9, Atom(l) + tail);
    }
    read := Slot(9, l, tail);
  }

  /** The postfix and filter loops go through after a target. */
  lemma LoopsGo(t: Expr, read: Expr, tail: Tokens)
    requires Clear(t) && PExpr(Atom(t) + tail).Ok? && PPrimary(Atom(t) + tail) == Ok((read, tail))
    ensures PPostfix(read, tail).Ok?
    ensures var (target, rest) := PPostfix(read, tail).value; PFilters(target, rest).Ok?
  {
    hide Atom, Level, PExpr, PPrimary, PPostfix, PFilters;
    AtomHead(9, t, tail);
    LevelZero(Atom(t) + tail);
    if PUnary(Atom(t) + tail).Err? {
      FailsUp(1, 9, Atom(t) + tail);
    }
  }

  // ---- One constructor at a time ---------------------------------------------

  lemma AttributeBack(e: Expr, rest: Tokens)
    requires e.Attribute? && PPrimary(Atom(e) + rest) == Ok((e, rest))
    ensures Clear(e.target) && ReadAs(e.target, e.target)
  {
    hide Atom, PExpr, PPrimary, ReadAs;
    var close := [P(RParen)] + rest;
    Opened(e, rest);
    Push(Atom(e.target), [P(Dot), Name(e.attr)], close);
    var t := First(e, e.target, [P(Dot), Name(e.attr)] + close);
    AttributeReads(e, t, rest);
  }

  lemma IndexBack(e: Expr, rest: Tokens)
    requires e.Index? && PPrimary(Atom(e) + rest) == Ok((e, rest))
    ensures Clear(e.target) && ReadAs(e.target, e.target) && Clear(e.index) && ReadAs(e.index, e.index)
  {
    hide Atom, PExpr, PPrimary, PList, ReadAs;
    var close := [P(RParen)] + rest;
    var inner := [P(RBracket)] + close;
    var tail := [P(LBracket)] + (Atom(e.index) + inner);
    Opened(e, rest);
    Push(Atom(e.target), [P(LBracket)] + (Atom(e.index) + [P(RBracket)]), close);
    Push([P(LBracket)], Atom(e.index) + [P(RBracket)], close);
    Push(Atom(e.index), [P(RBracket)], close);
    var t := First(e, e.target, tail);
    LoopsGo(e.target, t, tail);
    assert tail[1..] == Atom(e.index) + inner;
    var i := SlotExpr(e.index, inner);
    IndexReads(e, t, i, rest);
  }

  lemma CallBack(e: Expr, rest: Tokens)
    requires e.Call? && PPrimary(Atom(e) + rest) == Ok((e, rest))
    ensures Clear(e.target) && ReadAs(e.target, e.target)
    ensures forall k :: 0 <= k < |e.args| ==> Clear(e.args[k]) && ReadAs(e.args[k], e.args[k])
  {
    hide Atom, PExpr, PPrimary, PList, ReadAs;
    var close := [P(RParen)] + rest;
    var list := Items(e.args) + ([P(RParen)] + close);
    var tail := [P(LParen)] + list;
    Opened(e, rest);
    Push(Atom(e.target), [P(LParen)] + (Items(e.args) + [P(RParen)]), close);
    Push([P(LParen)], Items(e.args) + [P(RParen)], close);
    Push(Items(e.args), [P(RParen)], close);
    var t := First(e, e.target, tail);
    LoopsGo(e.target, t, tail);
    assert tail[1..] == list;
    ListBack(e.args, RParen, close);
    CallReads(e, t, PList(RParen, list).value.0, rest);
  }

  lemma FilterBack(e: Expr, rest: Tokens)
    requires e.Filter? && PPrimary(Atom(e) + rest) == Ok((e, rest))
    ensures Clear(e.target) && ReadAs(e.target, e.target)
    ensures forall k :: 0 <= k < |e.args| ==> Clear(e.args[k]) && ReadAs(e.args[k], e.args[k])
  {
    hide Atom, PExpr, PPrimary, PList, ReadAs, PPostfix, PFilters;
    var close := [P(RParen)] + rest;
    var open := [Op(Pipe), Name(e.filter), P(LParen)];
    var list := Items(e.args) + ([P(RParen)] + close);
    Opened(e, rest);
    Push(Atom(e.target), open + (Items(e.args) + [P(RParen)]), close);
    Push(open, Items(e.args) + [P(RParen)], close);
    Push(Items(e.args), [P(RParen)], close);
    var t := First(e, e.target, open + list);
    LoopsGo(e.target, t, open + list);
    FilterGoes(t, e.filter, list);
    ListBack(e.args, RParen, close);
    FilterReads(e, t, PList(RParen, list).value.0, rest);
  }

  lemma FilterGoes(t: Expr, f: string, list: Tokens)
    requires var tail := [Op(Pipe), Name(f), P(LParen)] + list;
      PPostfix(t, tail).Ok? && PFilters(PPostfix(t, tail).value.0, PPostfix(t, tail).value.1).Ok?
    ensures PList(RParen, list).Ok?
  {
    hide PList;
    var tail := [Op(Pipe), Name(f), P(LParen)] + list;
    assert PPostfix(t, tail) == Ok((t, tail));
    assert tail[1..][1..] == [P(LParen)] + list;
    assert ([P(LParen)] + list)[1..] == list;
  }

  lemma TestBack(e: Expr, rest: Tokens)
    requires e.Test? && WellFormed(e) && PPrimary(Atom(e) + rest) == Ok((e, rest))
    ensures Clear(e.target) && ReadAs(e.target, e.target)
  {
    hide Atom, PExpr, PPrimary, ReadAs;
    var close := [P(RParen)] + rest;
    var words := TestWords(e.negated, e.test);
    Opened(e, rest);
    Push(Atom(e.target), [Name("is")] + words, close);
    Push([Name("is")], words, close);
    var t := First(e, e.target, [Name("is")] + (words + close));
    TestReads(e, t, rest);
  }

  lemma UnaryBack(e: Expr, rest: Tokens)
    requires e.Unary? && PPrimary(Atom(e) + rest) == Ok((e, rest))
    ensures (e.uop == UNot ==> Clear(e.operand)) && ReadAs(e.operand, e.operand)
  {
    hide Atom, PExpr, PPrimary, PBin, PCompare, ReadAs;
    var close := [P(RParen)] + rest;
    var tokens := Atom(e.operand) + close;
    var ts := [UnaryToken(e.uop)] + tokens;
    Opened(e, rest);
    assert Body(e) + close == ts;
    assert ts[1..] == tokens;
    var l := if e.uop == UNot then 6 else 1;
    if Level(l, ts).Err? {
      FailsUp(l, 9, ts);
    }
    if !Clear(e.operand) && l == 6 {
      NotAlone(e.operand, close);
    }
    var x := Slot(l, e.operand, close);
    UnaryReads(e, x, rest);
  }

  lemma NotAlone(c: Expr, tail: Tokens)
    requires !Clear(c) && Ends(tail)
    ensures PNot(Atom(c) + tail).Err?
  {
    NotFails(6, tail);
  }

  lemma RestGoes(tier: Tier, t: Token, left: Expr, ts: Tokens, tokens: Tokens)
    requires Joins(tier, t) && PBin(tier, ts).Ok? && POperand(tier, ts) == Ok((left, [t] + tokens))
    ensures POperand(tier, tokens).Ok?
  {
    hide POperand, Joins, Join;
    assert ([t] + tokens)[1..] == tokens;
  }

  lemma Tightens(tier: Tier)
    ensures 2 <= TierLevel(tier) <= 8
    ensures (Loose(tier) <==> TierLevel(tier) > 5) && (Loose(tier) ==> TierLevel(tier) >= 7)
  {
  }

  lemma TokenBinds(tier: Tier, t: Token, tokens: Tokens)
    requires Joins(tier, t)
    ensures Binds([t] + tokens) == TierLevel(tier)
  {
  }

  /** The right operand of a tier is read after the left one. */
  lemma RightBack(tier: Tier, t: Token, l: Expr, left: Expr, r: Expr, rest: Tokens) returns (right: Expr)
    requires Joins(tier, t) && Clear(l)
    requires var close := [P(RParen)] + rest;
      var tail := [t] + (Atom(r) + close);
      PExpr(Atom(l) + tail).Ok? && PPrimary(Atom(l) + tail) == Ok((left, tail))
    ensures PPrimary(Atom(r) + ([P(RParen)] + rest)) == Ok((right, [P(RParen)] + rest))
    ensures (Loose(tier) ==> Clear(r)) && ReadAs(r, right)
  {
    hide Atom, Level, PExpr, PPrimary, PBin, POperand, Joins, Loose, TierLevel, Binds, ReadAs;
    Tightens(tier);
    var close := [P(RParen)] + rest;
    var tokens := Atom(r) + close;
    var tail := [t] + tokens;
    var level := TierLevel(tier);
    AtomHead(9, l, tail);
    LevelZero(Atom(l) + tail);
    OperandLevel(tier, Atom(l) + tail);
    if PBin(tier, Atom(l) + tail).Err? {
      FailsUp(level, 9, Atom(l) + tail);
    }
    TokenBinds(tier, t, tokens);
    AtomAt(level - 1, l, left, tail);
    RestGoes(tier, t, left, Atom(l) + tail, tokens);
    OperandLevel(tier, tokens);
    if Loose(tier) && !Clear(r) {
      NotFailsAs(level - 1, r, close);
    }
    right := Slot(level - 1, r, close);
  }

  lemma NotFailsAs(l: nat, c: Expr, tail: Tokens)
    requires 6 <= l <= 9 && !Clear(c) && Ends(tail)
    ensures Level(l, Atom(c) + tail).Err?
  {
    hide Level;
    NotFails(l, tail);
  }

  function Sides(e: Expr): (Expr, Expr) {
    if e.Binary? || e.Logical? then (e.left, e.right) else (e, e)
  }

  lemma JoinTells(tier: Tier, t: Token, l: Expr, r: Expr)
    requires Joins(tier, t)
    ensures Sides(Join(tier, t, l, r)) == (l, r)
  {
  }

  lemma JoinIsTree(tier: Tier, t: Token, l: Expr, r: Expr)
    requires Joins(tier, t)
    ensures IsBody(Join(tier, t, l, r))
  {
    hide Joins;
    if t.Op? {
      assert Join(tier, t, l, r).Binary? || Join(tier, t, l, r).Logical?;
    }
  }

  lemma JoinLed(tier: Tier, t: Token, l: Expr, r: Expr)
    requires Joins(tier, t) && Led(Join(tier, t, l, r))
    ensures Led(l)
  {
  }

  lemma JoinedBack(e: Expr, tier: Tier, t: Token, l: Expr, r: Expr, rest: Tokens)
    requires IsBody(e) && Body(e) == Atom(l) + ([t] + Atom(r)) && Joins(tier, t) && e == Join(tier, t, l, r)
    requires PPrimary(Atom(e) + rest) == Ok((e, rest))
    ensures Clear(l) && ReadAs(l, l) && (Loose(tier) ==> Clear(r)) && ReadAs(r, r)
  {
    hide Atom, Body, Binds, Joins, Join, Led, Sides, PExpr, PPrimary, ReadAs;
    var close := [P(RParen)] + rest;
    Opened(e, rest);
    Push(Atom(l), [t] + Atom(r), close);
    Push([t], Atom(r), close);
    if Led(e) {
      JoinLed(tier, t, l, r);
    }
    var left := First(e, l, [t] + (Atom(r) + close));
    var right := RightBack(tier, t, l, left, r, rest);
    JoinedReads(e, tier, t, l, left, r, right, rest);
    JoinTells(tier, t, l, r);
    JoinTells(tier, t, left, right);
  }

  lemma BinaryBack(e: Expr, rest: Tokens)
    requires e.Binary? && PPrimary(Atom(e) + rest) == Ok((e, rest))
    ensures Clear(e.left) && ReadAs(e.left, e.left) && ReadAs(e.right, e.right)
  {
    hide Atom, PPrimary, ReadAs;
    JoinedBack(e, TierOf(e.bop), BinaryToken(e.bop), e.left, e.right, rest);
  }

  lemma LogicalBack(e: Expr, rest: Tokens)
    requires e.Logical? && PPrimary(Atom(e) + rest) == Ok((e, rest))
    ensures Clear(e.left) && ReadAs(e.left, e.left) && Clear(e.right) && ReadAs(e.right, e.right)
  {
    hide Atom, PPrimary, ReadAs;
    JoinedBack(e, LogicalTier(e.lop), LogicalToken(e.lop), e.left, e.right, rest);
  }

  lemma IdentityBack(e: Expr, rest: Tokens)
    requires e.Compare? && WellFormed(e) && IsIdentity(e.cop) && PPrimary(Atom(e) + rest) == Ok((e, rest))
    ensures Clear(e.left) && ReadAs(e.left, e.left)
  {
    hide Atom, PExpr, PPrimary, ReadAs;
    var close := [P(RParen)] + rest;
    Opened(e, rest);
    Push(Atom(e.left), CompareTokens(e.cop) + Atom(e.right), close);
    Push(CompareTokens(e.cop), Atom(e.right), close);
    var left := First(e, e.left, CompareTokens(e.cop) + (Atom(e.right) + close));
    IdentityReads(e, left, rest);
  }

  lemma ComparisonBack(e: Expr, rest: Tokens)
    requires e.Compare? && !IsIdentity(e.cop) && PPrimary(Atom(e) + rest) == Ok((e, rest))
    ensures Clear(e.left) && ReadAs(e.left, e.left) && ReadAs(e.right, e.right)
  {
    hide Atom, Level, PExpr, PPrimary, PBin, PCompare, CompareTokens, Binds, ReadAs;
    var close := [P(RParen)] + rest;
    var tokens := Atom(e.right) + close;
    var tail := CompareTokens(e.cop) + tokens;
    Opened(e, rest);
    Push(Atom(e.left), CompareTokens(e.cop) + Atom(e.right), close);
    Push(CompareTokens(e.cop), Atom(e.right), close);
    var left := First(e, e.left, tail);
    LinksGo(e, left, tokens);
    LevelFour(tokens);
    var right := Slot(4, e.right, close);
    ComparisonReads(e, left, right, rest);
  }

  lemma LevelFour(ts: Tokens)
    ensures Level(4, ts) == PBin(Math1Tier, ts) && Level(5, ts) == PCompare(ts) && Level(8, ts) == PBin(OrTier, ts)
  {
    hide PBin, PCompare;
  }

  lemma LinksGo(e: Expr, left: Expr, tokens: Tokens)
    requires e.Compare? && !IsIdentity(e.cop) && Clear(e.left)
    requires var tail := CompareTokens(e.cop) + tokens;
      PExpr(Atom(e.left) + tail).Ok? && PPrimary(Atom(e.left) + tail) == Ok((left, tail))
    ensures PBin(Math1Tier, tokens).Ok?
  {
    hide Atom, Level, PExpr, PPrimary, PBin, CompareTokens, Binds, CompareAt;
    var tail := CompareTokens(e.cop) + tokens;
    ComparisonAhead(e.cop, tokens);
    AtomHead(9, e.left, tail);
    AtomAt(4, e.left, left, tail);
    LevelZero(Atom(e.left) + tail);
    LevelFour(Atom(e.left) + tail);
    if PCompare(Atom(e.left) + tail).Err? {
      FailsUp(5, 9, Atom(e.left) + tail);
    }
    assert tail[|CompareTokens(e.cop)|..] == tokens;
  }

  lemma ConditionalBack(e: Expr, rest: Tokens)
    requires e.Conditional? && PPrimary(Atom(e) + rest) == Ok((e, rest))
    ensures Clear(e.body) && ReadAs(e.body, e.body) && Clear(e.condition) && ReadAs(e.condition, e.condition)
    ensures e.orElse.Some? ==> Clear(e.orElse.value) && ReadAs(e.orElse.value, e.orElse.value)
  {
    hide Atom, Level, PExpr, PPrimary, PBin, Binds, ReadAs;
    var close := [P(RParen)] + rest;
    var otherwise := Otherwise(e, close);
    var tokens := Atom(e.condition) + otherwise;
    var tail := [Name("if")] + tokens;
    Opened(e, rest);
    ConditionalShape(e, close);
    var body := First(e, e.body, tail);
    KeywordsBind(tokens);
    AtomOr(e.body, body, tail);
    assert tail[1..] == tokens;
    ConditionRead(e, Atom(e.body) + tail, body, tail, otherwise);
    LevelFour(tokens);
    var condition := Slot(8, e.condition, otherwise);
    ClosingBinds(rest);
    OtherwiseBinds(e, rest);
    AtomOr(e.condition, condition, otherwise);
    var orElse: Option<Expr> := None;
    if e.orElse.Some? {
      assert otherwise[1..] == Atom(e.orElse.value) + close;
      ElseRead(Atom(e.body) + tail, body, tail, condition, otherwise);
      var o := SlotExpr(e.orElse.value, close);
      orElse := Some(o);
    }
    ConditionalReads(e, body, condition, orElse, rest);
  }

  lemma ConditionRead(e: Expr, ts: Tokens, body: Expr, tail: Tokens, otherwise: Tokens)
    requires e.Conditional? && PExpr(ts).Ok? && PExpr(ts).value.0 == e
    requires PBin(OrTier, ts) == Ok((body, tail))
    requires AtName(tail, "if") && tail[1..] == Atom(e.condition) + otherwise
    ensures PBin(OrTier, tail[1..]).Ok? && Clear(e.condition)
  {
    hide PBin;
    if !Clear(e.condition) {
      NotLeads(8, tail[1..]);
    }
  }

  lemma ElseRead(ts: Tokens, body: Expr, tail: Tokens, condition: Expr, otherwise: Tokens)
    requires PExpr(ts).Ok? && PBin(OrTier, ts) == Ok((body, tail))
    requires AtName(tail, "if") && PBin(OrTier, tail[1..]) == Ok((condition, otherwise)) && AtName(otherwise, "else")
    ensures PExpr(otherwise[1..]).Ok?
  {
    hide PBin;
  }

  // ---- Lists and dictionaries ------------------------------------------------

  lemma {:induction false} ItemsBack(es: seq<Expr>, tail: Tokens)
    requires es != [] && Ends(tail) && !AtPunct(tail, Comma) && PItems(Items(es) + tail).Ok?
    ensures var (read, rest) := PItems(Items(es) + tail).value;
      rest == tail && |read| == |es| && forall k :: 0 <= k < |es| ==> Clear(es[k]) && ReadAs(es[k], read[k])
    decreases |es|
  {
    hide Atom, PExpr, PPrimary, ReadAs;
    if |es| == 1 {
      var _ := SlotExpr(es[0], tail);
    } else {
      var more := [P(Comma)] + (Items(es[1..]) + tail);
      Push(Atom(es[0]), [P(Comma)] + Items(es[1..]), tail);
      Push([P(Comma)], Items(es[1..]), tail);
      assert more[1..] == Items(es[1..]) + tail;
      var _ := SlotExpr(es[0], more);
      ItemsBack(es[1..], tail);
    }
  }

  lemma ListOfItems(close: Punct, ts: Tokens)
    requires !AtPunct(ts, close) && PList(close, ts).Ok?
    ensures PItems(ts).Ok?
    ensures var (items, rest) := PItems(ts).value; rest != [] && PList(close, ts) == Ok((items, rest[1..]))
  {
    hide PItems;
  }

  lemma ListOfNone(close: Punct, rest: Tokens)
    ensures PList(close, [P(close)] + rest) == Ok(([], rest))
  {
    hide PItems;
    assert ([P(close)] + rest)[1..] == rest;
  }

  lemma ListBack(es: seq<Expr>, close: Punct, rest: Tokens)
    requires close == RParen || close == RBracket
    requires PList(close, Items(es) + ([P(close)] + rest)).Ok?
    ensures var (read, after) := PList(close, Items(es) + ([P(close)] + rest)).value;
      after == rest && |read| == |es| && forall k :: 0 <= k < |es| ==> Clear(es[k]) && ReadAs(es[k], read[k])
  {
    hide PList, PItems, Items, Atom, ReadAs;
    var tail := [P(close)] + rest;
    if es == [] {
      NoItems(tail);
      ListOfNone(close, rest);
    } else {
      ItemsHead(es);
      assert (Items(es) + tail)[0] == Items(es)[0];
      ListOfItems(close, Items(es) + tail);
      ItemsBack(es, tail);
    }
  }

  lemma NoItems(tail: Tokens)
    ensures Items([]) + tail == tail
  {
  }

  lemma EntryBack(entry: (Expr, Expr), tail: Tokens)
    requires Ends(tail) && PEntry(Entry(entry) + tail).Ok?
    ensures var (read, rest) := PEntry(Entry(entry) + tail).value;
      rest == tail && Clear(entry.0) && ReadAs(entry.0, read.0) && Clear(entry.1) && ReadAs(entry.1, read.1)
  {
    hide Atom, PExpr, PPrimary, ReadAs;
    var more := [P(Colon)] + (Atom(entry.1) + tail);
    Push(Atom(entry.0), [P(Colon)] + Atom(entry.1), tail);
    Push([P(Colon)], Atom(entry.1), tail);
    var _ := SlotExpr(entry.0, more);
    assert more[1..] == Atom(entry.1) + tail;
    var _ := SlotExpr(entry.1, tail);
  }

  lemma {:induction false} EntriesBack(es: seq<(Expr, Expr)>, tail: Tokens)
    requires es != [] && Ends(tail) && !AtPunct(tail, Comma) && PEntries(Entries(es) + tail).Ok?
    ensures var (read, rest) := PEntries(Entries(es) + tail).value;
      rest == tail && |read| == |es|
      && forall k :: 0 <= k < |es| ==>
           Clear(es[k].0) && ReadAs(es[k].0, read[k].0) && Clear(es[k].1) && ReadAs(es[k].1, read[k].1)
    decreases |es|
  {
    hide Entry, PEntry, ReadAs;
    if |es| == 1 {
      EntryBack(es[0], tail);
    } else {
      var more := [P(Comma)] + (Entries(es[1..]) + tail);
      Push(Entry(es[0]), [P(Comma)] + Entries(es[1..]), tail);
      Push([P(Comma)], Entries(es[1..]), tail);
      assert more[1..] == Entries(es[1..]) + tail;
      EntryBack(es[0], more);
      EntriesBack(es[1..], tail);
    }
  }

  lemma DictBack(es: seq<(Expr, Expr)>, rest: Tokens)
    requires PPrimary(Atom(DictExpr(es)) + rest) == Ok((DictExpr(es), rest))
    ensures forall k :: 0 <= k < |es| ==>
      Clear(es[k].0) && ReadAs(es[k].0, es[k].0) && Clear(es[k].1) && ReadAs(es[k].1, es[k].1)
  {
    hide PExpr, PList, PEntries, Entry, ReadAs;
    var ts := Atom(DictExpr(es)) + rest;
    var tail := [P(RBrace)] + rest;
    assert ts[1..] == Entries(es) + tail;
    if es != [] {
      EntriesHead(es);
      assert (Entries(es) + tail)[0] == Entries(es)[0];
      EntriesBack(es, tail);
    }
  }

  lemma ListExprBack(es: seq<Expr>, rest: Tokens)
    requires PPrimary(Atom(ListExpr(es)) + rest) == Ok((ListExpr(es), rest))
    ensures forall k :: 0 <= k < |es| ==> Clear(es[k]) && ReadAs(es[k], es[k])
  {
    hide PExpr, PList, PEntries, ReadAs;
    assert (Atom(ListExpr(es)) + rest)[1..] == Items(es) + ([P(RBracket)] + rest);
    ListBack(es, RBracket, rest);
  }

  // ---- Reading back is being heard -------------------------------------------

  lemma {:induction false} BackIsHeard(e: Expr)
    requires WellFormed(e) && ReadAs(e, e)
    ensures Heard(e)
    decreases e, 1
  {
    hide Atom, PPrimary;
    var rest: Tokens :| PPrimary(Atom(e) + rest) == Ok((e, rest));
    match e
    case Lit(_) =>
    case Var(_) =>
    case ListExpr(items) =>
      ListExprBack(items, rest);
      AllHeard(items);
    case DictExpr(entries) =>
      DictBack(entries, rest);
      forall k | 0 <= k < |entries| ensures Heard(entries[k].0) && Heard(entries[k].1) {
        BackIsHeard(entries[k].0);
        BackIsHeard(entries[k].1);
      }
    case _ => BodyIsHeard(e, rest);
  }

  lemma {:induction false} AllHeard(es: seq<Expr>)
    requires forall k :: 0 <= k < |es| ==> WellFormed(es[k]) && ReadAs(es[k], es[k])
    ensures forall k :: 0 <= k < |es| ==> Heard(es[k])
    decreases es, 2
  {
    hide ReadAs;
    forall k | 0 <= k < |es| ensures Heard(es[k]) {
      BackIsHeard(es[k]);
    }
  }

  lemma {:induction false} BodyIsHeard(e: Expr, rest: Tokens)
    requires WellFormed(e) && IsBody(e) && PPrimary(Atom(e) + rest) == Ok((e, rest))
    ensures Heard(e)
    decreases e, 0
  {
    hide Atom, PPrimary, ReadAs;
    match e
    case Attribute(t, _) => AttributeBack(e, rest); BackIsHeard(t);
    case Index(t, i) => IndexBack(e, rest); BackIsHeard(t); BackIsHeard(i);
    case Call(t, args) => CallBack(e, rest); BackIsHeard(t); AllHeard(args);
    case Filter(t, _, args) => FilterBack(e, rest); BackIsHeard(t); AllHeard(args);
    case Test(t, _, _) => TestBack(e, rest); BackIsHeard(t);
    case Unary(_, x) => UnaryBack(e, rest); BackIsHeard(x);
    case Binary(_, l, r) => BinaryBack(e, rest); BackIsHeard(l); BackIsHeard(r);
    case Compare(op, l, r) =>
      if IsIdentity(op) {
        IdentityBack(e, rest);
      } else {
        ComparisonBack(e, rest);
        BackIsHeard(r);
      }
      BackIsHeard(l);
    case Logical(_, l, r) => LogicalBack(e, rest); BackIsHeard(l); BackIsHeard(r);
    case Conditional(b, c, o) =>
      ConditionalBack(e, rest);
      BackIsHeard(b);
      BackIsHeard(c);
      if o.Some? {
        BackIsHeard(o.value);
      }
  }

  /** In any context an atom is read back as its own tree exactly when its variables `not` can be read. */
  lemma AtomReadsExactly(e: Expr, rest: Tokens)
    requires WellFormed(e)
    ensures PPrimary(Atom(e) + rest) == Ok((e, rest)) <==> Heard(e)
  {
    hide Atom, PPrimary, Heard;
    if Heard(e) {
      ReadAtom(e, rest);
    } else if PPrimary(Atom(e) + rest) == Ok((e, rest)) {
      BackIsHeard(e);
    }
  }

  /** A tree survives being written out and read back exactly when it is one of the language, every variable
      `not` in it stands where it can be read, and it is not that variable itself. */
  lemma ParseInvertsRender(e: Expr)
    ensures Parse(Render(e)) == Ok(e) <==> WellFormed(e) && Heard(e) && Clear(e)
  {
    hide PExpr, PPrimary, ReadAs, ExprScanning.SpellAll;
    if Whole(e) {
      ReadRendered(e);
    } else if Parse(Render(e)) == Ok(e) {
      assert WellFormed(e);
      AtomTokens(e);
      ExprScanning.LexSpelled(Atom(e));
      assert Atom(e) + [] == Atom(e);
      var read := SlotExpr(e, []);
      BackIsHeard(e);
    }
  }

  // ---- What parsing can yield ------------------------------------------------

  lemma {:induction false} RestKeeps(tier: Tier, left: Expr, ts: Tokens)
    requires PBinRest(tier, left, ts).Ok? && !IsBody(PBinRest(tier, left, ts).value.0)
    ensures left == PBinRest(tier, left, ts).value.0
    decreases |ts|
  {
    hide POperand, Join, Joins;
    if ts != [] && Joins(tier, ts[0]) {
      var (right, rest) := POperand(tier, ts[1..]).value;
      JoinIsTree(tier, ts[0], left, right);
      RestKeeps(tier, Join(tier, ts[0], left, right), rest);
    }
  }

  lemma {:induction false} PostfixKeeps(node: Expr, ts: Tokens)
    requires PPostfix(node, ts).Ok? && !IsBody(PPostfix(node, ts).value.0)
    ensures node == PPostfix(node, ts).value.0
    decreases |ts|
  {
    hide PExpr, PList;
    if AtPunct(ts, Dot) {
      var (name, rest) := ExpectName(ts[1..]).value;
      PostfixKeeps(Attribute(node, name), rest);
    } else if AtPunct(ts, LBracket) {
      var (index, rest) := PExpr(ts[1..]).value;
      PostfixKeeps(Index(node, index), rest[1..]);
    } else if AtPunct(ts, LParen) {
      var (args, rest) := PList(RParen, ts[1..]).value;
      PostfixKeeps(Call(node, args), rest);
    }
  }

  lemma StepIsTree(node: Expr, ts: Tokens)
    requires ts != []
    ensures PFilter(node, ts).Ok? ==> IsBody(PFilter(node, ts).value.0)
    ensures PTest(node, ts).Ok? ==> IsBody(PTest(node, ts).value.0)
  {
    hide PList, KeywordLiteral;
  }

  lemma {:induction false} FiltersKeep(node: Expr, ts: Tokens)
    requires PFilters(node, ts).Ok? && !IsBody(PFilters(node, ts).value.0)
    ensures node == PFilters(node, ts).value.0
    decreases |ts|
  {
    hide PFilter, PTest;
    if At(ts, Op(Pipe)) {
      StepIsTree(node, ts);
      var (next, rest) := PFilter(node, ts).value;
      FiltersKeep(next, rest);
    } else if AtName(ts, "is") {
      StepIsTree(node, ts);
      var (next, rest) := PTest(node, ts).value;
      FiltersKeep(next, rest);
    }
  }

  lemma {:induction false} ChainKeeps(acc: Expr, left: Expr, links: seq<Link>)
    requires !IsBody(ChainFrom(acc, left, links))
    ensures acc == ChainFrom(acc, left, links)
    decreases |links|
  {
    if links != [] {
      ChainKeeps(Logical(BAnd, acc, Compare(links[0].0, left, links[0].1)), links[0].1, links[1..]);
    }
  }

  lemma UnaryIs(ts: Tokens)
    requires PUnary(ts).Ok? && !IsBody(PUnary(ts).value.0) && !At(ts, Op(Minus)) && !At(ts, Op(Plus))
    ensures PPrimary(ts).Ok? && PPrimary(ts).value.0 == PUnary(ts).value.0
  {
    hide PPrimary, PPostfix, PFilters;
    LoopsKeep(PPrimary(ts).value.0, PPrimary(ts).value.1);
  }

  /** Only a primary yields a leaf or a display: what is read as one, no prefix operator first, is read by it. */
  lemma {:induction false} PlainIsPrimary(l: nat, ts: Tokens)
    requires l < 10 && Level(l, ts).Ok? && PrefixFree(0, l, ts) && !IsBody(Level(l, ts).value.0)
    ensures PPrimary(ts).Ok? && PPrimary(ts).value.0 == Level(l, ts).value.0
    decreases l
  {
    hide PExpr, PBin, PUnary, POperand, PPrimary, PPostfix, PFilters, PLinks, PList, PEntries;
    match l
    case 0 =>
    case 1 => UnaryIs(ts);
    case 5 =>
      CompareNot(ts);
      PlainIsPrimary(4, ts);
    case 6 => PlainIsPrimary(5, ts);
    case 9 =>
      ExprNot(ts);
      PlainIsPrimary(8, ts);
    case _ =>
      var tier := match l case 2 => Math2Tier case 3 => ConcatTier case 4 => Math1Tier
                          case 7 => AndTier case _ => OrTier;
      BinNot(tier, ts);
      OperandLevel(tier, ts);
      PlainIsPrimary(l - 1, ts);
  }

  /** No text is the variable `not`, parenthesised or not: where an expression begins, the word is the operator. */
  lemma {:induction false} NeverNot(l: nat, ts: Tokens)
    requires l < 10 && Level(l, ts).Ok? && (l < 6 ==> !AtName(ts, "not"))
    ensures Clear(Level(l, ts).value.0)
    decreases |ts|, l
  {
    hide PExpr, PBin, PBinRest, POperand, PPrimary, PPostfix, PFilters, PLinks, PList, PEntries, Led;
    var read := Level(l, ts).value.0;
    if AtName(ts, "not") {
      NotLeads(l, ts);
      LedIsClear(read);
    } else if l == 0 {
      PrimaryNot(ts);
    } else if l == 1 {
      UnaryNot(ts);
    } else if read.Var? {
      match l
      case 5 =>
        CompareNot(ts);
        NeverNot(4, ts);
      case 6 => NeverNot(5, ts);
      case 9 =>
        ExprNot(ts);
        NeverNot(8, ts);
      case _ =>
        var tier := match l case 2 => Math2Tier case 3 => ConcatTier case 4 => Math1Tier
                            case 7 => AndTier case _ => OrTier;
        BinNot(tier, ts);
        OperandLevel(tier, ts);
        NeverNot(l - 1, ts);
    }
  }

  lemma LedIsClear(e: Expr)
    requires Led(e)
    ensures Clear(e)
  {
  }

  lemma {:induction false} PrimaryNot(ts: Tokens)
    requires PPrimary(ts).Ok? && !AtName(ts, "not")
    ensures Clear(PPrimary(ts).value.0)
    decreases |ts|, 0, 0
  {
    hide PExpr, PList, PEntries;
    if AtPunct(ts, LParen) {
      LevelZero(ts[1..]);
      NeverNot(9, ts[1..]);
    }
  }

  lemma {:induction false} UnaryNot(ts: Tokens)
    requires PUnary(ts).Ok? && !AtName(ts, "not")
    ensures Clear(PUnary(ts).value.0)
    decreases |ts|, 1, 0
  {
    hide PPrimary, PPostfix, PFilters;
    if PUnary(ts).value.0.Var? {
      if At(ts, Op(Minus)) || At(ts, Op(Plus)) {
        var (operand, rest) := PUnary(ts[1..]).value;
        LoopsKeep(Unary(if ts[0] == Op(Minus) then UMinus else UPlus, operand), rest);
      } else {
        LoopsKeep(PPrimary(ts).value.0, PPrimary(ts).value.1);
        PrimaryNot(ts);
      }
    }
  }

  lemma LoopsKeep(node: Expr, ts: Tokens)
    requires PPostfix(node, ts).Ok?
    requires var (target, rest) := PPostfix(node, ts).value;
      PFilters(target, rest).Ok? && !IsBody(PFilters(target, rest).value.0)
    ensures var (target, rest) := PPostfix(node, ts).value; node == PFilters(target, rest).value.0
  {
    hide PPostfix, PFilters;
    var (target, rest) := PPostfix(node, ts).value;
    FiltersKeep(target, rest);
    PostfixKeeps(node, ts);
  }

  lemma CompareNot(ts: Tokens)
    requires PCompare(ts).Ok? && !IsBody(PCompare(ts).value.0)
    ensures PBin(Math1Tier, ts).Ok? && PBin(Math1Tier, ts).value.0 == PCompare(ts).value.0
  {
    hide PBin, PLinks;
    var (first, rest) := PBin(Math1Tier, ts).value;
    var links := PLinks(rest).value.0;
    if links != [] {
      ChainKeeps(Compare(links[0].0, first, links[0].1), links[0].1, links[1..]);
    }
  }

  lemma ExprNot(ts: Tokens)
    requires PExpr(ts).Ok? && !IsBody(PExpr(ts).value.0)
    ensures PBin(OrTier, ts).Ok? && PBin(OrTier, ts).value.0 == PExpr(ts).value.0
  {
    hide PBin;
  }

  lemma BinNot(tier: Tier, ts: Tokens)
    requires PBin(tier, ts).Ok? && !IsBody(PBin(tier, ts).value.0)
    ensures POperand(tier, ts).Ok? && POperand(tier, ts).value.0 == PBin(tier, ts).value.0
  {
    hide PBinRest, POperand;
    var (left, rest) := POperand(tier, ts).value;
    RestKeeps(tier, left, rest);
  }

  /** Rendering what was parsed and parsing again changes nothing, exactly when every variable `not` in the tree
      stands where the rendering can be read: `-not.x` is parsed, and its tree is not one of those. */
  lemma ReparseIsStable(source: string)
    requires Parse(source).Ok?
    ensures WellFormed(Parse(source).value)
    ensures Parse(Render(Parse(source).value)) == Parse(source) <==> Heard(Parse(source).value)
  {
    hide PExpr, Atom, ExprScanning.SpellAll;
    ParseInvertsRender(Parse(source).value);
    var ts := ExprLexer.Lex(source).value;
    LevelZero(ts);
    NeverNot(9, ts);
  }
}
