/**
 * The printer and the parser undo each other: evaluating the parse of `repr(v)` gives `v` back,
 * but for the strings `repr` writes in double quotes without escaping their backslashes.
 */
module ExprRepr {
  import opened Common
  import opened Tables
  import opened Numerals
  import opened ExprSyntax
  import opened ExprLexer
  import opened ExprScanning
  import opened ExprGrammar
  import opened ExprValues
  import opened ExprEval
  import opened ExprRoundTrip

  /** The strings whose `repr` reads back: all but those with `'` and `\` and no `"`. */
  predicate Readable(s: string) {
    '\'' in s && '\\' in s ==> '"' in s
  }

  const MAX_SAFE_INTEGER: int := 0x1F_FFFF_FFFF_FFFF

  /** Null, booleans, safe integers, readable strings, lists, and objects with distinct readable keys. */
  predicate Printable(v: Value)
    decreases v
  {
    match v
    case Undefined => false
    case Null => true
    case Bool(_) => true
    case Num(n) => IsInteger(n) && -MAX_SAFE_INTEGER <= n.Floor <= MAX_SAFE_INTEGER
    case Str(s) => Readable(s)
    case List(items) => forall k :: 0 <= k < |items| ==> Printable(items[k])
    case Obj(entries) =>
      Distinct(entries)
      && forall k :: 0 <= k < |entries| ==> Readable(entries[k].0) && Printable(entries[k].1)
  }

  /** The tree `repr(v)` parses to. */
  function Tree(v: Value): Expr
    decreases v, 1
  {
    match v
    case Bool(b) => Lit(LBool(b))
    case Num(n) => if n < 0.0 then Unary(UMinus, Lit(LNum(-n))) else Lit(LNum(n))
    case Str(s) => Lit(LStr(s))
    case List(items) => ListExpr(Trees(items))
    case Obj(entries) => DictExpr(EntryTrees(entries))
    case _ => Lit(LNull)
  }

  function Trees(items: seq<Value>): (r: seq<Expr>)
    ensures |r| == |items|
    decreases items, 2
  {
    if items == [] then [] else [Tree(items[0])] + Trees(items[1..])
  }

  function EntryTree(entry: (string, Value)): (Expr, Expr)
    decreases entry
  {
    (Lit(LStr(entry.0)), Tree(entry.1))
  }

  function EntryTrees(entries: Table<Value>): (r: seq<(Expr, Expr)>)
    ensures |r| == |entries|
    decreases entries, 2
  {
    if entries == [] then [] else [EntryTree(entries[0])] + EntryTrees(entries[1..])
  }

  /** The tokens of `repr(v)`. */
  function Tokenized(v: Value): Tokens
    decreases v, 1
  {
    match v
    case Bool(b) => [Name(if b then "True" else "False")]
    case Num(n) => if n < 0.0 then [Op(Minus), Number(-n)] else [Number(n)]
    case Str(s) => [StringLit(s)]
    case List(items) => [P(LBracket)] + (ItemTokens(items) + [P(RBracket)])
    case Obj(entries) => [P(LBrace)] + (EntryTokenList(entries) + [P(RBrace)])
    case _ => [Name("None")]
  }

  function ItemTokens(items: seq<Value>): Tokens
    decreases items, 2
  {
    if items == [] then []
    else if |items| == 1 then Tokenized(items[0])
    else Tokenized(items[0]) + ([P(Comma)] + ItemTokens(items[1..]))
  }

  function EntryTokens1(entry: (string, Value)): Tokens
    decreases entry
  {
    [StringLit(entry.0), P(Colon)] + Tokenized(entry.1)
  }

  function EntryTokenList(entries: Table<Value>): Tokens
    decreases entries, 2
  {
    if entries == [] then []
    else if |entries| == 1 then EntryTokens1(entries[0])
    else EntryTokens1(entries[0]) + ([P(Comma)] + EntryTokenList(entries[1..]))
  }

  // ---- Parsing the tokens ------------------------------------------------------

  lemma TokenizedHead(v: Value)
    ensures Tokenized(v) != [] && Tokenized(v)[0] != Name("not")
    ensures Tokenized(v)[0] !in {P(RBracket), P(RBrace), P(RParen)}
  {
  }

  lemma PrimaryReads(ts: Tokens, e: Expr, rest: Tokens)
    requires PPrimary(ts) == Ok((e, rest)) && PrefixFree(0, 9, ts) && Binds(rest) == 10
    ensures PExpr(ts) == Ok((e, rest))
  {
    hide PExpr, PPrimary;
    Climb(0, 9, ts, e, rest);
  }

  lemma NegativeReads(n: real, rest: Tokens)
    requires Binds(rest) == 10
    ensures PExpr([Op(Minus), Number(n)] + rest) == Ok((Unary(UMinus, Lit(LNum(n))), rest))
  {
    hide PExpr, PBin, PList, PEntries;
    var ts := [Op(Minus), Number(n)] + rest;
    assert ts[1..] == [Number(n)] + rest;
    assert ([Number(n)] + rest)[1..] == rest;
    LoopsStop(Lit(LNum(n)), rest);
    assert PUnary([Number(n)] + rest) == Ok((Lit(LNum(n)), rest));
    LoopsStop(Unary(UMinus, Lit(LNum(n))), rest);
    Climb(1, 9, ts, Unary(UMinus, Lit(LNum(n))), rest);
  }

  lemma {:induction false} TokensParse(v: Value, rest: Tokens)
    requires Printable(v) && Binds(rest) == 10
    ensures PExpr(Tokenized(v) + rest) == Ok((Tree(v), rest))
    decreases v, 1
  {
    hide PExpr, PList, PEntries;
    match v
    case List(items) => ListParses(items, rest);
    case Obj(entries) => DictParses(entries, rest);
    case Num(n) => if n < 0.0 { NegativeReads(-n, rest); } else { ScalarParses(v, rest); }
    case Undefined =>
    case Null => ScalarParses(v, rest);
    case Bool(_) => ScalarParses(v, rest);
    case Str(_) => ScalarParses(v, rest);
  }

  lemma ScalarParses(v: Value, rest: Tokens)
    requires v.Null? || v.Bool? || v.Str? || (v.Num? && v.n >= 0.0)
    requires Printable(v) && Binds(rest) == 10
    ensures PExpr(Tokenized(v) + rest) == Ok((Tree(v), rest))
  {
    hide PExpr, PList, PEntries;
    var ts := Tokenized(v) + rest;
    assert ts[1..] == rest;
    PrimaryReads(ts, Tree(v), rest);
  }

  lemma {:induction false} ListParses(items: seq<Value>, rest: Tokens)
    requires (forall k :: 0 <= k < |items| ==> Printable(items[k])) && Binds(rest) == 10
    ensures PExpr(Tokenized(List(items)) + rest) == Ok((ListExpr(Trees(items)), rest))
    decreases items, 3
  {
    hide PExpr, PEntries, PItems, Trees;
    var close := [P(RBracket)] + rest;
    var ts := Tokenized(List(items)) + rest;
    assert ts[1..] == ItemTokens(items) + close;
    assert close[1..] == rest;
    if items == [] {
      assert ItemTokens(items) + close == close;
    } else {
      ItemsParse(items, close);
      TokenizedHead(items[0]);
      assert (ItemTokens(items) + close)[0] == Tokenized(items[0])[0];
    }
    assert PList(RBracket, ts[1..]) == Ok((Trees(items), rest));
    PrimaryReads(ts, ListExpr(Trees(items)), rest);
  }

  lemma {:induction false} ItemsParse(items: seq<Value>, rest: Tokens)
    requires items != [] && forall k :: 0 <= k < |items| ==> Printable(items[k])
    requires Binds(rest) == 10 && !AtPunct(rest, Comma)
    ensures PItems(ItemTokens(items) + rest) == Ok((Trees(items), rest))
    decreases items, 2
  {
    hide PExpr, Tokenized;
    if |items| == 1 {
      TokensParse(items[0], rest);
      assert Trees(items) == [Tree(items[0])];
    } else {
      var tail := [P(Comma)] + (ItemTokens(items[1..]) + rest);
      TokensParse(items[0], tail);
      ItemsParse(items[1..], rest);
      Push(Tokenized(items[0]), [P(Comma)] + ItemTokens(items[1..]), rest);
      Push([P(Comma)], ItemTokens(items[1..]), rest);
      assert tail[1..] == ItemTokens(items[1..]) + rest;
    }
  }

  lemma {:induction false} DictParses(entries: Table<Value>, rest: Tokens)
    requires forall k :: 0 <= k < |entries| ==> Printable(entries[k].1)
    requires Binds(rest) == 10
    ensures PExpr(Tokenized(Obj(entries)) + rest) == Ok((DictExpr(EntryTrees(entries)), rest))
    decreases entries, 3
  {
    hide PExpr, PEntries, PList, EntryTrees;
    var close := [P(RBrace)] + rest;
    var ts := Tokenized(Obj(entries)) + rest;
    assert ts[1..] == EntryTokenList(entries) + close;
    assert close[1..] == rest;
    if entries == [] {
      assert ts[1..] == close;
      assert EntryTrees(entries) == [];
    } else {
      EntriesParse(entries, close);
      assert (EntryTokenList(entries) + close)[0] == StringLit(entries[0].0);
    }
    PrimaryReads(ts, DictExpr(EntryTrees(entries)), rest);
  }

  lemma {:induction false} EntryParses(entry: (string, Value), rest: Tokens)
    requires Printable(entry.1) && Binds(rest) == 10
    ensures PEntry(EntryTokens1(entry) + rest) == Ok((EntryTree(entry), rest))
    decreases entry
  {
    hide PExpr, Tokenized;
    var colon := [P(Colon)] + (Tokenized(entry.1) + rest);
    var ts := EntryTokens1(entry) + rest;
    assert ts[1..] == colon;
    assert colon[1..] == Tokenized(entry.1) + rest;
    PrimaryReads(ts, Lit(LStr(entry.0)), colon);
    TokensParse(entry.1, rest);
  }

  lemma {:induction false} EntriesParse(entries: Table<Value>, rest: Tokens)
    requires entries != [] && forall k :: 0 <= k < |entries| ==> Printable(entries[k].1)
    requires Binds(rest) == 10 && !AtPunct(rest, Comma)
    ensures PEntries(EntryTokenList(entries) + rest) == Ok((EntryTrees(entries), rest))
    decreases entries, 2
  {
    hide PEntry, EntryTokens1;
    if |entries| == 1 {
      EntryParses(entries[0], rest);
      assert EntryTrees(entries) == [EntryTree(entries[0])];
    } else {
      var tail := [P(Comma)] + (EntryTokenList(entries[1..]) + rest);
      EntryParses(entries[0], tail);
      EntriesParse(entries[1..], rest);
      Push(EntryTokens1(entries[0]), [P(Comma)] + EntryTokenList(entries[1..]), rest);
      Push([P(Comma)], EntryTokenList(entries[1..]), rest);
      assert tail[1..] == EntryTokenList(entries[1..]) + rest;
    }
  }

  // ---- Scanning the text -------------------------------------------------------

  lemma PrefixedTwice(a: Tokens, b: Tokens, r: Result<Tokens, SyntaxError>)
    ensures Prefixed(a, Prefixed(b, r)) == Prefixed(a + b, r)
  {
    if r.Ok? {
      assert a + (b + r.value) == (a + b) + r.value;
    }
  }

  /** One scanned token, without respelling it. */
  lemma LexOne(text: string, t: Token, n: nat)
    requires text != [] && !IsSpace(text[0]) && TokenAt(text) == Ok((t, n))
    ensures Lex(text) == Prefixed([t], Lex(text[n..]))
  {
  }

  lemma LexQuoted(s: string, rest: string)
    requires Readable(s)
    ensures Lex(Quoted(s) + rest) == Prefixed([StringLit(s)], Lex(rest))
  {
    hide Lex, Escaped;
    var text := Quoted(s) + rest;
    if '\'' in s && '"' !in s {
      assert text[1..] == s + "\"" + rest;
      ReadRaw(s, rest);
    } else {
      assert text[1..] == Escaped(s) + "'" + rest;
      ReadEscaped(s, rest);
    }
    assert text[|Quoted(s)|..] == rest;
    LexOne(text, StringLit(s), |Quoted(s)|);
  }

  lemma LexPunct(p: Punct, rest: string)
    ensures Lex([PunctText(p)] + rest) == Prefixed([P(p)], Lex(rest))
  {
    hide Lex;
    assert ([PunctText(p)] + rest)[1..] == rest;
    LexOne([PunctText(p)] + rest, P(p), 1);
  }

  /** What may follow a value: the end, or punctuation of a list or an object. */
  predicate EndsCleanly(rest: string) {
    rest == [] || rest[0] in {',', ']', '}', ':'}
  }

  lemma LexInteger(n: nat, rest: string)
    requires EndsCleanly(rest)
    ensures Lex(Decimal(n) + rest) == Prefixed([Number(n as real)], Lex(rest))
  {
    hide Lex, NumberAt, Decimal;
    ReadInteger(n, rest);
    var text := Decimal(n) + rest;
    assert text[|Decimal(n)|..] == rest;
    LexOne(text, Number(n as real), |Decimal(n)|);
  }

  lemma LexNumber(n: real, host: Host, rest: string)
    requires IsInteger(n) && EndsCleanly(rest)
    ensures Lex(NumberStr(n, host) + rest) == Prefixed(Tokenized(Num(n)), Lex(rest))
  {
    hide Lex, Decimal;
    var k := n.Floor;
    if k < 0 {
      var digits := Decimal(-k) + rest;
      LexInteger(-k, rest);
      assert "-" + Decimal(-k) + rest == "-" + digits;
      assert (-k) as real == -n;
      LexToken(Op(Minus), digits);
      PrefixedTwice([Op(Minus)], [Number(-n)], Lex(rest));
      assert [Op(Minus)] + [Number(-n)] == Tokenized(Num(n));
    } else {
      LexInteger(k, rest);
    }
  }

  lemma LexWordThen(id: string, rest: string)
    requires IsIdentifier(id) && EndsCleanly(rest)
    ensures Lex(id + rest) == Prefixed([Name(id)], Lex(rest))
  {
    hide Lex;
    LexToken(Name(id), rest);
  }

  lemma PushText(a: string, b: string, c: string)
    ensures (a + b) + c == a + (b + c)
  {
  }

  lemma LexSpace(rest: string)
    ensures Lex(" " + rest) == Lex(rest)
  {
    assert (" " + rest)[1..] == rest;
  }

  lemma {:induction false} ReprScans(v: Value, host: Host, rest: string)
    requires Printable(v) && EndsCleanly(rest)
    ensures Lex(PyRepr(v, host) + rest) == Prefixed(Tokenized(v), Lex(rest))
    decreases v, 1
  {
    hide Lex;
    match v
    case Null => LexWordThen("None", rest);
    case Bool(b) => LexWordThen(if b then "True" else "False", rest);
    case Num(n) => LexNumber(n, host, rest);
    case Str(s) => LexQuoted(s, rest);
    case List(items) =>
      BracketsScan(LBracket, RBracket, ReprItems(items, host), ItemTokens(items), rest) by {
        ItemsScan(items, host, "]" + rest);
      }
    case Obj(entries) =>
      BracketsScan(LBrace, RBrace, ReprEntries(entries, host), EntryTokenList(entries), rest) by {
        EntriesScan(entries, host, "}" + rest);
      }
  }

  lemma BracketsScan(open: Punct, close: Punct, inner: string, tokens: Tokens, rest: string)
    requires Lex(inner + ([PunctText(close)] + rest)) == Prefixed(tokens, Lex([PunctText(close)] + rest))
    ensures Lex([PunctText(open)] + (inner + [PunctText(close)]) + rest) ==
            Prefixed([P(open)] + (tokens + [P(close)]), Lex(rest))
  {
    hide Lex, PunctText;
    PushText([PunctText(open)], inner + [PunctText(close)], rest);
    PushText(inner, [PunctText(close)], rest);
    LexPunct(open, inner + ([PunctText(close)] + rest));
    LexPunct(close, rest);
    PrefixedTwice(tokens, [P(close)], Lex(rest));
    PrefixedTwice([P(open)], tokens + [P(close)], Lex(rest));
  }

  /** A first element, a comma and a blank, and the others. */
  lemma CommaScans(first: string, ts: Tokens, others: string, us: Tokens, rest: string)
    requires Lex(first + ("," + (" " + (others + rest)))) == Prefixed(ts, Lex("," + (" " + (others + rest))))
    requires Lex(others + rest) == Prefixed(us, Lex(rest))
    ensures Lex(first + (", " + others) + rest) == Prefixed(ts + ([P(Comma)] + us), Lex(rest))
  {
    hide Lex;
    var tail := others + rest;
    assert first + (", " + others) + rest == first + ("," + (" " + tail)) by {
      PushText(first, ", " + others, rest);
      PushText(", ", others, rest);
      assert ", " == "," + " ";
      PushText(",", " ", tail);
    }
    LexPunct(Comma, " " + tail);
    LexSpace(tail);
    PrefixedTwice([P(Comma)], us, Lex(rest));
    PrefixedTwice(ts, [P(Comma)] + us, Lex(rest));
  }

  lemma {:induction false} ItemsScan(items: seq<Value>, host: Host, rest: string)
    requires (forall k :: 0 <= k < |items| ==> Printable(items[k])) && EndsCleanly(rest)
    ensures Lex(ReprItems(items, host) + rest) == Prefixed(ItemTokens(items), Lex(rest))
    decreases items, 2
  {
    hide Lex, PyRepr, Tokenized;
    if items == [] {
      assert ReprItems(items, host) + rest == rest;
      PrefixedNothing(Lex(rest));
    } else if |items| == 1 {
      ReprScans(items[0], host, rest);
    } else {
      var others := ReprItems(items[1..], host);
      ItemsScan(items[1..], host, rest);
      ReprScans(items[0], host, "," + (" " + (others + rest)));
      CommaScans(PyRepr(items[0], host), Tokenized(items[0]), others, ItemTokens(items[1..]), rest);
    }
  }

  lemma PrefixedNothing(r: Result<Tokens, SyntaxError>)
    ensures Prefixed([], r) == r
  {
    if r.Ok? {
      assert [] + r.value == r.value;
    }
  }

  lemma {:induction false} EntryScans(entry: (string, Value), host: Host, rest: string)
    requires Readable(entry.0) && Printable(entry.1) && EndsCleanly(rest)
    ensures Lex(ReprEntry(entry, host) + rest) == Prefixed(EntryTokens1(entry), Lex(rest))
    decreases entry
  {
    hide Lex, PyRepr, Tokenized, Quoted;
    var value := PyRepr(entry.1, host) + rest;
    assert ReprEntry(entry, host) + rest == Quoted(entry.0) + (":" + (" " + value)) by {
      PushText(Quoted(entry.0), ": " + PyRepr(entry.1, host), rest);
      PushText(": ", PyRepr(entry.1, host), rest);
      assert ": " == ":" + " ";
      PushText(":", " ", value);
    }
    ReprScans(entry.1, host, rest);
    LexQuoted(entry.0, ":" + (" " + value));
    LexPunct(Colon, " " + value);
    LexSpace(value);
    PrefixedTwice([P(Colon)], Tokenized(entry.1), Lex(rest));
    PrefixedTwice([StringLit(entry.0)], [P(Colon)] + Tokenized(entry.1), Lex(rest));
    assert [StringLit(entry.0)] + ([P(Colon)] + Tokenized(entry.1)) == EntryTokens1(entry);
  }

  lemma {:induction false} EntriesScan(entries: Table<Value>, host: Host, rest: string)
    requires forall k :: 0 <= k < |entries| ==> Readable(entries[k].0) && Printable(entries[k].1)
    requires EndsCleanly(rest)
    ensures Lex(ReprEntries(entries, host) + rest) == Prefixed(EntryTokenList(entries), Lex(rest))
    decreases entries, 2
  {
    hide Lex, ReprEntry, EntryTokens1;
    if entries == [] {
      assert ReprEntries(entries, host) + rest == rest;
      PrefixedNothing(Lex(rest));
    } else if |entries| == 1 {
      EntryScans(entries[0], host, rest);
    } else {
      var others := ReprEntries(entries[1..], host);
      EntriesScan(entries[1..], host, rest);
      EntryScans(entries[0], host, "," + (" " + (others + rest)));
      CommaScans(ReprEntry(entries[0], host), EntryTokens1(entries[0]), others, EntryTokenList(entries[1..]), rest);
    }
  }

  // ---- Evaluating the tree -----------------------------------------------------

  lemma {:induction false} TreeEvaluates(v: Value, ctx: Context, host: Host)
    requires Printable(v)
    ensures Evaluate(Tree(v), ctx, host) == Ok(v) && UseOf(Tree(v), ctx, host) == Ok(v)
    decreases v, 1
  {
    hide EvaluateAll, EvaluateEntries, Trees, EntryTrees;
    match v
    case List(items) => TreesEvaluate(items, ctx, host);
    case Obj(entries) =>
      EntryTreesEvaluate(entries, [], ctx, host);
      assert [] + entries == entries;
    case Num(n) => NumberEvaluates(n, ctx, host);
    case _ =>
  }

  lemma NumberEvaluates(n: real, ctx: Context, host: Host)
    ensures Evaluate(Tree(Num(n)), ctx, host) == Ok(Num(n))
  {
    if n < 0.0 {
      assert UseOf(Lit(LNum(-n)), ctx, host) == Ok(Num(-n));
    }
  }

  lemma {:induction false} TreesEvaluate(items: seq<Value>, ctx: Context, host: Host)
    requires forall k :: 0 <= k < |items| ==> Printable(items[k])
    ensures EvaluateAll(Trees(items), ctx, host) == Ok(items)
    decreases items, 2
  {
    if items != [] {
      TreeEvaluates(items[0], ctx, host);
      TreesEvaluate(items[1..], ctx, host);
      assert Trees(items)[1..] == Trees(items[1..]);
      assert [items[0]] + items[1..] == items;
    }
  }

  lemma {:induction false} EntryTreeEvaluates(entry: (string, Value), ctx: Context, host: Host)
    requires Printable(entry.1)
    ensures EvaluateEntry(EntryTree(entry), ctx, host) == Ok(entry)
    decreases entry
  {
    TreeEvaluates(entry.1, ctx, host);
    assert Evaluate(Lit(LStr(entry.0)), ctx, host) == Ok(Str(entry.0));
    assert UseOf(Lit(LStr(entry.0)), ctx, host) == Ok(Str(entry.0));
  }

  lemma {:induction false} EntryTreesEvaluate(entries: Table<Value>, out: Table<Value>, ctx: Context, host: Host)
    requires Distinct(out + entries)
    requires forall k :: 0 <= k < |entries| ==> Printable(entries[k].1)
    ensures EvaluateEntries(EntryTrees(entries), out, ctx, host) == Ok(out + entries)
    decreases entries, 2
  {
    hide Evaluate, Tree;
    if entries == [] {
      assert out + entries == out;
    } else {
      var entry := entries[0];
      EntryTreeEvaluates(entry, ctx, host);
      assert !Has(out, entry.0) by {
        forall i | 0 <= i < |out| ensures out[i].0 != entry.0 {
          assert (out + entries)[i].0 != (out + entries)[|out|].0;
        }
      }
      PutFresh(out, entry.0, entry.1);
      assert (out + [entry]) + entries[1..] == out + entries;
      EntryTreesEvaluate(entries[1..], out + [entry], ctx, host);
      assert EntryTrees(entries)[1..] == EntryTrees(entries[1..]);
    }
  }

  // ---- The round trip ----------------------------------------------------------

  lemma ReprParses(v: Value, host: Host)
    requires Printable(v)
    ensures Parse(PyRepr(v, host)) == Ok(Tree(v))
  {
    hide Lex, PExpr, PyRepr, Tokenized, Tree;
    var text := PyRepr(v, host);
    ReprScans(v, host, "");
    assert text + "" == text;
    assert Lex("") == Ok([]) by { LexNothing(); }
    assert Tokenized(v) + [] == Tokenized(v);
    TokensParse(v, []);
  }

  lemma LexNothing()
    ensures Lex("") == Ok([])
  {
  }

  /** For every printable value, in every context: reading its `repr` gives it back. */
  lemma ReprRoundTrip(v: Value, ctx: Context, host: Host)
    requires Printable(v)
    ensures EvaluateSource(PyRepr(v, host), ctx, host) == Ok(Ok(v))
  {
    hide Parse, Evaluate, PyRepr, Tree;
    ReprParses(v, host);
    TreeEvaluates(v, ctx, host);
  }

  lemma LexFails(text: string)
    requires text != [] && !IsSpace(text[0]) && TokenAt(text).Err?
    ensures Lex(text).Err?
  {
  }
}
