/**
 * What reads back from `repr`, exactly. A string that is written in double quotes with its backslashes unescaped is
 * read as another one, or swallows what follows it; wherever it stands in a value, the value is not read back.
 */
module ExprReprExact {
  import opened Common
  import opened Tables
  import opened ExprSyntax
  import opened ExprLexer
  import opened ExprScanning
  import opened ExprGrammar
  import opened ExprValues
  import opened ExprRoundTrip
  import opened ExprHeard
  import opened ExprRepr

  /** Null, booleans, safe integers, strings, lists, and objects, whose keys are distinct. */
  predicate Shaped(v: Value)
    decreases v
  {
    match v
    case List(items) => forall k :: 0 <= k < |items| ==> Shaped(items[k])
    case Obj(entries) => Distinct(entries) && forall k :: 0 <= k < |entries| ==> Shaped(entries[k].1)
    case Str(_) => true
    case _ => Printable(v)
  }

  /** No tree comes out of the text, or another one. */
  predicate Misread(text: string, e: Expr) {
    Lex(text).Ok? && PExpr(Lex(text).value).Ok? ==> PExpr(Lex(text).value).value.0 != e
  }

  predicate MisreadItems(text: string, es: seq<Expr>) {
    Lex(text).Ok? && PItems(Lex(text).value).Ok? ==> PItems(Lex(text).value).value.0 != es
  }

  predicate MisreadEntry(text: string, entry: (Expr, Expr)) {
    Lex(text).Ok? && PEntry(Lex(text).value).Ok? ==> PEntry(Lex(text).value).value.0 != entry
  }

  predicate MisreadEntries(text: string, es: seq<(Expr, Expr)>) {
    Lex(text).Ok? && PEntries(Lex(text).value).Ok? ==> PEntries(Lex(text).value).value.0 != es
  }

  // ---- Strings -----------------------------------------------------------------

  /** Read up to the next double quote, a text with a backslash shrinks, or runs on over its closing quote. */
  lemma {:induction false} BackslashMisreads(s: string, rest: string)
    requires '"' !in s
    ensures match StringBody(s + ("\"" + rest), '"')
            case None => true
            case Some((text, _)) => '"' in text || (|text| <= |s| && ('\\' in s ==> |text| < |s|))
    decreases |s|
  {
    var text := s + ("\"" + rest);
    if s == "" {
      assert text == "\"" + rest;
    } else if s[0] == '\\' {
      if |s| == 1 {
        assert text[1] == '"' && text[2..] == rest;
      } else {
        assert text[2..] == s[2..] + ("\"" + rest);
        BackslashMisreads(s[2..], rest);
      }
    } else {
      assert text[1..] == s[1..] + ("\"" + rest);
      BackslashMisreads(s[1..], rest);
    }
  }

  lemma StringToken(s: string, rest: string)
    requires !Readable(s)
    ensures var text := Quoted(s) + rest;
      && text != [] && !IsSpace(text[0])
      && (TokenAt(text).Ok? ==> TokenAt(text).value.0.StringLit? && TokenAt(text).value.0.text != s)
  {
    hide StringBody, NumberAt, NameRun, OperatorAt, PunctAt, Escaped;
    var text := Quoted(s) + rest;
    assert text[1..] == s + ("\"" + rest);
    BackslashMisreads(s, rest);
  }

  lemma StringMisread(s: string, rest: string)
    requires !Readable(s)
    ensures Misread(Quoted(s) + rest, Lit(LStr(s)))
  {
    hide Lex, TokenAt, PExpr, Quoted, Readable;
    var text := Quoted(s) + rest;
    StringToken(s, rest);
    match TokenAt(text)
    case Err(_) => LexFails(text);
    case Ok((t, n)) =>
      LexOne(text, t, n);
      var ts := [t] + (if Lex(text[n..]).Ok? then Lex(text[n..]).value else []);
      if PExpr(ts).Ok? && PExpr(ts).value.0 == Lit(LStr(s)) {
        LevelZero(ts);
        PlainIsPrimary(9, ts);
        StringPrimary(ts);
      }
  }

  lemma StringPrimary(ts: Tokens)
    requires ts != [] && ts[0].StringLit?
    ensures PPrimary(ts) == Ok((Lit(LStr(ts[0].text)), ts[1..]))
  {
    hide PExpr, PList, PEntries;
  }

  // ---- Values ------------------------------------------------------------------

  lemma {:induction false} ValueMisread(v: Value, host: Host, rest: string)
    requires Shaped(v) && !Printable(v)
    ensures Misread(PyRepr(v, host) + rest, Tree(v))
    decreases v, 1
  {
    hide Lex, PExpr, MisreadItems, MisreadEntries, Trees, EntryTrees;
    match v
    case Str(s) => StringMisread(s, rest);
    case List(items) =>
      ItemsMisread(items, host, "]" + rest);
      ListMisread(items, ReprItems(items, host), rest);
    case Obj(entries) =>
      EntriesMisread(entries, host, "}" + rest);
      DictMisread(entries, ReprEntries(entries, host), rest);
    case _ =>
  }

  lemma ListMisread(items: seq<Value>, inner: string, rest: string)
    requires items != [] && MisreadItems(inner + ("]" + rest), Trees(items))
    ensures Misread("[" + (inner + "]") + rest, ListExpr(Trees(items)))
  {
    hide Lex, PExpr, PPrimary, PItems, Trees;
    PushText("[", inner + "]", rest);
    PushText(inner, "]", rest);
    LexPunct(LBracket, inner + ("]" + rest));
    var us := if Lex(inner + ("]" + rest)).Ok? then Lex(inner + ("]" + rest)).value else [];
    var ts := [P(LBracket)] + us;
    if PExpr(ts).Ok? && PExpr(ts).value.0 == ListExpr(Trees(items)) {
      LevelZero(ts);
      PlainIsPrimary(9, ts);
      ListOpens(us);
      if !AtPunct(us, RBracket) {
        ListOfItems(RBracket, us);
      }
    }
  }

  lemma ListOpens(us: Tokens)
    requires PPrimary([P(LBracket)] + us).Ok?
    ensures PList(RBracket, us).Ok?
    ensures PPrimary([P(LBracket)] + us).value.0 == ListExpr(PList(RBracket, us).value.0)
  {
    hide PExpr, PList, PEntries;
    assert ([P(LBracket)] + us)[1..] == us;
  }

  lemma DictMisread(entries: Table<Value>, inner: string, rest: string)
    requires entries != [] && MisreadEntries(inner + ("}" + rest), EntryTrees(entries))
    ensures Misread("{" + (inner + "}") + rest, DictExpr(EntryTrees(entries)))
  {
    hide Lex, PExpr, PPrimary, PEntries, EntryTrees;
    PushText("{", inner + "}", rest);
    PushText(inner, "}", rest);
    LexPunct(LBrace, inner + ("}" + rest));
    var us := if Lex(inner + ("}" + rest)).Ok? then Lex(inner + ("}" + rest)).value else [];
    var ts := [P(LBrace)] + us;
    if PExpr(ts).Ok? && PExpr(ts).value.0 == DictExpr(EntryTrees(entries)) {
      LevelZero(ts);
      PlainIsPrimary(9, ts);
      DictOpens(us);
    }
  }

  lemma DictOpens(us: Tokens)
    requires PPrimary([P(LBrace)] + us).Ok?
    ensures PPrimary([P(LBrace)] + us).value.0 == DictExpr([])
      || (PEntries(us).Ok? && PPrimary([P(LBrace)] + us).value.0 == DictExpr(PEntries(us).value.0))
  {
    hide PExpr, PList, PEntries;
    assert ([P(LBrace)] + us)[1..] == us;
  }

  // ---- The first part that is not read back ------------------------------------

  lemma {:induction false} ItemsMisread(items: seq<Value>, host: Host, rest: string)
    requires forall k :: 0 <= k < |items| ==> Shaped(items[k])
    requires exists k :: 0 <= k < |items| && !Printable(items[k])
    ensures MisreadItems(ReprItems(items, host) + rest, Trees(items))
    decreases items, 2
  {
    hide Lex, PExpr, PyRepr, Tokenized, Tree, Shaped, Printable;
    var others := ReprItems(items[1..], host);
    var first := PyRepr(items[0], host);
    if !Printable(items[0]) {
      var tail := if |items| == 1 then rest else ", " + others + rest;
      assert ReprItems(items, host) + rest == first + tail by {
        if |items| > 1 {
          PushText(first, ", " + others, rest);
        }
      }
      ValueMisread(items[0], host, tail);
      FirstItem(items, first + tail);
    } else {
      assert |items| > 1;
      var k :| 0 <= k < |items| && !Printable(items[k]);
      assert items[1..][k - 1] == items[k];
      ItemsMisread(items[1..], host, rest);
      AfterComma(first, others, rest);
      ReprScans(items[0], host, "," + (" " + (others + rest)));
      LaterItem(items, others + rest);
    }
  }

  lemma AfterComma(first: string, others: string, rest: string)
    ensures first + (", " + others) + rest == first + ("," + (" " + (others + rest)))
    ensures Lex("," + (" " + (others + rest))) == Prefixed([P(Comma)], Lex(others + rest))
  {
    hide Lex;
    PushText(first, ", " + others, rest);
    PushText(", ", others, rest);
    assert ", " == "," + " ";
    PushText(",", " ", others + rest);
    LexPunct(Comma, " " + (others + rest));
    LexSpace(others + rest);
  }

  lemma {:induction false} FirstItem(items: seq<Value>, text: string)
    requires items != [] && Misread(text, Tree(items[0]))
    ensures MisreadItems(text, Trees(items))
  {
    hide Lex, PExpr, Tree;
    if Lex(text).Ok? && PItems(Lex(text).value).Ok? {
      assert PItems(Lex(text).value).value.0[0] == PExpr(Lex(text).value).value.0;
      assert Trees(items)[0] == Tree(items[0]);
    }
  }

  lemma {:induction false} LaterItem(items: seq<Value>, more: string)
    requires items != [] && Printable(items[0]) && MisreadItems(more, Trees(items[1..]))
    ensures forall text: string :: Lex(text) == Prefixed(Tokenized(items[0]), Prefixed([P(Comma)], Lex(more))) ==>
      MisreadItems(text, Trees(items))
  {
    hide Lex, PExpr, Tree, Tokenized, Printable;
    if Lex(more).Ok? {
      var us := Lex(more).value;
      var ts := Tokenized(items[0]) + ([P(Comma)] + us);
      TokensParse(items[0], [P(Comma)] + us);
      assert ([P(Comma)] + us)[1..] == us;
      if PItems(ts).Ok? {
        assert PItems(ts).value.0 == [Tree(items[0])] + PItems(us).value.0;
        assert PItems(ts).value.0[1..] == PItems(us).value.0;
        assert Trees(items)[1..] == Trees(items[1..]);
      }
    }
  }

  lemma {:induction false} EntryMisread(entry: (string, Value), host: Host, rest: string)
    requires Shaped(entry.1) && (!Readable(entry.0) || !Printable(entry.1))
    ensures MisreadEntry(ReprEntry(entry, host) + rest, EntryTree(entry))
    decreases entry
  {
    hide Lex, PExpr, PyRepr, Quoted, Tree, Shaped, Printable, Readable;
    var value := PyRepr(entry.1, host) + rest;
    EntryText(entry, host, rest);
    if !Readable(entry.0) {
      StringMisread(entry.0, ":" + (" " + value));
    } else {
      ValueMisread(entry.1, host, rest);
      LexQuoted(entry.0, ":" + (" " + value));
      LexPunct(Colon, " " + value);
      LexSpace(value);
      ValueAfterKey(entry, ReprEntry(entry, host) + rest, value);
    }
  }

  lemma EntryText(entry: (string, Value), host: Host, rest: string)
    ensures ReprEntry(entry, host) + rest == Quoted(entry.0) + (":" + (" " + (PyRepr(entry.1, host) + rest)))
  {
    hide PyRepr, Quoted;
    PushText(Quoted(entry.0), ": " + PyRepr(entry.1, host), rest);
    PushText(": ", PyRepr(entry.1, host), rest);
    assert ": " == ":" + " ";
    PushText(":", " ", PyRepr(entry.1, host) + rest);
  }

  lemma ValueAfterKey(entry: (string, Value), text: string, value: string)
    requires Misread(value, Tree(entry.1))
    requires Lex(text) == Prefixed([StringLit(entry.0)], Prefixed([P(Colon)], Lex(value)))
    ensures MisreadEntry(text, EntryTree(entry))
  {
    hide Lex, PExpr, Tree;
    if Lex(value).Ok? {
      var us := Lex(value).value;
      var colon := [P(Colon)] + us;
      var ts := [StringLit(entry.0)] + colon;
      assert ts[1..] == colon && colon[1..] == us;
      StringPrimary(ts);
      PrimaryReads(ts, Lit(LStr(entry.0)), colon);
    }
  }

  lemma {:induction false} EntriesMisread(entries: Table<Value>, host: Host, rest: string)
    requires forall k :: 0 <= k < |entries| ==> Shaped(entries[k].1)
    requires exists k :: 0 <= k < |entries| && (!Readable(entries[k].0) || !Printable(entries[k].1))
    ensures MisreadEntries(ReprEntries(entries, host) + rest, EntryTrees(entries))
    decreases entries, 2
  {
    hide Lex, PEntry, ReprEntry, EntryTokens1, EntryTree, Shaped, Printable, Readable;
    var others := ReprEntries(entries[1..], host);
    var first := ReprEntry(entries[0], host);
    if !Readable(entries[0].0) || !Printable(entries[0].1) {
      var tail := if |entries| == 1 then rest else ", " + others + rest;
      assert ReprEntries(entries, host) + rest == first + tail by {
        if |entries| > 1 {
          PushText(first, ", " + others, rest);
        }
      }
      EntryMisread(entries[0], host, tail);
      FirstEntry(entries, first + tail);
    } else {
      assert |entries| > 1;
      var k :| 0 <= k < |entries| && (!Readable(entries[k].0) || !Printable(entries[k].1));
      assert entries[1..][k - 1] == entries[k];
      EntriesMisread(entries[1..], host, rest);
      AfterComma(first, others, rest);
      EntryScans(entries[0], host, "," + (" " + (others + rest)));
      LaterEntry(entries, others + rest);
    }
  }

  lemma {:induction false} FirstEntry(entries: Table<Value>, text: string)
    requires entries != [] && MisreadEntry(text, EntryTree(entries[0]))
    ensures MisreadEntries(text, EntryTrees(entries))
  {
    hide Lex, PEntry, EntryTree;
    if Lex(text).Ok? && PEntries(Lex(text).value).Ok? {
      assert PEntries(Lex(text).value).value.0[0] == PEntry(Lex(text).value).value.0;
      assert EntryTrees(entries)[0] == EntryTree(entries[0]);
    }
  }

  lemma {:induction false} LaterEntry(entries: Table<Value>, more: string)
    requires entries != [] && Printable(entries[0].1) && MisreadEntries(more, EntryTrees(entries[1..]))
    ensures forall text: string :: Lex(text) == Prefixed(EntryTokens1(entries[0]), Prefixed([P(Comma)], Lex(more))) ==>
      MisreadEntries(text, EntryTrees(entries))
  {
    hide Lex, PEntry, EntryTree, EntryTokens1, Printable;
    if Lex(more).Ok? {
      var us := Lex(more).value;
      var ts := EntryTokens1(entries[0]) + ([P(Comma)] + us);
      EntryParses(entries[0], [P(Comma)] + us);
      assert ([P(Comma)] + us)[1..] == us;
      if PEntries(ts).Ok? {
        assert PEntries(ts).value.0 == [EntryTree(entries[0])] + PEntries(us).value.0;
        assert PEntries(ts).value.0[1..] == PEntries(us).value.0;
        assert EntryTrees(entries)[1..] == EntryTrees(entries[1..]);
      }
    }
  }

  // ---- The condition -----------------------------------------------------------

  /** A value reads back from its `repr` exactly when every string in it, keys included, does. */
  lemma ReprReadsBackExactly(v: Value, host: Host)
    requires Shaped(v)
    ensures Parse(PyRepr(v, host)) == Ok(Tree(v)) <==> Printable(v)
  {
    hide Lex, PExpr, PyRepr, Tree, Shaped, Printable;
    if Printable(v) {
      ReprParses(v, host);
    } else {
      ValueMisread(v, host, "");
      assert PyRepr(v, host) + "" == PyRepr(v, host);
    }
  }

  /** So a string does exactly when it lacks an apostrophe, a backslash, or has a double quote. */
  lemma StringReprReadsBack(s: string, host: Host)
    ensures Parse(PyRepr(Str(s), host)) == Ok(Lit(LStr(s))) <==> ('\'' in s && '\\' in s ==> '"' in s)
  {
    hide Parse, PyRepr;
    ReprReadsBackExactly(Str(s), host);
  }
}
