/** What the recorder writes, read by the engine: the dotted paths inside `{{ … }}` placeholders. */
module Placeholders {
  import opened Common
  import opened ExprSyntax
  import opened ExprGrammar
  import opened ExprRoundTrip
  import ExprLexer
  import ExprRepr
  import ExprScanning
  import Names
  import Numerals
  import Recorder
  import Tables

  /** `.a.b` for the names after the root. */
  function TailText(names: seq<string>): string {
    if names == [] then "" else "." + (names[0] + TailText(names[1..]))
  }

  function TailTokens(names: seq<string>): Tokens {
    if names == [] then [] else [P(Dot)] + ([Name(names[0])] + TailTokens(names[1..]))
  }

  function PathTree(node: Expr, names: seq<string>): Expr
    decreases |names|
  {
    if names == [] then node else PathTree(Attribute(node, names[0]), names[1..])
  }

  predicate AllIdentifiers(names: seq<string>) {
    forall k :: 0 <= k < |names| ==> IsIdentifier(names[k])
  }

  /** A name of the context: no literal keyword and not the operator. */
  predicate IsRoot(root: string) {
    IsIdentifier(root) && KeywordLiteral(root).None? && root != "not"
  }

  /** What may follow a name without becoming part of it. */
  predicate Stops(rest: string) {
    rest == "" || rest[0] == '.'
  }

  lemma {:induction false} TailLexes(names: seq<string>, rest: string)
    requires AllIdentifiers(names) && Stops(rest)
    ensures ExprLexer.Lex(TailText(names) + rest) == ExprLexer.Prefixed(TailTokens(names), ExprLexer.Lex(rest))
    ensures Stops(TailText(names) + rest)
    decreases |names|
  {
    hide ExprLexer.Lex, IsIdentifier;
    if names == [] {
      assert TailText(names) + rest == rest;
      ExprRepr.PrefixedNothing(ExprLexer.Lex(rest));
    } else {
      var more := TailText(names[1..]) + rest;
      TailLexes(names[1..], rest);
      DottedNameLexes(names[0], more);
      assert TailText(names) + rest == "." + (names[0] + more);
      ExprRepr.PrefixedTwice([Name(names[0])], TailTokens(names[1..]), ExprLexer.Lex(rest));
      ExprRepr.PrefixedTwice([P(Dot)], [Name(names[0])] + TailTokens(names[1..]), ExprLexer.Lex(rest));
    }
  }

  lemma DottedNameLexes(name: string, more: string)
    requires IsIdentifier(name) && Stops(more)
    ensures ExprLexer.Lex("." + (name + more)) ==
      ExprLexer.Prefixed([P(Dot)], ExprLexer.Prefixed([Name(name)], ExprLexer.Lex(more)))
  {
    hide ExprLexer.Lex;
    ExprRepr.LexPunct(Dot, name + more);
    ExprScanning.LexToken(Name(name), more);
  }

  lemma {:induction false} TailParses(node: Expr, names: seq<string>, rest: Tokens)
    ensures PPostfix(node, TailTokens(names) + rest) == PPostfix(PathTree(node, names), rest)
    decreases |names|
  {
    hide PExpr, PList, PPostfix;
    if names == [] {
      assert TailTokens(names) + rest == rest;
    } else {
      var more := TailTokens(names[1..]) + rest;
      TailParses(Attribute(node, names[0]), names[1..], rest);
      OneAttribute(node, names[0], more);
      assert TailTokens(names) + rest == [P(Dot)] + ([Name(names[0])] + more);
    }
  }

  lemma OneAttribute(node: Expr, name: string, more: Tokens)
    ensures PPostfix(node, [P(Dot)] + ([Name(name)] + more)) == PPostfix(Attribute(node, name), more)
  {
    hide PExpr, PList, PFilters;
    var ts := [P(Dot)] + ([Name(name)] + more);
    assert ts[1..] == [Name(name)] + more;
    assert ts[1..][1..] == more;
  }

  /** A root followed by identifiers parses to the attribute path. */
  lemma PathReads(root: string, names: seq<string>)
    requires IsRoot(root) && AllIdentifiers(names)
    ensures Parse(root + TailText(names)) == Ok(PathTree(Var(root), names))
  {
    hide ExprLexer.Lex, PExpr, PBin, PUnary, PPostfix, IsIdentifier, TailText, TailTokens;
    var ts := [Name(root)] + TailTokens(names);
    PathLexes(root, names, "");
    ExprRepr.LexNothing();
    assert root + TailText(names) == root + (TailText(names) + "");
    assert [Name(root)] + (TailTokens(names) + []) == ts;
    UnaryReads(root, names);
    Climb(1, 9, ts, PathTree(Var(root), names), []);
  }

  lemma PathLexes(root: string, names: seq<string>, rest: string)
    requires IsIdentifier(root) && AllIdentifiers(names) && Stops(rest)
    ensures ExprLexer.Lex(root + (TailText(names) + rest)) ==
      ExprLexer.Prefixed([Name(root)], ExprLexer.Prefixed(TailTokens(names), ExprLexer.Lex(rest)))
  {
    hide ExprLexer.Lex;
    TailLexes(names, rest);
    ExprScanning.LexToken(Name(root), TailText(names) + rest);
  }

  lemma UnaryReads(root: string, names: seq<string>)
    requires IsRoot(root)
    ensures PUnary([Name(root)] + TailTokens(names)) == Ok((PathTree(Var(root), names), []))
  {
    hide PPostfix, TailTokens;
    var ts := [Name(root)] + TailTokens(names);
    assert ts[1..] == TailTokens(names);
    TailParses(Var(root), names, []);
    assert TailTokens(names) + [] == TailTokens(names);
    PostfixEnds(PathTree(Var(root), names));
  }

  lemma PostfixEnds(node: Expr)
    ensures PPostfix(node, []) == Ok((node, []))
  {
  }

  // A name that begins with a digit.

  lemma NumberFirst(name: string)
    requires name != "" && Numerals.IsDigit(name[0])
    ensures var lexed := ExprLexer.Lex(name); lexed.Ok? ==> lexed.value != [] && lexed.value[0].Number?
  {
  }

  lemma NumberIsNoAttribute(node: Expr, rest: Tokens)
    requires |rest| >= 2 && rest[0] == P(Dot) && rest[1].Number?
    ensures PPostfix(node, rest).Err?
  {
  }

  lemma {:induction false} FailureClimbs(l: nat, ts: Tokens)
    requires 1 <= l < 10 && ts != [] && ts[0] != Name("not") && PUnary(ts).Err?
    ensures Level(l, ts).Err?
  {
    hide PUnary;
    if l > 1 {
      FailureClimbs(l - 1, ts);
      if l in {2, 3, 4, 7, 8} {
        OperandLevel(match l case 2 => Math2Tier case 3 => ConcatTier case 4 => Math1Tier
                             case 7 => AndTier case _ => OrTier, ts);
      }
    }
  }

  lemma UnaryFails(root: string, names: seq<string>, rest: Tokens)
    requires IsRoot(root) && |rest| >= 2 && rest[0] == P(Dot) && rest[1].Number?
    ensures PUnary([Name(root)] + (TailTokens(names) + rest)).Err?
  {
    hide PPostfix, TailTokens;
    var ts := [Name(root)] + (TailTokens(names) + rest);
    assert ts[1..] == TailTokens(names) + rest;
    TailParses(Var(root), names, rest);
    NumberIsNoAttribute(PathTree(Var(root), names), rest);
  }

  /** A path cannot end in a name that begins with a digit: the engine reads a number there. */
  lemma DigitPathFails(root: string, names: seq<string>, name: string)
    requires IsRoot(root) && AllIdentifiers(names) && name != "" && Numerals.IsDigit(name[0])
    ensures Parse(root + (TailText(names) + ("." + name))).Err?
  {
    hide ExprLexer.Lex, PExpr, PUnary, PPostfix, IsIdentifier, TailText, TailTokens;
    PathLexes(root, names, "." + name);
    ExprRepr.LexPunct(Dot, name);
    NumberFirst(name);
    var lexed := ExprLexer.Lex(name);
    if lexed.Ok? {
      var rest := [P(Dot)] + lexed.value;
      UnaryFails(root, names, rest);
      FailureClimbs(9, [Name(root)] + (TailTokens(names) + rest));
    }
  }

  /**
   * The names the recorder makes are word characters only. Such a name can be read as a secret, an input
   * or an extracted field if and only if it does not begin with a digit.
   */
  lemma PlaceholderReads(root: string, names: seq<string>, name: string)
    requires IsRoot(root) && AllIdentifiers(names)
    requires name != "" && Names.AllWord(name)
    ensures var text := root + TailText(names + [name]);
      && (Parse(text).Ok? <==> !Numerals.IsDigit(name[0]))
      && (Parse(text).Ok? ==> Parse(text).value == PathTree(Var(root), names + [name]))
  {
    hide Parse, TailText, PathTree;
    TailEnds(names, name);
    if Numerals.IsDigit(name[0]) {
      DigitPathFails(root, names, name);
    } else {
      WordIsIdentifier(name);
      PathReads(root, names + [name]);
    }
  }

  lemma WordIsIdentifier(name: string)
    requires name != "" && Names.AllWord(name) && !Numerals.IsDigit(name[0])
    ensures IsIdentifier(name)
  {
  }

  lemma {:induction false} TailEnds(names: seq<string>, name: string)
    ensures TailText(names + [name]) == TailText(names) + ("." + name)
    decreases |names|
  {
    if names == [] {
      assert (names + [name])[1..] == [];
      assert name + "" == name;
      assert names + [name] == [name];
      assert "" + ("." + name) == "." + name;
    } else {
      TailEnds(names[1..], name);
      assert (names + [name])[1..] == names[1..] + [name];
      assert "." + (names[0] + (TailText(names[1..]) + ("." + name))) == TailText(names) + ("." + name);
    }
  }

  // The names a recording makes.

  predicate IsWord(name: string) {
    name != "" && Names.AllWord(name)
  }

  /** Secrets, inputs and outputs are named by words. */
  predicate WordNames(n: Recorder.Notes) {
    && (forall k :: 0 <= k < |n.secrets| ==> IsWord(n.secrets[k]))
    && (forall s :: s in n.secretBySelector ==> IsWord(n.secretBySelector[s]))
    && KeysAreWords(n.inputs) && KeysAreWords(n.outputs)
  }

  predicate KeysAreWords<T>(t: Tables.Table<T>) {
    forall k :: 0 <= k < |t| ==> IsWord(t[k].0)
  }

  lemma UniqueIsWord(raw: Option<string>, fallback: string, lower: Names.Lowering, taken: set<string>)
    requires fallback in {"secret", "value", "field"}
    ensures IsWord(Names.UniqueName(Names.Ident(raw, fallback, lower), taken))
  {
    hide Names.Ident;
    Names.IdentIsTidy(raw, fallback, lower);
    var base := Names.Ident(raw, fallback, lower);
    var k := Names.FreeFrom(base, taken, 1);
    assert forall i :: 0 <= i < |Numerals.Decimal(k)| ==> Names.IsWordChar(Numerals.Decimal(k)[i]);
  }

  lemma {:induction false} PutKeysAreWords<T>(t: Tables.Table<T>, key: string, value: T)
    requires IsWord(key) && KeysAreWords(t)
    ensures KeysAreWords(Tables.Put(t, key, value))
  {
    hide IsWord;
    var after := Tables.Put(t, key, value);
    if t != [] && t[0].0 != key {
      PutKeysAreWords(t[1..], key, value);
      forall k | 0 <= k < |after| ensures IsWord(after[k].0) {
        assert k > 0 ==> after[k] == Tables.Put(t[1..], key, value)[k - 1];
      }
    } else {
      forall k | 0 <= k < |after| ensures IsWord(after[k].0) {
        assert k > 0 ==> after[k] == t[k];
      }
    }
  }

  lemma FillNamesWords(n: Recorder.Notes, event: Recorder.RecordedEvent, credentials: bool, lower: Names.Lowering)
    requires WordNames(n)
    ensures WordNames(Recorder.AddFill(n, event, credentials, lower))
  {
    hide IsWord, Recorder.Concealed, Names.UniqueName, Names.Ident;
    var raw := if event.descriptor.Some? then event.descriptor.value.name else None;
    UniqueIsWord(raw, "secret", lower, set s | s in n.secrets);
  }

  lemma InputNamesWords(n: Recorder.Notes, event: Recorder.RecordedEvent, lower: Names.Lowering)
    requires WordNames(n)
    ensures WordNames(Recorder.Parameterize(n, event, lower))
  {
    hide IsWord, KeysAreWords, Recorder.LastFill, Names.UniqueName, Names.Ident, Recorder.InputSpecOf, Tables.Put, Recorder.Keys;
    var name := Names.UniqueName(Names.Ident(event.config.name, "value", lower), Recorder.Keys(n.inputs));
    UniqueIsWord(event.config.name, "value", lower, Recorder.Keys(n.inputs));
    PutKeysAreWords(n.inputs, name, Recorder.InputSpecOf(event.descriptor));
  }

  lemma OutputNamesWords(n: Recorder.Notes, event: Recorder.RecordedEvent, lower: Names.Lowering)
    requires WordNames(n)
    ensures WordNames(Recorder.AddExtraction(n, event, lower))
  {
    hide IsWord, KeysAreWords, Names.UniqueName, Names.Ident, Recorder.SpecOf, Tables.Put;
    var o := Recorder.Opened(n);
    var name := Names.UniqueName(Names.Ident(event.config.name, "value", lower), o.outputNames);
    UniqueIsWord(event.config.name, "value", lower, o.outputNames);
    PutKeysAreWords(o.outputs, name, Recorder.Source(o.extracts, name));
  }

  lemma HandledNamesWords(n: Recorder.Notes, event: Recorder.RecordedEvent, credentials: bool, lower: Names.Lowering)
    requires WordNames(n)
    ensures WordNames(Recorder.Handled(n, event, credentials, lower))
  {
    hide IsWord, KeysAreWords, Recorder.AddExtraction, Recorder.Parameterize, Recorder.AddFill, Recorder.ChoiceOf,
      Recorder.TypeField;
    OutputNamesWords(n, event, lower);
    InputNamesWords(n.(open := false), event, lower);
    FillNamesWords(n.(open := false), event, credentials, lower);
  }

  lemma {:induction false} RecordedNamesAreWords(events: seq<Recorder.RecordedEvent>, credentials: bool,
                                                 lower: Names.Lowering)
    ensures WordNames(Recorder.NotesOf(events, credentials, lower))
  {
    hide WordNames, Recorder.Handled;
    if events == [] {
      BlankNames();
    } else {
      RecordedNamesAreWords(events[..|events| - 1], credentials, lower);
      HandledNamesWords(Recorder.NotesOf(events[..|events| - 1], credentials, lower), events[|events| - 1], credentials,
        lower);
    }
  }

  lemma BlankNames()
    ensures WordNames(Recorder.BLANK)
  {
  }

  /** A recorded secret is readable in the Blueprint if and only if its name does not begin with a digit. */
  lemma RecordedSecretReads(events: seq<Recorder.RecordedEvent>, credentials: bool, lower: Names.Lowering, k: nat)
    requires k < |Recorder.NotesOf(events, credentials, lower).secrets|
    ensures var name := Recorder.NotesOf(events, credentials, lower).secrets[k];
      && name != ""
      && (Parse("secrets" + TailText([name])).Ok? <==> !Numerals.IsDigit(name[0]))
  {
    hide Parse, Recorder.NotesOf, TailText;
    RecordedNamesAreWords(events, credentials, lower);
    var name := Recorder.NotesOf(events, credentials, lower).secrets[k];
    assert IsWord(name);
    PlaceholderReads("secrets", [], name);
    assert [] + [name] == [name];
  }

  /** An output of a recording is readable under the same condition, whatever extract step it comes from. */
  lemma RecordedOutputReads(events: seq<Recorder.RecordedEvent>, credentials: bool, lower: Names.Lowering, k: nat)
    requires k < |Recorder.NotesOf(events, credentials, lower).outputs|
    ensures var output := Recorder.NotesOf(events, credentials, lower).outputs[k];
      && output.0 != ""
      && (Parse("steps" + TailText([Recorder.ExtractId(output.1.number), output.0])).Ok?
          <==> !Numerals.IsDigit(output.0[0]))
  {
    hide Parse, Recorder.NotesOf, TailText, Recorder.ExtractId;
    RecordedNamesAreWords(events, credentials, lower);
    var output := Recorder.NotesOf(events, credentials, lower).outputs[k];
    assert IsWord(output.0);
    ExtractIdIsIdentifier(output.1.number);
    PlaceholderReads("steps", [Recorder.ExtractId(output.1.number)], output.0);
    assert [Recorder.ExtractId(output.1.number)] + [output.0] == [Recorder.ExtractId(output.1.number), output.0];
  }

  lemma ExtractIdIsIdentifier(number: nat)
    ensures IsIdentifier(Recorder.ExtractId(number))
  {
  }
}
