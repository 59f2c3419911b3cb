/** What the scanner makes of escapes, blanks and the names of literals. */
module ExprTexts {
  import opened Common
  import opened ExprSyntax
  import opened ExprLexer
  import opened ExprGrammar
  import Numerals

  /** Every character that can be escaped, escaped: line ends and tabs by letter, backslashes and quotes as they are. */
  function FullyEscaped(s: string): string {
    if s == "" then "" else EscapeOf(s[0]) + FullyEscaped(s[1..])
  }

  function EscapeOf(c: char): string {
    if c == '\n' then "\\n"
    else if c == '\t' then "\\t"
    else if c == '\r' then "\\r"
    else if c == '\\' || c == '\'' || c == '"' then ['\\', c]
    else [c]
  }

  lemma EscapeReads(c: char, quote: char, tail: string, text: string, n: nat)
    requires (quote == '"' || quote == '\'') && StringBody(tail, quote) == Some((text, n))
    ensures StringBody(EscapeOf(c) + tail, quote) == Some(([c] + text, n + |EscapeOf(c)|))
  {
    var e := EscapeOf(c);
    assert (e + tail)[|e|..] == tail;
    assert (e + tail)[0] == e[0];
    if |e| == 2 {
      assert (e + tail)[1] == e[1];
      assert Unescape(e[1]) == c;
    }
  }

  /** In either kind of quotes, the escaped text reads as the text. */
  lemma {:induction false} EscapesRead(s: string, quote: char, rest: string)
    requires quote == '"' || quote == '\''
    ensures StringBody(FullyEscaped(s) + ([quote] + rest), quote) == Some((s, |FullyEscaped(s)| + 1))
  {
    hide EscapeOf;
    var text := FullyEscaped(s) + ([quote] + rest);
    if s == "" {
      assert text == [quote] + rest;
    } else {
      hide StringBody;
      EscapesRead(s[1..], quote, rest);
      var tail := FullyEscaped(s[1..]) + ([quote] + rest);
      assert text == EscapeOf(s[0]) + tail;
      EscapeReads(s[0], quote, tail, s[1..], |FullyEscaped(s[1..])| + 1);
      assert [s[0]] + s[1..] == s;
    }
  }

  /** Any other character after a backslash stands for itself. */
  lemma EscapedOtherwise(c: char, quote: char, s: string)
    requires c !in "ntr" && StringBody(s, quote).Some?
    ensures StringBody(['\\', c] + s, quote) ==
      Some(([c] + StringBody(s, quote).value.0, StringBody(s, quote).value.1 + 2))
  {
    var t := ['\\', c] + s;
    assert t[2..] == s && t[1] == c;
  }

  /** A string without its closing quote is never read. */
  lemma {:induction false} UnclosedIsRefused(s: string, quote: char)
    requires quote !in s
    ensures StringBody(s, quote) == None
    decreases |s|
  {
    if s != "" && s[0] == '\\' && |s| > 1 {
      UnclosedIsRefused(s[2..], quote);
    } else if s != "" {
      UnclosedIsRefused(s[1..], quote);
    }
  }

  predicate Blank(c: char) {
    c as int in {9, 10, 11, 12, 13, 0x20, 0xA0, 0x1680, 0x2000, 0x2001, 0x2002, 0x2003, 0x2004, 0x2005, 0x2006, 0x2007,
                 0x2008, 0x2009, 0x200A, 0x2028, 0x2029, 0x202F, 0x205F, 0x3000, 0xFEFF}
  }

  /** Blanks before a text change nothing, and nothing else is skipped. */
  lemma {:induction false} BlanksAreSkipped(a: string, s: string)
    requires forall i :: 0 <= i < |a| ==> Blank(a[i])
    ensures Lex(a + s) == Lex(s)
    ensures s != "" && !Blank(s[0]) && TokenAt(s).Ok? && Lex(s).Ok? ==> Lex(s).value[0] == TokenAt(s).value.0
    decreases |a|
  {
    if a == "" {
      assert a + s == s;
    } else {
      assert (a + s)[1..] == a[1..] + s;
      assert IsSpace(a[0]);
      BlanksAreSkipped(a[1..], s);
    }
  }

  /** The six names that are literals, wherever a value is read; any other name is a variable. */
  lemma NamesRead(id: string, ts: Tokens)
    ensures PPrimary([Name("true")] + ts) == PPrimary([Name("True")] + ts) == Ok((Lit(LBool(true)), ts))
    ensures PPrimary([Name("false")] + ts) == PPrimary([Name("False")] + ts) == Ok((Lit(LBool(false)), ts))
    ensures PPrimary([Name("none")] + ts) == PPrimary([Name("None")] + ts) == Ok((Lit(LNull), ts))
    ensures id !in {"true", "True", "false", "False", "none", "None"} ==> PPrimary([Name(id)] + ts) == Ok((Var(id), ts))
  {
    OneName("true", ts);
    OneName("True", ts);
    OneName("false", ts);
    OneName("False", ts);
    OneName("none", ts);
    OneName("None", ts);
    OneName(id, ts);
  }

  lemma OneName(id: string, ts: Tokens)
    ensures var k := KeywordLiteral(id);
      PPrimary([Name(id)] + ts) == Ok((if k.Some? then Lit(k.value) else Var(id), ts))
  {
    hide KeywordLiteral;
    assert ([Name(id)] + ts)[1..] == ts;
  }

  /** After `is`, the same names compare identities, and any other name is a test. */
  lemma TestsRead(node: Expr, name: string, ts: Tokens)
    requires name != "not"
    ensures name == "none" || name == "None" ==>
      PTest(node, [Name("is"), Name(name)] + ts) == Ok((Compare(CIs, node, Lit(LNull)), ts))
      && PTest(node, [Name("is"), Name("not"), Name(name)] + ts) == Ok((Compare(CIsNot, node, Lit(LNull)), ts))
    ensures name !in {"true", "True", "false", "False", "none", "None"} ==>
      PTest(node, [Name("is"), Name(name)] + ts) == Ok((Test(node, name, false), ts))
      && PTest(node, [Name("is"), Name("not"), Name(name)] + ts) == Ok((Test(node, name, true), ts))
  {
    var plain, negated := [Name("is"), Name(name)] + ts, [Name("is"), Name("not"), Name(name)] + ts;
    assert plain[1..] == [Name(name)] + ts && negated[1..] == [Name("not"), Name(name)] + ts;
    assert negated[2..] == [Name(name)] + ts;
    assert ([Name(name)] + ts)[1..] == ts;
  }
}
