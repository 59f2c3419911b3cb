/** Spelling a token, and the proof that the scanner reads it back. */
module ExprScanning {
  import opened Common
  import opened Numerals
  import opened ExprSyntax
  import opened ExprLexer

  /** Backslash and apostrophe escaped, as inside single quotes. */
  function Escaped(s: string): string {
    if s == [] then ""
    else (if s[0] == '\\' then "\\\\" else if s[0] == '\'' then "\\'" else [s[0]]) + Escaped(s[1..])
  }

  lemma {:induction false} ReadEscaped(s: string, rest: string)
    ensures StringBody(Escaped(s) + "'" + rest, '\'') == Some((s, |Escaped(s)| + 1))
  {
    var text := Escaped(s) + "'" + rest;
    if s != [] {
      ReadEscaped(s[1..], rest);
      var tail := Escaped(s[1..]) + "'" + rest;
      assert text == (if s[0] == '\\' then "\\\\" else if s[0] == '\'' then "\\'" else [s[0]]) + tail;
      if s[0] == '\\' || s[0] == '\'' {
        assert text[2..] == tail;
        assert [Unescape(s[0])] + s[1..] == s;
      } else {
        assert text[1..] == tail;
        assert [s[0]] + s[1..] == s;
      }
    } else {
      assert text == "'" + rest;
    }
  }

  /** Inside double quotes, text without `"` or `\` reads as itself. */
  lemma {:induction false} ReadRaw(s: string, rest: string)
    requires '"' !in s && '\\' !in s
    ensures StringBody(s + "\"" + rest, '"') == Some((s, |s| + 1))
  {
    var text := s + "\"" + rest;
    if s != [] {
      assert text[1..] == s[1..] + "\"" + rest;
      ReadRaw(s[1..], rest);
      assert [s[0]] + s[1..] == s;
    } else {
      assert text == "\"" + rest;
    }
  }

  /** The digits with a dot before the last `k`. */
  function Pointed(digits: string, k: nat): string
    requires k < |digits|
  {
    digits[..|digits| - k] + ("." + digits[|digits| - k..])
  }

  /** The numeral of `m / 10^k`, with at least one digit before the dot. */
  function DecimalText(m: nat, k: nat): string {
    if k == 0 then Decimal(m) else Pointed(Zeros(k + 1) + Decimal(m), k)
  }

  ghost function Spelling(r: real): (mk: (nat, nat))
    ensures IsDecimal(r) ==> r == Scaled(mk.0, mk.1)
  {
    if IsDecimal(r) then
      var m: nat, k: nat :| r == Scaled(m, k);
      (m, k)
    else (0, 0)
  }

  lemma {:induction false} DigitRunThrough(s: string, rest: string)
    requires AllDigits(s) && (rest == [] || !IsDigit(rest[0]))
    ensures DigitRun(s + rest) == |s|
  {
    if s != [] {
      assert (s + rest)[1..] == s[1..] + rest;
      DigitRunThrough(s[1..], rest);
    } else {
      assert s + rest == rest;
    }
  }

  predicate EndsNumber(rest: string) {
    rest == [] || (!IsDigit(rest[0]) && rest[0] != '.')
  }

  lemma ReadInteger(n: nat, rest: string)
    requires EndsNumber(rest)
    ensures NumberAt(Decimal(n) + rest) == (n as real, |Decimal(n)|)
  {
    var d := Decimal(n);
    var s := d + rest;
    DigitRunThrough(d, rest);
    DecimalValue(n);
    assert s[..|d|] == d;
    assert |s| > |d| ==> s[|d|] == rest[0];
    assert FractionRun(s, |d|) == 0;
    assert d + "" == d;
  }

  lemma Split(a: string, t: string)
    ensures (a + t)[..|a|] == a && (a + t)[|a|..] == t
  {
  }

  lemma PointedShape(a: string, b: string, rest: string, s: string)
    requires AllDigits(a) && AllDigits(b) && a != [] && b != [] && EndsNumber(rest)
    requires s == a + ("." + (b + rest))
    ensures DigitRun(s) == |a| && s[..|a|] == a && s[|a|] == '.' && s[0] == a[0]
    ensures s[|a| + 1..] == b + rest && s[|a| + 1] == b[0]
  {
    var dotted := "." + (b + rest);
    DigitRunThrough(a, dotted);
    Split(a, dotted);
    Split(".", b + rest);
    assert s[|a| + 1..] == s[|a|..][1..];
  }

  lemma ReadPointed(a: string, b: string, rest: string, s: string)
    requires AllDigits(a) && AllDigits(b) && a != [] && b != [] && EndsNumber(rest)
    requires s == a + ("." + (b + rest))
    ensures IsDigit(s[0]) && NumberAt(s) == (NumberOf(a, b), |a| + 1 + |b|)
  {
    PointedShape(a, b, rest, s);
    DigitRunThrough(b, rest);
    Split(b, rest);
    assert FractionRun(s, |a|) == |b|;
  }

  lemma PaddedDigits(m: nat, k: nat)
    ensures var d := Zeros(k + 1) + Decimal(m);
            AllDigits(d) && NumeralValue(d) == m && |d| > k + 1
  {
    LeadingZeros(k + 1, Decimal(m));
    DecimalValue(m);
  }

  lemma Reassociate(a: string, b: string, c: string, d: string)
    ensures a + (b + c) + d == a + (b + (c + d))
  {
  }

  lemma ReadDecimal(m: nat, k: nat, rest: string)
    requires EndsNumber(rest)
    ensures var t := DecimalText(m, k);
            t != [] && IsDigit(t[0]) && NumberAt(t + rest) == (Scaled(m, k), |t|)
  {
    if k == 0 {
      ReadInteger(m, rest);
      assert Scaled(m, 0) == m as real;
    } else {
      ReadFraction(m, k, rest);
    }
  }

  lemma ReadPlaced(a: string, b: string, rest: string)
    requires AllDigits(a) && AllDigits(b) && a != [] && b != [] && EndsNumber(rest)
    ensures NumberAt(a + ("." + b) + rest) == (NumberOf(a, b), |a| + 1 + |b|)
  {
    Reassociate(a, ".", b, rest);
    ReadPointed(a, b, rest, a + ("." + b) + rest);
  }

  lemma Halve(digits: string, k: nat) returns (a: string, b: string)
    requires AllDigits(digits) && 0 < k < |digits|
    ensures a + b == digits && a != [] && |b| == k && AllDigits(a) && AllDigits(b)
    ensures Pointed(digits, k) == a + ("." + b)
    ensures NumberOf(a, b) == Scaled(NumeralValue(digits), k)
  {
    a, b := digits[..|digits| - k], digits[|digits| - k..];
    assert a + b == digits;
  }

  lemma ReadDigits(digits: string, k: nat, rest: string)
    requires AllDigits(digits) && 0 < k < |digits| && EndsNumber(rest)
    ensures var t := Pointed(digits, k);
            |t| == |digits| + 1 && IsDigit(t[0])
            && NumberAt(t + rest) == (Scaled(NumeralValue(digits), k), |t|)
  {
    hide NumberAt, NumberOf, NumeralValue, Scaled, Pointed;
    var a, b := Halve(digits, k);
    ReadPlaced(a, b, rest);
    assert |a| + |b| == |a + b|;
    assert (a + ("." + b))[0] == a[0];
  }

  lemma ReadFraction(m: nat, k: nat, rest: string)
    requires k > 0 && EndsNumber(rest)
    ensures var t := DecimalText(m, k);
            t != [] && IsDigit(t[0]) && NumberAt(t + rest) == (Scaled(m, k), |t|)
  {
    PaddedDigits(m, k);
    ReadDigits(Zeros(k + 1) + Decimal(m), k, rest);
  }

  lemma {:induction false} NameRunThrough(s: string, rest: string)
    requires forall i :: 0 <= i < |s| ==> IsNamePart(s[i])
    requires rest == [] || !IsNamePart(rest[0])
    ensures NameRun(s + rest) == |s|
  {
    if s != [] {
      assert (s + rest)[1..] == s[1..] + rest;
      NameRunThrough(s[1..], rest);
    } else {
      assert s + rest == rest;
    }
  }

  function OperatorText(op: Operator): string {
    match op
    case EqEq => "=="
    case NotEq => "!="
    case LessEq => "<="
    case GreaterEq => ">="
    case FloorDiv => "//"
    case Less => "<"
    case Greater => ">"
    case Plus => "+"
    case Minus => "-"
    case Star => "*"
    case Slash => "/"
    case Percent => "%"
    case Pipe => "|"
    case Tilde => "~"
  }

  function PunctText(p: Punct): char {
    match p
    case LParen => '('
    case RParen => ')'
    case LBracket => '['
    case RBracket => ']'
    case LBrace => '{'
    case RBrace => '}'
    case Comma => ','
    case Colon => ':'
    case Dot => '.'
  }

  ghost function Spell(t: Token): string {
    match t
    case Name(id) => id
    case Number(r) => var (m, k) := Spelling(r); DecimalText(m, k)
    case StringLit(s) => "'" + Escaped(s) + "'"
    case Op(op) => OperatorText(op)
    case P(p) => [PunctText(p)]
    case Eof => ""
  }

  /** `rest` does not run on into the token before it. */
  predicate Separates(t: Token, rest: string) {
    match t
    case Name(_) => rest == [] || !IsNamePart(rest[0])
    case Number(_) => EndsNumber(rest)
    case Op(_) => rest == [] || (rest[0] != '=' && rest[0] != '/')
    case _ => true
  }

  lemma SpellOperator(op: Operator, rest: string)
    requires rest == [] || (rest[0] != '=' && rest[0] != '/')
    ensures TokenAt(OperatorText(op) + rest) == Ok((Op(op), |OperatorText(op)|))
  {
    var s := OperatorText(op) + rest;
    assert |s| > 1 ==> |OperatorText(op)| == 2 || s[1] == rest[0];
  }

  lemma ScanName(id: string, rest: string)
    requires IsIdentifier(id) && Separates(Name(id), rest)
    ensures TokenAt(id + rest) == Ok((Name(id), |id|))
  {
    var s := id + rest;
    assert s[1..] == id[1..] + rest;
    NameRunThrough(id[1..], rest);
    assert s[..|id|] == id;
  }

  lemma ScanString(text: string, rest: string)
    ensures TokenAt(Spell(StringLit(text)) + rest) == Ok((StringLit(text), |Escaped(text)| + 2))
  {
    var s := Spell(StringLit(text)) + rest;
    assert s[1..] == Escaped(text) + "'" + rest;
    ReadEscaped(text, rest);
  }

  lemma ScanToken(t: Token, rest: string)
    requires TokenOk(t) && Separates(t, rest)
    ensures Spell(t) != [] && !IsSpace(Spell(t)[0])
    ensures TokenAt(Spell(t) + rest) == Ok((t, |Spell(t)|))
  {
    match t
    case Name(id) => ScanName(id, rest);
    case Number(r) => ReadDecimal(Spelling(r).0, Spelling(r).1, rest);
    case StringLit(text) => ScanString(text, rest);
    case Op(op) => SpellOperator(op, rest);
    case P(p) =>
  }

  /** One token off the front of the text is one token off the front of the list. */
  lemma LexToken(t: Token, rest: string)
    requires TokenOk(t) && Separates(t, rest)
    ensures Lex(Spell(t) + rest) == Prefixed([t], Lex(rest))
  {
    ScanToken(t, rest);
    assert (Spell(t) + rest)[|Spell(t)|..] == rest;
  }

  /** Tokens spelled out with a blank after each. */
  ghost function SpellAll(ts: seq<Token>): string {
    if ts == [] then "" else Spell(ts[0]) + (" " + SpellAll(ts[1..]))
  }

  lemma BlankSkipped(s: string)
    ensures Lex(" " + s) == Lex(s)
  {
    hide TokenAt;
    assert (" " + s)[1..] == s;
  }

  lemma BlankSeparates(t: Token, s: string)
    ensures Separates(t, " " + s)
  {
  }

  lemma {:induction false} LexSpelled(ts: seq<Token>)
    requires TokensOk(ts)
    ensures Lex(SpellAll(ts)) == Ok(ts)
  {
    if ts != [] {
      hide Lex, Spell, Separates;
      LexSpelled(ts[1..]);
      var tail := SpellAll(ts[1..]);
      BlankSeparates(ts[0], tail);
      LexToken(ts[0], " " + tail);
      BlankSkipped(tail);
      assert [ts[0]] + ts[1..] == ts;
    }
  }
}
