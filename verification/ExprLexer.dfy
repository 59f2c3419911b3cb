/** The scanner: the loops of the source, proved against a recursive reading of the text. */
module ExprLexer {
  import opened Common
  import opened Numerals
  import opened ExprSyntax

  /** JavaScript's `\s`. */
  predicate IsSpace(c: char) {
    var n := c as int;
    9 <= n <= 13 || n == 32 || n == 0xA0 || n == 0x1680 || 0x2000 <= n <= 0x200A
    || n == 0x2028 || n == 0x2029 || n == 0x202F || n == 0x205F || n == 0x3000 || n == 0xFEFF
  }

  function Unescape(c: char): char {
    match c
    case 'n' => '\n'
    case 't' => '\t'
    case 'r' => '\r'
    case _ => c
  }

  /** What a string body denotes, and how many characters it spans with its closing quote. */
  function StringBody(s: string, quote: char): (r: Option<(string, nat)>)
    ensures r.Some? ==> 0 < r.value.1 <= |s|
  {
    if s == [] then None
    else if s[0] == '\\' then
      if |s| == 1 then None
      else
        match StringBody(s[2..], quote)
        case None => None
        case Some((text, n)) => Some(([Unescape(s[1])] + text, n + 2))
    else if s[0] == quote then Some(("", 1))
    else
      match StringBody(s[1..], quote)
      case None => None
      case Some((text, n)) => Some(([s[0]] + text, n + 1))
  }

  /** Length of the longest prefix of digits. */
  function DigitRun(s: string): (n: nat)
    ensures n <= |s| && AllDigits(s[..n])
    ensures n < |s| ==> !IsDigit(s[n])
    ensures s != [] && IsDigit(s[0]) ==> n > 0
  {
    if s == [] || !IsDigit(s[0]) then 0 else 1 + DigitRun(s[1..])
  }

  function NameRun(s: string): (n: nat)
    ensures n <= |s|
    ensures forall i :: 0 <= i < n ==> IsNamePart(s[i])
    ensures n < |s| ==> !IsNamePart(s[n])
  {
    if s == [] || !IsNamePart(s[0]) then 0 else 1 + NameRun(s[1..])
  }

  function NumberOf(whole: string, fraction: string): real
    requires AllDigits(whole) && AllDigits(fraction)
  {
    Scaled(NumeralValue(whole + fraction), |fraction|)
  }

  /** Digits after the dot at `n`, if there is one: a dot only counts when a digit follows. */
  function FractionRun(s: string, n: nat): (k: nat)
    ensures k > 0 ==> n + 1 + k <= |s| && AllDigits(s[n + 1..][..k])
  {
    if n + 1 < |s| && s[n] == '.' && IsDigit(s[n + 1]) then DigitRun(s[n + 1..]) else 0
  }

  function NumberAt(s: string): (r: (real, nat))
    requires s != [] && IsDigit(s[0])
    ensures 0 < r.1 <= |s|
  {
    var n := DigitRun(s);
    var k := FractionRun(s, n);
    if k == 0 then (NumberOf(s[..n], ""), n) else (NumberOf(s[..n], s[n + 1..][..k]), n + 1 + k)
  }

  /** Longest match: the two-character operators are tried first. */
  function OperatorAt(s: string): (r: Option<(Operator, nat)>)
    ensures r.Some? ==> 0 < r.value.1 <= |s|
  {
    if s == [] then None
    else if |s| > 1 && s[0] == '=' && s[1] == '=' then Some((EqEq, 2))
    else if |s| > 1 && s[0] == '!' && s[1] == '=' then Some((NotEq, 2))
    else if |s| > 1 && s[0] == '<' && s[1] == '=' then Some((LessEq, 2))
    else if |s| > 1 && s[0] == '>' && s[1] == '=' then Some((GreaterEq, 2))
    else if |s| > 1 && s[0] == '/' && s[1] == '/' then Some((FloorDiv, 2))
    else
      match s[0]
      case '<' => Some((Less, 1))
      case '>' => Some((Greater, 1))
      case '+' => Some((Plus, 1))
      case '-' => Some((Minus, 1))
      case '*' => Some((Star, 1))
      case '/' => Some((Slash, 1))
      case '%' => Some((Percent, 1))
      case '|' => Some((Pipe, 1))
      case '~' => Some((Tilde, 1))
      case _ => None
  }

  function PunctAt(c: char): Option<Punct> {
    match c
    case '(' => Some(LParen)
    case ')' => Some(RParen)
    case '[' => Some(LBracket)
    case ']' => Some(RBracket)
    case '{' => Some(LBrace)
    case '}' => Some(RBrace)
    case ',' => Some(Comma)
    case ':' => Some(Colon)
    case '.' => Some(Dot)
    case _ => None
  }

  lemma NameIsIdentifier(s: string)
    requires s != [] && IsNameStart(s[0])
    ensures IsIdentifier(s[..1 + NameRun(s[1..])])
  {
  }

  /** The first token of `s` (after no blank), and its length. */
  function TokenAt(s: string): (r: Result<(Token, nat), SyntaxError>)
    requires s != [] && !IsSpace(s[0])
    ensures r.Ok? ==> 0 < r.value.1 <= |s|
    ensures r.Ok? ==> TokenOk(r.value.0)
  {
    if s[0] == '"' || s[0] == '\'' then
      match StringBody(s[1..], s[0])
      case None => Err(UnterminatedString)
      case Some((text, n)) => Ok((StringLit(text), n + 1))
    else if IsDigit(s[0]) then
      var (value, n) := NumberAt(s);
      Ok((Number(value), n))
    else if IsNameStart(s[0]) then
      var n := 1 + NameRun(s[1..]);
      NameIsIdentifier(s);
      Ok((Name(s[..n]), n))
    else
      match OperatorAt(s)
      case Some((op, n)) => Ok((Op(op), n))
      case None =>
        match PunctAt(s[0])
        case Some(p) => Ok((P(p), 1))
        case None => Err(UnexpectedCharacter(s[0]))
  }

  /** The tokens of a text, without the end marker. */
  function Lex(s: string): (r: Result<seq<Token>, SyntaxError>)
    ensures r.Ok? ==> TokensOk(r.value)
  {
    if s == [] then Ok([])
    else if IsSpace(s[0]) then Lex(s[1..])
    else
      var (t, n) :- TokenAt(s);
      var rest :- Lex(s[n..]);
      Ok([t] + rest)
  }

  function Prefixed(ts: seq<Token>, r: Result<seq<Token>, SyntaxError>): Result<seq<Token>, SyntaxError> {
    match r
    case Ok(rest) => Ok(ts + rest)
    case Err(e) => Err(e)
  }

  /** One character, or one escape, of a body read from `i` on. */
  lemma BodyStep(source: string, i: nat, quote: char)
    requires i < |source|
    ensures var c := source[i];
      var whole := StringBody(source[i..], quote);
      if c == '\\' then
        if i + 1 == |source| then whole == None
        else Grows(whole, [Unescape(source[i + 1])], 2, StringBody(source[i + 2..], quote))
      else if c == quote then whole == Some(("", 1))
      else Grows(whole, [c], 1, StringBody(source[i + 1..], quote))
  {
    hide Unescape;
    if i + 1 < |source| {
      assert source[i..][2..] == source[i + 2..];
    }
    assert source[i..][1..] == source[i + 1..];
  }

  /** `whole` is `tail` with `read` before it, spelled in `n` characters. */
  predicate Grows(whole: Option<(string, nat)>, read: string, n: nat, tail: Option<(string, nat)>) {
    whole == if tail.Some? then Some((read + tail.value.0, n + tail.value.1)) else None
  }

  lemma GrowsOn(whole: Option<(string, nat)>, read: string, n: nat, mid: Option<(string, nat)>, more: string, k: nat,
                tail: Option<(string, nat)>)
    requires Grows(whole, read, n, mid) && Grows(mid, more, k, tail)
    ensures Grows(whole, read + more, n + k, tail)
  {
    if tail.Some? {
      assert read + (more + tail.value.0) == (read + more) + tail.value.0;
    }
  }

  method ReadString(source: string, start: nat) returns (r: Option<(string, nat)>)
    requires start < |source|
    ensures r == match StringBody(source[start + 1..], source[start])
                 case None => None
                 case Some((text, n)) => Some((text, start + 1 + n))
  {
    hide Unescape, StringBody, Grows;
    var quote := source[start];
    var out := "";
    var i := start + 1;
    ghost var whole := StringBody(source[start + 1..], quote);
    GrowsFromNothing(whole);
    while i < |source|
      invariant start < i <= |source|
      invariant Grows(whole, out, i - start - 1, StringBody(source[i..], quote))
    {
      var c := source[i];
      ghost var mid := StringBody(source[i..], quote);
      BodyStep(source, i, quote);
      if c == '\\' {
        if i + 1 >= |source| {
          NothingGrows(whole, out, i - start - 1);
          return None;
        }
        var x := Unescape(source[i + 1]);
        GrowsOn(whole, out, i - start - 1, mid, [x], 2, StringBody(source[i + 2..], quote));
        out := out + [x];
        i := i + 2;
      } else if c == quote {
        ClosedBody(whole, out, i - start - 1);
        return Some((out, i + 1));
      } else {
        GrowsOn(whole, out, i - start - 1, mid, [c], 1, StringBody(source[i + 1..], quote));
        out := out + [c];
        i := i + 1;
      }
    }
    NoBody(quote);
    assert source[i..] == [];
    NothingGrows(whole, out, i - start - 1);
    return None;
  }

  lemma GrowsFromNothing(whole: Option<(string, nat)>)
    ensures Grows(whole, "", 0, whole)
  {
    if whole.Some? {
      assert "" + whole.value.0 == whole.value.0;
    }
  }

  lemma NothingGrows(whole: Option<(string, nat)>, read: string, n: nat)
    requires Grows(whole, read, n, None)
    ensures whole == None
  {
  }

  lemma ClosedBody(whole: Option<(string, nat)>, read: string, n: nat)
    requires Grows(whole, read, n, Some(("", 1)))
    ensures whole == Some((read, n + 1))
  {
    assert read + "" == read;
  }

  lemma NoBody(quote: char)
    ensures StringBody([], quote) == None
  {
  }

  method SkipDigits(source: string, start: nat) returns (i: nat)
    requires start <= |source|
    ensures i == start + DigitRun(source[start..])
  {
    i := start;
    while i < |source| && IsDigit(source[i])
      invariant start <= i <= |source|
      invariant DigitRun(source[start..]) == i - start + DigitRun(source[i..])
    {
      assert source[i..][1..] == source[i + 1..];
      i := i + 1;
    }
  }

  method ReadNumber(source: string, start: nat) returns (value: real, next: nat)
    requires start < |source| && IsDigit(source[start])
    ensures start < next <= |source|
    ensures (value, next - start) == NumberAt(source[start..])
  {
    hide NumberOf, DigitRun, NumeralValue;
    var i := SkipDigits(source, start);
    ghost var s, n := source[start..], i - start;
    assert source[start..i] == s[..n];
    if i + 1 < |source| && source[i] == '.' && IsDigit(source[i + 1]) {
      assert source[i + 1..] == s[n + 1..];
      var j := SkipDigits(source, i + 1);
      assert source[i + 1..j] == s[n + 1..][..j - i - 1];
      assert FractionRun(s, n) == j - i - 1;
      return NumberOf(source[start..i], source[i + 1..j]), j;
    }
    return NumberOf(source[start..i], ""), i;
  }

  method ReadName(source: string, start: nat) returns (end: nat)
    requires start < |source| && IsNameStart(source[start])
    ensures end == start + 1 + NameRun(source[start + 1..])
  {
    end := start + 1;
    while end < |source| && IsNamePart(source[end])
      invariant start < end <= |source|
      invariant NameRun(source[start + 1..]) == end - start - 1 + NameRun(source[end..])
    {
      assert source[end..][1..] == source[end + 1..];
      end := end + 1;
    }
  }

  /** One token of the scanner's loop, the blanks having been skipped. */
  method ReadToken(source: string, i: nat) returns (r: Result<(Token, nat), SyntaxError>)
    requires i < |source| && !IsSpace(source[i])
    ensures r == match TokenAt(source[i..]) case Ok((t, n)) => Ok((t, i + n)) case Err(e) => Err(e)
  {
    var s := source[i..];
    assert source[i + 1..] == s[1..];
    if source[i] == '"' || source[i] == '\'' {
      var body := ReadString(source, i);
      match body
      case None => return Err(UnterminatedString);
      case Some((text, next)) => return Ok((StringLit(text), next));
    }
    if IsDigit(source[i]) {
      var value, next := ReadNumber(source, i);
      return Ok((Number(value), next));
    }
    if IsNameStart(source[i]) {
      var end := ReadName(source, i);
      assert source[i..end] == s[..end - i];
      return Ok((Name(source[i..end]), end));
    }
    var operator := OperatorAt(s);
    if operator.Some? {
      return Ok((Op(operator.value.0), i + operator.value.1));
    }
    var punct := PunctAt(source[i]);
    if punct.Some? {
      return Ok((P(punct.value), i + 1));
    }
    return Err(UnexpectedCharacter(source[i]));
  }

  lemma PrefixedSnoc(ts: seq<Token>, t: Token, r: Result<seq<Token>, SyntaxError>)
    ensures Prefixed(ts, Prefixed([t], r)) == Prefixed(ts + [t], r)
  {
    if r.Ok? {
      assert ts + ([t] + r.value) == ts + [t] + r.value;
    }
  }

  /** `tokenize`: the scanner's loop, with the end marker pushed last. */
  method Tokenize(source: string) returns (r: Result<seq<Token>, SyntaxError>)
    ensures r == match Lex(source) case Ok(ts) => Ok(ts + [Eof]) case Err(e) => Err(e)
  {
    var tokens: seq<Token> := [];
    var i := 0;
    assert source[i..] == source;
    assert Lex(source).Ok? ==> tokens + Lex(source).value == Lex(source).value;
    while i < |source|
      invariant i <= |source|
      invariant Lex(source) == Prefixed(tokens, Lex(source[i..]))
    {
      ghost var s := source[i..];
      if IsSpace(source[i]) {
        assert s[1..] == source[i + 1..];
        i := i + 1;
        continue;
      }
      var token := ReadToken(source, i);
      if token.Err? { return Err(token.error); }
      assert s[token.value.1 - i..] == source[token.value.1..];
      PrefixedSnoc(tokens, token.value.0, Lex(source[token.value.1..]));
      tokens := tokens + [token.value.0];
      i := token.value.1;
    }
    assert tokens + [] == tokens;
    return Ok(tokens + [Eof]);
  }
}
