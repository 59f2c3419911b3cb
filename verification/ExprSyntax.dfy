/** Tokens, syntax errors and the syntax tree of the expression language. */
module ExprSyntax {
  import opened Common
  import Numerals

  datatype Operator =
    | EqEq | NotEq | LessEq | GreaterEq | FloorDiv
    | Less | Greater | Plus | Minus | Star | Slash | Percent | Pipe | Tilde

  datatype Punct = LParen | RParen | LBracket | RBracket | LBrace | RBrace | Comma | Colon | Dot

  datatype Token =
    | Name(id: string)
    | Number(value: real)
    | StringLit(text: string)
    | Op(op: Operator)
    | P(punct: Punct)
    | Eof

  datatype SyntaxError =
    | UnexpectedCharacter(c: char)
    | UnterminatedString
    | Expected(want: Token, got: Token)
    | ExpectedName(got: Token)
    | Unexpected(got: Token)
    | TuplesUnsupported

  datatype Literal = LNull | LBool(b: bool) | LNum(r: real) | LStr(s: string)

  datatype UnaryOp = UNot | UMinus | UPlus
  datatype BinaryOp = BAdd | BSub | BMul | BDiv | BFloorDiv | BMod | BConcat
  datatype CompareOp = CEq | CNe | CLt | CLe | CGt | CGe | CIn | CNotIn | CIs | CIsNot
  datatype BoolOp = BAnd | BOr

  datatype Expr =
    | Lit(value: Literal)
    | Var(name: string)
    | Attribute(target: Expr, attr: string)
    | Index(target: Expr, index: Expr)
    | Call(target: Expr, args: seq<Expr>)
    | Filter(target: Expr, filter: string, args: seq<Expr>)
    | Test(target: Expr, test: string, negated: bool)
    | Unary(uop: UnaryOp, operand: Expr)
    | Binary(bop: BinaryOp, left: Expr, right: Expr)
    | Compare(cop: CompareOp, left: Expr, right: Expr)
    | Logical(lop: BoolOp, left: Expr, right: Expr)
    | Conditional(body: Expr, condition: Expr, orElse: Option<Expr>)
    | ListExpr(items: seq<Expr>)
    | DictExpr(entries: seq<(Expr, Expr)>)

  predicate IsNameStart(c: char) {
    'A' <= c <= 'Z' || 'a' <= c <= 'z' || c == '_'
  }

  predicate IsNamePart(c: char) {
    IsNameStart(c) || Numerals.IsDigit(c)
  }

  predicate IsIdentifier(s: string) {
    s != [] && IsNameStart(s[0]) && forall i :: 0 <= i < |s| ==> IsNamePart(s[i])
  }

  /** `true`, `True`, `false`, `False`, `none`, `None`: names that read as literals. */
  function KeywordLiteral(s: string): Option<Literal> {
    if s == "true" || s == "True" then Some(LBool(true))
    else if s == "false" || s == "False" then Some(LBool(false))
    else if s == "none" || s == "None" then Some(LNull)
    else None
  }

  /** `m / 10^k`: what a decimal numeral with `k` digits after the dot denotes. */
  function Scaled(m: nat, k: nat): real {
    if k == 0 then m as real else Scaled(m, k - 1) / 10.0
  }

  ghost predicate IsDecimal(r: real) {
    exists m: nat, k: nat :: r == Scaled(m, k)
  }

  /** The tokens the scanner can produce. */
  ghost predicate TokenOk(t: Token) {
    match t
    case Name(s) => IsIdentifier(s)
    case Number(r) => IsDecimal(r)
    case Eof => false
    case _ => true
  }

  ghost predicate TokensOk(ts: seq<Token>) {
    forall i :: 0 <= i < |ts| ==> TokenOk(ts[i])
  }

  /** The trees the language can express: what a parser may return, no more. */
  ghost predicate WellFormed(e: Expr)
    decreases e
  {
    match e
    case Lit(LNum(r)) => IsDecimal(r)
    case Lit(_) => true
    case Var(x) => IsIdentifier(x) && KeywordLiteral(x).None?
    case Attribute(t, a) => WellFormed(t) && IsIdentifier(a)
    case Index(t, i) => WellFormed(t) && WellFormed(i)
    case Call(t, args) => WellFormed(t) && forall k :: 0 <= k < |args| ==> WellFormed(args[k])
    case Filter(t, f, args) =>
      WellFormed(t) && IsIdentifier(f) && forall k :: 0 <= k < |args| ==> WellFormed(args[k])
    case Test(t, n, neg) =>
      WellFormed(t) && IsIdentifier(n) && KeywordLiteral(n).None? && (n == "not" ==> neg)
    case Unary(_, x) => WellFormed(x)
    case Binary(_, l, r) => WellFormed(l) && WellFormed(r)
    case Compare(op, l, r) =>
      WellFormed(l) && WellFormed(r)
      && (op == CIs || op == CIsNot ==> r.Lit? && (r.value.LNull? || r.value.LBool?))
    case Logical(_, l, r) => WellFormed(l) && WellFormed(r)
    case Conditional(b, c, o) => WellFormed(b) && WellFormed(c) && (o.Some? ==> WellFormed(o.value))
    case ListExpr(items) => forall k :: 0 <= k < |items| ==> WellFormed(items[k])
    case DictExpr(entries) =>
      forall k :: 0 <= k < |entries| ==> WellFormed(entries[k].0) && WellFormed(entries[k].1)
  }
}
