/** Values of the expression language, and Python's `str` and `repr` of them. */
module ExprValues {
  import opened Common
  import opened Tables
  import Numerals
  import ExprScanning
  import ExprLexer

  /** `Undefined` is the strict marker: silent when produced, an error when used. */
  datatype Value =
    | Undefined
    | Null
    | Bool(b: bool)
    | Num(n: real)
    | Str(s: string)
    | List(items: seq<Value>)
    | Obj(entries: Table<Value>)

  datatype EvalError =
    | UndefinedVariable
    | CallUnsupported
    | UnknownTest(test: string)
    | UnknownFilter(filter: string)
    | NotANumber
    | NotASequence
    | NoLength
    | CannotOrder
    | NotAContainer
    | DivisionByZero
    | HostFailure

  /** The value of an entry, as a part of it that recursion may descend to. */
  function EntryValue(entry: (string, Value)): (v: Value)
    ensures v < entry
  {
    entry.1
  }

  /** What the platform answers for: number formatting, text order, and the filters over dates and case. */
  datatype Host = Host(
    formatNumber: real -> string,
    less: (string, string) -> bool,
    filter: (string, Value, seq<Value>) -> Result<Value, EvalError>)

  predicate IsInteger(r: real) {
    r.Floor as real == r
  }

  function NumberStr(r: real, host: Host): string {
    if IsInteger(r) then Numerals.Signed(r.Floor) else host.formatNumber(r)
  }

  /** `repr` of a string: double quotes only when that avoids escaping an apostrophe. */
  function Quoted(s: string): string {
    if '\'' in s && '"' !in s then "\"" + s + "\"" else "'" + ExprScanning.Escaped(s) + "'"
  }

  function PyStr(v: Value, host: Host): string
    decreases v, 0
  {
    match v
    case Undefined => "None"
    case Null => "None"
    case Bool(b) => if b then "True" else "False"
    case Num(n) => NumberStr(n, host)
    case Str(s) => s
    case List(items) => "[" + (ReprItems(items, host) + "]")
    case Obj(entries) => "{" + (ReprEntries(entries, host) + "}")
  }

  function PyRepr(v: Value, host: Host): string
    decreases v, 1
  {
    match v
    case Str(s) => Quoted(s)
    case _ => PyStr(v, host)
  }

  function ReprItems(items: seq<Value>, host: Host): string
    decreases items, 2
  {
    if items == [] then ""
    else if |items| == 1 then PyRepr(items[0], host)
    else PyRepr(items[0], host) + (", " + ReprItems(items[1..], host))
  }

  function ReprEntry(entry: (string, Value), host: Host): string
    decreases entry
  {
    Quoted(entry.0) + (": " + PyRepr(entry.1, host))
  }

  function ReprEntries(entries: Table<Value>, host: Host): string
    decreases entries, 2
  {
    if entries == [] then ""
    else if |entries| == 1 then ReprEntry(entries[0], host)
    else ReprEntry(entries[0], host) + (", " + ReprEntries(entries[1..], host))
  }

  /** Python's truth, used inside expressions. */
  function PyTruth(v: Value): Result<bool, EvalError> {
    match v
    case Undefined => Err(UndefinedVariable)
    case Null => Ok(false)
    case Bool(b) => Ok(b)
    case Num(n) => Ok(n != 0.0)
    case Str(s) => Ok(s != "")
    case List(items) => Ok(items != [])
    case Obj(entries) => Ok(entries != [])
  }

  /** The rule around an expression: the text, trimmed and lowercased, is `true`, `1` or `yes`. */
  predicate IsTruthy(v: Value, host: Host) {
    Lower(Trimmed(PyStr(v, host))) in {"true", "1", "yes"}
  }

  function Lower(s: string): string {
    seq(|s|, i requires 0 <= i < |s| =>
      if 'A' <= s[i] <= 'Z' then (s[i] as int + 32) as char else s[i])
  }

  function Trimmed(s: string): string {
    TrimEnd(TrimStart(s))
  }

  function TrimStart(s: string): string {
    if s != "" && ExprLexer.IsSpace(s[0]) then TrimStart(s[1..]) else s
  }

  function TrimEnd(s: string): string {
    if s != "" && ExprLexer.IsSpace(s[|s| - 1]) then TrimEnd(s[..|s| - 1]) else s
  }
}
