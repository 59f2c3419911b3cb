/** The written form of a JSONPath: the scanner, and the canonical spelling it reads back. */
module JsonPathText {
  import opened Common
  import opened ExprValues
  import opened JsonPath
  import ExprLexer
  import opened Texts
  import Numerals

  datatype TextError =
    | Empty
    | DescentOntoAny
    | NameExpected
    | UnterminatedQuote
    | UnbalancedBracket
    | FilterUnsupported
    | UnionUnsupported
    | TextAfterQuote
    | MalformedSlice
    | NotAnIndex
    | UnexpectedCharacter

  /** JavaScript's `Number` on what is not a plain signed numeral, when it gives an integer. */
  type Reading = string -> Option<int>

  predicate IsNameChar(c: char) {
    'A' <= c <= 'Z' || 'a' <= c <= 'z' || Numerals.IsDigit(c) || c in {'_', '-', '@', '$'}
  }

  predicate IsQuote(c: char) {
    c == '\'' || c == '"'
  }

  /** How many leading name characters. */
  function NameLength(s: string): (n: nat)
    ensures n <= |s|
    ensures forall i :: 0 <= i < n ==> IsNameChar(s[i])
    ensures n < |s| ==> !IsNameChar(s[n])
  {
    if s == "" || !IsNameChar(s[0]) then 0 else 1 + NameLength(s[1..])
  }

  /** Where a character first stands, or the length when it does not. */
  function IndexOf(s: string, c: char): (n: nat)
    ensures n <= |s| && (n < |s| ==> s[n] == c)
    ensures forall i :: 0 <= i < n ==> s[i] != c
  {
    if s == "" || s[0] == c then 0 else 1 + IndexOf(s[1..], c)
  }

  type Named = Result<(string, string), TextError>

  function ReadName(s: string): Named {
    var n := NameLength(s);
    if n == 0 then Err(NameExpected) else Ok((s[..n], s[n..]))
  }

  function ReadQuoted(s: string): (r: Named)
    requires s != ""
    ensures r.Ok? ==> |r.value.1| < |s|
  {
    var n := IndexOf(s[1..], s[0]);
    if n == |s[1..]| then Err(UnterminatedQuote) else Ok((s[1..][..n], s[1..][n + 1..]))
  }

  function ReadInteger(text: string, number: Reading): Option<int> {
    var signed := text != "" && (text[0] == '-' || text[0] == '+');
    var digits := if signed then text[1..] else text;
    if Numerals.AllDigits(digits) && (digits != "" || !signed) then
      var n: int := Numerals.NumeralValue(digits);
      Some(if text != "" && text[0] == '-' then -n else n)
    else number(text)
  }

  function SliceBound(part: string, number: Reading): Result<Option<int>, TextError> {
    var text := Trimmed(part);
    if text == "" then Ok(None)
    else
      match ReadInteger(text, number)
      case None => Err(MalformedSlice)
      case Some(n) => Ok(Some(n))
  }

  function Bracket(inner: string, number: Reading): Result<Segment, TextError> {
    if inner == "*" then Ok(Slice(None, None, 1))
    else if inner != "" && inner[0] == '?' then Err(FilterUnsupported)
    else if ',' in inner then Err(UnionUnsupported)
    else if inner != "" && IsQuote(inner[0]) then
      var named :- ReadQuoted(inner);
      if named.1 != "" then Err(TextAfterQuote) else Ok(Field(named.0))
    else if ':' in inner then SliceOf(SplitOn(inner, ':'), number)
    else
      match ReadInteger(inner, number)
      case None => Err(NotAnIndex)
      case Some(n) => Ok(Index(n))
  }

  function SliceOf(parts: seq<string>, number: Reading): Result<Segment, TextError> {
    if |parts| > 3 || |parts| < 2 then Err(MalformedSlice)
    else
      var start :- SliceBound(parts[0], number);
      var end :- SliceBound(parts[1], number);
      var stride :- if |parts| == 3 then SliceBound(parts[2], number) else Ok(None);
      Ok(Slice(start, end, if stride.Some? then stride.value else 1))
  }

  /** One segment at the head of `s`, and what follows it. */
  function ReadSegment(s: string, first: bool, number: Reading): (r: Result<(Segment, string), TextError>)
    requires s != ""
    ensures r.Ok? ==> |r.value.1| < |s|
  {
    if s[0] == '.' then
      if |s| > 1 && s[1] == '.' then
        if |s| > 2 && s[2] == '*' then Err(DescentOntoAny)
        else
          var named :- ReadName(s[2..]);
          Ok((Descend(named.0), named.1))
      else if |s| > 1 && s[1] == '*' then Ok((FieldWildcard, s[2..]))
      else if |s| > 1 && IsQuote(s[1]) then
        var named :- ReadQuoted(s[1..]);
        Ok((Field(named.0), named.1))
      else
        var named :- ReadName(s[1..]);
        Ok((Field(named.0), named.1))
    else if s[0] == '[' then
      var close := IndexOf(s, ']');
      if close == |s| then Err(UnbalancedBracket)
      else
        var segment :- Bracket(Trimmed(s[1..close]), number);
        Ok((segment, s[close + 1..]))
    else if first && IsNameChar(s[0]) then
      var named :- ReadName(s);
      Ok((Field(named.0), named.1))
    else Err(UnexpectedCharacter)
  }

  function ReadSegments(s: string, first: bool, number: Reading): Result<seq<Segment>, TextError>
    decreases |s|
  {
    if s == "" then Ok([])
    else
      var one :- ReadSegment(s, first, number);
      var rest :- ReadSegments(one.1, false, number);
      Ok([one.0] + rest)
  }

  function ParsePath(path: string, number: Reading): Result<seq<Segment>, TextError> {
    var source := Trimmed(path);
    if source == "" then Err(Empty)
    else ReadSegments(if source[0] == '$' then source[1..] else source, true, number)
  }

  /** The scanner: one cursor over the text, one segment pushed at a time. */
  method ParseJsonPath(path: string, number: Reading) returns (r: Result<seq<Segment>, TextError>)
    ensures r == ParsePath(path, number)
  {
    hide ReadSegment, Trimmed;
    var source := Trimmed(path);
    var segments: seq<Segment> := [];
    var i := 0;
    if |source| == 0 {
      return Err(Empty);
    }
    if source[i] == '$' {
      i := i + 1;
    }
    ghost var all := ReadSegments(source[i..], true, number);
    NothingBefore(all);
    while i < |source|
      invariant 0 <= i <= |source|
      invariant Preceded(segments, ReadSegments(source[i..], segments == [], number)) == all
      decreases |source| - i
    {
      ghost var rest := source[i..];
      var one := ReadSegment(source[i..], segments == [], number);
      if one.Err? {
        return Err(one.error);
      }
      SegmentTail(source[i..], segments == [], number);
      i := |source| - |one.value.1|;
      ghost var before := segments;
      segments := segments + [one.value.0];
      assert rest[|rest| - |one.value.1|..] == source[i..];
      PrecededOne(before, one.value.0, ReadSegments(source[i..], false, number));
    }
    assert segments + [] == segments;
    return Ok(segments);
  }

  function Preceded(before: seq<Segment>, r: Result<seq<Segment>, TextError>): Result<seq<Segment>, TextError> {
    if r.Ok? then Ok(before + r.value) else r
  }

  lemma NothingBefore(r: Result<seq<Segment>, TextError>)
    ensures Preceded([], r) == r
  {
    if r.Ok? {
      assert [] + r.value == r.value;
    }
  }

  lemma PrecededOne(before: seq<Segment>, one: Segment, r: Result<seq<Segment>, TextError>)
    ensures Preceded(before + [one], r) == Preceded(before, if r.Ok? then Ok([one] + r.value) else r)
  {
    if r.Ok? {
      Regroup(before, [one], r.value);
    }
  }

  /** What follows a segment is the end of the text it was read from. */
  lemma SegmentTail(s: string, first: bool, number: Reading)
    requires s != "" && ReadSegment(s, first, number).Ok?
    ensures var rest := ReadSegment(s, first, number).value.1; |rest| < |s| && s[|s| - |rest|..] == rest
  {
    hide Bracket, Trimmed;
  }

  // The canonical spelling.

  /** Every segment the scanner can produce, and every one that can be spelled. */
  predicate Spellable(segment: Segment) {
    match segment
    case Field(name) => '"' !in name || '\'' !in name
    case Descend(name) => name != "" && forall i :: 0 <= i < |name| ==> IsNameChar(name[i])
    case _ => true
  }

  function QuoteFor(name: string): char {
    if '"' in name then '\'' else '"'
  }

  function SpelledBound(bound: Option<int>): string {
    if bound.Some? then Numerals.Signed(bound.value) else ""
  }

  function Spelled(segment: Segment): string {
    match segment
    case Field(name) => "." + ([QuoteFor(name)] + (name + [QuoteFor(name)]))
    case FieldWildcard => ".*"
    case Index(n) => "[" + (Numerals.Signed(n) + "]")
    case Slice(start, end, stride) =>
      "[" + (SpelledBound(start) + (":" + (SpelledBound(end) + (":" + Numerals.Signed(stride)))) + "]")
    case Descend(name) => ".." + name
  }

  function SpelledAll(segments: seq<Segment>): string {
    if segments == [] then "" else Spelled(segments[0]) + SpelledAll(segments[1..])
  }

  function SpelledPath(segments: seq<Segment>): string {
    "$" + SpelledAll(segments)
  }

  /** What follows a segment opens another one, or is nothing. */
  predicate Opens(s: string) {
    s == "" || s[0] == '.' || s[0] == '['
  }

  lemma SignedShape(n: int)
    ensures var t := Numerals.Signed(n);
      && t != "" && (forall i :: 0 <= i < |t| ==> Numerals.IsDigit(t[i]) || (i == 0 && t[i] == '-'))
  {
  }

  lemma SignedReads(n: int, number: Reading)
    ensures ReadInteger(Numerals.Signed(n), number) == Some(n)
  {
    var t := Numerals.Signed(n);
    if n < 0 {
      Numerals.DecimalValue(-n);
      assert t[1..] == Numerals.Decimal(-n);
    } else {
      Numerals.DecimalValue(n);
      assert Numerals.IsDigit(t[0]);
    }
  }

  lemma TrimmedKeeps(s: string)
    requires s != "" ==> !ExprLexer.IsSpace(s[0]) && !ExprLexer.IsSpace(s[|s| - 1])
    ensures Trimmed(s) == s
  {
  }

  lemma BoundReads(bound: Option<int>, number: Reading)
    ensures SliceBound(SpelledBound(bound), number) == Ok(bound)
  {
    if bound.Some? {
      var t := Numerals.Signed(bound.value);
      SignedShape(bound.value);
      TrimmedKeeps(t);
      SignedReads(bound.value, number);
    }
  }

  lemma NameLengthIs(s: string, k: nat)
    requires k <= |s| && (forall i :: 0 <= i < k ==> IsNameChar(s[i])) && (k < |s| ==> !IsNameChar(s[k]))
    ensures NameLength(s) == k
  {
    hide NameLength, IsNameChar;
  }

  lemma IndexOfIs(s: string, c: char, k: nat)
    requires k < |s| && s[k] == c && forall i :: 0 <= i < k ==> s[i] != c
    ensures IndexOf(s, c) == k
  {
    hide IndexOf;
  }

  lemma NameRead(name: string, rest: string)
    requires name != "" && Opens(rest) && forall i :: 0 <= i < |name| ==> IsNameChar(name[i])
    ensures ReadName(name + rest) == Ok((name, rest))
  {
    hide NameLength;
    NameLengthIs(name + rest, |name|);
  }

  lemma QuotedRead(q: char, name: string, rest: string)
    requires q !in name
    ensures ReadQuoted([q] + (name + ([q] + rest))) == Ok((name, rest))
  {
    hide IndexOf;
    var s := [q] + (name + ([q] + rest));
    assert s[1..] == name + ([q] + rest);
    IndexOfIs(s[1..], q, |name|);
    assert s[1..][|name| + 1..] == rest;
  }

  lemma {:induction false} NoColon(s: string)
    requires ':' !in s
    ensures SplitOn(s, ':') == [s]
  {
    if s != "" {
      NoColon(s[1..]);
      assert [s[1..]][1..] == [] && [s[0]] + s[1..] == s;
    }
  }

  lemma {:induction false} ColonSplits(a: string, b: string)
    requires ':' !in a
    ensures SplitOn(a + (":" + b), ':') == [a] + SplitOn(b, ':')
  {
    var s := a + (":" + b);
    if a == "" {
      assert s[1..] == b;
    } else {
      assert s[1..] == a[1..] + (":" + b);
      ColonSplits(a[1..], b);
      assert ([a[1..]] + SplitOn(b, ':'))[1..] == SplitOn(b, ':') && [a[0]] + a[1..] == a;
    }
  }

  /** Digits and signs hold none of the characters a bracket looks for. */
  lemma BoundShape(bound: Option<int>)
    ensures var t := SpelledBound(bound);
      && (forall c :: c in t ==> Numerals.IsDigit(c) || c == '-')
      && ':' !in t && ',' !in t && ']' !in t && '?' !in t && '*' !in t && '\'' !in t && '"' !in t
  {
    if bound.Some? {
      SignedShape(bound.value);
    }
  }

  lemma SliceReads(start: Option<int>, end: Option<int>, stride: int, number: Reading)
    ensures var inner := SpelledBound(start) + (":" + (SpelledBound(end) + (":" + Numerals.Signed(stride))));
      Bracket(inner, number) == Ok(Slice(start, end, stride))
  {
    hide SplitOn, SliceBound, ReadInteger, ReadQuoted;
    var a, b, d := SpelledBound(start), SpelledBound(end), SpelledBound(Some(stride));
    var inner := a + (":" + (b + (":" + d)));
    BoundShape(start);
    BoundShape(end);
    BoundShape(Some(stride));
    ColonSplits(a, b + (":" + d));
    ColonSplits(b, d);
    NoColon(d);
    assert [a] + ([b] + [d]) == [a, b, d];
    BoundReads(start, number);
    BoundReads(end, number);
    BoundReads(Some(stride), number);
    InnerOf(a, b, d);
    assert SliceOf([a, b, d], number) == Ok(Slice(start, end, stride));
  }

  lemma InnerOf(a: string, b: string, d: string)
    requires forall c :: c in a + b + d ==> Numerals.IsDigit(c) || c == '-'
    ensures var inner := a + (":" + (b + (":" + d)));
      && inner != "" && inner != "*" && inner[0] != '?' && !IsQuote(inner[0]) && ',' !in inner && ':' in inner
      && ']' !in inner
  {
    var inner := a + (":" + (b + (":" + d)));
    assert inner[|a|] == ':';
    forall c | c in inner ensures Numerals.IsDigit(c) || c == '-' || c == ':' {
      assert c in a + b + d || c == ':';
    }
    assert inner[0] in inner;
  }

  lemma IndexReads(n: int, number: Reading)
    ensures Bracket(Numerals.Signed(n), number) == Ok(Index(n))
  {
    BoundShape(Some(n));
    SignedReads(n, number);
    var t := Numerals.Signed(n);
    SignedShape(n);
    assert t[0] in t;
  }

  /** A bracket ends at its own closing mark. */
  lemma BracketReads(inner: string, rest: string, first: bool, number: Reading)
    requires ']' !in inner && Trimmed(inner) == inner && Bracket(inner, number).Ok?
    ensures ReadSegment("[" + (inner + "]") + rest, first, number) == Ok((Bracket(inner, number).value, rest))
  {
    hide Bracket, Trimmed;
    var s := "[" + (inner + "]") + rest;
    var close := |inner| + 1;
    IndexOfIs(s, ']', close);
    assert s[1..close] == inner && s[close + 1..] == rest;
  }

  lemma FieldReads(name: string, rest: string, first: bool, number: Reading)
    requires Spellable(Field(name))
    ensures ReadSegment(Spelled(Field(name)) + rest, first, number) == Ok((Field(name), rest))
  {
    hide Bracket, Trimmed, ReadName, ReadQuoted;
    var q := QuoteFor(name);
    var s := Spelled(Field(name)) + rest;
    QuotedRead(q, name, rest);
    assert s[1..] == [q] + (name + ([q] + rest));
  }

  lemma DescendReads(name: string, rest: string, first: bool, number: Reading)
    requires Spellable(Descend(name)) && Opens(rest)
    ensures ReadSegment(Spelled(Descend(name)) + rest, first, number) == Ok((Descend(name), rest))
  {
    hide Bracket, Trimmed, ReadName, ReadQuoted, IndexOf;
    var s := Spelled(Descend(name)) + rest;
    NameRead(name, rest);
    assert s[2..] == name + rest;
    assert s[2] == name[0];
  }

  lemma SegmentReads(segment: Segment, rest: string, first: bool, number: Reading)
    requires Spellable(segment) && Opens(rest)
    ensures ReadSegment(Spelled(segment) + rest, first, number) == Ok((segment, rest))
  {
    hide Bracket, Trimmed, ReadSegment;
    match segment
    case Field(name) => FieldReads(name, rest, first, number);
    case FieldWildcard => WildcardReads(rest, first, number);
    case Index(n) =>
      BoundShape(Some(n));
      SignedShape(n);
      TrimmedKeeps(Numerals.Signed(n));
      IndexReads(n, number);
      BracketReads(Numerals.Signed(n), rest, first, number);
    case Slice(start, end, stride) =>
      var a, b, d := SpelledBound(start), SpelledBound(end), SpelledBound(Some(stride));
      BoundShape(start);
      BoundShape(end);
      BoundShape(Some(stride));
      InnerOf(a, b, d);
      var inner := a + (":" + (b + (":" + d)));
      InnerTrimmed(a, b, d);
      SliceReads(start, end, stride, number);
      BracketReads(inner, rest, first, number);
    case Descend(name) => DescendReads(name, rest, first, number);
  }

  lemma InnerTrimmed(a: string, b: string, d: string)
    requires d != "" && forall c :: c in a + b + d ==> Numerals.IsDigit(c) || c == '-'
    ensures var inner := a + (":" + (b + (":" + d))); Trimmed(inner) == inner
  {
    var inner := a + (":" + (b + (":" + d)));
    assert inner[|inner| - 1] == d[|d| - 1];
    assert d[|d| - 1] in a + b + d;
    if a != "" {
      assert a[0] in a + b + d;
      assert inner[0] == a[0];
    } else {
      assert inner[0] == ':';
    }
    TrimmedKeeps(inner);
  }

  lemma WildcardReads(rest: string, first: bool, number: Reading)
    ensures ReadSegment(Spelled(FieldWildcard) + rest, first, number) == Ok((FieldWildcard, rest))
  {
    assert (".*" + rest)[2..] == rest;
  }

  lemma SpelledOpens(segments: seq<Segment>)
    ensures Opens(SpelledAll(segments))
  {
  }

  lemma {:induction false} SegmentsRead(segments: seq<Segment>, first: bool, number: Reading)
    requires forall k :: 0 <= k < |segments| ==> Spellable(segments[k])
    ensures ReadSegments(SpelledAll(segments), first, number) == Ok(segments)
    decreases |segments|
  {
    hide ReadSegment, Spelled, Spellable;
    if segments != [] {
      SpelledOpens(segments[1..]);
      SegmentReads(segments[0], SpelledAll(segments[1..]), first, number);
      SegmentsRead(segments[1..], false, number);
      NotNothing(segments[0], SpelledAll(segments[1..]));
      assert segments == [segments[0]] + segments[1..];
    }
  }

  lemma NotNothing(segment: Segment, rest: string)
    ensures Spelled(segment) + rest != ""
  {
  }

  /** No spelling ends in space. */
  lemma {:induction false} SpelledEnd(segments: seq<Segment>)
    requires segments != [] && forall k :: 0 <= k < |segments| ==> Spellable(segments[k])
    ensures var s := SpelledAll(segments); s != "" && !ExprLexer.IsSpace(s[|s| - 1])
    decreases |segments|
  {
    hide ExprLexer.IsSpace;
    if |segments| == 1 {
      SegmentEnd(segments[0]);
      assert SpelledAll(segments) == Spelled(segments[0]) + "";
    } else {
      SpelledEnd(segments[1..]);
    }
  }

  lemma SegmentEnd(segment: Segment)
    requires Spellable(segment)
    ensures var s := Spelled(segment); s != "" && !ExprLexer.IsSpace(s[|s| - 1])
  {
  }

  /** Reading undoes writing, for every list of spellable segments. */
  lemma ParseInvertsSpelling(segments: seq<Segment>, number: Reading)
    requires forall k :: 0 <= k < |segments| ==> Spellable(segments[k])
    ensures ParsePath(SpelledPath(segments), number) == Ok(segments)
  {
    hide Spelled, Spellable, ReadSegments;
    var path := SpelledPath(segments);
    if segments != [] {
      SpelledEnd(segments);
    }
    TrimmedKeeps(path);
    assert path[1..] == SpelledAll(segments);
    SegmentsRead(segments, true, number);
  }

  lemma QuotedIsSpellable(s: string)
    requires s != "" && IsQuote(s[0]) && ReadQuoted(s).Ok?
    ensures Spellable(Field(ReadQuoted(s).value.0))
  {
    hide IndexOf;
    var n := IndexOf(s[1..], s[0]);
    assert forall i :: 0 <= i < n ==> s[1..][..n][i] != s[0];
  }

  lemma NameIsSpellable(s: string)
    requires ReadName(s).Ok?
    ensures Spellable(Field(ReadName(s).value.0)) && Spellable(Descend(ReadName(s).value.0))
  {
    hide NameLength;
    var name := ReadName(s).value.0;
    assert forall i :: 0 <= i < |name| ==> IsNameChar(name[i]);
    assert !IsNameChar('"');
  }

  lemma BracketIsSpellable(inner: string, number: Reading)
    requires Bracket(inner, number).Ok?
    ensures Spellable(Bracket(inner, number).value)
  {
    hide SplitOn, SliceBound, ReadInteger, ReadQuoted, Spellable;
    if inner != "" && IsQuote(inner[0]) && ReadQuoted(inner).Ok? {
      QuotedIsSpellable(inner);
    }
    OthersAreSpellable(Bracket(inner, number).value);
  }

  lemma OthersAreSpellable(segment: Segment)
    ensures segment.FieldWildcard? || segment.Index? || segment.Slice? ==> Spellable(segment)
  {
  }

  lemma SegmentIsSpellable(s: string, first: bool, number: Reading)
    requires s != "" && ReadSegment(s, first, number).Ok?
    ensures Spellable(ReadSegment(s, first, number).value.0)
  {
    hide Trimmed, Bracket, ReadQuoted, ReadName, Spellable;
    var segment := ReadSegment(s, first, number).value.0;
    OthersAreSpellable(segment);
    if s[0] == '[' {
      BracketIsSpellable(Trimmed(s[1..IndexOf(s, ']')]), number);
    } else if s[0] != '.' {
      NameIsSpellable(s);
    } else if |s| > 1 && IsQuote(s[1]) {
      QuotedIsSpellable(s[1..]);
    } else if |s| > 1 && s[1] == '.' {
      NameIsSpellable(s[2..]);
    } else if segment.Field? {
      NameIsSpellable(s[1..]);
    }
  }

  lemma {:induction false} ParsedIsSpellable(s: string, first: bool, number: Reading)
    requires ReadSegments(s, first, number).Ok?
    ensures forall k :: 0 <= k < |ReadSegments(s, first, number).value| ==>
      Spellable(ReadSegments(s, first, number).value[k])
    decreases |s|
  {
    hide ReadSegment, Spellable;
    if s != "" {
      SegmentIsSpellable(s, first, number);
      ParsedIsSpellable(ReadSegment(s, first, number).value.1, false, number);
    }
  }

  /** Every accepted path has a canonical spelling that means the same. */
  lemma CanonicalMeansTheSame(path: string, number: Reading)
    requires ParsePath(path, number).Ok?
    ensures ParsePath(SpelledPath(ParsePath(path, number).value), number) == ParsePath(path, number)
  {
    hide ReadSegments, Trimmed, Spellable;
    var source := Trimmed(path);
    ParsedIsSpellable(if source[0] == '$' then source[1..] else source, true, number);
    ParseInvertsSpelling(ParsePath(path, number).value, number);
  }
}
