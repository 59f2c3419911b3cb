/** The last curtain before an application sees a text: each secret value becomes a marker. */
module Redaction {
  import opened Common
  import opened Tables
  import opened ExprValues
  import opened ExprEval

  const REDACTED := "[secret]"

  // Splitting and joining, as the host's strings do.

  function Split(text: string, separator: string): (parts: seq<string>)
    ensures separator != "" ==> |parts| > 0
    decreases |text|
  {
    if separator == "" then seq(|text|, i requires 0 <= i < |text| => [text[i]])
    else if text == "" then [""]
    else if separator <= text then [""] + Split(text[|separator|..], separator)
    else
      var rest := Split(text[1..], separator);
      [[text[0]] + rest[0]] + rest[1..]
  }

  function Glue(parts: seq<string>, separator: string): string {
    if parts == [] then ""
    else if |parts| == 1 then parts[0]
    else parts[0] + (separator + Glue(parts[1..], separator))
  }

  function Replaced(text: string, value: string): string {
    Glue(Split(text, value), REDACTED)
  }

  /** Longest first; values of equal length keep their order. */
  function Ordered(values: seq<string>): (r: seq<string>)
    ensures |r| == |values|
  {
    if values == [] then [] else Inserted(values[0], Ordered(values[1..]))
  }

  function Inserted(value: string, sorted: seq<string>): (r: seq<string>)
    ensures |r| == |sorted| + 1
  {
    if sorted != [] && |sorted[0]| > |value| then [sorted[0]] + Inserted(value, sorted[1..]) else [value] + sorted
  }

  function RedactedBy(text: string, sorted: seq<string>): string
    decreases |sorted|
  {
    if sorted == [] then text else RedactedBy(Replaced(text, sorted[0]), sorted[1..])
  }

  function Redacted(text: string, values: seq<string>): string {
    RedactedBy(text, Ordered(values))
  }

  method RedactText(text: string, values: seq<string>) returns (out: string)
    ensures out == Redacted(text, values)
  {
    hide Replaced;
    var sorted := Ordered(values);
    out := text;
    for i := 0 to |sorted|
      invariant RedactedBy(out, sorted[i..]) == RedactedBy(text, sorted)
    {
      assert sorted[i..][1..] == sorted[i + 1..];
      out := Replaced(out, sorted[i]);
    }
    assert sorted[|sorted|..] == [];
  }

  // Replacing, seen from the left.

  lemma SplitUnfolds(text: string, value: string)
    requires value != "" && text != ""
    ensures value <= text ==> Replaced(text, value) == REDACTED + Replaced(text[|value|..], value)
    ensures !(value <= text) ==> Replaced(text, value) == [text[0]] + Replaced(text[1..], value)
  {
    if value <= text {
      var rest := Split(text[|value|..], value);
      assert ([""] + rest)[1..] == rest;
      assert "" + (REDACTED + Glue(rest, REDACTED)) == REDACTED + Glue(rest, REDACTED);
    } else {
      var rest := Split(text[1..], value);
      var parts := [[text[0]] + rest[0]] + rest[1..];
      assert parts[1..] == rest[1..];
      if |rest| > 1 {
        var tail := REDACTED + Glue(rest[1..], REDACTED);
        assert ([text[0]] + rest[0]) + tail == [text[0]] + (rest[0] + tail);
      }
    }
  }

  /** It holds no marker and does not end the way a marker begins. */
  predicate EndsClear(s: string) {
    && !Includes(s, REDACTED)
    && forall n :: 1 <= n <= |s| && n <= |REDACTED| ==> s[|s| - n..] != REDACTED[..n]
  }

  /** It does not begin the way a marker ends. */
  predicate StartsClear(s: string) {
    forall n :: 1 <= n <= |s| && n <= |REDACTED| ==> s[..n] != REDACTED[|REDACTED| - n..]
  }

  /** It cannot straddle a marker: what a caller can check of each value before handing it over. */
  predicate OverlapFree(s: string) {
    EndsClear(s) && StartsClear(s)
  }

  /** A text that can neither straddle a marker nor be found inside one. */
  predicate Apart(s: string) {
    s != "" && OverlapFree(s) && !Includes(REDACTED, s)
  }

  lemma {:induction false} EveryCharacter(text: string, part: string, c: char)
    requires Includes(text, part) && c in part
    ensures c in text
    decreases |text|
  {
    if part <= text {
      var k :| 0 <= k < |part| && part[k] == c;
      assert text[k] == c;
    } else {
      EveryCharacter(text[1..], part, c);
    }
  }

  /** In particular a value without brackets is free of overlaps. */
  lemma UnbracketedIsFree(s: string)
    requires '[' !in s && ']' !in s
    ensures OverlapFree(s)
  {
    assert REDACTED[0] == '[' && REDACTED[|REDACTED| - 1] == ']';
    if Includes(s, REDACTED) {
      EveryCharacter(s, REDACTED, '[');
    }
    forall n | 1 <= n <= |s| && n <= |REDACTED|
      ensures s[|s| - n..] != REDACTED[..n] && s[..n] != REDACTED[|REDACTED| - n..]
    {
      assert s[|s| - n..][0] == s[|s| - n] && REDACTED[..n][0] == '[';
      assert s[..n][n - 1] == s[n - 1] && REDACTED[|REDACTED| - n..][n - 1] == ']';
    }
  }

  predicate Clean(values: seq<string>) {
    forall k :: 0 <= k < |values| ==> Apart(values[k])
  }

  lemma EndsClearTail(s: string)
    requires s != "" && EndsClear(s)
    ensures EndsClear(s[1..])
  {
    forall n | 1 <= n <= |s[1..]| && n <= |REDACTED| ensures s[1..][|s[1..]| - n..] != REDACTED[..n] {
      assert s[1..][|s[1..]| - n..] == s[|s| - n..];
    }
  }

  lemma {:induction false} PrefixWasThere(text: string, value: string, s: string)
    requires value != "" && EndsClear(s) && s <= Replaced(text, value)
    ensures s <= text
    decreases |s|
  {
    hide Replaced, EndsClear;
    if s != "" {
      if text == "" {
        NothingReplaced(value);
      } else {
        SplitUnfolds(text, value);
        if value <= text {
          NotAPrefix(Replaced(text[|value|..], value), s);
        } else {
          var rest := Replaced(text[1..], value);
          assert s[0] == ([text[0]] + rest)[0];
          assert s[1..] == ([text[0]] + rest)[1..][..|s| - 1] == rest[..|s| - 1];
          EndsClearTail(s);
          PrefixWasThere(text[1..], value, s[1..]);
          assert s == [text[0]] + s[1..] && text == [text[0]] + text[1..];
        }
      }
    }
  }

  lemma PrefixOfPrefix(front: string, rest: string, s: string)
    requires s <= front + rest
    ensures |s| >= |front| ==> front <= s
    ensures |s| < |front| ==> s[|s| - |s|..] == front[..|s|]
  {
    if |s| >= |front| {
      assert front == (front + rest)[..|front|] == s[..|front|];
    } else {
      assert s[|s| - |s|..] == s == (front + rest)[..|s|] == front[..|s|];
    }
  }

  lemma NotAPrefix(rest: string, s: string)
    requires s != "" && EndsClear(s)
    ensures !(s <= REDACTED + rest)
  {
    if s <= REDACTED + rest {
      PrefixOfPrefix(REDACTED, rest, s);
    }
  }

  lemma NothingReplaced(value: string)
    requires value != ""
    ensures Replaced("", value) == ""
  {
  }

  lemma StartIs(front: string, rest: string, s: string)
    requires s <= front + rest && |s| > |front|
    ensures s[..|front|] == front
  {
    assert s[..|front|] == (front + rest)[..|front|] == front;
  }

  /** Found in `front + rest`, where `front` ends a marker, it is in one of the two. */
  lemma {:induction false} OneSide(front: string, rest: string, s: string)
    requires 1 <= |front| <= |REDACTED| && front == REDACTED[|REDACTED| - |front|..]
    requires StartsClear(s) && Includes(front + rest, s)
    ensures Includes(front, s) || Includes(rest, s)
    decreases |front|
  {
    if s <= front + rest {
      if |s| <= |front| {
        assert s == (front + rest)[..|s|] == front[..|s|];
      } else {
        StartIs(front, rest, s);
      }
    } else {
      assert (front + rest)[1..] == front[1..] + rest;
      if |front| == 1 {
        assert front[1..] + rest == rest;
      } else {
        assert front[1..] == REDACTED[|REDACTED| - |front[1..]|..];
        OneSide(front[1..], rest, s);
      }
    }
  }

  lemma PastMarker(rest: string, s: string)
    requires Apart(s) && Includes(REDACTED + rest, s)
    ensures Includes(rest, s)
  {
    hide Includes, EndsClear, StartsClear;
    assert REDACTED == REDACTED[0..];
    OneSide(REDACTED, rest, s);
  }

  lemma {:induction false} IncludesLater(text: string, k: nat, s: string)
    requires k <= |text| && Includes(text[k..], s)
    ensures Includes(text, s)
    decreases k
  {
    if k == 0 {
      assert text[0..] == text;
    } else {
      assert text[1..][k - 1..] == text[k..];
      IncludesLater(text[1..], k - 1, s);
    }
  }

  /** Replacing one value never makes another one appear. */
  lemma {:induction false} NothingAppears(text: string, value: string, s: string)
    requires value != "" && Apart(s) && Includes(Replaced(text, value), s)
    ensures Includes(text, s)
    decreases |text|
  {
    hide Replaced, Apart;
    ApartIs(s);
    if text == "" {
      NothingReplaced(value);
    } else {
      SplitUnfolds(text, value);
      if value <= text {
        PastMarker(Replaced(text[|value|..], value), s);
        NothingAppears(text[|value|..], value, s);
        IncludesLater(text, |value|, s);
      } else {
        var rest := Replaced(text[1..], value);
        if s <= Replaced(text, value) {
          PrefixWasThere(text, value, s);
        } else {
          assert ([text[0]] + rest)[1..] == rest;
          NothingAppears(text[1..], value, s);
        }
      }
    }
  }

  lemma ApartIs(s: string)
    requires Apart(s)
    ensures s != "" && EndsClear(s) && StartsClear(s) && !Includes(REDACTED, s)
  {
  }

  /** The value that was replaced is gone. */
  lemma {:induction false} ReplacedIsGone(text: string, value: string)
    requires Apart(value)
    ensures !Includes(Replaced(text, value), value)
    decreases |text|
  {
    hide Replaced, Apart;
    ApartIs(value);
    if text == "" {
      NothingReplaced(value);
    } else {
      SplitUnfolds(text, value);
      if value <= text {
        var rest := Replaced(text[|value|..], value);
        ReplacedIsGone(text[|value|..], value);
        if Includes(REDACTED + rest, value) {
          PastMarker(rest, value);
        }
      } else {
        var rest := Replaced(text[1..], value);
        ReplacedIsGone(text[1..], value);
        if value <= Replaced(text, value) {
          PrefixWasThere(text, value, value);
        }
        assert ([text[0]] + rest)[1..] == rest;
      }
    }
  }

  lemma {:induction false} StaysGone(text: string, sorted: seq<string>, s: string)
    requires Clean(sorted) && Apart(s) && !Includes(text, s)
    ensures !Includes(RedactedBy(text, sorted), s)
    decreases |sorted|
  {
    hide Replaced, Includes, Apart;
    if sorted != [] {
      ApartIs(sorted[0]);
      if Includes(Replaced(text, sorted[0]), s) {
        NothingAppears(text, sorted[0], s);
      }
      assert Clean(sorted[1..]);
      StaysGone(Replaced(text, sorted[0]), sorted[1..], s);
    }
  }

  lemma {:induction false} AllGone(text: string, sorted: seq<string>, k: nat)
    requires Clean(sorted) && k < |sorted|
    ensures !Includes(RedactedBy(text, sorted), sorted[k])
    decreases |sorted|
  {
    hide Replaced, Includes, Apart;
    assert Clean(sorted[1..]);
    if k == 0 {
      ReplacedIsGone(text, sorted[0]);
      StaysGone(Replaced(text, sorted[0]), sorted[1..], sorted[0]);
    } else {
      AllGone(Replaced(text, sorted[0]), sorted[1..], k - 1);
    }
  }

  // The order.

  predicate NoLonger(values: seq<string>, length: nat) {
    forall k :: 0 <= k < |values| ==> |values[k]| <= length
  }

  predicate Descending(values: seq<string>) {
    values == [] || (NoLonger(values[1..], |values[0]|) && Descending(values[1..]))
  }

  lemma {:induction false} InsertedItems(value: string, sorted: seq<string>)
    ensures multiset(Inserted(value, sorted)) == multiset(sorted) + multiset{value}
  {
    if sorted != [] && |sorted[0]| > |value| {
      InsertedItems(value, sorted[1..]);
      assert sorted == [sorted[0]] + sorted[1..];
    }
  }

  lemma {:induction false} InsertedNoLonger(value: string, sorted: seq<string>, length: nat)
    requires NoLonger(sorted, length) && |value| <= length
    ensures NoLonger(Inserted(value, sorted), length)
  {
    if sorted != [] && |sorted[0]| > |value| {
      InsertedNoLonger(value, sorted[1..], length);
    }
  }

  lemma {:induction false} InsertedDescends(value: string, sorted: seq<string>)
    requires Descending(sorted)
    ensures Descending(Inserted(value, sorted))
  {
    if sorted != [] && |sorted[0]| > |value| {
      InsertedDescends(value, sorted[1..]);
      InsertedNoLonger(value, sorted[1..], |sorted[0]|);
      assert ([sorted[0]] + Inserted(value, sorted[1..]))[1..] == Inserted(value, sorted[1..]);
    } else {
      assert ([value] + sorted)[1..] == sorted;
    }
  }

  lemma {:induction false} OrderedIs(values: seq<string>)
    ensures multiset(Ordered(values)) == multiset(values) && Descending(Ordered(values))
  {
    if values != [] {
      OrderedIs(values[1..]);
      InsertedItems(values[0], Ordered(values[1..]));
      InsertedDescends(values[0], Ordered(values[1..]));
      assert values == [values[0]] + values[1..];
    }
  }

  lemma OrderedKeeps(values: seq<string>, value: string)
    requires value in values
    ensures value in Ordered(values)
    ensures Clean(values) ==> Clean(Ordered(values))
  {
    OrderedIs(values);
    assert value in multiset(values);
    if Clean(values) {
      var sorted := Ordered(values);
      forall k | 0 <= k < |sorted| ensures Apart(sorted[k]) {
        assert sorted[k] in multiset(sorted);
        assert sorted[k] in values;
      }
    }
  }

  /** Whatever the values overlap or contain of one another, none is left in the text. */
  lemma NoSecretLeft(text: string, values: seq<string>, value: string)
    requires Clean(values) && value in values
    ensures !Includes(Redacted(text, values), value)
  {
    hide Includes, RedactedBy, Ordered;
    OrderedKeeps(values, value);
    var sorted := Ordered(values);
    var k :| 0 <= k < |sorted| && sorted[k] == value;
    AllGone(text, sorted, k);
  }

  // Parts of the marker.

  /** Where a value was found, a marker stands afterwards. */
  lemma {:induction false} MarkerAppears(text: string, value: string)
    requires value != "" && Includes(text, value)
    ensures Includes(Replaced(text, value), REDACTED)
    decreases |text|
  {
    hide Replaced;
    if text == "" {
      assert false;
    } else {
      SplitUnfolds(text, value);
      if value <= text {
        assert REDACTED <= REDACTED + Replaced(text[|value|..], value);
      } else {
        MarkerAppears(text[1..], value);
        IncludesLater(Replaced(text, value), 1, REDACTED);
      }
    }
  }

  /** Once there is a marker in the text, there always is one. */
  lemma {:induction false} MarkerRemains(text: string, sorted: seq<string>)
    requires Includes(text, REDACTED) && forall k :: 0 <= k < |sorted| ==> sorted[k] != ""
    ensures Includes(RedactedBy(text, sorted), REDACTED)
    decreases |sorted|
  {
    hide Replaced, Includes;
    if sorted != [] {
      if Includes(text, sorted[0]) {
        MarkerAppears(text, sorted[0]);
      } else {
        NotIncludedIsKept(text, sorted[0]);
      }
      MarkerRemains(Replaced(text, sorted[0]), sorted[1..]);
    }
  }

  lemma {:induction false} ValueLeavesMarker(value: string, sorted: seq<string>)
    requires value in sorted && forall k :: 0 <= k < |sorted| ==> sorted[k] != ""
    ensures Includes(RedactedBy(value, sorted), REDACTED)
    decreases |sorted|
  {
    hide Replaced, Includes;
    if Includes(value, sorted[0]) {
      MarkerAppears(value, sorted[0]);
      MarkerRemains(Replaced(value, sorted[0]), sorted[1..]);
    } else {
      NotIncludedIsKept(value, sorted[0]);
      WholeIsIncluded(value);
      var k :| 0 <= k < |sorted| && sorted[k] == value;
      assert sorted[1..][k - 1] == value;
      ValueLeavesMarker(value, sorted[1..]);
    }
  }

  lemma WholeIsIncluded(s: string)
    ensures Includes(s, s)
  {
  }

  lemma {:induction false} IncludesChain(text: string, middle: string, part: string)
    requires Includes(text, middle) && Includes(middle, part)
    ensures Includes(text, part)
    decreases |text|
  {
    if middle <= text {
      IncludesExtended(middle, text[|middle|..], part);
      assert middle + text[|middle|..] == text;
    } else {
      IncludesChain(text[1..], middle, part);
    }
  }

  lemma {:induction false} IncludesExtended(s: string, more: string, part: string)
    requires Includes(s, part)
    ensures Includes(s + more, part)
    decreases |s|
  {
    if part <= s {
      assert part <= s + more;
    } else {
      IncludesExtended(s[1..], more, part);
      assert (s + more)[1..] == s[1..] + more;
    }
  }

  /** A value that is part of the marker is put back by the redaction of its own text. */
  lemma MarkerPartsSurvive(values: seq<string>, value: string)
    requires value in values && (forall k :: 0 <= k < |values| ==> values[k] != "") && Includes(REDACTED, value)
    ensures Includes(Redacted(value, values), value)
  {
    hide Includes, RedactedBy, Ordered;
    var sorted := Ordered(values);
    OrderedIs(values);
    assert value in multiset(values);
    forall k | 0 <= k < |sorted| ensures sorted[k] != "" {
      assert sorted[k] in multiset(sorted);
      assert sorted[k] in values;
    }
    ValueLeavesMarker(value, sorted);
    IncludesChain(Redacted(value, values), REDACTED, value);
  }

  /** Values that cannot straddle a marker are kept out of every text if and only if none is part of the marker. */
  lemma RedactionHoldsIff(values: seq<string>)
    requires forall k :: 0 <= k < |values| ==> values[k] != "" && OverlapFree(values[k])
    ensures (forall text: string, value: string :: value in values ==> !Includes(Redacted(text, values), value))
        <==> (forall value :: value in values ==> !Includes(REDACTED, value))
  {
    hide Includes, Redacted, OverlapFree;
    if forall value :: value in values ==> !Includes(REDACTED, value) {
      assert Clean(values);
      forall text: string, value: string | value in values ensures !Includes(Redacted(text, values), value) {
        NoSecretLeft(text, values, value);
      }
    } else {
      var value :| value in values && Includes(REDACTED, value);
      MarkerPartsSurvive(values, value);
    }
  }

  /** A value that can straddle a marker may be left, put together by the masking of another. */
  lemma StraddlingValueLeft()
    ensures Includes(Redacted("ax", ["a[", "x"]), "a[")
  {
    hide Replaced;
    var sorted := Ordered(["a[", "x"]);
    assert ["a[", "x"][1..] == ["x"] && ["x"][1..] == [];
    assert sorted == ["a[", "x"];
    assert "ax"[1] != "a["[1];
    TooLong("ax", "a[");
    NotIncludedIsKept("ax", "a[");
    SplitUnfolds("ax", "x");
    SplitUnfolds("x", "x");
    NothingReplaced("x");
    assert "ax"[1..] == "x" && "x"[1..] == "";
    assert Replaced("ax", "x") == "a" + (REDACTED + "") == "a[" + "secret]";
    assert RedactedBy("ax", sorted) == RedactedBy(Replaced("ax", "x"), []);
  }

  // Longest first: a secret never shows its tail because a shorter one was masked in it.

  lemma {:induction false} NotIncludedIsKept(text: string, value: string)
    requires value != "" && !Includes(text, value)
    ensures Replaced(text, value) == text
    decreases |text|
  {
    hide Replaced;
    if text == "" {
      NothingReplaced(value);
    } else {
      SplitUnfolds(text, value);
      NotIncludedIsKept(text[1..], value);
      assert text == [text[0]] + text[1..];
    }
  }

  lemma {:induction false} TooLong(text: string, value: string)
    requires |value| > |text| || (|value| == |text| && value != text)
    ensures !Includes(text, value)
    decreases |text|
  {
    if text != "" {
      TooLong(text[1..], value);
    }
  }

  lemma {:induction false} MarkerStays(sorted: seq<string>)
    requires Clean(sorted)
    ensures RedactedBy(REDACTED, sorted) == REDACTED
    decreases |sorted|
  {
    hide Replaced;
    if sorted != [] {
      NotIncludedIsKept(REDACTED, sorted[0]);
      assert Clean(sorted[1..]);
      MarkerStays(sorted[1..]);
    }
  }

  lemma {:induction false} WholeInOrder(value: string, sorted: seq<string>)
    requires Clean(sorted) && Descending(sorted) && value in sorted
    ensures RedactedBy(value, sorted) == REDACTED
    decreases |sorted|
  {
    hide Replaced;
    assert Clean(sorted[1..]) && Descending(sorted[1..]);
    if sorted[0] == value {
      SplitUnfolds(value, value);
      assert value[|value|..] == "";
      NothingReplaced(value);
      assert REDACTED + "" == REDACTED;
      MarkerStays(sorted[1..]);
    } else {
      var k :| 0 <= k < |sorted| && sorted[k] == value;
      assert sorted[1..][k - 1] == value;
      TooLong(value, sorted[0]);
      NotIncludedIsKept(value, sorted[0]);
      WholeInOrder(value, sorted[1..]);
    }
  }

  /** A secret alone is masked whole, even when another one is its beginning. */
  lemma SecretIsMaskedWhole(value: string, values: seq<string>)
    requires Clean(values) && value in values
    ensures Redacted(value, values) == REDACTED
  {
    hide RedactedBy, Ordered;
    OrderedKeeps(values, value);
    OrderedIs(values);
    WholeInOrder(value, Ordered(values));
  }

  // Any value, event data included: every text in it is redacted, keys are left alone.

  function RedactedValue(v: Value, values: seq<string>): Value
    decreases v, 1
  {
    match v
    case Str(s) => Str(Redacted(s, values))
    case List(items) => List(RedactedItems(items, values))
    case Obj(entries) => Obj(RedactedEntries(entries, values))
    case _ => v
  }

  function RedactedItems(items: seq<Value>, values: seq<string>): seq<Value>
    decreases items, 2
  {
    if items == [] then [] else [RedactedValue(items[0], values)] + RedactedItems(items[1..], values)
  }

  function RedactedEntries(entries: Table<Value>, values: seq<string>): Table<Value>
    decreases entries, 2
  {
    if entries == [] then []
    else [(entries[0].0, RedactedValue(EntryValue(entries[0]), values))] + RedactedEntries(entries[1..], values)
  }

  /** No text inside the value contains the secret. */
  predicate Silent(v: Value, secret: string)
    decreases v, 1
  {
    match v
    case Str(s) => !Includes(s, secret)
    case List(items) => SilentItems(items, secret)
    case Obj(entries) => SilentEntries(entries, secret)
    case _ => true
  }

  predicate SilentItems(items: seq<Value>, secret: string)
    decreases items, 2
  {
    items == [] || (Silent(items[0], secret) && SilentItems(items[1..], secret))
  }

  predicate SilentEntries(entries: Table<Value>, secret: string)
    decreases entries, 2
  {
    entries == [] || (Silent(EntryValue(entries[0]), secret) && SilentEntries(entries[1..], secret))
  }

  lemma {:induction false} ValueIsSilent(v: Value, values: seq<string>, secret: string)
    requires Clean(values) && secret in values
    ensures Silent(RedactedValue(v, values), secret)
    decreases v, 1
  {
    hide Redacted, Includes;
    match v
    case Str(s) => NoSecretLeft(s, values, secret);
    case List(items) => ItemsAreSilent(items, values, secret);
    case Obj(entries) => EntriesAreSilent(entries, values, secret);
    case _ =>
  }

  lemma {:induction false} ItemsAreSilent(items: seq<Value>, values: seq<string>, secret: string)
    requires Clean(values) && secret in values
    ensures SilentItems(RedactedItems(items, values), secret)
    decreases items, 2
  {
    if items != [] {
      ValueIsSilent(items[0], values, secret);
      ItemsAreSilent(items[1..], values, secret);
    }
  }

  lemma {:induction false} EntriesAreSilent(entries: Table<Value>, values: seq<string>, secret: string)
    requires Clean(values) && secret in values
    ensures SilentEntries(RedactedEntries(entries, values), secret)
    decreases entries, 2
  {
    if entries != [] {
      ValueIsSilent(EntryValue(entries[0]), values, secret);
      EntriesAreSilent(entries[1..], values, secret);
    }
  }

  /** The same value but for its texts, each of which is redacted: keys, order, numbers, booleans and null stay. */
  ghost predicate Masks(v: Value, r: Value, values: seq<string>)
    decreases v
  {
    match v
    case Str(s) => r == Str(Redacted(s, values))
    case List(items) =>
      r.List? && |r.items| == |items| && forall k :: 0 <= k < |items| ==> Masks(items[k], r.items[k], values)
    case Obj(entries) =>
      && r.Obj? && |r.entries| == |entries|
      && forall k :: 0 <= k < |entries| ==>
           r.entries[k].0 == entries[k].0 && Masks(EntryValue(entries[k]), r.entries[k].1, values)
    case _ => r == v
  }

  lemma {:induction false} ValueIsMasked(v: Value, values: seq<string>)
    ensures Masks(v, RedactedValue(v, values), values)
    decreases v, 1
  {
    hide Redacted;
    match v
    case List(items) => ItemsAreMasked(items, values);
    case Obj(entries) => EntriesAreMasked(entries, values);
    case _ =>
  }

  lemma {:induction false} ItemsAreMasked(items: seq<Value>, values: seq<string>)
    ensures var r := RedactedItems(items, values);
      |r| == |items| && forall k :: 0 <= k < |items| ==> Masks(items[k], r[k], values)
    decreases items, 2
  {
    hide Masks;
    if items != [] {
      ValueIsMasked(items[0], values);
      ItemsAreMasked(items[1..], values);
    }
  }

  lemma {:induction false} EntriesAreMasked(entries: Table<Value>, values: seq<string>)
    ensures var r := RedactedEntries(entries, values);
      && |r| == |entries|
      && forall k :: 0 <= k < |entries| ==>
           r[k].0 == entries[k].0 && Masks(EntryValue(entries[k]), r[k].1, values)
    decreases entries, 2
  {
    hide Masks;
    if entries != [] {
      ValueIsMasked(EntryValue(entries[0]), values);
      EntriesAreMasked(entries[1..], values);
    }
  }

  lemma {:induction false} UnmentionedInOrder(text: string, sorted: seq<string>)
    requires forall k :: 0 <= k < |sorted| ==> !Includes(text, sorted[k])
    ensures RedactedBy(text, sorted) == text
    decreases |sorted|
  {
    hide Replaced, Includes;
    if sorted != [] {
      NothingIsIncluded(text);
      NotIncludedIsKept(text, sorted[0]);
      assert forall k :: 0 <= k < |sorted[1..]| ==> sorted[1..][k] == sorted[k + 1];
      UnmentionedInOrder(text, sorted[1..]);
    }
  }

  lemma NothingIsIncluded(text: string)
    ensures Includes(text, "")
  {
  }

  /** A text without any of the values is left as it is. */
  lemma UnmentionedIsKept(text: string, values: seq<string>)
    requires forall secret :: secret in values ==> !Includes(text, secret)
    ensures Redacted(text, values) == text
  {
    hide RedactedBy, Ordered, Includes;
    OrderedIs(values);
    forall k | 0 <= k < |Ordered(values)| ensures !Includes(text, Ordered(values)[k]) {
      assert Ordered(values)[k] in multiset(Ordered(values));
    }
    UnmentionedInOrder(text, Ordered(values));
  }
}
