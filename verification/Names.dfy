/** Names made out of free text, and kept apart. */
module Names {
  import opened Common
  import Numerals

  /** Python's `str.lower`, whose tables are the host's. */
  type Lowering = string -> string

  predicate IsWordChar(c: char) {
    'a' <= c <= 'z' || Numerals.IsDigit(c) || c == '_'
  }

  /** Each run of other characters becomes one underscore. */
  function Sanitized(s: string, inRun: bool): string {
    if s == "" then ""
    else if IsWordChar(s[0]) then [s[0]] + Sanitized(s[1..], false)
    else if inRun then Sanitized(s[1..], true)
    else "_" + Sanitized(s[1..], true)
  }

  function Stripped(s: string): string {
    StrippedEnd(StrippedStart(s))
  }

  function StrippedStart(s: string): string {
    if s != "" && s[0] == '_' then StrippedStart(s[1..]) else s
  }

  function StrippedEnd(s: string): string {
    if s != "" && s[|s| - 1] == '_' then StrippedEnd(s[..|s| - 1]) else s
  }

  function Ident(raw: Option<string>, fallback: string, lower: Lowering): string {
    var base := Stripped(Sanitized(lower(if raw.Some? then raw.value else ""), false));
    if base == "" then fallback else base
  }

  predicate AllWord(s: string) {
    forall i :: 0 <= i < |s| ==> IsWordChar(s[i])
  }

  lemma {:induction false} SanitizedIsWord(s: string, inRun: bool)
    ensures AllWord(Sanitized(s, inRun))
  {
    if s != "" {
      SanitizedIsWord(s[1..], false);
      SanitizedIsWord(s[1..], true);
    }
  }

  lemma {:induction false} StrippedStartIs(s: string)
    requires AllWord(s)
    ensures AllWord(StrippedStart(s)) && (StrippedStart(s) != "" ==> StrippedStart(s)[0] != '_')
  {
    if s != "" && s[0] == '_' {
      StrippedStartIs(s[1..]);
    }
  }

  lemma {:induction false} StrippedEndIs(s: string)
    requires AllWord(s) && (s != "" ==> s[0] != '_')
    ensures AllWord(StrippedEnd(s)) && (StrippedEnd(s) != "" ==> StrippedEnd(s)[0] != '_')
    ensures StrippedEnd(s) != "" ==> StrippedEnd(s)[|StrippedEnd(s)| - 1] != '_'
    decreases |s|
  {
    if s != "" && s[|s| - 1] == '_' {
      StrippedEndIs(s[..|s| - 1]);
    }
  }

  /** A name is never empty, holds word characters only, and has no underscore at either end. */
  lemma IdentIsTidy(raw: Option<string>, fallback: string, lower: Lowering)
    requires fallback != "" && AllWord(fallback) && fallback[0] != '_' && fallback[|fallback| - 1] != '_'
    ensures var name := Ident(raw, fallback, lower);
      name != "" && AllWord(name) && name[0] != '_' && name[|name| - 1] != '_'
  {
    var s := Sanitized(lower(if raw.Some? then raw.value else ""), false);
    SanitizedIsWord(lower(if raw.Some? then raw.value else ""), false);
    StrippedStartIs(s);
    StrippedEndIs(StrippedStart(s));
  }

  /** The letters and digits of a text, in order. */
  function Kept(s: string): string {
    if s == "" then ""
    else (if IsWordChar(s[0]) && s[0] != '_' then [s[0]] else "") + Kept(s[1..])
  }

  lemma {:induction false} KeptJoins(a: string, b: string)
    ensures Kept(a + b) == Kept(a) + Kept(b)
  {
    if a == "" {
      assert a + b == b;
    } else {
      assert (a + b)[1..] == a[1..] + b;
      KeptJoins(a[1..], b);
    }
  }

  lemma {:induction false} SanitizedKeeps(s: string, inRun: bool)
    ensures Kept(Sanitized(s, inRun)) == Kept(s)
  {
    if s != "" {
      SanitizedKeeps(s[1..], false);
      SanitizedKeeps(s[1..], true);
      if IsWordChar(s[0]) {
        KeptJoins([s[0]], Sanitized(s[1..], false));
        assert Kept([s[0]]) == if s[0] != '_' then [s[0]] else "";
      } else {
        KeptJoins("_", Sanitized(s[1..], true));
        assert Kept("_") == "";
      }
    }
  }

  lemma {:induction false} StrippedStartKeeps(s: string)
    ensures Kept(StrippedStart(s)) == Kept(s)
  {
    if s != "" && s[0] == '_' {
      StrippedStartKeeps(s[1..]);
    }
  }

  lemma {:induction false} StrippedEndKeeps(s: string)
    ensures Kept(StrippedEnd(s)) == Kept(s)
    decreases |s|
  {
    if s != "" && s[|s| - 1] == '_' {
      StrippedEndKeeps(s[..|s| - 1]);
      KeptJoins(s[..|s| - 1], "_");
      assert s == s[..|s| - 1] + "_";
      assert Kept("_") == "";
    }
  }

  /** The letters and digits of the text, lowered, are those of its name, in order; without any it gets the fallback. */
  lemma IdentKeepsLetters(raw: Option<string>, fallback: string, lower: Lowering)
    ensures var text := lower(if raw.Some? then raw.value else "");
      var name := Ident(raw, fallback, lower);
      if Kept(text) == "" then name == fallback else Kept(name) == Kept(text)
  {
    var text := lower(if raw.Some? then raw.value else "");
    var s := Sanitized(text, false);
    SanitizedKeeps(text, false);
    SanitizedIsWord(text, false);
    StrippedStartKeeps(s);
    StrippedEndKeeps(StrippedStart(s));
    StrippedStartIs(s);
    StrippedEndIs(StrippedStart(s));
    var base := Stripped(s);
    assert base != "" ==> Kept(base) != "";
  }

  lemma {:induction false} SanitizedStays(s: string)
    requires AllWord(s)
    ensures Sanitized(s, false) == s
  {
    if s != "" {
      SanitizedStays(s[1..]);
      assert s == [s[0]] + s[1..];
    }
  }

  /** A text that is a tidy name already is its own name. */
  lemma TidyStays(raw: string, fallback: string, lower: Lowering)
    requires raw != "" && AllWord(raw) && raw[0] != '_' && raw[|raw| - 1] != '_' && lower(raw) == raw
    ensures Ident(Some(raw), fallback, lower) == raw
  {
    SanitizedStays(raw);
  }

  // Uniqueness.

  /** The names tried in turn: the base, then `base_2`, `base_3`, and so on. */
  function Candidate(base: string, k: nat): string {
    if k < 2 then base else base + "_" + Numerals.Decimal(k)
  }

  lemma CandidatesDiffer(base: string, i: nat, j: nat)
    requires 1 <= i < j
    ensures Candidate(base, i) != Candidate(base, j)
  {
    if i >= 2 {
      if Candidate(base, i) == Candidate(base, j) {
        assert Candidate(base, i)[|base| + 1..] == Numerals.Decimal(i);
        assert Candidate(base, j)[|base| + 1..] == Numerals.Decimal(j);
        Numerals.DecimalInjective(i, j);
      }
    }
  }

  function Tried(base: string, k: nat): set<string> {
    set i | 1 <= i < k :: Candidate(base, i)
  }

  lemma TriedNext(base: string, k: nat)
    requires 1 <= k
    ensures Tried(base, k + 1) == Tried(base, k) + {Candidate(base, k)}
  {
    hide Candidate;
    forall n | n in Tried(base, k + 1) ensures n in Tried(base, k) + {Candidate(base, k)} {
      var i :| 1 <= i < k + 1 && Candidate(base, i) == n;
    }
  }

  lemma NotTriedYet(base: string, k: nat)
    requires 1 <= k
    ensures Candidate(base, k) !in Tried(base, k)
  {
    hide Candidate;
    if Candidate(base, k) in Tried(base, k) {
      var i :| 1 <= i < k && Candidate(base, i) == Candidate(base, k);
      CandidatesDiffer(base, i, k);
    }
  }

  lemma OneFewer(taken: set<string>, tried: set<string>, name: string)
    requires name in taken && name !in tried
    ensures |taken - (tried + {name})| < |taken - tried|
  {
    assert taken - tried == (taken - (tried + {name})) + {name};
  }

  /** Each name refused is one of `taken` that was not tried before, so the search ends. */
  lemma TriedGrows(base: string, taken: set<string>, k: nat)
    requires 1 <= k && Candidate(base, k) in taken
    ensures |taken - Tried(base, k + 1)| < |taken - Tried(base, k)|
  {
    hide Candidate, Tried;
    TriedNext(base, k);
    NotTriedYet(base, k);
    OneFewer(taken, Tried(base, k), Candidate(base, k));
  }

  /** Which candidate is free, looking from the `k`-th on. */
  function FreeFrom(base: string, taken: set<string>, k: nat): (n: nat)
    requires 1 <= k
    ensures k <= n && Candidate(base, n) !in taken
    ensures forall i :: k <= i < n ==> Candidate(base, i) in taken
    decreases |taken - Tried(base, k)|
  {
    if Candidate(base, k) !in taken then k
    else
      TriedGrows(base, taken, k);
      FreeFrom(base, taken, k + 1)
  }

  function UniqueName(base: string, taken: set<string>): string {
    Candidate(base, FreeFrom(base, taken, 1))
  }

  /** Terminates on any finite set, with the first candidate that is free. */
  method Unique(base: string, taken: set<string>) returns (name: string)
    ensures name !in taken && name == UniqueName(base, taken)
    ensures base !in taken ==> name == base
  {
    var counter := 2;
    name := base;
    while name in taken
      invariant counter >= 2 && name == Candidate(base, counter - 1)
      invariant FreeFrom(base, taken, counter - 1) == FreeFrom(base, taken, 1)
      invariant counter > 2 ==> base in taken
      decreases |taken - Tried(base, counter - 1)|
    {
      TriedGrows(base, taken, counter - 1);
      name := base + "_" + Numerals.Decimal(counter);
      counter := counter + 1;
    }
  }
}
