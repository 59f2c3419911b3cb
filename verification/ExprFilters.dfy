/** The `trim` filter as it runs: two cursors closing in on what is left. */
module ExprFilters {
  import opened ExprEval

  method TrimChars(text: string, chars: string) returns (out: string)
    ensures out == StripEnd(StripStart(text, chars), chars)
  {
    hide StripStart, StripEnd;
    var start, end := 0, |text|;
    assert text[0..] == text;
    while start < end && text[start] in chars
      invariant 0 <= start <= end == |text|
      invariant StripStart(text[start..], chars) == StripStart(text, chars)
    {
      StartUnfolds(text[start..], chars);
      assert text[start..][1..] == text[start + 1..];
      start := start + 1;
    }
    StartUnfolds(text[start..], chars);
    assert text[start..end] == text[start..];
    while end > start && text[end - 1] in chars
      invariant start <= end <= |text|
      invariant StripEnd(text[start..end], chars) == StripEnd(text[start..], chars)
    {
      EndUnfolds(text[start..end], chars);
      assert text[start..end][..end - start - 1] == text[start..end - 1];
      end := end - 1;
    }
    EndUnfolds(text[start..end], chars);
    return text[start..end];
  }

  lemma StartUnfolds(s: string, chars: string)
    ensures StripStart(s, chars) == if s != "" && s[0] in chars then StripStart(s[1..], chars) else s
  {
  }

  lemma EndUnfolds(s: string, chars: string)
    ensures StripEnd(s, chars) == if s != "" && s[|s| - 1] in chars then StripEnd(s[..|s| - 1], chars) else s
  {
  }

  /** What is left has no such character at either end, and only such characters were taken. */
  lemma {:induction false} StripStartIs(s: string, chars: string)
    returns (k: nat)
    ensures k <= |s| && StripStart(s, chars) == s[k..]
    ensures forall i :: 0 <= i < k ==> s[i] in chars
    ensures k < |s| ==> s[k] !in chars
  {
    if s != "" && s[0] in chars {
      k := StripStartIs(s[1..], chars);
      k := k + 1;
      assert s[1..][k - 1..] == s[k..];
    } else {
      k := 0;
    }
  }

  lemma {:induction false} StripEndIs(s: string, chars: string)
    returns (k: nat)
    ensures k <= |s| && StripEnd(s, chars) == s[..k]
    ensures forall i :: k <= i < |s| ==> s[i] in chars
    ensures k > 0 ==> s[k - 1] !in chars
  {
    if s != "" && s[|s| - 1] in chars {
      k := StripEndIs(s[..|s| - 1], chars);
    } else {
      k := |s|;
    }
  }
}
