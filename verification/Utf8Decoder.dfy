/** The WHATWG state machine of the source, proved to decode by maximal subparts. */
module Utf8Decoder {
  import opened BitOperators
  import opened Utf8

  // ---- The chunked output ------------------------------------------------------

  const CHUNK := 4096

  function Concat(parts: seq<Text>): Text {
    if parts == [] then [] else Concat(parts[..|parts| - 1]) + parts[|parts| - 1]
  }

  lemma {:induction false} CodePointsSnoc(cs: seq<CodePoint>, c: CodePoint)
    ensures FromCodePoints(cs + [c]) == FromCodePoints(cs) + Units(c)
  {
    if cs == [] {
      assert (cs + [c])[1..] == [];
    } else {
      assert (cs + [c])[1..] == cs[1..] + [c];
      CodePointsSnoc(cs[1..], c);
    }
  }

  /** The two buffers `emit` writes to. */
  class Output {
    var out: seq<Text>
    var chunk: seq<CodePoint>

    ghost function Contents(): Text
      reads this
    {
      Concat(out) + FromCodePoints(chunk)
    }

    constructor ()
      ensures Contents() == []
    {
      out, chunk := [], [];
    }

    method Flush()
      modifies this
      ensures Contents() == old(Contents()) && chunk == []
    {
      hide Utf8.FromCodePoints;
      out := out + [FromCodePoints(chunk)];
      assert out[..|out| - 1] == old(out);
      chunk := [];
      assert FromCodePoints([]) == [] by { NoCodePoints(); }
    }

    method Emit(value: CodePoint)
      modifies this
      ensures Contents() == old(Contents()) + Units(value)
    {
      CodePointsSnoc(chunk, value);
      chunk := chunk + [value];
      if |chunk| >= CHUNK { Flush(); }
    }
  }

  lemma NoCodePoints()
    ensures FromCodePoints([]) == []
  {
  }

  // ---- What the state stands for -------------------------------------------------

  /** Trailing bytes a lead byte asks for; 0 when it is no lead. */
  function Needed(lead: Byte): nat {
    if 0xC2 <= lead <= 0xDF then 1
    else if 0xE0 <= lead <= 0xEF then 2
    else if 0xF0 <= lead <= 0xF4 then 3
    else 0
  }

  function Lowest(p: Bytes): Byte
    requires p != []
  {
    if |p| == 1 && p[0] == 0xE0 then 0xA0 else if |p| == 1 && p[0] == 0xF0 then 0x90 else 0x80
  }

  function Highest(p: Bytes): Byte
    requires p != []
  {
    if |p| == 1 && p[0] == 0xED then 0x9F else if |p| == 1 && p[0] == 0xF4 then 0x8F else 0xBF
  }

  predicate Continues(p: Bytes, b: Byte)
    requires p != []
  {
    Lowest(p) <= b <= Highest(p)
  }

  /** The pending bytes of a sequence under way. */
  predicate UnderWay(p: Bytes) {
    1 <= |p| <= 3 && |p| <= Needed(p[0])
    && (|p| >= 2 ==> Continues(p[..1], p[1]))
    && (|p| >= 3 ==> Trail(p[2]))
  }

  /** The bits of the pending bytes. */
  function Partial(p: Bytes): nat
    requires UnderWay(p)
  {
    var lead := if Needed(p[0]) == 1 then p[0] % 32 else if Needed(p[0]) == 2 then p[0] % 16 else p[0] % 8;
    if |p| == 1 then lead
    else if |p| == 2 then lead * 64 + Low6(p[1])
    else (lead * 64 + Low6(p[1])) * 64 + Low6(p[2])
  }

  lemma InitialIsUnderWay(p: Bytes)
    requires Initial(p)
    ensures UnderWay(p)
  {
    var w: Bytes :| WellFormed(w) && |p| < |w| && w[..|p|] == p;
    assert p[0] == w[0];
    assert |p| >= 2 ==> p[1] == w[1];
    assert |p| >= 3 ==> p[2] == w[2];
  }

  lemma UnderWayIsInitial(p: Bytes)
    requires UnderWay(p)
    ensures Initial(p)
  {
    var lead := p[0];
    var second := if |p| >= 2 then p[1] else Lowest([lead]);
    var third := if |p| >= 3 then p[2] else 0x80;
    assert |p| >= 2 ==> p[..1] == [lead];
    var w: Bytes := [lead, second, third, 0x80][..Needed(lead) + 1];
    assert WellFormed(w) by {
      assert Continues([lead], second);
    }
    assert w[..|p|] == p;
  }

  /** The next byte either goes on with the sequence or ends it. */
  lemma Advances(p: Bytes, b: Byte)
    requires UnderWay(p)
    ensures |p| < Needed(p[0]) ==> (Continues(p, b) <==> UnderWay(p + [b]))
    ensures |p| == Needed(p[0]) ==> (Continues(p, b) <==> WellFormed(p + [b]))
  {
    var q := p + [b];
    assert q[0] == p[0];
    if |p| == 1 {
      assert q[..1] == p;
    } else {
      assert q[..1] == p[..1];
    }
  }

  lemma CompletedValue(p: Bytes, b: Byte)
    requires UnderWay(p) && |p| == Needed(p[0]) && WellFormed(p + [b])
    ensures ScalarOf(p + [b]) == Partial(p) * 64 + Low6(b)
  {
  }

  lemma PartialGrows(p: Bytes, b: Byte)
    requires UnderWay(p) && UnderWay(p + [b])
    ensures Partial(p + [b]) == Partial(p) * 64 + Low6(b)
  {
  }

  /** A sequence under way has no well-formed prefix yet. */
  lemma NotYet(r: Bytes, n: nat, k: nat)
    requires n <= |r| && UnderWay(r[..n]) && 1 <= k <= n
    ensures !WellFormed(r[..k])
  {
    assert r[..k][0] == r[..n][0];
  }

  lemma PrefixUnderWay(r: Bytes, n: nat, k: nat)
    requires n <= |r| && UnderWay(r[..n]) && 1 <= k <= n
    ensures UnderWay(r[..k])
  {
    var p, q := r[..n], r[..k];
    assert q == p[..k];
    if k >= 2 { assert q[..1] == p[..1]; }
  }

  lemma LongerIsNot(r: Bytes, n: nat, k: nat)
    requires 1 <= n < k <= |r| && k <= 4 && UnderWay(r[..n]) && !Continues(r[..n], r[n])
    ensures !WellFormed(r[..k]) && !UnderWay(r[..k])
  {
    var p, q := r[..n], r[..k];
    assert q[0] == p[0] && q[n] == r[n];
    if n >= 2 { assert q[1] == p[1]; }
    if k >= 2 && n == 1 { assert q[..1] == p; }
  }

  /** The replaced subpart is exactly the pending bytes. */
  lemma Broken(r: Bytes, n: nat)
    requires 1 <= n <= |r| && UnderWay(r[..n]) && (n < |r| ==> !Continues(r[..n], r[n]))
    ensures Decode(r) == [REPLACEMENT] + Decode(r[n..])
  {
    forall k | 1 <= k <= 4 && k <= |r| ensures !WellFormed(r[..k]) {
      if k <= n { NotYet(r, n, k); } else { LongerIsNot(r, n, k); }
    }
    forall k | 1 <= k <= 3 && k <= |r| ensures Initial(r[..k]) <==> k <= n {
      if k <= n {
        PrefixUnderWay(r, n, k);
        UnderWayIsInitial(r[..k]);
      } else {
        LongerIsNot(r, n, k);
        if Initial(r[..k]) { InitialIsUnderWay(r[..k]); }
      }
    }
    assert MaximalSubpart(r) == n;
  }

  lemma Stray(r: Bytes)
    requires r != [] && r[0] > 0x7F && Needed(r[0]) == 0
    ensures Decode(r) == [REPLACEMENT] + Decode(r[1..])
  {
    forall k | 1 <= k <= 3 && k <= |r| ensures !Initial(r[..k]) {
      if Initial(r[..k]) { InitialIsUnderWay(r[..k]); }
    }
    assert WellFormedPrefix(r) == 0;
    assert MaximalSubpart(r) == 1;
  }

  lemma Completed(r: Bytes, n: nat)
    requires 1 <= n < |r| && UnderWay(r[..n]) && n == Needed(r[0]) && Continues(r[..n], r[n])
    ensures Partial(r[..n]) * 64 + Low6(r[n]) <= 0x10FFFF
    ensures Decode(r) == [Partial(r[..n]) * 64 + Low6(r[n])] + Decode(r[n + 1..])
  {
    hide Decode, ScalarOf, Partial, Continues, UnderWay, Needed, Utf8.WellFormed, Utf8.Low6;
    assert r[..n][0] == r[0];
    assert r[..n] + [r[n]] == r[..n + 1];
    assert |r[..n]| == n;
    Advances(r[..n], r[n]);
    CompletedValue(r[..n], r[n]);
    DecodeHead(r, n + 1);
  }

  lemma Ascii(r: Bytes)
    requires r != [] && r[0] <= 0x7F
    ensures Decode(r) == [r[0]] + Decode(r[1..])
  {
    assert r[..1] == [r[0]];
    WellFormedPrefixUnique(r, 1);
  }

  /** The variables of the loop against the bytes they stand for. */
  predicate State(p: Bytes, codepoint: nat, needed: nat, seen: nat, lower: Byte, upper: Byte) {
    if needed == 0 then p == [] && seen == 0 && lower == 0x80 && upper == 0xBF
    else
      UnderWay(p) && needed == Needed(p[0]) && seen + 1 == |p| && codepoint == Partial(p)
      && lower == Lowest(p) && upper == Highest(p)
  }

  /** What is left to decode: the text so far, and the bytes from `from` on. */
  ghost predicate Remains(bytes: Bytes, before: Text, from: nat) {
    from <= |bytes| && DecodeText(bytes) == before + FromCodePoints(Decode(bytes[from..]))
  }

  /** Emitting what the decoding of the remaining bytes starts with. */
  lemma Emitted(bytes: Bytes, before: Text, from: nat, c: CodePoint, n: nat)
    requires Remains(bytes, before, from) && from + n <= |bytes|
    requires Decode(bytes[from..]) == [c] + Decode(bytes[from..][n..])
    ensures Remains(bytes, before + Units(c), from + n)
  {
    hide Utf8.Decode, Utf8.FromCodePoints, Units;
    var r := bytes[from..];
    assert r[n..] == bytes[from + n..];
    CodePointsCons(c, Decode(r[n..]));
    assert before + (Units(c) + FromCodePoints(Decode(r[n..]))) ==
           before + Units(c) + FromCodePoints(Decode(r[n..]));
  }

  /** `decodeUtf8`. */
  method DecodeUtf8(bytes: Bytes) returns (text: Text)
    ensures text == DecodeText(bytes)
  {
    hide Utf8.FromCodePoints, UnderWay, Partial, Lowest, Highest, Needed, Remains, Units;
    hide And, Or, Shl;
    var output := new Output();
    var codepoint: nat, needed: nat, seen: nat := 0, 0, 0;
    var lower: Byte, upper: Byte := 0x80, 0xBF;
    var index := 0;
    ghost var start: nat := 0;
    Beginning(bytes);
    while index < |bytes|
      invariant 0 <= start <= index <= |bytes|
      invariant State(bytes[start..index], codepoint, needed, seen, lower, upper)
      invariant fresh(output) && Remains(bytes, output.Contents(), start)
      decreases |bytes| - index, needed
    {
      var byte := bytes[index];
      if needed == 0 {
        StartByte(bytes, output.Contents(), index);
        if byte <= 0x7F {
          output.Emit(byte);
          start := start + 1;
        } else if 0xC2 <= byte <= 0xDF {
          needed, codepoint := 1, And(byte, 0x1F);
        } else if 0xE0 <= byte <= 0xEF {
          if byte == 0xE0 { lower := 0xA0; }
          if byte == 0xED { upper := 0x9F; }
          needed, codepoint := 2, And(byte, 0x0F);
        } else if 0xF0 <= byte <= 0xF4 {
          if byte == 0xF0 { lower := 0x90; }
          if byte == 0xF4 { upper := 0x8F; }
          needed, codepoint := 3, And(byte, 0x07);
        } else {
          output.Emit(REPLACEMENT);
          start := start + 1;
        }
      } else if byte < lower || byte > upper {
        // The offending byte is reprocessed as the start of a fresh sequence.
        Restart(bytes, output.Contents(), start, index);
        codepoint, needed, seen := 0, 0, 0;
        lower, upper := 0x80, 0xBF;
        start := index;
        index := index - 1;
        output.Emit(REPLACEMENT);
      } else {
        NextByte(bytes, output.Contents(), start, index);
        lower, upper := 0x80, 0xBF;
        codepoint := Or(Shl(codepoint, 6), And(byte, 0x3F));
        seen := seen + 1;
        if seen == needed {
          output.Emit(codepoint);
          codepoint, needed, seen := 0, 0, 0;
          start := index + 1;
        }
      }
      index := index + 1;
    }
    if needed != 0 {
      Restart(bytes, output.Contents(), start, |bytes|);
      output.Emit(REPLACEMENT);
    }
    Finished(bytes, output.Contents());
    if output.chunk != [] { output.Flush(); }
    assert FromCodePoints([]) == [] by { NoCodePoints(); }
    text := Concat(output.out);
  }

  /** The operators of the loop as arithmetic. */
  lemma Operators(codepoint: nat, byte: nat)
    ensures And(byte, 0x1F) == byte % 32 && And(byte, 0x0F) == byte % 16 && And(byte, 0x07) == byte % 8
    ensures Or(Shl(codepoint, 6), And(byte, 0x3F)) == codepoint * 64 + byte % 64
  {
    assert Pow2(3) == 8 && Pow2(4) == 16 && Pow2(5) == 32 && Pow2(6) == 64;
    Masked(byte, 3);
    Masked(byte, 4);
    Masked(byte, 5);
    Masked(byte, 6);
    Merged(codepoint, 6, byte % 64);
    Shl6(codepoint);
  }

  lemma Shl6(a: nat)
    ensures Shl(a, 6) == a * 64
  {
    Shl2(a, 0);
    Shl2(a, 2);
    Shl2(a, 4);
  }

  lemma Beginning(bytes: Bytes)
    ensures Remains(bytes, [], 0)
  {
    assert bytes[0..] == bytes;
  }

  lemma Finished(bytes: Bytes, text: Text)
    requires Remains(bytes, text, |bytes|)
    ensures DecodeText(bytes) == text
  {
    assert bytes[|bytes|..] == [];
  }

  /** A sequence that breaks off, or that the text breaks off, is one replacement. */
  lemma Restart(bytes: Bytes, before: Text, start: nat, index: nat)
    requires start < index <= |bytes| && Remains(bytes, before, start) && UnderWay(bytes[start..index])
    requires index < |bytes| ==> !Continues(bytes[start..index], bytes[index])
    ensures Remains(bytes, before + Units(REPLACEMENT), index)
    ensures bytes[index..index] == []
  {
    hide UnderWay, Lowest, Highest, Remains, Units, Utf8.Decode;
    var r, n := bytes[start..], index - start;
    Window(bytes, start, index);
    Broken(r, n);
    Emitted(bytes, before, start, REPLACEMENT, n);
  }

  /** The pending bytes and the next one, seen from where they start. */
  lemma Window(bytes: Bytes, start: nat, index: nat)
    requires start <= index <= |bytes|
    ensures var r, n := bytes[start..], index - start;
            r[..n] == bytes[start..index]
            && (index < |bytes| ==> r[n] == bytes[index] && bytes[start..index + 1] == r[..n] + [r[n]])
  {
  }

  /** A byte met between sequences. */
  lemma StartByte(bytes: Bytes, before: Text, index: nat)
    requires index < |bytes| && Remains(bytes, before, index)
    ensures var byte := bytes[index];
      && (byte <= 0x7F ==> Remains(bytes, before + Units(byte), index + 1))
      && (byte > 0x7F && !(0xC2 <= byte <= 0xF4) ==> Remains(bytes, before + Units(REPLACEMENT), index + 1))
    ensures bytes[index + 1..index + 1] == [] && bytes[index..index + 1] == [bytes[index]]
    ensures Started(bytes[index])
  {
    hide Remains, Units, Utf8.Decode;
    var r, byte := bytes[index..], bytes[index];
    if byte <= 0x7F {
      Ascii(r);
      Emitted(bytes, before, index, byte, 1);
    } else if Needed(byte) == 0 {
      Stray(r);
      Emitted(bytes, before, index, REPLACEMENT, 1);
    }
    LeadByte(byte);
  }

  /** What the loop stores on a leading byte. */
  ghost predicate Started(byte: Byte) {
    && (0xC2 <= byte <= 0xDF ==> State([byte], And(byte, 0x1F), 1, 0, 0x80, 0xBF))
    && (0xE0 <= byte <= 0xEF ==>
          State([byte], And(byte, 0x0F), 2, 0,
            if byte == 0xE0 then 0xA0 else 0x80, if byte == 0xED then 0x9F else 0xBF))
    && (0xF0 <= byte <= 0xF4 ==>
          State([byte], And(byte, 0x07), 3, 0,
            if byte == 0xF0 then 0x90 else 0x80, if byte == 0xF4 then 0x8F else 0xBF))
  }

  lemma LeadByte(byte: Byte)
    ensures Started(byte)
  {
    hide And, Or, Shl;
    Operators(0, byte);
  }

  /** A byte that goes on with the sequence under way, or ends it. */
  lemma NextByte(bytes: Bytes, before: Text, start: nat, index: nat)
    requires start < index < |bytes| && Remains(bytes, before, start)
    requires UnderWay(bytes[start..index]) && Continues(bytes[start..index], bytes[index])
    ensures var p := bytes[start..index];
      var c := Or(Shl(Partial(p), 6), And(bytes[index], 0x3F));
      if |p| == Needed(p[0]) then c <= 0x10FFFF && Remains(bytes, before + Units(c), index + 1)
      else State(bytes[start..index + 1], c, Needed(p[0]), |p|, 0x80, 0xBF)
    ensures bytes[index + 1..index + 1] == []
  {
    hide And, Or, Shl, Remains, Units, Utf8.Decode, Lowest, Highest, Partial;
    var r, n := bytes[start..], index - start;
    Window(bytes, start, index);
    Operators(Partial(r[..n]), r[n]);
    if n == Needed(r[0]) {
      Completed(r, n);
      Emitted(bytes, before, start, Partial(r[..n]) * 64 + Low6(r[n]), n + 1);
    } else {
      Advances(r[..n], r[n]);
      PartialGrows(r[..n], r[n]);
      BoundsReset(r[..n], r[n]);
    }
  }

  lemma BoundsReset(p: Bytes, b: Byte)
    requires p != []
    ensures Lowest(p + [b]) == 0x80 && Highest(p + [b]) == 0xBF && (p + [b])[0] == p[0]
  {
  }
}
