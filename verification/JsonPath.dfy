/** The JSONPath subset: Python's slices, preorder descent, and a path as the composition of its segments. */
module JsonPath {
  import opened Common
  import opened Tables
  import opened ExprValues
  import ExprEval

  datatype Segment =
    | Field(name: string)
    | FieldWildcard
    | Index(index: int)
    | Slice(start: Option<int>, end: Option<int>, stride: int)
    | Descend(name: string)

  datatype PathError = OutOfRange | NotIndexable

  /** An accumulator that the operators push into. */
  class Collector {
    var items: seq<Value>

    constructor ()
      ensures items == []
    {
      items := [];
    }

    method Push(v: Value)
      modifies this
      ensures items == old(items) + [v]
    {
      items := items + [v];
    }
  }

  // Slices, as CPython takes them.

  /** One bound clipped to the sequence (`PySlice_AdjustIndices`); `stride` is not zero. */
  function Adjusted(bound: int, length: nat, stride: int): int {
    if bound < 0 then
      var shifted := bound + length;
      if shifted < 0 then (if stride < 0 then -1 else 0) else shifted
    else if bound >= length then (if stride < 0 then length - 1 else length)
    else bound
  }

  function First(start: Option<int>, length: nat, stride: int): int {
    if start.Some? then Adjusted(start.value, length, stride) else if stride < 0 then length - 1 else 0
  }

  function Last(end: Option<int>, length: nat, stride: int): int {
    if end.Some? then Adjusted(end.value, length, stride) else if stride < 0 then -1 else length
  }

  /** How many steps of `stride` lead from `first` strictly before `last`. */
  function Steps(first: int, last: int, stride: int): nat
    requires stride != 0
  {
    if stride < 0 then (if last < first then (first - last - 1) / -stride + 1 else 0)
    else if first < last then (last - first - 1) / stride + 1
    else 0
  }

  /** The positions a slice visits, in order. */
  function Positions(length: nat, start: Option<int>, end: Option<int>, stride: int): seq<int> {
    if stride == 0 then []
    else
      var first := First(start, length, stride);
      seq(Steps(first, Last(end, length, stride), stride), k requires k >= 0 => first + k * stride)
  }

  lemma {:induction false} Between(k: int, n: int, stride: int)
    requires stride > 0 && n > 0 && (k - 1) * stride < n <= k * stride
    ensures k == (n - 1) / stride + 1
  {
    var q := (n - 1) / stride;
    assert q * stride <= n - 1 < (q + 1) * stride;
    if k - 1 < q {
      Monotone(k, q, stride);
    } else if k - 1 > q {
      Monotone(q + 1, k - 1, stride);
    }
  }

  lemma Monotone(a: int, b: int, stride: int)
    requires a <= b && stride > 0
    ensures a * stride <= b * stride
  {
  }

  lemma StepsEnd(first: int, last: int, stride: int, k: nat)
    requires stride != 0
    requires k > 0 ==> if stride < 0 then first + (k - 1) * stride > last else first + (k - 1) * stride < last
    requires if stride < 0 then first + k * stride <= last else first + k * stride >= last
    ensures k == Steps(first, last, stride)
  {
    if k > 0 {
      if stride < 0 {
        assert (k - 1) * -stride == -((k - 1) * stride) && k * -stride == -(k * stride);
        Upward(first, last, stride, k);
        Between(k, first - last, -stride);
      } else {
        Upward(first, last, stride, k);
        Between(k, last - first, stride);
      }
    }
  }

  /** A slice that takes a step has somewhere to go. */
  lemma Upward(first: int, last: int, stride: int, k: nat)
    requires stride != 0 && k > 0
    requires if stride < 0 then first + (k - 1) * stride > last else first + (k - 1) * stride < last
    ensures if stride < 0 then last < first else first < last
  {
    if stride < 0 {
      assert (k - 1) * stride <= 0;
    } else {
      assert (k - 1) * stride >= 0;
    }
  }

  lemma ClippedFirst(start: Option<int>, length: nat, stride: int)
    requires stride != 0
    ensures stride > 0 ==> 0 <= First(start, length, stride)
    ensures stride < 0 ==> First(start, length, stride) < length
  {
  }

  lemma ClippedLast(end: Option<int>, length: nat, stride: int)
    requires stride != 0
    ensures stride > 0 ==> Last(end, length, stride) <= length
    ensures stride < 0 ==> -1 <= Last(end, length, stride)
  {
  }

  lemma UpwardValid(first: int, last: int, stride: int, k: nat, length: nat)
    requires stride > 0 && 0 <= first && last <= length && k < Steps(first, last, stride)
    ensures 0 <= first + k * stride < length
  {
    var q := (last - first - 1) / stride;
    Monotone(k, q, stride);
    assert q * stride <= last - first - 1;
    assert 0 <= k * stride;
  }

  lemma DownwardValid(first: int, last: int, stride: int, k: nat, length: nat)
    requires stride < 0 && first < length && -1 <= last && k < Steps(first, last, stride)
    ensures 0 <= first + k * stride < length
  {
    var q := (first - last - 1) / -stride;
    Monotone(k, q, -stride);
    assert q * -stride <= first - last - 1;
    assert k * stride == -(k * -stride);
    assert 0 <= k * -stride;
  }

  /** No position a slice visits is outside the sequence. */
  lemma PositionsValid(length: nat, start: Option<int>, end: Option<int>, stride: int, k: nat)
    requires k < |Positions(length, start, end, stride)|
    ensures 0 <= Positions(length, start, end, stride)[k] < length
  {
    hide Steps, First, Last;
    var first, last := First(start, length, stride), Last(end, length, stride);
    ClippedFirst(start, length, stride);
    ClippedLast(end, length, stride);
    if stride > 0 {
      UpwardValid(first, last, stride, k, length);
    } else {
      DownwardValid(first, last, stride, k, length);
    }
  }

  function At(items: seq<Value>, positions: seq<int>): seq<Value>
    requires forall k :: 0 <= k < |positions| ==> 0 <= positions[k] < |items|
  {
    seq(|positions|, k requires 0 <= k < |positions| => items[positions[k]])
  }

  /** What a slice yields: the items at its positions. */
  function Sliced(items: seq<Value>, start: Option<int>, end: Option<int>, stride: int): seq<Value> {
    var positions := Positions(|items|, start, end, stride);
    assert forall k :: 0 <= k < |positions| ==> 0 <= positions[k] < |items| by {
      forall k | 0 <= k < |positions| ensures 0 <= positions[k] < |items| {
        PositionsValid(|items|, start, end, stride, k);
      }
    }
    At(items, positions)
  }

  /** The clipping of the source, which tests bounds in another order. */
  function Bound(value: Option<int>, fallback: int, length: nat, lower: int, upper: int): int {
    if value.None? then fallback
    else if value.value < 0 then (if value.value + length > lower then value.value + length else lower)
    else if value.value < upper then value.value
    else upper
  }

  method SliceItems(items: seq<Value>, start: Option<int>, end: Option<int>, stride: int) returns (out: seq<Value>)
    ensures out == Sliced(items, start, end, stride)
  {
    hide Positions, Steps;
    out := [];
    if stride == 0 {
      ZeroStep(items, start, end);
      return;
    }
    var length := |items|;
    var down := stride < 0;
    var lower, upper := if down then -1 else 0, if down then length - 1 else length;
    var begin := Bound(start, if down then upper else lower, length, lower, upper);
    var stop := Bound(end, if down then lower else upper, length, lower, upper);
    assert begin == First(start, length, stride) && stop == Last(end, length, stride);
    ClippedFirst(start, length, stride);
    ClippedLast(end, length, stride);
    var i := begin;
    while if down then i > stop else i < stop
      invariant i == begin + |out| * stride
      invariant |out| > 0 ==> if down then i - stride > stop else i - stride < stop
      invariant down ==> i < length
      invariant !down ==> 0 <= i
      invariant forall k :: 0 <= k < |out| ==> 0 <= begin + k * stride < length && out[k] == items[begin + k * stride]
      decreases if down then i - stop else stop - i
    {
      ghost var n := |out|;
      out := out + [items[i]];
      i := i + stride;
      assert (n + 1) * stride == n * stride + stride;
    }
    assert (|out| - 1) * stride == |out| * stride - stride;
    StepsEnd(begin, stop, stride, |out|);
    SlicedIs(items, start, end, stride, out);
  }

  lemma ZeroStep(items: seq<Value>, start: Option<int>, end: Option<int>)
    ensures Sliced(items, start, end, 0) == []
  {
  }

  lemma SlicedIs(items: seq<Value>, start: Option<int>, end: Option<int>, stride: int, out: seq<Value>)
    requires stride != 0
    requires |out| == Steps(First(start, |items|, stride), Last(end, |items|, stride), stride)
    requires forall k :: 0 <= k < |out| ==>
      var p := First(start, |items|, stride) + k * stride; 0 <= p < |items| && out[k] == items[p]
    ensures out == Sliced(items, start, end, stride)
  {
    hide Steps, First, Last;
    var positions := Positions(|items|, start, end, stride);
    var sliced := Sliced(items, start, end, stride);
    assert |sliced| == |out|;
    forall k | 0 <= k < |out| ensures out[k] == sliced[k] {
      assert positions[k] == First(start, |items|, stride) + k * stride;
    }
  }

  /** `[::-1]` reverses. */
  lemma MinusOneReverses(items: seq<Value>)
    ensures |Sliced(items, None, None, -1)| == |items|
    ensures forall k :: 0 <= k < |items| ==> Sliced(items, None, None, -1)[k] == items[|items| - 1 - k]
  {
    var n := |items|;
    StepsEnd(n - 1, -1, -1, n);
    forall k | 0 <= k < n ensures Sliced(items, None, None, -1)[k] == items[n - 1 - k] {
      assert Positions(n, None, None, -1)[k] == n - 1 + k * -1;
    }
  }

  /** A slice of step one is a stretch of the sequence. */
  lemma StepOne(items: seq<Value>, start: Option<int>, end: Option<int>)
    ensures var a, b := First(start, |items|, 1), Last(end, |items|, 1);
      && 0 <= a <= |items| && 0 <= b <= |items|
      && Sliced(items, start, end, 1) == if a <= b then items[a..b] else []
  {
    hide Steps;
    var a, b := First(start, |items|, 1), Last(end, |items|, 1);
    var sliced := Sliced(items, start, end, 1);
    var n: nat := if a <= b then b - a else 0;
    OneStep(a, b, n);
    forall k | 0 <= k < n ensures sliced[k] == items[a..b][k] {
      assert Positions(|items|, start, end, 1)[k] == a + k * 1;
    }
  }

  lemma OneStep(a: int, b: int, n: nat)
    requires n == if a <= b then b - a else 0
    ensures Steps(a, b, 1) == n
  {
  }

  /** Cutting anywhere, in any notation, loses and repeats nothing. */
  lemma CutsJoin(items: seq<Value>, cut: int)
    ensures Sliced(items, None, Some(cut), 1) + Sliced(items, Some(cut), None, 1) == items
  {
    hide Sliced;
    StepOne(items, None, Some(cut));
    StepOne(items, Some(cut), None);
    var at := First(Some(cut), |items|, 1);
    assert items == items[..at] + items[at..];
  }

  // Descent.

  function Own(v: Value, name: string): seq<Value> {
    if v.Obj? && Find(v.entries, name).Some? then [Find(v.entries, name).value] else []
  }

  /** The values under `name`: a parent's before its children's, children in document order. */
  function Descended(v: Value, name: string): seq<Value>
    decreases v, 1
  {
    match v
    case List(items) => DescendedItems(items, name)
    case Obj(entries) => Own(v, name) + DescendedEntries(entries, name)
    case _ => []
  }

  function DescendedItems(items: seq<Value>, name: string): seq<Value>
    decreases items, 2
  {
    if items == [] then [] else Descended(items[0], name) + DescendedItems(items[1..], name)
  }

  function DescendedEntries(entries: Table<Value>, name: string): seq<Value>
    decreases entries, 2
  {
    if entries == [] then [] else Descended(EntryValue(entries[0]), name) + DescendedEntries(entries[1..], name)
  }

  method DescendInto(v: Value, name: string, out: Collector)
    modifies out
    ensures out.items == old(out.items) + Descended(v, name)
    decreases v, 1
  {
    if v.Obj? {
      var own := Find(v.entries, name);
      if own.Some? {
        out.Push(own.value);
      }
    }
    ghost var before := out.items;
    if v.List? {
      assert v.items[0..] == v.items;
      for i := 0 to |v.items|
        invariant out.items + DescendedItems(v.items[i..], name) == before + DescendedItems(v.items, name)
      {
        assert v.items[i..][1..] == v.items[i + 1..];
        ghost var here := out.items;
        DescendInto(v.items[i], name, out);
        Regroup(here, Descended(v.items[i], name), DescendedItems(v.items[i + 1..], name));
      }
      assert v.items[|v.items|..] == [] && out.items + [] == out.items;
    } else if v.Obj? {
      assert v.entries[0..] == v.entries;
      for i := 0 to |v.entries|
        invariant out.items + DescendedEntries(v.entries[i..], name) == before + DescendedEntries(v.entries, name)
      {
        assert v.entries[i..][1..] == v.entries[i + 1..];
        ghost var here := out.items;
        DescendInto(EntryValue(v.entries[i]), name, out);
        Regroup(here, Descended(EntryValue(v.entries[i]), name), DescendedEntries(v.entries[i + 1..], name));
      }
      assert v.entries[|v.entries|..] == [] && out.items + [] == out.items;
    }
    assert before == old(out.items) + Own(v, name);
    Regroup(old(out.items), Own(v, name), if v.Obj? then DescendedEntries(v.entries, name) else []);
  }

  lemma Regroup<T>(a: seq<T>, b: seq<T>, c: seq<T>)
    ensures (a + b) + c == a + (b + c)
  {
  }

  // The reference: all nodes of a document in preorder, each asked for its own field.

  function Nodes(v: Value): seq<Value>
    decreases v, 1
  {
    [v] +
    match v
    case List(items) => ItemNodes(items)
    case Obj(entries) => EntryNodes(entries)
    case _ => []
  }

  function ItemNodes(items: seq<Value>): seq<Value>
    decreases items, 2
  {
    if items == [] then [] else Nodes(items[0]) + ItemNodes(items[1..])
  }

  function EntryNodes(entries: Table<Value>): seq<Value>
    decreases entries, 2
  {
    if entries == [] then [] else Nodes(EntryValue(entries[0])) + EntryNodes(entries[1..])
  }

  function Asked(nodes: seq<Value>, name: string): seq<Value> {
    if nodes == [] then [] else Own(nodes[0], name) + Asked(nodes[1..], name)
  }

  lemma {:induction false} AskedJoined(a: seq<Value>, b: seq<Value>, name: string)
    ensures Asked(a + b, name) == Asked(a, name) + Asked(b, name)
  {
    hide Own;
    if a == [] {
      assert a + b == b;
    } else {
      assert (a + b)[1..] == a[1..] + b;
      AskedJoined(a[1..], b, name);
    }
  }

  /** Recursive descent is exactly the preorder walk that asks every node for the field. */
  lemma {:induction false} DescentIsPreorder(v: Value, name: string)
    ensures Descended(v, name) == Asked(Nodes(v), name)
    decreases v, 1
  {
    hide Find;
    match v
    case List(items) =>
      ItemsPreorder(items, name);
      AskedJoined([v], ItemNodes(items), name);
      AskedOne(v, name);
    case Obj(entries) =>
      EntriesPreorder(entries, name);
      AskedJoined([v], EntryNodes(entries), name);
      AskedOne(v, name);
    case _ =>
      AskedOne(v, name);
      assert [v] + [] == [v];
  }

  lemma AskedOne(v: Value, name: string)
    ensures Asked([v], name) == Own(v, name)
  {
    assert [v][1..] == [];
  }

  lemma {:induction false} ItemsPreorder(items: seq<Value>, name: string)
    ensures DescendedItems(items, name) == Asked(ItemNodes(items), name)
    decreases items, 2
  {
    hide Asked, Nodes, Descended;
    if items == [] {
      assert Asked([], name) == [] by { AskedNone(name); }
    } else {
      DescentIsPreorder(items[0], name);
      ItemsPreorder(items[1..], name);
      AskedJoined(Nodes(items[0]), ItemNodes(items[1..]), name);
    }
  }

  lemma {:induction false} EntriesPreorder(entries: Table<Value>, name: string)
    ensures DescendedEntries(entries, name) == Asked(EntryNodes(entries), name)
    decreases entries, 2
  {
    hide Asked, Nodes, Descended;
    if entries == [] {
      AskedNone(name);
    } else {
      DescentIsPreorder(EntryValue(entries[0]), name);
      EntriesPreorder(entries[1..], name);
      AskedJoined(Nodes(EntryValue(entries[0])), EntryNodes(entries[1..]), name);
    }
  }

  lemma AskedNone(name: string)
    ensures Asked([], name) == []
  {
  }

  // One segment on one value.

  function Values(entries: Table<Value>): seq<Value> {
    seq(|entries|, i requires 0 <= i < |entries| => entries[i].1)
  }

  /** `[n]`: nothing on a falsy container or past the end, an error before the start or on what has no index. */
  function Indexed(index: int, v: Value): Result<seq<Value>, PathError> {
    if PyTruth(v) == Ok(false) then Ok([])
    else if v.List? || v.Str? then
      var items := if v.List? then v.items else ExprEval.Characters(v.s);
      if |items| <= index then Ok([])
      else
        var at := if index < 0 then |items| + index else index;
        if at < 0 then Err(OutOfRange) else Ok([items[at]])
    else if v.Obj? && |v.entries| <= index then Ok([])
    else Err(NotIndexable)
  }

  function Step(segment: Segment, v: Value): Result<seq<Value>, PathError> {
    match segment
    case Field(name) => Ok(Own(v, name))
    case FieldWildcard => Ok(if v.Obj? then Values(v.entries) else [])
    case Index(index) => Indexed(index, v)
    case Slice(start, end, stride) =>
      if v.Null? || v.Undefined? then Ok([])
      else Ok(Sliced(if v.List? then v.items else [v], start, end, stride))
    case Descend(name) => Ok(Descended(v, name))
  }

  /** Subscripts count from the start, negative ones from the end; past the end is nothing, before the start an error. */
  lemma IndexReads(items: seq<Value>, index: int)
    ensures Step(Index(index), List(items)) ==
      if items == [] || index >= |items| then Ok([])
      else if index >= 0 then Ok([items[index]])
      else if index >= -|items| then Ok([items[|items| + index]])
      else Err(OutOfRange)
  {
  }

  /** A subscript that is not before the start reads what the slice of that one position reads. */
  lemma IndexIsShortSlice(items: seq<Value>, index: int)
    requires items != [] && index >= -|items|
    ensures Step(Index(index), List(items)) ==
      Step(Slice(Some(index), if index == -1 then None else Some(index + 1), 1), List(items))
  {
    hide Sliced;
    var end := if index == -1 then None else Some(index + 1);
    StepOne(items, Some(index), end);
    var at := First(Some(index), |items|, 1);
    if index < |items| {
      assert items[at..at + 1] == [items[at]];
    }
  }

  /** A text is subscripted as the list of its characters; what has no length is refused, unless it is false. */
  lemma IndexElsewhere(v: Value, index: int)
    ensures v.Str? ==> Step(Index(index), v) == Step(Index(index), List(ExprEval.Characters(v.s)))
    ensures v == Null || v == Bool(false) || v == Num(0.0) ==> Step(Index(index), v) == Ok([])
    ensures v == Bool(true) || (v.Num? && v.n != 0.0) ==> Step(Index(index), v) == Err(NotIndexable)
    ensures v.Obj? ==>
      Step(Index(index), v) == if v.entries == [] || index >= |v.entries| then Ok([]) else Err(NotIndexable)
  {
  }

  /** A field of an object is what stands under its name; the wildcard is every field, in order. */
  lemma FieldsRead(entries: Table<Value>, name: string)
    requires Distinct(entries)
    ensures (forall k :: 0 <= k < |entries| ==> entries[k].0 != name) ==> Step(Field(name), Obj(entries)) == Ok([])
    ensures forall k :: 0 <= k < |entries| ==> Step(Field(entries[k].0), Obj(entries)) == Ok([entries[k].1])
    ensures var all := Step(FieldWildcard, Obj(entries));
      all.Ok? && |all.value| == |entries| && forall k :: 0 <= k < |entries| ==> all.value[k] == entries[k].1
    ensures forall v: Value :: !v.Obj? ==> Step(Field(name), v) == Ok([]) && Step(FieldWildcard, v) == Ok([])
  {
    forall k | 0 <= k < |entries| ensures Step(Field(entries[k].0), Obj(entries)) == Ok([entries[k].1]) {
      FindDistinct(entries, k);
    }
  }

  function StepAll(segment: Segment, current: seq<Value>): Result<seq<Value>, PathError> {
    if current == [] then Ok([])
    else
      var first :- Step(segment, current[0]);
      var rest :- StepAll(segment, current[1..]);
      Ok(first + rest)
  }

  function FindAll(path: seq<Segment>, current: seq<Value>): Result<seq<Value>, PathError>
    decreases |path|
  {
    if path == [] then Ok(current)
    else
      var next :- StepAll(path[0], current);
      FindAll(path[1..], next)
  }

  /** Every match in document order, one segment after the other. */
  method JsonPathFind(path: seq<Segment>, data: Value) returns (r: Result<seq<Value>, PathError>)
    ensures r == FindAll(path, [data])
  {
    var current := [data];
    for i := 0 to |path|
      invariant FindAll(path[i..], current) == FindAll(path, [data])
    {
      assert path[i..][1..] == path[i + 1..];
      var next := ApplySegment(path[i], current);
      if next.Err? {
        return Err(next.error);
      }
      current := next.value;
    }
    assert path[|path|..] == [];
    return Ok(current);
  }

  method ApplySegment(segment: Segment, current: seq<Value>) returns (r: Result<seq<Value>, PathError>)
    ensures r == StepAll(segment, current)
  {
    hide Step;
    var out := new Collector();
    assert current[0..] == current;
    NothingBefore(out.items, StepAll(segment, current));
    for i := 0 to |current|
      invariant StepAll(segment, current) == Prepended(out.items, StepAll(segment, current[i..]))
    {
      assert current[i..][1..] == current[i + 1..];
      ghost var here := out.items;
      var error := PushMatches(segment, current[i], out);
      if error.Some? {
        return Err(error.value);
      }
      var rest := StepAll(segment, current[i + 1..]);
      if rest.Ok? {
        Regroup(here, Step(segment, current[i]).value, rest.value);
      }
    }
    assert current[|current|..] == [] && out.items + [] == out.items;
    return Ok(out.items);
  }

  function Prepended(items: seq<Value>, rest: Result<seq<Value>, PathError>): Result<seq<Value>, PathError> {
    if rest.Ok? then Ok(items + rest.value) else rest
  }

  lemma NothingBefore(nothing: seq<Value>, rest: Result<seq<Value>, PathError>)
    requires nothing == []
    ensures Prepended(nothing, rest) == rest
  {
    if rest.Ok? {
      assert nothing + rest.value == rest.value;
    }
  }

  method PushMatches(segment: Segment, v: Value, out: Collector) returns (error: Option<PathError>)
    modifies out
    ensures error == (if Step(segment, v).Err? then Some(Step(segment, v).error) else None)
    ensures out.items == old(out.items) + (if Step(segment, v).Ok? then Step(segment, v).value else [])
  {
    hide Descended, Sliced;
    error := None;
    match segment {
      case Field(name) =>
        if v.Obj? && Find(v.entries, name).Some? {
          out.Push(Find(v.entries, name).value);
        }
      case FieldWildcard =>
        if v.Obj? {
          out.items := out.items + Values(v.entries);
        }
      case Index(index) =>
        var found := Indexed(index, v);
        if found.Err? {
          return Some(found.error);
        }
        out.items := out.items + found.value;
      case Slice(start, end, stride) =>
        if !v.Null? && !v.Undefined? {
          var part := SliceItems(if v.List? then v.items else [v], start, end, stride);
          out.items := out.items + part;
        }
      case Descend(name) => DescendInto(v, name, out);
    }
  }

  // A path is the composition of its parts.

  lemma {:induction false} FindComposes(path: seq<Segment>, more: seq<Segment>, current: seq<Value>)
    ensures FindAll(path + more, current) ==
      if FindAll(path, current).Ok? then FindAll(more, FindAll(path, current).value) else FindAll(path, current)
    decreases |path|
  {
    hide StepAll;
    if path == [] {
      assert path + more == more;
    } else {
      assert (path + more)[1..] == path[1..] + more;
      var next := StepAll(path[0], current);
      if next.Ok? {
        FindComposes(path[1..], more, next.value);
      }
    }
  }

  lemma {:induction false} StepDistributes(segment: Segment, xs: seq<Value>, ys: seq<Value>)
    ensures var a, b := StepAll(segment, xs), StepAll(segment, ys);
      StepAll(segment, xs + ys) == if a.Err? then a else if b.Err? then b else Ok(a.value + b.value)
  {
    hide Step;
    if xs == [] {
      assert xs + ys == ys;
      var b := StepAll(segment, ys);
      if b.Ok? {
        assert [] + b.value == b.value;
      }
    } else {
      assert (xs + ys)[1..] == xs[1..] + ys;
      StepDistributes(segment, xs[1..], ys);
      var first, a, b := Step(segment, xs[0]), StepAll(segment, xs[1..]), StepAll(segment, ys);
      if first.Ok? && a.Ok? && b.Ok? {
        Regroup(first.value, a.value, b.value);
      }
    }
  }

  /** Matches come in document order: those of earlier values before those of later ones. */
  lemma {:induction false} FindDistributes(path: seq<Segment>, xs: seq<Value>, ys: seq<Value>)
    requires FindAll(path, xs).Ok? && FindAll(path, ys).Ok?
    ensures FindAll(path, xs + ys) == Ok(FindAll(path, xs).value + FindAll(path, ys).value)
    decreases |path|
  {
    hide StepAll;
    if path != [] {
      StepDistributes(path[0], xs, ys);
      FindDistributes(path[1..], StepAll(path[0], xs).value, StepAll(path[0], ys).value);
    }
  }
}
