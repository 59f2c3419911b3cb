/** Cutting a pointer trace into aimed moves: before the short ones are dropped, no sample is lost or moved. */
module Gestures {
  import opened Common

  datatype Point = Point(x: real, y: real, t: real)

  const SLACK := 0.000001

  function Flattened(segments: seq<seq<Point>>): seq<Point> {
    if segments == [] then [] else Flattened(segments[..|segments| - 1]) + segments[|segments| - 1]
  }

  /** No silence longer than the pause inside one segment. */
  predicate Unbroken(segment: seq<Point>, pause: real) {
    forall k :: 0 < k < |segment| ==> segment[k].t - segment[k - 1].t <= pause
  }

  /** A click that ends a move: not before its start, not after its last sample. */
  predicate Ends(segment: seq<Point>, clicks: seq<real>)
    requires segment != []
  {
    exists c :: 0 <= c < |clicks| && segment[0].t - SLACK <= clicks[c] <= segment[|segment| - 1].t + SLACK
  }

  /** Every segment is a non-empty unbroken run; it ends on a click, on a pause, or with the trace. */
  predicate WellCut(segments: seq<seq<Point>>, following: seq<Point>, clicks: seq<real>, pause: real) {
    forall i :: 0 <= i < |segments| ==>
      && segments[i] != [] && Unbroken(segments[i], pause)
      && (Ends(segments[i], clicks) || Paused(segments, i, following, pause))
  }

  /** The next sample comes after more than the pause, or there is none. */
  predicate Paused(segments: seq<seq<Point>>, i: nat, following: seq<Point>, pause: real)
    requires i < |segments| && segments[i] != []
  {
    var next := if i + 1 < |segments| then segments[i + 1] else following;
    next == [] || next[0].t - segments[i][|segments[i]| - 1].t > pause
  }

  lemma FlattenedSnoc(segments: seq<seq<Point>>, segment: seq<Point>)
    ensures Flattened(segments + [segment]) == Flattened(segments) + segment
  {
    assert (segments + [segment])[..|segments|] == segments;
  }

  lemma WellCutSnoc(segments: seq<seq<Point>>, segment: seq<Point>, following: seq<Point>, clicks: seq<real>, pause: real)
    requires segment != [] && Unbroken(segment, pause)
    requires WellCut(segments, segment, clicks, pause)
    requires Ends(segment, clicks) || following == [] || following[0].t - segment[|segment| - 1].t > pause
    ensures WellCut(segments + [segment], following, clicks, pause)
  {
    hide Ends, Unbroken;
    var all := segments + [segment];
    forall i | 0 <= i < |all|
      ensures all[i] != [] && Unbroken(all[i], pause) && (Ends(all[i], clicks) || Paused(all, i, following, pause))
    {
      if i < |segments| {
        assert all[i] == segments[i];
        assert Ends(segments[i], clicks) || Paused(segments, i, segment, pause);
      }
    }
  }

  /** A later sample in the open run changes nothing for the segments before it. */
  lemma WellCutGrows(segments: seq<seq<Point>>, current: seq<Point>, p: Point, clicks: seq<real>, pause: real)
    requires WellCut(segments, current, clicks, pause)
    requires current == [] && segments != [] ==>
      Ends(segments[|segments| - 1], clicks) || p.t - segments[|segments| - 1][|segments[|segments| - 1]| - 1].t > pause
    ensures WellCut(segments, current + [p], clicks, pause)
  {
    hide Ends, Unbroken;
    forall i | 0 <= i < |segments|
      ensures segments[i] != [] && Unbroken(segments[i], pause)
           && (Ends(segments[i], clicks) || Paused(segments, i, current + [p], pause))
    {
      assert Ends(segments[i], clicks) || Paused(segments, i, current, pause);
    }
  }

  /** Where the loop stands: the closed segments and the open run make up the samples seen. */
  predicate Standing(segments: seq<seq<Point>>, current: seq<Point>, seen: seq<Point>, clicks: seq<real>, pause: real) {
    && Flattened(segments) + current == seen
    && Unbroken(current, pause)
    && WellCut(segments, current, clicks, pause)
    && (current == [] && segments != [] ==>
          segments[|segments| - 1] != [] && Ends(segments[|segments| - 1], clicks))
  }

  lemma AfterPause(segments: seq<seq<Point>>, current: seq<Point>, seen: seq<Point>, p: Point, clicks: seq<real>,
                   pause: real)
    requires Standing(segments, current, seen, clicks, pause)
    requires current != [] && p.t - current[|current| - 1].t > pause
    ensures Standing(segments + [current], [p], seen + [p], clicks, pause)
  {
    hide Unbroken, Ends, WellCut, Flattened;
    WellCutSnoc(segments, current, [p], clicks, pause);
    FlattenedSnoc(segments, current);
    Alone(p, pause);
  }

  lemma AfterSample(segments: seq<seq<Point>>, current: seq<Point>, seen: seq<Point>, p: Point, clicks: seq<real>,
                    pause: real)
    requires Standing(segments, current, seen, clicks, pause)
    requires current != [] ==> p.t - current[|current| - 1].t <= pause
    ensures Standing(segments, current + [p], seen + [p], clicks, pause)
  {
    hide Unbroken, Ends, WellCut, Flattened;
    WellCutGrows(segments, current, p, clicks, pause);
    Longer(current, p, pause);
    assert (Flattened(segments) + current) + [p] == Flattened(segments) + (current + [p]);
  }

  lemma AfterClick(segments: seq<seq<Point>>, current: seq<Point>, seen: seq<Point>, clicks: seq<real>, click: nat,
                   pause: real)
    requires Standing(segments, current, seen, clicks, pause)
    requires current != [] && click < |clicks|
    requires current[0].t - SLACK <= clicks[click] <= current[|current| - 1].t + SLACK
    ensures Standing(segments + [current], [], seen, clicks, pause)
  {
    hide Unbroken, WellCut, Flattened;
    ClickEnds(current, clicks, click);
    WellCutSnoc(segments, current, [], clicks, pause);
    FlattenedSnoc(segments, current);
    Alone(current[0], pause);
    assert Flattened(segments + [current]) + [] == Flattened(segments + [current]);
  }

  lemma AtTheEnd(segments: seq<seq<Point>>, current: seq<Point>, seen: seq<Point>, clicks: seq<real>, pause: real)
    requires Standing(segments, current, seen, clicks, pause)
    ensures var all := if current == [] then segments else segments + [current];
      Flattened(all) == seen && WellCut(all, [], clicks, pause)
  {
    hide Unbroken, Ends, WellCut, Flattened;
    if current == [] {
      assert Flattened(segments) + [] == Flattened(segments);
    } else {
      WellCutSnoc(segments, current, [], clicks, pause);
      FlattenedSnoc(segments, current);
    }
  }

  // A click cuts. With samples and clicks in the order of time, a click that falls in a run ends it there.

  predicate InTime(points: seq<Point>, clicks: seq<real>) {
    && (forall i, j :: 0 <= i < j < |points| ==> points[i].t <= points[j].t)
    && (forall i, j :: 0 <= i < j < |clicks| ==> clicks[i] <= clicks[j])
  }

  /** When the last sample before the next segment was taken. */
  function LastTime(segments: seq<seq<Point>>): Option<real> {
    if segments == [] || segments[|segments| - 1] == [] then None
    else
      var last := segments[|segments| - 1];
      Some(last[|last| - 1].t)
  }

  /** A click that a run starting at `start` can meet: not before its start, nor spent on the samples before it. */
  predicate Meets(click: real, start: real, before: Option<real>) {
    click >= start - SLACK && (before.None? || click > before.value + SLACK)
  }

  /** Any click the run meets comes after its last sample but one: there is no click inside it. */
  predicate Whole(run: seq<Point>, before: Option<real>, clicks: seq<real>) {
    forall j :: 0 <= j < |clicks| && |run| > 1 && Meets(clicks[j], run[0].t, before) ==>
      clicks[j] > run[|run| - 2].t + SLACK
  }

  predicate AllWhole(segments: seq<seq<Point>>, clicks: seq<real>) {
    forall i :: 0 <= i < |segments| ==> Whole(segments[i], LastTime(segments[..i]), clicks)
  }

  /** The clicks already passed are none that the open run meets, and the samples seen have passed them. */
  predicate Watch(segments: seq<seq<Point>>, current: seq<Point>, seen: seq<Point>, clicks: seq<real>, click: nat)
    requires click <= |clicks|
  {
    && AllWhole(segments, clicks)
    && Whole(current, LastTime(segments), clicks)
    && (forall j :: 0 <= j < click && current != [] ==> !Meets(clicks[j], current[0].t, LastTime(segments)))
    && (forall j :: 0 <= j < click ==> seen != [] && clicks[j] <= seen[|seen| - 1].t + SLACK)
    && (current != [] ==> seen != [] && current[|current| - 1] == seen[|seen| - 1])
    && (current == [] && seen != [] ==> LastTime(segments) == Some(seen[|seen| - 1].t))
  }

  predicate Pending(seen: seq<Point>, clicks: seq<real>, click: nat)
    requires click <= |clicks|
  {
    forall j :: click <= j < |clicks| && seen != [] ==> clicks[j] > seen[|seen| - 1].t + SLACK
  }

  lemma AllWholeSnoc(segments: seq<seq<Point>>, run: seq<Point>, clicks: seq<real>)
    requires AllWhole(segments, clicks) && Whole(run, LastTime(segments), clicks)
    ensures AllWhole(segments + [run], clicks)
  {
    hide Whole, LastTime;
    var all := segments + [run];
    forall i | 0 <= i < |all| ensures Whole(all[i], LastTime(all[..i]), clicks) {
      if i < |segments| {
        assert all[..i] == segments[..i];
      } else {
        assert all[..i] == segments;
      }
    }
  }

  lemma WatchPause(segments: seq<seq<Point>>, current: seq<Point>, seen: seq<Point>, p: Point, clicks: seq<real>,
                   click: nat)
    requires click <= |clicks| && Watch(segments, current, seen, clicks, click) && current != []
    requires seen != [] ==> p.t >= seen[|seen| - 1].t
    ensures Watch(segments + [current], [p], seen + [p], clicks, click)
  {
    hide LastTime, AllWhole;
    AllWholeSnoc(segments, current, clicks);
    LastOfSnoc(segments, current);
  }

  lemma LastOfSnoc(segments: seq<seq<Point>>, run: seq<Point>)
    requires run != []
    ensures LastTime(segments + [run]) == Some(run[|run| - 1].t)
  {
  }

  lemma WatchSample(segments: seq<seq<Point>>, current: seq<Point>, seen: seq<Point>, p: Point, clicks: seq<real>,
                    click: nat)
    requires click <= |clicks| && Watch(segments, current, seen, clicks, click) && Pending(seen, clicks, click)
    requires seen != [] ==> p.t >= seen[|seen| - 1].t
    ensures Watch(segments, current + [p], seen + [p], clicks, click)
  {
  }

  lemma WatchClick(segments: seq<seq<Point>>, current: seq<Point>, seen: seq<Point>, clicks: seq<real>, click: nat)
    requires click < |clicks| && Watch(segments, current, seen, clicks, click)
    requires seen != [] && clicks[click] <= seen[|seen| - 1].t + SLACK
    ensures current != [] ==> Watch(segments + [current], [], seen, clicks, click + 1)
    ensures current == [] || clicks[click] < current[0].t - SLACK ==> Watch(segments, current, seen, clicks, click + 1)
  {
    hide LastTime, AllWhole;
    if current != [] {
      AllWholeSnoc(segments, current, clicks);
      LastOfSnoc(segments, current);
    }
  }

  lemma WatchEnds(segments: seq<seq<Point>>, current: seq<Point>, seen: seq<Point>, clicks: seq<real>, click: nat)
    requires click <= |clicks| && Watch(segments, current, seen, clicks, click)
    ensures AllWhole(if current == [] then segments else segments + [current], clicks)
  {
    if current != [] {
      AllWholeSnoc(segments, current, clicks);
    }
  }

  lemma AllPending(seen: seq<Point>, points: seq<Point>, clicks: seq<real>, click: nat)
    requires click <= |clicks| && InTime(points, clicks) && seen != []
    requires click < |clicks| ==> clicks[click] > seen[|seen| - 1].t + SLACK
    ensures Pending(seen, clicks, click)
  {
  }

  lemma NothingSeen(clicks: seq<real>)
    ensures Watch([], [], [], clicks, 0) && Pending([], clicks, 0)
  {
  }

  /** The runs of a trace, whatever the order of samples and clicks: a partition of the samples in their order. */
  method CutTrace(points: seq<Point>, clicks: seq<real>, pause: real) returns (segments: seq<seq<Point>>)
    ensures Flattened(segments) == points
    ensures WellCut(segments, [], clicks, pause)
    ensures InTime(points, clicks) ==> AllWhole(segments, clicks)
  {
    hide Standing, WellCut, Flattened, Watch, Pending, AllWhole, InTime;
    segments := [];
    var current: seq<Point> := [];
    var click := 0;
    ghost var inTime := InTime(points, clicks);
    Beginning(clicks, pause);
    NothingSeen(clicks);
    for i := 0 to |points|
      invariant click <= |clicks|
      invariant Standing(segments, current, points[..i], clicks, pause)
      invariant inTime ==> Watch(segments, current, points[..i], clicks, click) && Pending(points[..i], clicks, click)
    {
      var p := points[i];
      assert points[..i + 1] == points[..i] + [p];
      if inTime {
        NextInTime(points, clicks, i);
        if current != [] {
          WatchPause(segments, current, points[..i], p, clicks, click);
        }
        WatchSample(segments, current, points[..i], p, clicks, click);
      }
      if current != [] && p.t - current[|current| - 1].t > pause {
        AfterPause(segments, current, points[..i], p, clicks, pause);
        segments := segments + [current];
        current := [];
        assert [] + [p] == [p];
      } else {
        AfterSample(segments, current, points[..i], p, clicks, pause);
      }
      current := current + [p];
      while click < |clicks| && clicks[click] <= p.t + SLACK
        invariant click <= |clicks|
        invariant Standing(segments, current, points[..i + 1], clicks, pause)
        invariant current != [] ==> current[|current| - 1] == p
        invariant inTime ==> Watch(segments, current, points[..i + 1], clicks, click)
      {
        if inTime {
          WatchClick(segments, current, points[..i + 1], clicks, click);
        }
        if current != [] && clicks[click] >= current[0].t - SLACK {
          AfterClick(segments, current, points[..i + 1], clicks, click, pause);
          segments := segments + [current];
          current := [];
        }
        click := click + 1;
      }
      if inTime {
        AllPending(points[..i + 1], points, clicks, click);
      }
    }
    assert points[..|points|] == points;
    AtTheEnd(segments, current, points, clicks, pause);
    if inTime {
      WatchEnds(segments, current, points, clicks, click);
    }
    if current != [] {
      segments := segments + [current];
    }
  }

  lemma NextInTime(points: seq<Point>, clicks: seq<real>, i: nat)
    requires InTime(points, clicks) && i < |points|
    ensures i > 0 ==> points[..i][i - 1].t <= points[i].t
  {
  }

  lemma Beginning(clicks: seq<real>, pause: real)
    ensures Standing([], [], [], clicks, pause)
  {
  }

  lemma Alone(p: Point, pause: real)
    ensures Unbroken([p], pause) && Unbroken([], pause)
  {
  }

  lemma Longer(current: seq<Point>, p: Point, pause: real)
    requires Unbroken(current, pause) && (current != [] ==> p.t - current[|current| - 1].t <= pause)
    ensures Unbroken(current + [p], pause)
  {
  }

  lemma ClickEnds(current: seq<Point>, clicks: seq<real>, click: nat)
    requires current != [] && click < |clicks|
    requires current[0].t - SLACK <= clicks[click] <= current[|current| - 1].t + SLACK
    ensures Ends(current, clicks)
  {
  }
}
