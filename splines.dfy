/**
 * The structural half of resources/js/utils/splines.ts: how `formatPoints` pads and flattens the
 * points, and which entries of the flat array each curve segment of `spline` reads. The points'
 * coordinates are of an arbitrary type `T`; the control-point arithmetic is not modelled.
 */
module Splines {
  import opened Wrappers

  datatype Point<T> = Point(x: T, y: T)

  /** A coordinate pair as read from the flat array; `None` stands for JavaScript `undefined`. */
  datatype Pair<T> = Pair(x: Option<T>, y: Option<T>)

  /**
   * The four pairs one `C` command is computed from: the point before the segment, its start,
   * its end (the `x2, y2` written into the path) and the point after it.
   */
  datatype Segment<T> = Segment(before: Pair<T>, from: Pair<T>, to: Pair<T>, after: Pair<T>)

  function Coords<T>(p: Point<T>): Pair<T>
  {
    Pair(Some(p.x), Some(p.y))
  }

  /** A JavaScript array read: the element at `k`, or `undefined` outside the array. */
  function At<X>(s: seq<Option<X>>, k: int): (r: Option<X>)
    ensures 0 <= k < |s| ==> r == s[k]
    ensures !(0 <= k < |s|) ==> r == None
  {
    if 0 <= k < |s| then s[k] else None
  }

  /** `points.map(({x, y}) => [x, y])`: every entry is a present pair. */
  function Somes<T>(points: seq<Point<T>>): (r: seq<Option<Point<T>>>)
    ensures |r| == |points|
    ensures forall k :: 0 <= k < |points| ==> r[k] == Some(points[k])
  {
    seq(|points|, k requires 0 <= k < |points| => Some(points[k]))
  }

  /** What `flat()` makes of one entry: a pair gives its two coordinates, `undefined` stays one element. */
  function Cells<T>(e: Option<Point<T>>): seq<Option<T>>
  {
    match e
    case Some(p) => [Some(p.x), Some(p.y)]
    case None => [None]
  }

  /** `Array.prototype.flat` over the entries. */
  function Flat<T>(entries: seq<Option<Point<T>>>): seq<Option<T>>
  {
    if entries == [] then [] else Cells(entries[0]) + Flat(entries[1..])
  }

  /** `flat` lists the coordinates of `ps` in order, x before y. */
  ghost predicate IsFlattening<T>(flat: seq<Option<T>>, ps: seq<Point<T>>)
  {
    |flat| == 2 * |ps| &&
    forall k :: 0 <= k < |ps| ==> flat[2 * k] == Some(ps[k].x) && flat[2 * k + 1] == Some(ps[k].y)
  }

  /**
   * The closed ring of `n` points with two points of context on either side: entry `j` is point
   * `j - 2` taken cyclically, so the ring reads p(n-2), p(n-1), p0 .. p(n-1), p0, p1.
   */
  function Wrapped<T>(points: seq<Point<T>>): (r: seq<Point<T>>)
    requires |points| >= 2
    ensures |r| == |points| + 4
  {
    var n := |points|;
    seq(n + 4, j requires 0 <= j < n + 4 =>
      if j < 2 then points[j + n - 2] else if j < n + 2 then points[j - 2] else points[j - n - 2])
  }

  /** Ring entries by position, for callers that index the ring. */
  lemma WrappedAt<T>(points: seq<Point<T>>, j: nat)
    requires |points| >= 2 && j < |points| + 4
    ensures j < 2 ==> Wrapped(points)[j] == points[j + |points| - 2]
    ensures 2 <= j < |points| + 2 ==> Wrapped(points)[j] == points[j - 2]
    ensures |points| + 2 <= j ==> Wrapped(points)[j] == points[j - |points| - 2]
  {
  }

  /** The flat entries of point `k`. */
  lemma FlatAt<T>(flat: seq<Option<T>>, ps: seq<Point<T>>, k: nat)
    requires IsFlattening(flat, ps) && k < |ps|
    ensures 2 * k + 1 < |flat| && flat[2 * k] == Some(ps[k].x) && flat[2 * k + 1] == Some(ps[k].y)
  {
  }

  /** Flattening present pairs only gives two coordinates per point, in order. */
  lemma {:induction false} FlatSomes<T>(ps: seq<Point<T>>)
    ensures IsFlattening(Flat(Somes(ps)), ps)
  {
    if ps != [] {
      assert Somes(ps)[1..] == Somes(ps[1..]);
      FlatSomes(ps[1..]);
      var rest := Flat(Somes(ps[1..]));
      assert Flat(Somes(ps)) == [Some(ps[0].x), Some(ps[0].y)] + rest;
      forall k | 1 <= k < |ps|
        ensures Flat(Somes(ps))[2 * k] == Some(ps[k].x) && Flat(Somes(ps))[2 * k + 1] == Some(ps[k].y)
      {
        assert ps[1..][k - 1] == ps[k];
        assert rest[2 * (k - 1)] == Some(ps[k].x);
      }
    }
  }

  /** The padded entries of the closed case are the ring's points. */
  lemma PaddedIsWrapped<T>(points: seq<Point<T>>)
    requires |points| >= 2
    ensures [Some(points[|points| - 2])] + ([Some(points[|points| - 1])] + Somes(points)) + [Some(points[0])] + [Some(points[1])]
         == Somes(Wrapped(points))
  {
    var left := [Some(points[|points| - 2])] + ([Some(points[|points| - 1])] + Somes(points)) + [Some(points[0])] + [Some(points[1])];
    forall j | 0 <= j < |points| + 4
      ensures left[j] == Somes(Wrapped(points))[j]
    {
    }
  }

  /**
   * `formatPoints`: an open path is the plain flattening of its points; a closed one is padded
   * with the last two points in front and the first two behind, reading `undefined` for the
   * points a short list lacks.
   */
  method FormatPoints<T>(points: seq<Point<T>>, close: bool) returns (flat: seq<Option<T>>)
    ensures !close ==> IsFlattening(flat, points)
    ensures close && |points| >= 2 ==> IsFlattening(flat, Wrapped(points))
    ensures close && |points| == 1 ==>
      var c := [Some(points[0].x), Some(points[0].y)];
      flat == [None] + c + c + c + [None]
    ensures close && |points| == 0 ==> flat == [None, None, None, None]
  {
    var pointMut := Somes(points);
    if close {
      var lastPoint := At(pointMut, |pointMut| - 1);
      var secondToLastPoint := At(pointMut, |pointMut| - 2);
      var firstPoint := At(pointMut, 0);
      var secondPoint := At(pointMut, 1);
      pointMut := [lastPoint] + pointMut;
      pointMut := [secondToLastPoint] + pointMut;
      pointMut := pointMut + [firstPoint];
      pointMut := pointMut + [secondPoint];
      if |points| >= 2 {
        PaddedIsWrapped(points);
        FlatSomes(Wrapped(points));
      } else if |points| == 1 {
        var e := Some(points[0]);
        var u: Option<Point<T>> := None;
        assert pointMut == [u, e, e, e, u];
        assert Flat([u]) == [None];
        assert Flat([e, u]) == Cells(e) + [None];
        assert Flat([e, e, u]) == Cells(e) + Cells(e) + [None];
        assert Flat([e, e, e, u]) == Cells(e) + Cells(e) + Cells(e) + [None];
      } else {
        var u: Option<Point<T>> := None;
        assert pointMut == [u, u, u, u];
        assert Flat([u]) == [None];
        assert Flat([u, u]) == [None, None];
        assert Flat([u, u, u]) == [None, None, None];
      }
    } else {
      FlatSomes(points);
    }
    flat := Flat(pointMut);
  }

  /**
   * The segment the loop body reads at flat index `i`: the previous pair (the first pair when
   * `i` is 0), the pairs at `i` and `i + 2`, and the pair at `i + 4` unless `i` is the last
   * start index, where the end pair is used again.
   */
  function Curve<T>(flat: seq<Option<T>>, i: nat): Segment<T>
    requires i + 4 <= |flat|
    requires i != |flat| - 4 ==> i + 6 <= |flat|
    requires i != 0 ==> i >= 2
  {
    var to := Pair(flat[i + 2], flat[i + 3]);
    Segment(if i != 0 then Pair(flat[i - 2], flat[i - 1]) else Pair(flat[0], flat[1]),
            Pair(flat[i], flat[i + 1]),
            to,
            if i != |flat| - 4 then Pair(flat[i + 4], flat[i + 5]) else to)
  }

  /** An open path's `k`-th segment runs from point `k` to point `k + 1`. */
  lemma OpenCurve<T>(flat: seq<Option<T>>, points: seq<Point<T>>, k: nat)
    requires IsFlattening(flat, points) && k + 2 <= |points|
    ensures Curve(flat, 2 * k).from == Coords(points[k])
    ensures Curve(flat, 2 * k).to == Coords(points[k + 1])
    ensures k == 0 ==> Curve(flat, 2 * k).before == Coords(points[0])
    ensures k > 0 ==> Curve(flat, 2 * k).before == Coords(points[k - 1])
    ensures k + 2 == |points| ==> Curve(flat, 2 * k).after == Coords(points[k + 1])
    ensures k + 2 < |points| ==> Curve(flat, 2 * k).after == Coords(points[k + 2])
  {
    assert flat[2 * (k + 1)] == Some(points[k + 1].x);
    if k > 0 {
      assert flat[2 * (k - 1)] == Some(points[k - 1].x);
    }
    if k + 2 < |points| {
      assert flat[2 * (k + 2)] == Some(points[k + 2].x);
    }
  }

  /** A closed path's `k`-th segment runs from ring entry `k + 1` to ring entry `k + 2`. */
  lemma ClosedCurve<T>(flat: seq<Option<T>>, points: seq<Point<T>>, k: nat)
    requires |points| >= 2 && IsFlattening(flat, Wrapped(points)) && k <= |points|
    ensures Curve(flat, 2 + 2 * k) == Segment(Coords(Wrapped(points)[k]), Coords(Wrapped(points)[k + 1]),
                                              Coords(Wrapped(points)[k + 2]), Coords(Wrapped(points)[k + 3]))
  {
    var w, i := Wrapped(points), 2 + 2 * k;
    FlatAt(flat, w, k);
    FlatAt(flat, w, k + 1);
    FlatAt(flat, w, k + 2);
    FlatAt(flat, w, k + 3);
    assert i - 2 == 2 * k && i == 2 * (k + 1) && i + 2 == 2 * (k + 2) && i + 4 == 2 * (k + 3);
  }

  /** The segments an open path's loop reads: each runs from one point to the next. */
  lemma OpenSegments<T>(flat: seq<Option<T>>, points: seq<Point<T>>, segments: seq<Segment<T>>)
    requires IsFlattening(flat, points) && |segments| == if |points| == 0 then 0 else |points| - 1
    requires forall k :: 0 <= k < |segments| ==> segments[k] == Curve(flat, 2 * k)
    ensures |segments| > 0 ==> segments[0].from == Coords(points[0])
    ensures forall k :: 0 <= k < |segments| ==> segments[k].to == Coords(points[k + 1])
    ensures |segments| > 0 ==> segments[0].before == segments[0].from
    ensures |segments| > 0 ==> segments[|segments| - 1].after == segments[|segments| - 1].to
  {
    forall k | 0 <= k < |segments|
      ensures segments[k].to == Coords(points[k + 1])
      ensures k == 0 ==> segments[k].before == segments[k].from && segments[k].from == Coords(points[0])
      ensures k == |segments| - 1 ==> segments[k].after == segments[k].to
    {
      OpenCurve(flat, points, k);
    }
  }

  /** The segments a closed path's loop reads: around the ring and back to the first point, twice over the first segment. */
  lemma ClosedSegments<T>(flat: seq<Option<T>>, points: seq<Point<T>>, segments: seq<Segment<T>>)
    requires |points| >= 2 && IsFlattening(flat, Wrapped(points)) && |segments| == |points| + 1
    requires forall k :: 0 <= k < |segments| ==> segments[k] == Curve(flat, 2 + 2 * k)
    ensures segments[0].from == Coords(points[|points| - 1])
    ensures forall k :: 0 <= k < |segments| ==> segments[k].to == Coords(points[if k < |points| then k else 0])
    ensures segments[|points|] == segments[0]
  {
    var n := |points|;
    forall k | 0 <= k < |segments|
      ensures segments[k].to == Coords(points[if k < n then k else 0])
    {
      ClosedCurve(flat, points, k);
      WrappedAt(points, k + 2);
    }
    ClosedCurve(flat, points, 0);
    ClosedCurve(flat, points, n);
    WrappedAt(points, 0);
    WrappedAt(points, 1);
    WrappedAt(points, 2);
    WrappedAt(points, 3);
    WrappedAt(points, n);
    WrappedAt(points, n + 1);
    WrappedAt(points, n + 2);
    WrappedAt(points, n + 3);
  }

  /**
   * `spline` without the control-point arithmetic: the move-to pair and the segments whose end
   * pairs are written into the path after each `C`. Every read inside the loop is in bounds;
   * the move-to read is `undefined` for an empty open path.
   */
  method Spline<T>(points: seq<Point<T>>, close: bool) returns (startX: Option<T>, startY: Option<T>, segments: seq<Segment<T>>)
    ensures (!close && |points| > 0) || (close && |points| >= 2) ==>
      Pair(startX, startY) == Coords(points[if close then |points| - 1 else 0])
    ensures close && |points| == 1 ==> startX == Some(points[0].y) && startY == Some(points[0].x)
    ensures |points| == 0 ==> startX == None && startY == None
    ensures !close ==> |segments| == if |points| == 0 then 0 else |points| - 1
    ensures close ==> |segments| == if |points| >= 2 then |points| + 1 else |points|
    ensures |segments| > 0 ==> segments[0].from == Pair(startX, startY)
    ensures forall k :: 0 < k < |segments| ==> segments[k].from == segments[k - 1].to
    ensures !close ==> forall k :: 0 <= k < |segments| ==> segments[k].to == Coords(points[k + 1])
    ensures close && |points| >= 2 ==>
      forall k :: 0 <= k < |segments| ==> segments[k].to == Coords(points[if k < |points| then k else 0])
    ensures close && |points| >= 2 ==> segments[|points|] == segments[0]
    ensures !close && |segments| > 0 ==> segments[0].before == segments[0].from
    ensures !close && |segments| > 0 ==> segments[|segments| - 1].after == segments[|segments| - 1].to
  {
    var flat := FormatPoints(points, close);
    var size := |flat|;
    var last := size - 4;
    startX := if close then At(flat, 2) else At(flat, 0);
    startY := if close then At(flat, 3) else At(flat, 1);
    var startIteration := if close then 2 else 0;
    var maxIteration := if close then size - 4 else size - 2;
    var i := startIteration;
    segments := [];
    while i < maxIteration
      invariant i == startIteration + 2 * |segments|
      invariant |segments| > 0 ==> i <= maxIteration
      invariant forall k :: 0 <= k < |segments| ==> segments[k] == Curve(flat, startIteration + 2 * k)
    {
      var x0 := if i != 0 then flat[i - 2] else flat[0];
      var y0 := if i != 0 then flat[i - 1] else flat[1];
      var x1 := flat[i + 0];
      var y1 := flat[i + 1];
      var x2 := flat[i + 2];
      var y2 := flat[i + 3];
      var x3 := if i != last then flat[i + 4] else x2;
      var y3 := if i != last then flat[i + 5] else y2;
      segments := segments + [Segment(Pair(x0, y0), Pair(x1, y1), Pair(x2, y2), Pair(x3, y3))];
      i := i + 2;
    }
    if !close {
      OpenSegments(flat, points, segments);
    } else if |points| >= 2 {
      ClosedSegments(flat, points, segments);
    }
  }
}
