/** The corner geometry both `useDraggable` hooks share
    (apps/tenant-insurance/hooks/useDraggable.ts and
    frontend/src/hooks/useDraggable.ts): the four corner positions of a
    64-pixel element kept `gap` pixels from the window edges, and the snap
    to the nearest of them.

    Coordinates are whole pixels. `Math.sqrt` is monotone, so comparing
    distances is comparing squared distances, which the model does exactly. */
module Corners {
  import opened Wrappers

  datatype Pos = Pos(x: int, y: int)
  datatype Viewport = Viewport(width: int, height: int)
  datatype Corner = TopLeft | TopRight | BottomLeft | BottomRight

  const ElementSize: int := 64

  /** The order of the `corners` array, which decides ties. */
  const CornerOrder: seq<Corner> := [TopLeft, TopRight, BottomLeft, BottomRight]

  /** `getCornerPosition` with a window: the element's top-left point in
      each corner. */
  function CornerPosition(view: Viewport, gap: int, c: Corner): (p: Pos)
    ensures p.x == if c in {TopLeft, BottomLeft} then gap else view.width - gap - ElementSize
    ensures p.y == if c in {TopLeft, TopRight} then gap else view.height - gap - ElementSize
    ensures c in {TopRight, BottomRight} ==> view.width - (p.x + ElementSize) == gap
    ensures c in {BottomLeft, BottomRight} ==> view.height - (p.y + ElementSize) == gap
  {
    match c
    case TopLeft => Pos(gap, gap)
    case TopRight => Pos(view.width - gap - ElementSize, gap)
    case BottomLeft => Pos(gap, view.height - gap - ElementSize)
    case BottomRight => Pos(view.width - gap - ElementSize, view.height - gap - ElementSize)
  }

  /** The `corners` array of `snapToNearestCorner`. */
  function CornerList(view: Viewport, gap: int): (cs: seq<Pos>)
    ensures |cs| == |CornerOrder|
    ensures forall i :: 0 <= i < |cs| ==> cs[i] == CornerPosition(view, gap, CornerOrder[i])
  {
    [Pos(gap, gap), Pos(view.width - gap - ElementSize, gap), Pos(gap, view.height - gap - ElementSize),
     Pos(view.width - gap - ElementSize, view.height - gap - ElementSize)]
  }

  function SquaredDistance(p: Pos, q: Pos): int {
    (p.x - q.x) * (p.x - q.x) + (p.y - q.y) * (p.y - q.y)
  }

  lemma SquaredDistanceZero(p: Pos, q: Pos)
    ensures SquaredDistance(p, q) >= 0
    ensures SquaredDistance(p, q) == 0 <==> p == q
  {
    var dx, dy := p.x - q.x, p.y - q.y;
    assert dx * dx >= 0 && dy * dy >= 0;
    if dx != 0 {
      assert dx * dx > 0;
    }
    if dy != 0 {
      assert dy * dy > 0;
    }
  }

  /** `cs[i]` is no farther from `p` than any other entry, and strictly
      nearer than every entry before it: what a scan with a strict `<`
      keeps. */
  predicate IsNearest(cs: seq<Pos>, p: Pos, i: int) {
    && 0 <= i < |cs|
    && (forall j :: 0 <= j < |cs| ==> SquaredDistance(p, cs[i]) <= SquaredDistance(p, cs[j]))
    && (forall j :: 0 <= j < i ==> SquaredDistance(p, cs[j]) > SquaredDistance(p, cs[i]))
  }

  /** `snapToNearestCorner`: the scan over the four corners, keeping the
      first one strictly nearer than everything seen so far; the best
      distance starts as `Infinity`, here `None`. */
  method SnapToNearestCorner(view: Viewport, gap: int, p: Pos) returns (nearest: Pos, index: int)
    ensures IsNearest(CornerList(view, gap), p, index)
    ensures nearest == CornerList(view, gap)[index] == CornerPosition(view, gap, CornerOrder[index])
  {
    var corners := CornerList(view, gap);
    nearest, index := corners[0], 0;
    var minDistance: Option<int> := None;
    var k := 0;
    while k < |corners|
      invariant 0 <= k <= |corners|
      invariant 0 <= index < |corners| && nearest == corners[index]
      invariant k == 0 ==> index == 0 && minDistance.None?
      invariant k > 0 ==> index < k && minDistance == Some(SquaredDistance(p, corners[index]))
      invariant forall j :: 0 <= j < k ==> SquaredDistance(p, corners[index]) <= SquaredDistance(p, corners[j])
      invariant forall j :: 0 <= j < index ==> SquaredDistance(p, corners[j]) > SquaredDistance(p, corners[index])
    {
      var distance := SquaredDistance(p, corners[k]);
      if minDistance.None? || distance < minDistance.value {
        minDistance := Some(distance);
        nearest, index := corners[k], k;
      }
      k := k + 1;
    }
  }

  /** At most one entry is the nearest in that sense. */
  lemma NearestUnique(cs: seq<Pos>, p: Pos, i: int, j: int)
    requires IsNearest(cs, p, i) && IsNearest(cs, p, j)
    ensures i == j
  {
    var di, dj := SquaredDistance(p, cs[i]), SquaredDistance(p, cs[j]);
    assert di <= dj && dj <= di;
  }

  /** Snapping a point that is one of the corners returns that point. */
  lemma SnapOfCorner(cs: seq<Pos>, k: int, i: int)
    requires 0 <= k < |cs| && IsNearest(cs, cs[k], i)
    ensures cs[i] == cs[k]
  {
    SquaredDistanceZero(cs[k], cs[k]);
    SquaredDistanceZero(cs[k], cs[i]);
  }

  /** Snapping is idempotent: the snap of a snapped point is that point. */
  lemma SnapIdempotent(cs: seq<Pos>, p: Pos, i: int, i': int)
    requires IsNearest(cs, p, i) && IsNearest(cs, cs[i], i')
    ensures cs[i'] == cs[i]
  {
    SnapOfCorner(cs, i, i');
  }
}
