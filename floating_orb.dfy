/** The floating orb (apps/fe/src/pagemate/FloatingOrb.tsx): where the
    471 x 577 chat view opens next to the orb, kept 8 pixels inside the
    window, and how a click is told apart from the end of a drag.

    The orb's bounding box and the window size are parameters of the
    method that reads them; coordinates are whole pixels. */
module FloatingOrb {
  import opened Wrappers
  import opened Corners

  const ViewWidth: int := 471
  const ViewHeight: int := 577
  const ViewGap: int := 24
  const Margin: int := 8
  const ClickThreshold: int := 5

  /** `getBoundingClientRect()` of the orb. */
  datatype Rect = Rect(top: int, left: int, bottom: int, right: int)

  datatype ViewPosition = ViewPosition(top: int, left: int)

  /** The corner the orb is in: top when its top edge is above the middle
      of the window, left when its left edge is left of the middle. */
  function CornerOf(orb: Rect, view: Viewport): (c: Corner)
    ensures c in {TopLeft, TopRight} <==> 2 * orb.top < view.height
    ensures c in {TopLeft, BottomLeft} <==> 2 * orb.left < view.width
  {
    var isTop, isLeft := 2 * orb.top < view.height, 2 * orb.left < view.width;
    if isTop then (if isLeft then TopLeft else TopRight)
    else (if isLeft then BottomLeft else BottomRight)
  }

  /** The view's top before clamping: above the orb in a bottom corner,
      below it in a top corner. */
  function RawTop(orb: Rect, c: Corner): int {
    if c in {BottomLeft, BottomRight} then orb.top - ViewHeight - ViewGap else orb.bottom + ViewGap
  }

  /** The view's left before clamping: its right edge on the orb's right
      edge in a right corner, its left edge on the orb's in a left corner. */
  function RawLeft(orb: Rect, c: Corner): int {
    if c in {TopRight, BottomRight} then orb.right - ViewWidth else orb.left
  }

  /** `Math.max(lo, Math.min(v, hi))` */
  function Clamp(v: int, lo: int, hi: int): (r: int)
    ensures r >= lo
    ensures lo <= hi ==> r <= hi
    ensures lo <= v <= hi ==> r == v
    ensures v < lo ==> r == lo
    ensures lo <= hi < v ==> r == hi
  {
    if v <= hi then (if v >= lo then v else lo) else (if hi >= lo then hi else lo)
  }

  /** The clamped position of the view for an orb in its corner. */
  function Placement(orb: Rect, view: Viewport): ViewPosition {
    var c := CornerOf(orb, view);
    ViewPosition(Clamp(RawTop(orb, c), Margin, view.height - ViewHeight - Margin),
                 Clamp(RawLeft(orb, c), Margin, view.width - ViewWidth - Margin))
  }

  /** The view always starts at least 8 pixels from the top and left edges;
      in a window big enough for it, it also ends at least 8 pixels from
      the bottom and right edges; and when the unclamped spot already fits,
      it is kept. */
  lemma PlacementInWindow(orb: Rect, view: Viewport)
    ensures var p := Placement(orb, view);
      && p.top >= Margin && p.left >= Margin
      && (view.width >= ViewWidth + 2 * Margin ==> p.left + ViewWidth + Margin <= view.width)
      && (view.height >= ViewHeight + 2 * Margin ==> p.top + ViewHeight + Margin <= view.height)
  {
  }

  /** In a bottom corner the view opens above the orb and in a top corner
      below it; in a right corner it is right-aligned with the orb and in a
      left corner left-aligned — whenever that spot fits the window. */
  lemma PlacementBesideOrb(orb: Rect, view: Viewport)
    ensures var c, p := CornerOf(orb, view), Placement(orb, view);
      && (Margin <= RawTop(orb, c) <= view.height - ViewHeight - Margin ==>
            p.top == (if 2 * orb.top < view.height then orb.bottom + ViewGap else orb.top - ViewHeight - ViewGap))
      && (Margin <= RawLeft(orb, c) <= view.width - ViewWidth - Margin ==>
            p.left == (if 2 * orb.left < view.width then orb.left else orb.right - ViewWidth))
  {
  }

  class Orb {
    var showView: bool
    var viewPosition: ViewPosition
    var currentCorner: Corner
    var dragStartPos: Option<Pos>

    constructor (initialCorner: Corner)
      ensures !showView && viewPosition == ViewPosition(0, 0) && currentCorner == initialCorner && dragStartPos == None
    {
      showView, viewPosition, currentCorner, dragStartPos := false, ViewPosition(0, 0), initialCorner, None;
    }

    /** `updateViewPosition`: nothing without a mounted orb; otherwise the
        view is placed next to the orb and the orb's corner recorded. */
    method UpdateViewPosition(orb: Option<Rect>, view: Viewport)
      modifies this
      ensures orb.None? ==> viewPosition == old(viewPosition) && currentCorner == old(currentCorner)
      ensures orb.Some? ==> viewPosition == Placement(orb.value, view) && currentCorner == CornerOf(orb.value, view)
      ensures showView == old(showView) && dragStartPos == old(dragStartPos)
    {
      if orb.None? {
        return;
      }
      var rect := orb.value;
      var corner := CornerOf(rect, view);
      var top, left := 0, 0;
      if corner in {BottomLeft, BottomRight} {
        top := rect.top - ViewHeight - ViewGap;
      } else {
        top := rect.bottom + ViewGap;
      }
      if corner in {TopRight, BottomRight} {
        left := rect.right - ViewWidth;
      } else {
        left := rect.left;
      }
      left := Clamp(left, Margin, view.width - ViewWidth - Margin);
      top := Clamp(top, Margin, view.height - ViewHeight - Margin);
      viewPosition := ViewPosition(top, left);
      currentCorner := corner;
    }

    /** The orb's `handleMouseDown`: remembers where the press was. */
    method MouseDown(pointer: Pos)
      modifies this
      ensures dragStartPos == Some(pointer)
      ensures showView == old(showView) && viewPosition == old(viewPosition) && currentCorner == old(currentCorner)
    {
      dragStartPos := Some(pointer);
    }

    /** `handleOrbClick`: ignored during a drag; a click more than 5 pixels
        from the press on either axis was a drag, so it only forgets the
        press; any other click toggles the view. */
    method Click(pointer: Pos, isDragging: bool)
      modifies this
      ensures var moved := old(dragStartPos).Some? && Moved(old(dragStartPos).value, pointer);
        && (showView <==> if isDragging || moved then old(showView) else !old(showView))
        && (dragStartPos == if !isDragging && moved then None else old(dragStartPos))
      ensures viewPosition == old(viewPosition) && currentCorner == old(currentCorner)
    {
      if isDragging {
        return;
      }
      if dragStartPos.Some? {
        var dx := Abs(pointer.x - dragStartPos.value.x);
        var dy := Abs(pointer.y - dragStartPos.value.y);
        if dx > ClickThreshold || dy > ClickThreshold {
          dragStartPos := None;
          return;
        }
      }
      showView := !showView;
    }
  }

  function Abs(n: int): (r: int)
    ensures r >= 0 && (r == n || r == -n)
  {
    if n < 0 then -n else n
  }

  /** The pointer went more than 5 pixels from the press on some axis. */
  predicate Moved(start: Pos, pointer: Pos) {
    Abs(pointer.x - start.x) > ClickThreshold || Abs(pointer.y - start.y) > ClickThreshold
  }

  /** A click within 5 pixels of the press on both axes, or with no press
      recorded, is not a drag; one beyond 5 pixels on either axis is. */
  lemma MovedSpec(start: Pos, pointer: Pos)
    ensures !Moved(start, pointer) <==>
              -ClickThreshold <= pointer.x - start.x <= ClickThreshold && -ClickThreshold <= pointer.y - start.y <= ClickThreshold
  {
  }
}
