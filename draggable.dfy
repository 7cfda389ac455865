/** The draggable hook of the tenant-insurance widget
    (apps/tenant-insurance/hooks/useDraggable.ts): the element sits
    anchored in a corner by CSS offsets until the first press, then at an
    explicit position that follows the pointer and snaps to the nearest
    corner on release.

    The listeners the effects attach are not modelled; each handler is a
    method, called with what it reads from the event and the window. The
    touch handlers do what the mouse handlers do with the first touch
    point, so one method models each pair. */
module Draggable {
  import opened Wrappers
  import opened Corners

  /** `getCornerPosition`: outside a browser every corner is (0, 0). */
  function GetCornerPosition(window: Option<Viewport>, gap: int, c: Corner): (p: Pos)
    ensures window.None? ==> p == Pos(0, 0)
    ensures window.Some? ==> p == CornerPosition(window.value, gap, c)
  {
    if window.None? then Pos(0, 0) else CornerPosition(window.value, gap, c)
  }

  /** The inline style: the CSS offsets set (in pixels) and the cursor and
      transition. */
  datatype Style = Style(top: Option<int>, right: Option<int>, bottom: Option<int>, left: Option<int>,
                         cursor: string, transition: string)

  const Grab: string := "grab"
  const Grabbing: string := "grabbing"
  const Ease: string := "all 0.3s cubic-bezier(0.4, 0.0, 0.2, 1)"
  const NoTransition: string := "none"

  /** `getCSSPosition`, inside the style used before the first drag. */
  function AnchoredStyle(corner: Corner, gap: int): (s: Style)
    ensures s.cursor == Grab && s.transition == Ease
  {
    match corner
    case TopLeft => Style(Some(gap), None, None, Some(gap), Grab, Ease)
    case TopRight => Style(Some(gap), Some(gap), None, None, Grab, Ease)
    case BottomLeft => Style(None, None, Some(gap), Some(gap), Grab, Ease)
    case BottomRight => Style(None, Some(gap), Some(gap), None, Grab, Ease)
  }

  /** The style after the first drag: placed at the position. */
  function PlacedStyle(p: Pos, dragging: bool): (s: Style)
    ensures s.left == Some(p.x) && s.top == Some(p.y) && s.right.None? && s.bottom.None?
    ensures s.cursor == (if dragging then Grabbing else Grab)
    ensures s.transition == (if dragging then NoTransition else Ease)
  {
    Style(Some(p.y), None, None, Some(p.x), if dragging then Grabbing else Grab, if dragging then NoTransition else Ease)
  }

  /** Where a style puts the top-left point of the 64-pixel element in a
      window, when it sets one horizontal and one vertical offset. */
  function PlacedAt(s: Style, view: Viewport): Option<Pos> {
    var x := if s.left.Some? then Some(s.left.value)
             else if s.right.Some? then Some(view.width - s.right.value - ElementSize) else None;
    var y := if s.top.Some? then Some(s.top.value)
             else if s.bottom.Some? then Some(view.height - s.bottom.value - ElementSize) else None;
    if x.Some? && y.Some? then Some(Pos(x.value, y.value)) else None
  }

  /** The anchored style puts the element where `getCornerPosition` says
      that corner is, and the placed style where the position is. */
  lemma StylesAgree(corner: Corner, gap: int, view: Viewport, p: Pos, dragging: bool)
    ensures PlacedAt(AnchoredStyle(corner, gap), view) == Some(CornerPosition(view, gap, corner))
    ensures PlacedAt(PlacedStyle(p, dragging), view) == Some(p)
  {
  }

  class Draggable {
    const snapToCorners: bool
    const cornerGap: int
    const initialCorner: Corner
    var isDragging: bool
    var hasBeenDragged: bool
    var position: Option<Pos>
    var dragStart: Pos
    var elementStart: Pos

    /** A position exists exactly once the element has been pressed, and a
        drag only happens after that. */
    predicate Valid()
      reads this
    {
      && (hasBeenDragged <==> position.Some?)
      && (isDragging ==> hasBeenDragged)
    }

    /** The hook's options, with their defaults `true`, 48 and bottom-right
        left to the caller. */
    constructor (snap: bool, gap: int, corner: Corner)
      ensures Valid()
      ensures snapToCorners == snap && cornerGap == gap && initialCorner == corner
      ensures !isDragging && !hasBeenDragged && position == None
      ensures dragStart == Pos(0, 0) && elementStart == Pos(0, 0)
    {
      snapToCorners, cornerGap, initialCorner := snap, gap, corner;
      isDragging, hasBeenDragged, position := false, false, None;
      dragStart, elementStart := Pos(0, 0), Pos(0, 0);
    }

    /** The returned `style`. */
    function CurrentStyle(): (s: Style)
      reads this
      ensures hasBeenDragged && position.Some? ==> s == PlacedStyle(position.value, isDragging)
      ensures !(hasBeenDragged && position.Some?) ==> s == AnchoredStyle(initialCorner, cornerGap)
    {
      if hasBeenDragged && position.Some? then PlacedStyle(position.value, isDragging)
      else AnchoredStyle(initialCorner, cornerGap)
    }

    /** `handleMouseDown` / `handleTouchStart`. `element` is the element's
        bounding box corner, `None` when the element is not mounted. The
        first press starts from where the CSS placed the element; later
        ones from the position. */
    method Press(element: Option<Pos>, pointer: Pos)
      requires Valid()
      modifies this
      ensures Valid()
      ensures element.None? ==>
                isDragging == old(isDragging) && hasBeenDragged == old(hasBeenDragged) && position == old(position)
                && dragStart == old(dragStart) && elementStart == old(elementStart)
      ensures element.Some? ==> isDragging && hasBeenDragged && dragStart == pointer
      ensures element.Some? && !old(hasBeenDragged) ==>
                position == Some(element.value) && elementStart == element.value
      ensures element.Some? && old(hasBeenDragged) ==>
                position == old(position) && elementStart == old(position).GetOr(Pos(0, 0))
    {
      if element.None? {
        return;
      }
      if !hasBeenDragged {
        position := Some(element.value);
        elementStart := element.value;
        hasBeenDragged := true;
      } else {
        elementStart := position.GetOr(Pos(0, 0));
      }
      isDragging := true;
      dragStart := pointer;
    }

    /** `handleMouseMove` / `handleTouchMove`: while dragging, the element
        moves by the pointer's offset from where the press was. */
    method Move(pointer: Pos)
      requires Valid()
      modifies this
      ensures Valid()
      ensures !old(isDragging) || old(position).None? ==> position == old(position)
      ensures old(isDragging) && old(position).Some? ==>
                position == Some(Pos(elementStart.x + (pointer.x - dragStart.x), elementStart.y + (pointer.y - dragStart.y)))
      ensures isDragging == old(isDragging) && hasBeenDragged == old(hasBeenDragged)
      ensures dragStart == old(dragStart) && elementStart == old(elementStart)
    {
      if !isDragging || position.None? {
        return;
      }
      position := Some(Pos(elementStart.x + (pointer.x - dragStart.x), elementStart.y + (pointer.y - dragStart.y)));
    }

    /** `handleMouseUp` / `handleTouchEnd`: ends the drag and reports the
        final position to `onDragEnd` — the nearest corner when snapping,
        the position as it is otherwise. */
    method Release(view: Viewport) returns (reported: Option<Pos>)
      requires Valid()
      modifies this
      ensures Valid()
      ensures !old(isDragging) ==> reported == None && position == old(position) && isDragging == old(isDragging)
      ensures old(isDragging) ==> !isDragging && reported == position && position.Some?
      ensures old(isDragging) && !snapToCorners ==> position == old(position)
      ensures old(isDragging) && snapToCorners ==>
                exists i :: IsNearest(CornerList(view, cornerGap), old(position).value, i)
                            && position == Some(CornerList(view, cornerGap)[i])
      ensures hasBeenDragged == old(hasBeenDragged) && dragStart == old(dragStart) && elementStart == old(elementStart)
    {
      if !isDragging || position.None? {
        return None;
      }
      isDragging := false;
      if snapToCorners {
        var snapped, i := SnapToNearestCorner(view, cornerGap, position.value);
        position := Some(snapped);
      }
      reported := position;
    }

    /** The resize handler: once placed, a snapping element moves to the
        corner nearest to it in the resized window. */
    method Resize(view: Viewport)
      requires Valid()
      modifies this
      ensures Valid()
      ensures !(snapToCorners && old(position).Some?) ==> position == old(position)
      ensures snapToCorners && old(position).Some? ==>
                exists i :: IsNearest(CornerList(view, cornerGap), old(position).value, i)
                            && position == Some(CornerList(view, cornerGap)[i])
      ensures isDragging == old(isDragging) && hasBeenDragged == old(hasBeenDragged)
      ensures dragStart == old(dragStart) && elementStart == old(elementStart)
    {
      if !hasBeenDragged || position.None? || !snapToCorners {
        return;
      }
      var snapped, i := SnapToNearestCorner(view, cornerGap, position.value);
      position := Some(snapped);
    }
  }
}
