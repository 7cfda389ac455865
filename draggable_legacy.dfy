/** The earlier draggable hook (frontend/src/hooks/useDraggable.ts): the
    element always has a position, starting 112 pixels from the right and
    bottom edges and snapped to the nearest corner once mounted; presses,
    moves and releases work as in the later hook, without the anchored
    first state.

    As there, each handler is a method taking what it reads from the event
    and the window, and one method models each mouse/touch pair. */
module LegacyDraggable {
  import opened Wrappers
  import opened Corners

  /** The offset of the first position from the right and bottom edges:
      the default gap of 48 plus the 64-pixel element. */
  const StartOffset: int := 112
  const DefaultGap: int := 48

  /** The position before mount: (0, 0) outside a browser. */
  function StartPosition(window: Option<Viewport>): Pos {
    if window.None? then Pos(0, 0)
    else Pos(window.value.width - StartOffset, window.value.height - StartOffset)
  }

  /** With the default gap the start point is the bottom-right corner, so
      the mount snap keeps it where it is. */
  lemma StartIsBottomRight(view: Viewport, i: int)
    requires IsNearest(CornerList(view, DefaultGap), StartPosition(Some(view)), i)
    ensures CornerList(view, DefaultGap)[i] == StartPosition(Some(view))
    ensures StartPosition(Some(view)) == CornerPosition(view, DefaultGap, BottomRight)
  {
    var cs := CornerList(view, DefaultGap);
    assert cs[3] == StartPosition(Some(view));
    SnapOfCorner(cs, 3, i);
  }

  class Draggable {
    const snapToCorners: bool
    const cornerGap: int
    var isDragging: bool
    var position: Pos
    var dragStart: Pos
    var elementStart: Pos

    constructor (snap: bool, gap: int, window: Option<Viewport>)
      ensures snapToCorners == snap && cornerGap == gap
      ensures !isDragging && position == StartPosition(window)
      ensures dragStart == Pos(0, 0) && elementStart == Pos(0, 0)
    {
      snapToCorners, cornerGap := snap, gap;
      isDragging, position := false, StartPosition(window);
      dragStart, elementStart := Pos(0, 0), Pos(0, 0);
    }

    /** The mount effect: in a browser the position becomes the corner
        nearest to the start point, whether or not snapping is on. */
    method Mount(window: Option<Viewport>)
      modifies this
      ensures window.None? ==> position == old(position)
      ensures window.Some? ==>
                exists i :: IsNearest(CornerList(window.value, cornerGap), StartPosition(window), i)
                            && position == CornerList(window.value, cornerGap)[i]
      ensures isDragging == old(isDragging) && dragStart == old(dragStart) && elementStart == old(elementStart)
    {
      if window.Some? {
        var snapped, i := SnapToNearestCorner(window.value, cornerGap, StartPosition(window));
        position := snapped;
      }
    }

    /** `handleMouseDown` / `handleTouchStart`: a press on a mounted element
        starts a drag from the current position. */
    method Press(mounted: bool, pointer: Pos)
      modifies this
      ensures !mounted ==> isDragging == old(isDragging) && dragStart == old(dragStart) && elementStart == old(elementStart)
      ensures mounted ==> isDragging && dragStart == pointer && elementStart == old(position)
      ensures position == old(position)
    {
      if !mounted {
        return;
      }
      isDragging := true;
      dragStart := pointer;
      elementStart := position;
    }

    /** `handleMouseMove` / `handleTouchMove` */
    method Move(pointer: Pos)
      modifies this
      ensures !old(isDragging) ==> position == old(position)
      ensures old(isDragging) ==>
                position == Pos(elementStart.x + (pointer.x - dragStart.x), elementStart.y + (pointer.y - dragStart.y))
      ensures isDragging == old(isDragging) && dragStart == old(dragStart) && elementStart == old(elementStart)
    {
      if !isDragging {
        return;
      }
      position := Pos(elementStart.x + (pointer.x - dragStart.x), elementStart.y + (pointer.y - dragStart.y));
    }

    /** `handleMouseUp` / `handleTouchEnd`: ends the drag and reports the
        final position, snapped to a corner when snapping is on. */
    method Release(view: Viewport) returns (reported: Option<Pos>)
      modifies this
      ensures !old(isDragging) ==> reported == None && position == old(position) && isDragging == old(isDragging)
      ensures old(isDragging) ==> !isDragging && reported == Some(position)
      ensures old(isDragging) && !snapToCorners ==> position == old(position)
      ensures old(isDragging) && snapToCorners ==>
                exists i :: IsNearest(CornerList(view, cornerGap), old(position), i)
                            && position == CornerList(view, cornerGap)[i]
      ensures dragStart == old(dragStart) && elementStart == old(elementStart)
    {
      if !isDragging {
        return None;
      }
      isDragging := false;
      if snapToCorners {
        var snapped, i := SnapToNearestCorner(view, cornerGap, position);
        position := snapped;
      }
      reported := Some(position);
    }

    /** The resize handler: a snapping element moves to the corner nearest
        to it in the resized window. */
    method Resize(view: Viewport)
      modifies this
      ensures !snapToCorners ==> position == old(position)
      ensures snapToCorners ==>
                exists i :: IsNearest(CornerList(view, cornerGap), old(position), i)
                            && position == CornerList(view, cornerGap)[i]
      ensures isDragging == old(isDragging) && dragStart == old(dragStart) && elementStart == old(elementStart)
    {
      if snapToCorners {
        var snapped, i := SnapToNearestCorner(view, cornerGap, position);
        position := snapped;
      }
    }
  }
}
