/**
 * The drag and resize gesture of `DraggableResizableText`: pointer-down on the box starts a drag,
 * pointer-down on one of the three handles starts a resize in that direction, every pointer move
 * emits a patch computed from the snapshot taken at pointer-down, and pointer-up ends the gesture.
 * The `onSelect` callback and the DOM listener bookkeeping are the caller's; the container's bounding
 * rectangle is an input of each move. The template editor imports the component but no page renders
 * it, so the gesture is modelled as the component is written.
 */
module DraggableResizableText {
  import opened Wrappers

  /** Which handle started a resize. */
  datatype Dir = Right | Bottom | Corner

  datatype Point = Point(x: real, y: real)

  /** The element's position (percentages) and size (pixels) when the gesture started. */
  datatype Box = Box(x: real, y: real, width: real, height: real)

  type Positive = r: real | r > 0.0 witness 1.0

  /** The container's bounding rectangle, in pixels; a laid-out container has a positive size. */
  datatype Rect = Rect(width: Positive, height: Positive)

  /** The partial update handed to `onChange`: a drag moves, a resize resizes. */
  datatype Patch = Move(x: real, y: real) | Resize(width: real, height: real)

  datatype Mode = Idle | Dragging | Resizing(dir: Dir)

  const MinWidth: real := 30.0
  const MinHeight: real := 20.0

  function Max(a: real, b: real): (r: real)
    ensures r >= a && r >= b && (r == a || r == b)
  {
    if a >= b then a else b
  }

  function Min(a: real, b: real): (r: real)
    ensures r <= a && r <= b && (r == a || r == b)
  {
    if a <= b then a else b
  }

  /** `Math.max(0, Math.min(100, v))`: `v` when it is a percentage, else the nearer bound. */
  function ClampPercent(v: real): (r: real)
    ensures 0.0 <= r <= 100.0
    ensures 0.0 <= v <= 100.0 ==> r == v
    ensures v < 0.0 ==> r == 0.0
    ensures v > 100.0 ==> r == 100.0
  {
    Max(0.0, Min(100.0, v))
  }

  /**
   * A drag move: the start position plus the pointer delta, divided by the container size, as a
   * clamped percentage. The start position is already a percentage and the delta is in pixels; the
   * two are added as they are.
   */
  function DragPatch(startBox: Box, start: Point, pointer: Point, rect: Rect): (p: Patch)
    ensures p.Move? && 0.0 <= p.x <= 100.0 && 0.0 <= p.y <= 100.0
    ensures var rawX := (startBox.x + (pointer.x - start.x)) / rect.width * 100.0;
      && (0.0 <= rawX <= 100.0 ==> p.x == rawX)
      && (rawX < 0.0 ==> p.x == 0.0)
      && (rawX > 100.0 ==> p.x == 100.0)
    ensures var rawY := (startBox.y + (pointer.y - start.y)) / rect.height * 100.0;
      && (0.0 <= rawY <= 100.0 ==> p.y == rawY)
      && (rawY < 0.0 ==> p.y == 0.0)
      && (rawY > 100.0 ==> p.y == 100.0)
  {
    var dx := pointer.x - start.x;
    var dy := pointer.y - start.y;
    Move(ClampPercent((startBox.x + dx) / rect.width * 100.0), ClampPercent((startBox.y + dy) / rect.height * 100.0))
  }

  predicate ResizesWidth(dir: Dir) {
    dir == Right || dir == Corner
  }

  predicate ResizesHeight(dir: Dir) {
    dir == Bottom || dir == Corner
  }

  /**
   * A resize move: the dimensions the handle controls follow the pointer delta but stay at or above
   * their minimum; the other dimension keeps its start value.
   */
  function ResizePatch(dir: Dir, startBox: Box, start: Point, pointer: Point): (p: Patch)
    ensures p.Resize?
    ensures ResizesWidth(dir) ==> p.width >= MinWidth
    ensures ResizesWidth(dir) && startBox.width + (pointer.x - start.x) >= MinWidth ==> p.width == startBox.width + (pointer.x - start.x)
    ensures ResizesWidth(dir) && startBox.width + (pointer.x - start.x) < MinWidth ==> p.width == MinWidth
    ensures !ResizesWidth(dir) ==> p.width == startBox.width
    ensures ResizesHeight(dir) ==> p.height >= MinHeight
    ensures ResizesHeight(dir) && startBox.height + (pointer.y - start.y) >= MinHeight ==> p.height == startBox.height + (pointer.y - start.y)
    ensures ResizesHeight(dir) && startBox.height + (pointer.y - start.y) < MinHeight ==> p.height == MinHeight
    ensures !ResizesHeight(dir) ==> p.height == startBox.height
  {
    var w := if ResizesWidth(dir) then Max(MinWidth, startBox.width + (pointer.x - start.x)) else startBox.width;
    var h := if ResizesHeight(dir) then Max(MinHeight, startBox.height + (pointer.y - start.y)) else startBox.height;
    Resize(w, h)
  }

  /**
   * What one pointer move emits in a mode: nothing when idle or when the drag finds no container, a
   * position for a drag and a size for a resize.
   */
  function MovePatch(mode: Mode, start: Point, startBox: Box, pointer: Point, container: Option<Rect>): (p: Option<Patch>)
    ensures mode == Idle ==> p == None
    ensures mode == Dragging ==> (p.Some? <==> container.Some?) && (p.Some? ==> p.value.Move?)
    ensures mode == Dragging && container.Some? ==> p == Some(DragPatch(startBox, start, pointer, container.value))
    ensures mode.Resizing? ==> p.Some? && p.value.Resize?
    ensures mode.Resizing? ==> p == Some(ResizePatch(mode.dir, startBox, start, pointer))
  {
    match mode
    case Idle => None
    case Dragging => if container.Some? then Some(DragPatch(startBox, start, pointer, container.value)) else None
    case Resizing(dir) => Some(ResizePatch(dir, startBox, start, pointer))
  }

  /** Moves are computed from the snapshot: shifting the start and the pointer alike changes nothing. */
  lemma MoveDependsOnDeltaOnly(mode: Mode, start: Point, startBox: Box, pointer: Point, container: Option<Rect>, d: Point)
    ensures MovePatch(mode, Point(start.x + d.x, start.y + d.y), startBox, Point(pointer.x + d.x, pointer.y + d.y), container)
      == MovePatch(mode, start, startBox, pointer, container)
  {
    var s2 := Point(start.x + d.x, start.y + d.y);
    var q2 := Point(pointer.x + d.x, pointer.y + d.y);
    assert q2.x - s2.x == pointer.x - start.x && q2.y - s2.y == pointer.y - start.y;
  }

  /** A pointer that has not moved leaves a resize at its start size, when that size respects the minimums. */
  lemma ResizeAtStartKeepsBox(dir: Dir, startBox: Box, start: Point)
    requires startBox.width >= MinWidth && startBox.height >= MinHeight
    ensures ResizePatch(dir, startBox, start, start) == Resize(startBox.width, startBox.height)
  {
  }

  /** The listener state of one rendered box. */
  class Gesture {
    var dragging: bool
    var resizing: Option<Dir>
    var start: Point
    var startBox: Box

    /** The initial state for a box: idle, pointer snapshot at the origin. */
    constructor(box: Box)
      ensures !dragging && resizing == None && start == Point(0.0, 0.0) && startBox == box
      ensures Mode() == Idle
    {
      dragging := false;
      resizing := None;
      start := Point(0.0, 0.0);
      startBox := box;
    }

    /** The machine state the move handler sees: a drag takes precedence over a resize. */
    function Mode(): Mode
      reads this
    {
      if dragging then Dragging else if resizing.Some? then Resizing(resizing.value) else Idle
    }

    /** Pointer-down on the box: a drag starts from this pointer and this box. */
    method OnMouseDown(pointer: Point, box: Box)
      modifies this
      ensures dragging && resizing == old(resizing) && start == pointer && startBox == box
      ensures Mode() == Dragging
    {
      dragging := true;
      start := pointer;
      startBox := box;
    }

    /** Pointer-down on a handle: a resize in that direction starts from this pointer and this box. */
    method OnResizeDown(dir: Dir, pointer: Point, box: Box)
      modifies this
      ensures resizing == Some(dir) && dragging == old(dragging) && start == pointer && startBox == box
      ensures !old(dragging) ==> Mode() == Resizing(dir)
    {
      resizing := Some(dir);
      start := pointer;
      startBox := box;
    }

    /** Pointer move: the patch for this pointer, from the snapshot; the state is left as it is. */
    method OnMove(pointer: Point, container: Option<Rect>) returns (patch: Option<Patch>)
      ensures patch == MovePatch(Mode(), start, startBox, pointer, container)
    {
      if !dragging && resizing.None? {
        return None;
      }
      if dragging {
        var dx := pointer.x - start.x;
        var dy := pointer.y - start.y;
        if container.Some? {
          var rect := container.value;
          var newX := (startBox.x + dx) / rect.width * 100.0;
          var newY := (startBox.y + dy) / rect.height * 100.0;
          patch := Some(Move(Max(0.0, Min(100.0, newX)), Max(0.0, Min(100.0, newY))));
        } else {
          patch := None;
        }
      } else {
        var dir := resizing.value;
        var dx := pointer.x - start.x;
        var dy := pointer.y - start.y;
        var newWidth := startBox.width;
        var newHeight := startBox.height;
        if dir == Right || dir == Corner {
          newWidth := Max(30.0, startBox.width + dx);
        }
        if dir == Bottom || dir == Corner {
          newHeight := Max(20.0, startBox.height + dy);
        }
        patch := Some(Resize(newWidth, newHeight));
      }
    }

    /** Pointer-up: back to idle; the snapshot stays. */
    method OnUp()
      modifies this
      ensures !dragging && resizing == None && start == old(start) && startBox == old(startBox)
      ensures Mode() == Idle
    {
      dragging := false;
      resizing := None;
    }
  }

  /** A whole drag: down, a move, up. The move emits a clamped position and the gesture ends idle. */
  method DragOnce(g: Gesture, box: Box, down: Point, pointer: Point, rect: Rect) returns (patch: Option<Patch>)
    modifies g
    ensures patch == Some(DragPatch(box, down, pointer, rect))
    ensures patch.value.Move? && 0.0 <= patch.value.x <= 100.0 && 0.0 <= patch.value.y <= 100.0
    ensures g.Mode() == Idle && g.start == down && g.startBox == box
  {
    g.OnMouseDown(down, box);
    patch := g.OnMove(pointer, Some(rect));
    g.OnUp();
  }

  /** A whole resize on one handle: the emitted size respects the minimums the handle controls. */
  method ResizeOnce(g: Gesture, dir: Dir, box: Box, down: Point, pointer: Point) returns (patch: Option<Patch>)
    modifies g
    requires !g.dragging
    ensures patch == Some(ResizePatch(dir, box, down, pointer))
    ensures ResizesWidth(dir) ==> patch.value.width >= MinWidth
    ensures ResizesHeight(dir) ==> patch.value.height >= MinHeight
    ensures g.Mode() == Idle
  {
    g.OnResizeDown(dir, down, box);
    patch := g.OnMove(pointer, None);
    g.OnUp();
  }
}
