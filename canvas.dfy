/**
 * The canvas's pointer and wheel logic, without rendering. The component's
 * mutable refs and preview state become the fields of `Controller`; the props a
 * handler reads (selection, tool, zoom, pan, snapping, the viewport rect) are a
 * `View` value passed to each call; DOM facts about an event are fields of
 * `Pointer`; and the callbacks the component invokes are returned as a list of
 * `Command`s, in the order they are invoked.
 */
module Canvas {
  import opened Wrappers
  import opened Objects
  import opened Geometry
  import Reducer

  const MinNoteWidth: real := 140.0
  const MinNoteHeight: real := 100.0
  const MaxNoteWidth: real := 960.0
  const MaxNoteHeight: real := 720.0
  const WheelOutFactor: real := 0.92
  const WheelInFactor: real := 1.08
  const DesktopMinWidth := 768

  /** The gesture in progress (`interactionRef.current`); `Idle` is `null`. */
  datatype Interaction =
    | Idle
    | Panning(startClient: Point, startPan: Point)
    | Dragging(ids: seq<string>, startWorld: Point)
    | Resizing(id: string, startWorld: Point, startWidth: real, startHeight: real)

  datatype DragPreview = DragPreview(ids: seq<string>, dx: real, dy: real)
  datatype ResizePreview = ResizePreview(id: string, width: real, height: real)

  /** The props a handler sees, and the viewport's bounding rect (`None` before it is mounted). */
  datatype View = View(selectedIds: seq<string>, tool: Tool, zoom: real, pan: Point, snapToGrid: bool,
                       rect: Option<ClientRect>)

  /**
   * A pointer event: the button, the client position, the shift key, the window's
   * inner width (`None` without a window), and whether the target lies inside an
   * element marked `data-no-drag="true"`.
   */
  datatype Pointer = Pointer(button: int, clientX: real, clientY: real, shiftKey: bool,
                             innerWidth: Option<int>, onNoDragTarget: bool)

  /** A callback invocation: `onSetPan`, `onSetViewport`, `onSelectIds`, ... */
  datatype Command =
    | SetPan(pan: Point)
    | SetViewport(zoom: real, pan: Point)
    | SelectIds(ids: seq<string>)
    | ToggleSelectedId(id: string)
    | AddObjectAt(kind: Kind, at: Point)
    | MoveObjects(ids: seq<string>, dx: real, dy: real)
    | ResizeNote(id: string, width: real, height: real)

  /** `toWorld`: the world point under a client position, or the origin while the viewport is not mounted. */
  function ToWorld(v: View, clientX: real, clientY: real): (w: Point)
    requires v.zoom != 0.0
    ensures v.rect.None? ==> w == Point(0.0, 0.0)
    ensures v.rect.Some? ==> v.rect.value.left + v.pan.x + w.x * v.zoom == clientX
                             && v.rect.value.top + v.pan.y + w.y * v.zoom == clientY
  {
    match v.rect
    case None => Point(0.0, 0.0)
    case Some(rect) => ScreenToWorld(clientX, clientY, rect, v.pan, v.zoom)
  }

  /** `updatePanFromEvent`: the pan at the start of the gesture moved by the pointer's client displacement. */
  function PanFrom(startClient: Point, startPan: Point, clientX: real, clientY: real): (p: Point)
    ensures p.x - startPan.x == clientX - startClient.x && p.y - startPan.y == clientY - startClient.y
  {
    Point(startPan.x + (clientX - startClient.x), startPan.y + (clientY - startClient.y))
  }

  /** Panning keeps the grabbed world point under the pointer. */
  lemma PanKeepsGrabbedPoint(startClient: Point, startPan: Point, clientX: real, clientY: real,
                             rect: ClientRect, zoom: real)
    requires zoom != 0.0
    ensures ScreenToWorld(clientX, clientY, rect, PanFrom(startClient, startPan, clientX, clientY), zoom)
            == ScreenToWorld(startClient.x, startClient.y, rect, startPan, zoom)
  {
    var p := PanFrom(startClient, startPan, clientX, clientY);
    assert clientX - rect.left - p.x == startClient.x - rect.left - startPan.x;
    assert clientY - rect.top - p.y == startClient.y - rect.top - startPan.y;
  }

  /** The drag delta: the world displacement since the drag began, snapped to the grid when snapping is on. */
  function DragDelta(startWorld: Point, world: Point, snapToGrid: bool): (d: Point)
    ensures !snapToGrid ==> startWorld.x + d.x == world.x && startWorld.y + d.y == world.y
    ensures snapToGrid ==> IsMultiple(d.x, GridSize) && IsMultiple(d.y, GridSize)
    ensures snapToGrid ==> Abs(d.x - (world.x - startWorld.x)) <= GridSize / 2.0
                           && Abs(d.y - (world.y - startWorld.y)) <= GridSize / 2.0
    ensures snapToGrid ==> d == Point(Snap(world.x - startWorld.x, GridSize), Snap(world.y - startWorld.y, GridSize))
  {
    var dx, dy := world.x - startWorld.x, world.y - startWorld.y;
    if snapToGrid then Point(Snap(dx, GridSize), Snap(dy, GridSize)) else Point(dx, dy)
  }

  /**
   * The resize preview: the starting size grown by the world displacement, clamped
   * to 140..960 by 100..720, then snapped when snapping is on.
   */
  function ResizeTo(id: string, startWidth: real, startHeight: real, startWorld: Point, world: Point,
                    snapToGrid: bool): (r: ResizePreview)
    ensures r.id == id
    ensures !snapToGrid ==> r.width == Clamp(startWidth + (world.x - startWorld.x), MinNoteWidth, MaxNoteWidth)
                            && r.height == Clamp(startHeight + (world.y - startWorld.y), MinNoteHeight, MaxNoteHeight)
    ensures snapToGrid ==>
              && r.width == Snap(Clamp(startWidth + (world.x - startWorld.x), MinNoteWidth, MaxNoteWidth), GridSize)
              && r.height == Snap(Clamp(startHeight + (world.y - startWorld.y), MinNoteHeight, MaxNoteHeight), GridSize)
    ensures !snapToGrid ==> MinNoteWidth <= r.width <= MaxNoteWidth && MinNoteHeight <= r.height <= MaxNoteHeight
    ensures !snapToGrid && MinNoteWidth <= startWidth + (world.x - startWorld.x) <= MaxNoteWidth
            ==> r.width == startWidth + (world.x - startWorld.x)
    ensures !snapToGrid && MinNoteHeight <= startHeight + (world.y - startWorld.y) <= MaxNoteHeight
            ==> r.height == startHeight + (world.y - startWorld.y)
    ensures snapToGrid ==> IsMultiple(r.width, GridSize) && IsMultiple(r.height, GridSize)
    ensures snapToGrid ==> 144.0 <= r.width <= MaxNoteWidth && 96.0 <= r.height <= MaxNoteHeight
  {
    var width := Clamp(startWidth + (world.x - startWorld.x), MinNoteWidth, MaxNoteWidth);
    var height := Clamp(startHeight + (world.y - startWorld.y), MinNoteHeight, MaxNoteHeight);
    if snapToGrid then
      SnapWithin(width, MinNoteWidth, MaxNoteWidth);
      SnapWithin(height, MinNoteHeight, MaxNoteHeight);
      ResizePreview(id, Snap(width, GridSize), Snap(height, GridSize))
    else
      ResizePreview(id, width, height)
  }

  /** The grid values that the snapped size limits land on. */
  lemma SnappedLimits()
    ensures Snap(MinNoteWidth, GridSize) == 144.0 && Snap(MaxNoteWidth, GridSize) == MaxNoteWidth
    ensures Snap(MinNoteHeight, GridSize) == 96.0 && Snap(MaxNoteHeight, GridSize) == MaxNoteHeight
  {
    assert Round(MinNoteWidth / GridSize) == 9;
    assert Round(MaxNoteWidth / GridSize) == 60;
    assert Round(MinNoteHeight / GridSize) == 6;
    assert Round(MaxNoteHeight / GridSize) == 45;
  }

  lemma SnapWithin(v: real, lo: real, hi: real)
    requires lo <= v <= hi
    ensures Snap(lo, GridSize) <= Snap(v, GridSize) <= Snap(hi, GridSize)
  {
    SnapMonotone(lo, v, GridSize);
    SnapMonotone(v, hi, GridSize);
    SnappedLimits();
  }

  /**
   * With snapping on, a note can be resized to a height of 96, below the 100 the
   * clamp enforces: the clamp runs before the snap.
   */
  lemma SnappedHeightBelowMinimum(id: string, startWorld: Point)
    ensures ResizeTo(id, 220.0, 160.0, startWorld, Point(startWorld.x, startWorld.y - 60.0), true).height == 96.0
  {
    SnappedLimits();
  }

  /**
   * The wheel's new zoom and pan: zoom scaled by 0.92 when scrolling down and 1.08
   * otherwise, clamped to 0.35..2.5, and the pan moved so that the world point
   * under the cursor stays under it.
   */
  function WheelViewport(rect: ClientRect, pan: Point, zoom: real, clientX: real, clientY: real, deltaY: real)
    : (r: (real, Point))
    requires zoom != 0.0
    ensures r.0 == Clamp(zoom * (if deltaY > 0.0 then WheelOutFactor else WheelInFactor), Reducer.MinZoom, Reducer.MaxZoom)
    ensures Reducer.MinZoom <= r.0 <= Reducer.MaxZoom
    ensures Reducer.MinZoom <= zoom <= Reducer.MaxZoom ==> (deltaY > 0.0 ==> r.0 <= zoom) && (deltaY <= 0.0 ==> r.0 >= zoom)
    ensures ScreenToWorld(clientX, clientY, rect, r.1, r.0) == ScreenToWorld(clientX, clientY, rect, pan, zoom)
  {
    var cursorX, cursorY := clientX - rect.left, clientY - rect.top;
    var worldX, worldY := (cursorX - pan.x) / zoom, (cursorY - pan.y) / zoom;
    var factor := if deltaY > 0.0 then WheelOutFactor else WheelInFactor;
    var nextZoom := Clamp(zoom * factor, Reducer.MinZoom, Reducer.MaxZoom);
    var nextPan := Point(cursorX - worldX * nextZoom, cursorY - worldY * nextZoom);
    AnchorKept(clientX, rect.left, pan.x, zoom, nextZoom);
    AnchorKept(clientY, rect.top, pan.y, zoom, nextZoom);
    assert ScreenToWorld(clientX, clientY, rect, pan, zoom) == Point(worldX, worldY);
    assert ScreenToWorld(clientX, clientY, rect, nextPan, nextZoom) == Point(worldX, worldY);
    (nextZoom, nextPan)
  }

  /** On one axis: the pan the wheel computes puts the cursor's world coordinate back under the cursor. */
  lemma AnchorKept(client: real, origin: real, pan: real, zoom: real, nextZoom: real)
    requires zoom != 0.0 && nextZoom != 0.0
    ensures var world := (client - origin - pan) / zoom;
            (client - origin - (client - origin - world * nextZoom)) / nextZoom == world
  {
    var world := (client - origin - pan) / zoom;
    assert client - origin - (client - origin - world * nextZoom) == world * nextZoom;
  }

  /** `handleWheel`: one `onSetViewport` call, or none while the viewport is not mounted. */
  function Wheel(v: View, clientX: real, clientY: real, deltaY: real): (cmds: seq<Command>)
    requires v.zoom != 0.0
    ensures v.rect.None? <==> cmds == []
    ensures v.rect.Some? ==> |cmds| == 1 && cmds[0].SetViewport?
                             && cmds[0].zoom == Clamp(v.zoom * (if deltaY > 0.0 then WheelOutFactor else WheelInFactor),
                                                      Reducer.MinZoom, Reducer.MaxZoom)
                             && Reducer.MinZoom <= cmds[0].zoom <= Reducer.MaxZoom
                             && ToWorld(v.(zoom := cmds[0].zoom, pan := cmds[0].pan), clientX, clientY)
                                == ToWorld(v, clientX, clientY)
  {
    match v.rect
    case None => []
    case Some(rect) =>
      var (zoom, pan) := WheelViewport(rect, v.pan, v.zoom, clientX, clientY, deltaY);
      [SetViewport(zoom, pan)]
  }

  /**
   * `withPreview`: the object as drawn during a gesture. A dragged object is shown
   * moved by the preview delta (both endpoints of an arrow); the resized note is
   * shown at the preview size. Nothing else differs from the stored object.
   */
  function WithPreview(o: Obj, drag: Option<DragPreview>, resize: Option<ResizePreview>): (r: Obj)
    ensures r.id == o.id && r.KindOf() == o.KindOf() && r.color == o.color && r.text == o.text
    ensures r.createdAt == o.createdAt && r.updatedAt == o.updatedAt
    ensures drag.Some? && o.id in drag.value.ids ==> r.x == o.x + drag.value.dx && r.y == o.y + drag.value.dy
    ensures drag.Some? && o.id in drag.value.ids && o.Arrow? ==>
              r.x2 == o.x2 + drag.value.dx && r.y2 == o.y2 + drag.value.dy
    ensures !(drag.Some? && o.id in drag.value.ids) ==> r.x == o.x && r.y == o.y && r.EndX() == o.EndX() && r.EndY() == o.EndY()
    ensures resize.Some? && resize.value.id == o.id && o.Note? ==>
              r.width == resize.value.width && r.height == resize.value.height
    ensures !(resize.Some? && resize.value.id == o.id && o.Note?) && !o.Arrow? ==>
              r.width == o.width && r.height == o.height
    ensures o.Arrow? ==> r.strokeWidth == o.strokeWidth
  {
    var moved := if drag.Some? && o.id in drag.value.ids
                 then o.WithAnchors(o.x + drag.value.dx, o.y + drag.value.dy,
                                    o.EndX() + drag.value.dx, o.EndY() + drag.value.dy)
                 else o;
    if resize.Some? && resize.value.id == o.id && moved.Note? then
      Note(moved.id, moved.x, moved.y, moved.color, moved.createdAt, moved.updatedAt,
           resize.value.width, resize.value.height, moved.text)
    else
      moved
  }

  /**
   * Committing a drag moves each object exactly where its preview showed it:
   * MOVE_OBJECTS without snapping gives the previewed object, stamped `now` when listed.
   */
  lemma DragCommitMatchesPreview(o: Obj, ids: seq<string>, dx: real, dy: real, now: int)
    ensures Reducer.MovedObject(o, ids, dx, dy, false, now)
            == WithPreview(o, Some(DragPreview(ids, dx, dy)), None).(updatedAt := if o.id in ids then now else o.updatedAt)
  {
  }

  /**
   * Committing a resize gives each object the size its preview showed: the
   * RESIZE_NOTE patch changes the previewed note to the preview size (and its
   * timestamp) and leaves every other object alone.
   */
  lemma ResizeCommitMatchesPreview(o: Obj, id: string, width: real, height: real, now: int)
    ensures Reducer.PatchedObject(o, [id], Reducer.ResizePatch(width, height), now).(updatedAt := o.updatedAt)
            == WithPreview(o, None, Some(ResizePreview(id, width, height)))
  {
  }

  /** The component's mutable part: the interaction ref and the two preview states. */
  class Controller {
    var interaction: Interaction
    var dragPreview: Option<DragPreview>
    var resizePreview: Option<ResizePreview>

    /** No preview outlives its gesture. */
    predicate Valid()
      reads this
    {
      interaction.Idle? ==> dragPreview.None? && resizePreview.None?
    }

    constructor ()
      ensures Valid() && interaction.Idle?
    {
      interaction := Idle;
      dragPreview := None;
      resizePreview := None;
    }

    /**
     * `handleCanvasPointerDown`: only the primary button counts. A shape tool adds
     * that shape at the (snapped) world point; the select tool clears the selection
     * and starts panning from the current pan.
     */
    method CanvasPointerDown(v: View, e: Pointer) returns (cmds: seq<Command>)
      requires v.zoom != 0.0 && Valid()
      modifies this
      ensures Valid() && dragPreview == old(dragPreview) && resizePreview == old(resizePreview)
      ensures e.button != 0 ==> cmds == [] && interaction == old(interaction)
      ensures e.button == 0 && v.tool.ShapeTool? ==>
                var w := ToWorld(v, e.clientX, e.clientY);
                cmds == [AddObjectAt(v.tool.kind, if v.snapToGrid then SnapPoint(w, GridSize) else w)]
                && interaction == old(interaction)
      ensures e.button == 0 && v.tool.SelectTool? ==>
                cmds == [SelectIds([])] && interaction == Panning(Point(e.clientX, e.clientY), v.pan)
    {
      if e.button != 0 {
        return [];
      }
      var worldPoint := ToWorld(v, e.clientX, e.clientY);
      if v.tool.ShapeTool? {
        return [AddObjectAt(v.tool.kind, if v.snapToGrid then SnapPoint(worldPoint, GridSize) else worldPoint)];
      }
      cmds := [SelectIds([])];
      interaction := Panning(Point(e.clientX, e.clientY), v.pan);
    }

    /**
     * `handleObjectPointerDown`: with the primary button and the select tool, a
     * shift-press on a window at least 768 wide toggles the object; otherwise the
     * object is selected (the whole selection when it is already in it) and, unless
     * the press is on a no-drag element, a drag of those ids starts. `propagates` is
     * whether the event bubbles on to the canvas, that is whether
     * `stopPropagation` was not called.
     */
    method ObjectPointerDown(v: View, e: Pointer, id: string) returns (cmds: seq<Command>, propagates: bool)
      requires v.zoom != 0.0 && Valid()
      modifies this
      ensures Valid() && dragPreview == old(dragPreview) && resizePreview == old(resizePreview)
      ensures propagates <==> e.button != 0 || v.tool.ShapeTool?
      ensures propagates ==> cmds == [] && interaction == old(interaction)
      ensures !propagates && IsDesktopShiftToggle(e) ==> cmds == [ToggleSelectedId(id)] && interaction == old(interaction)
      ensures !propagates && !IsDesktopShiftToggle(e) ==>
                var dragIds := if id in v.selectedIds then v.selectedIds else [id];
                && cmds == [SelectIds(dragIds)]
                && id in dragIds
                && interaction == if e.onNoDragTarget then old(interaction)
                                  else Dragging(dragIds, ToWorld(v, e.clientX, e.clientY))
    {
      if e.button != 0 || v.tool.ShapeTool? {
        return [], true;
      }
      propagates := false;
      if IsDesktopShiftToggle(e) {
        return [ToggleSelectedId(id)], false;
      }
      var dragIds := if id in v.selectedIds then v.selectedIds else [id];
      cmds := [SelectIds(dragIds)];
      if e.onNoDragTarget {
        return;
      }
      interaction := Dragging(dragIds, ToWorld(v, e.clientX, e.clientY));
    }

    /**
     * A press on an object as the browser delivers it: the object's handler, then
     * the canvas's when the event was not stopped. With a shape tool selected,
     * pressing an object adds a new shape there.
     */
    method PressObject(v: View, e: Pointer, id: string) returns (cmds: seq<Command>)
      requires v.zoom != 0.0 && Valid()
      modifies this
      ensures Valid()
      ensures e.button != 0 ==> cmds == [] && interaction == old(interaction)
      ensures e.button == 0 && v.tool.ShapeTool? ==>
                var w := ToWorld(v, e.clientX, e.clientY);
                cmds == [AddObjectAt(v.tool.kind, if v.snapToGrid then SnapPoint(w, GridSize) else w)]
      ensures e.button == 0 && v.tool.SelectTool? ==> |cmds| == 1 && !cmds[0].AddObjectAt?
    {
      var propagates;
      cmds, propagates := ObjectPointerDown(v, e, id);
      if propagates {
        cmds := CanvasPointerDown(v, e);
      }
    }

    /** `startResize`: begins resizing a note from its current (drawn) size; the button is not checked. */
    method StartResize(v: View, e: Pointer, note: Obj)
      requires v.zoom != 0.0 && Valid() && note.Note?
      modifies this
      ensures Valid() && dragPreview == old(dragPreview) && resizePreview == old(resizePreview)
      ensures interaction == Resizing(note.id, ToWorld(v, e.clientX, e.clientY), note.width, note.height)
    {
      interaction := Resizing(note.id, ToWorld(v, e.clientX, e.clientY), note.width, note.height);
    }

    /**
     * `handlePointerMove`: panning emits the pan that keeps the grabbed point under
     * the pointer; dragging and resizing only update their preview.
     */
    method PointerMove(v: View, e: Pointer) returns (cmds: seq<Command>)
      requires v.zoom != 0.0 && Valid()
      modifies this
      ensures Valid() && interaction == old(interaction)
      ensures !interaction.Panning? ==> cmds == []
      ensures interaction.Panning? ==>
                cmds == [SetPan(PanFrom(interaction.startClient, interaction.startPan, e.clientX, e.clientY))]
      ensures interaction.Dragging? ==>
                var d := DragDelta(interaction.startWorld, ToWorld(v, e.clientX, e.clientY), v.snapToGrid);
                dragPreview == Some(DragPreview(interaction.ids, d.x, d.y)) && resizePreview == old(resizePreview)
      ensures interaction.Resizing? ==>
                resizePreview == Some(ResizeTo(interaction.id, interaction.startWidth, interaction.startHeight,
                                               interaction.startWorld, ToWorld(v, e.clientX, e.clientY), v.snapToGrid))
                && dragPreview == old(dragPreview)
      ensures interaction.Idle? || interaction.Panning? ==>
                dragPreview == old(dragPreview) && resizePreview == old(resizePreview)
    {
      cmds := [];
      match interaction
      case Idle =>
      case Panning(startClient, startPan) =>
        cmds := [SetPan(PanFrom(startClient, startPan, e.clientX, e.clientY))];
      case Dragging(ids, startWorld) =>
        var d := DragDelta(startWorld, ToWorld(v, e.clientX, e.clientY), v.snapToGrid);
        dragPreview := Some(DragPreview(ids, d.x, d.y));
      case Resizing(id, startWorld, startWidth, startHeight) =>
        resizePreview := Some(ResizeTo(id, startWidth, startHeight, startWorld,
                                       ToWorld(v, e.clientX, e.clientY), v.snapToGrid));
    }

    /**
     * `handlePointerUp` (also the pointer-cancel handler), through
     * `commitInteraction`: a drag with a preview emits the move of the dragged ids
     * by the previewed delta, a resize with a preview emits the resize of its note
     * to the previewed size, and the gesture and both previews are cleared.
     */
    method PointerUp() returns (cmds: seq<Command>)
      requires Valid()
      modifies this
      ensures Valid() && interaction.Idle? && dragPreview.None? && resizePreview.None?
      ensures |cmds| <= 1
      ensures old(interaction).Dragging? && old(dragPreview).Some? ==>
                cmds == [MoveObjects(old(interaction).ids, old(dragPreview).value.dx, old(dragPreview).value.dy)]
      ensures old(interaction).Resizing? && old(resizePreview).Some? ==>
                cmds == [ResizeNote(old(interaction).id, old(resizePreview).value.width, old(resizePreview).value.height)]
      ensures (!(old(interaction).Dragging? && old(dragPreview).Some?)
               && !(old(interaction).Resizing? && old(resizePreview).Some?)) ==> cmds == []
    {
      cmds := [];
      if interaction.Idle? {
        return;
      }
      if interaction.Dragging? && dragPreview.Some? {
        cmds := cmds + [MoveObjects(interaction.ids, dragPreview.value.dx, dragPreview.value.dy)];
      }
      if interaction.Resizing? && resizePreview.Some? {
        cmds := cmds + [ResizeNote(interaction.id, resizePreview.value.width, resizePreview.value.height)];
      }
      interaction := Idle;
      dragPreview := None;
      resizePreview := None;
    }
  }

  /** The shift-click toggle applies only on a window at least 768 wide. */
  predicate IsDesktopShiftToggle(e: Pointer) {
    e.shiftKey && e.innerWidth.Some? && e.innerWidth.value >= DesktopMinWidth
  }

  /**
   * A whole drag gesture on an unselected object without snapping: press, move,
   * release selects the object and then moves it by exactly the world
   * displacement of the pointer.
   */
  method DragGesture(c: Controller, v: View, down: Pointer, move: Pointer, id: string) returns (cmds: seq<Command>)
    requires c.Valid() && v.zoom != 0.0 && v.tool.SelectTool? && !v.snapToGrid && id !in v.selectedIds
    requires down.button == 0 && !IsDesktopShiftToggle(down) && !down.onNoDragTarget
    modifies c
    ensures c.Valid() && c.interaction.Idle?
    ensures var start, end := ToWorld(v, down.clientX, down.clientY), ToWorld(v, move.clientX, move.clientY);
            cmds == [SelectIds([id]), MoveObjects([id], end.x - start.x, end.y - start.y)]
  {
    var first, _ := c.ObjectPointerDown(v, down, id);
    var second := c.PointerMove(v, move);
    var third := c.PointerUp();
    cmds := first + second + third;
  }
}
