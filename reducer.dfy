/**
 * The board reducer: a total function from a state and an action to the next
 * state. It keeps a bounded linear undo/redo history (past / present / future),
 * a selection re-sanitised after every board change, and a clamped zoom.
 *
 * `Date.now()` is the parameter `now`; ids for duplicated objects come from the
 * action (`freshId`). The source compares the next board with the present by
 * reference (`nextBoard === state.present`); here that is `Next.Same`.
 */
module Reducer {
  import opened Wrappers
  import opened Objects
  import opened Geometry
  import opened Selection

  const MinZoom: real := 0.35
  const MaxZoom: real := 2.5
  const DefaultHistoryLimit := 60
  const MinHistoryLimit := 20

  datatype State = State(
    past: seq<Board>,
    present: Board,
    future: seq<Board>,
    historyLimit: int,
    selectedIds: seq<string>,
    tool: Tool,
    zoom: real,
    pan: Point,
    snapToGrid: bool,
    mobileSheetOpen: bool,
    mobileSelectionOpen: bool,
    showHint: bool)

  /** A partial object as sent by the source: each key present or absent. */
  datatype Patch = Patch(color: Option<string>, text: Option<string>, width: Option<real>,
                         height: Option<real>, strokeWidth: Option<real>)

  /** A literal partial (possibly `null`), or a function giving one per object (`null` meaning "leave it"). */
  datatype PatchSpec = Fixed(partial: Option<Patch>) | PerObject(f: Obj -> Option<Patch>)

  /** The outcome of building a next board: the very same present board, or a freshly built one. */
  datatype Next = Same | Fresh(board: Board)

  datatype Action =
    | LoadBoard(board: Board)
    | SetTool(tool: Tool)
    | SetSelectedIds(ids: seq<string>)
    | ToggleSelectedId(id: string)
    | SetPan(pan: Point)
    | SetViewport(zoom: real, viewportPan: Option<Point>)
    | SetZoom(zoom: real)
    | SetSnapToGrid(enabled: bool)
    | ToggleSnapToGrid
    | SetMobileSheetOpen(open: bool)
    | SetMobileSelectionOpen(open: bool)
    | DismissHint
    | AddObject(added: Option<Obj>)
    | PatchObjects(targetIds: Option<seq<string>>, patch: PatchSpec)
    | MoveObjects(targetIds: Option<seq<string>>, dx: real, dy: real, snap: bool)
    | ResizeNote(id: string, width: real, height: real)
    | DeleteSelected
    | DuplicateSelected(freshId: nat -> string)
    | Undo
    | Redo
    | Unknown

  /** The state invariants every action keeps. */
  predicate Valid(s: State) {
    && s.historyLimit >= MinHistoryLimit
    && |s.past| + |s.future| <= s.historyLimit
    && NoDup(s.selectedIds)
    && (forall id :: id in s.selectedIds ==> id in IdsOf(s.present.objects))
    && MinZoom <= s.zoom <= MaxZoom
  }

  /** The view settings and the history limit agree: only history and selection may differ. */
  predicate SameSettings(r: State, s: State) {
    && r.historyLimit == s.historyLimit && r.tool == s.tool && r.zoom == s.zoom && r.pan == s.pan
    && r.snapToGrid == s.snapToGrid && r.mobileSheetOpen == s.mobileSheetOpen
    && r.mobileSelectionOpen == s.mobileSelectionOpen && r.showHint == s.showHint
  }

  /** `createInitialState`: empty history, nothing selected, select tool, zoom 1, pan (0, 0). */
  function CreateInitialState(board: Board, historyLimit: Option<int>, showHint: bool): (s: State)
    ensures Valid(s)
    ensures s.past == [] && s.future == [] && s.present == board && s.selectedIds == []
    ensures s.historyLimit >= MinHistoryLimit
    ensures historyLimit.None? ==> s.historyLimit == DefaultHistoryLimit
    ensures historyLimit.Some? && historyLimit.value >= MinHistoryLimit ==> s.historyLimit == historyLimit.value
    ensures historyLimit.Some? && historyLimit.value < MinHistoryLimit ==> s.historyLimit == MinHistoryLimit
    ensures s.zoom == 1.0 && s.pan == Point(0.0, 0.0) && s.tool == SelectTool && !s.snapToGrid
    ensures !s.mobileSheetOpen && !s.mobileSelectionOpen && s.showHint == showHint
  {
    var requested := historyLimit.GetOr(DefaultHistoryLimit);
    State([], board, [], if requested >= MinHistoryLimit then requested else MinHistoryLimit, [],
          SelectTool, 1.0, Point(0.0, 0.0), false, false, false, showHint)
  }

  /** `withBoardObjects`: the board with new objects and a new change time. */
  function WithBoardObjects(board: Board, objects: seq<Obj>, now: int): (b: Board)
    ensures b.version == board.version && b.objects == objects && b.lastUpdatedAt == now
  {
    board.(objects := objects, lastUpdatedAt := now)
  }

  function SanitizeFor(selection: seq<string>, board: Board): seq<string> {
    Sanitize(selection, IdsOf(board.objects))
  }

  /**
   * `commitBoard`: nothing happens for the same board; otherwise the old present is
   * pushed on `past` (dropping the oldest entry when that exceeds the limit), the
   * new board becomes present, `future` is emptied and the selection sanitised.
   */
  function CommitBoard(s: State, next: Next, selection: seq<string>): (r: State)
    ensures next.Same? ==> r == s
    ensures next.Fresh? ==> r.present == next.board && r.future == []
    ensures next.Fresh? ==>
              r.past == (if |s.past| + 1 > s.historyLimit then (s.past + [s.present])[1..] else s.past + [s.present])
    ensures next.Fresh? ==> r.selectedIds == SanitizeFor(selection, next.board)
    ensures SameSettings(r, s)
  {
    match next
    case Same => s
    case Fresh(board) =>
      var past := s.past + [s.present];
      var trimmed := if |past| > s.historyLimit then past[1..] else past;
      s.(past := trimmed, present := board, future := [], selectedIds := SanitizeFor(selection, board))
  }

  /** UNDO: the last past board becomes present and the old present goes to the front of `future`. */
  function UndoStep(s: State): (r: State)
    ensures |s.past| == 0 ==> r == s
    ensures |s.past| > 0 ==> r.past == s.past[..|s.past| - 1] && r.present == s.past[|s.past| - 1]
                             && r.future == [s.present] + s.future
    ensures |s.past| > 0 ==> r.selectedIds == SanitizeFor(s.selectedIds, r.present)
    ensures SameSettings(r, s)
  {
    if |s.past| == 0 then s
    else
      var previous := s.past[|s.past| - 1];
      s.(past := s.past[..|s.past| - 1], present := previous, future := [s.present] + s.future,
         selectedIds := SanitizeFor(s.selectedIds, previous))
  }

  /** REDO: the first future board becomes present and the old present goes to the end of `past` (untrimmed). */
  function RedoStep(s: State): (r: State)
    ensures |s.future| == 0 ==> r == s
    ensures |s.future| > 0 ==> r.past == s.past + [s.present] && r.present == s.future[0]
                               && r.future == s.future[1..]
    ensures |s.future| > 0 ==> r.selectedIds == SanitizeFor(s.selectedIds, r.present)
    ensures SameSettings(r, s)
  {
    if |s.future| == 0 then s
    else
      s.(past := s.past + [s.present], present := s.future[0], future := s.future[1..],
         selectedIds := SanitizeFor(s.selectedIds, s.future[0]))
  }

  // ---------------------------------------------------------------- patches

  function PartialFor(spec: PatchSpec, o: Obj): Option<Patch> {
    match spec
    case Fixed(p) => p
    case PerObject(f) => f(o)
  }

  /**
   * Some key of the patch differs from the object's value. A key the variant does
   * not carry (width on an arrow, strokeWidth on a note) reads as `undefined` in
   * the source and so always differs.
   */
  predicate HasDiff(o: Obj, p: Patch) {
    || (p.color.Some? && p.color.value != o.color)
    || (p.text.Some? && p.text.value != o.text)
    || (p.width.Some? && (o.Arrow? || p.width.value != o.width))
    || (p.height.Some? && (o.Arrow? || p.height.value != o.height))
    || (p.strokeWidth.Some? && (!o.Arrow? || p.strokeWidth.value != o.strokeWidth))
  }

  /** `{ ...object, ...partial, updatedAt: now }` on the keys the variant carries. */
  function ApplyPatch(o: Obj, p: Patch, now: int): (r: Obj)
    ensures r.KindOf() == o.KindOf() && r.id == o.id && r.x == o.x && r.y == o.y
    ensures r.createdAt == o.createdAt && r.updatedAt == now
    ensures r.color == p.color.GetOr(o.color) && r.text == p.text.GetOr(o.text)
    ensures !o.Arrow? ==> r.width == p.width.GetOr(o.width) && r.height == p.height.GetOr(o.height)
    ensures o.Arrow? ==> r.x2 == o.x2 && r.y2 == o.y2 && r.strokeWidth == p.strokeWidth.GetOr(o.strokeWidth)
  {
    match o
    case Note(i, x, y, c, ca, _, w, h, t) =>
      Note(i, x, y, p.color.GetOr(c), ca, now, p.width.GetOr(w), p.height.GetOr(h), p.text.GetOr(t))
    case Rect(i, x, y, c, ca, _, w, h, t) =>
      Rect(i, x, y, p.color.GetOr(c), ca, now, p.width.GetOr(w), p.height.GetOr(h), p.text.GetOr(t))
    case Arrow(i, x, y, c, ca, _, x2, y2, sw, t) =>
      Arrow(i, x, y, p.color.GetOr(c), ca, now, x2, y2, p.strokeWidth.GetOr(sw), p.text.GetOr(t))
  }

  /** A patch whose every key already holds its value changes nothing but the timestamp, which is why it is skipped. */
  lemma PatchWithoutDiff(o: Obj, p: Patch)
    requires !HasDiff(o, p)
    ensures ApplyPatch(o, p, o.updatedAt) == o
  {
  }

  /** The object is listed and its patch is an object with at least one differing key. */
  predicate ObjectChanges(o: Obj, ids: seq<string>, spec: PatchSpec) {
    o.id in ids && PartialFor(spec, o).Some? && HasDiff(o, PartialFor(spec, o).value)
  }

  /** The per-object step of `patchObjects`. */
  function PatchedObject(o: Obj, ids: seq<string>, spec: PatchSpec, now: int): (r: Obj)
    ensures !ObjectChanges(o, ids, spec) ==> r == o
    ensures ObjectChanges(o, ids, spec) ==> r == ApplyPatch(o, PartialFor(spec, o).value, now)
  {
    if o.id !in ids then o
    else
      match PartialFor(spec, o)
      case None => o
      case Some(p) => if HasDiff(o, p) then ApplyPatch(o, p, now) else o
  }

  /**
   * `patchObjects`: every listed object whose patch has a differing key is patched
   * and stamped `now`; all others are kept as they are. When nothing changes, the
   * very same board is the answer.
   */
  function PatchBoard(board: Board, ids: seq<string>, spec: PatchSpec, now: int): (r: Next)
    ensures r.Same? <==> forall i :: 0 <= i < |board.objects| ==> !ObjectChanges(board.objects[i], ids, spec)
    ensures r.Fresh? ==> r.board.version == board.version && |r.board.objects| == |board.objects|
    ensures r.Fresh? ==> r.board.lastUpdatedAt == now
    ensures r.Fresh? ==> forall i :: 0 <= i < |board.objects| ==>
              r.board.objects[i] == PatchedObject(board.objects[i], ids, spec, now)
  {
    var objs := board.objects;
    var nextObjects := seq(|objs|, i requires 0 <= i < |objs| => PatchedObject(objs[i], ids, spec, now));
    if exists i :: 0 <= i < |objs| && ObjectChanges(objs[i], ids, spec) then
      Fresh(WithBoardObjects(board, nextObjects, now))
    else
      Same
  }

  /** The closure RESIZE_NOTE patches with: width and height for notes, `null` for everything else. */
  function ResizePatch(width: real, height: real): PatchSpec {
    PerObject((o: Obj) => if o.Note? then Some(Patch(None, None, Some(width), Some(height), None)) else None)
  }

  // ------------------------------------------------------------------ moves

  function MovedObject(o: Obj, ids: seq<string>, dx: real, dy: real, snap: bool, now: int): Obj {
    if o.id in ids then TranslateObject(o, dx, dy, snap).(updatedAt := now) else o
  }

  function MoveAll(objs: seq<Obj>, ids: seq<string>, dx: real, dy: real, snap: bool, now: int): (r: seq<Obj>)
    ensures |r| == |objs|
    ensures forall i :: 0 <= i < |objs| ==> r[i] == MovedObject(objs[i], ids, dx, dy, snap, now)
  {
    seq(|objs|, i requires 0 <= i < |objs| => MovedObject(objs[i], ids, dx, dy, snap, now))
  }

  predicate AnyListed(objs: seq<Obj>, ids: seq<string>) {
    exists i :: 0 <= i < |objs| && objs[i].id in ids
  }

  // ------------------------------------------------------------- duplicates

  /** One copy per object, in order, the `i`-th under `freshId(i)`, shifted by the default offset. */
  function DuplicateAll(objs: seq<Obj>, freshId: nat -> string, now: int): (r: seq<Obj>)
    ensures |r| == |objs|
    ensures forall i :: 0 <= i < |objs| ==> r[i] == DuplicateObject(objs[i], DuplicateOffset, freshId(i), now)
  {
    seq(|objs|, i requires 0 <= i < |objs| => DuplicateObject(objs[i], DuplicateOffset, freshId(i), now))
  }

  // ---------------------------------------------------------------- reducer

  /** `boardReducer`. */
  function Reduce(s: State, a: Action, now: int): State {
    match a
    case LoadBoard(board) =>
      s.(past := [], future := [], present := board, selectedIds := [])
    case SetTool(tool) =>
      s.(tool := tool)
    case SetSelectedIds(ids) =>
      s.(selectedIds := SanitizeFor(ids, s.present))
    case ToggleSelectedId(id) =>
      var nextSelection := if id in s.selectedIds then Remove(s.selectedIds, id) else s.selectedIds + [id];
      s.(selectedIds := SanitizeFor(nextSelection, s.present))
    case SetPan(pan) =>
      if s.pan == pan then s else s.(pan := pan)
    case SetViewport(zoom, viewportPan) =>
      var nextZoom := Clamp(zoom, MinZoom, MaxZoom);
      var nextPan := viewportPan.GetOr(s.pan);
      if s.zoom == nextZoom && s.pan == nextPan then s else s.(zoom := nextZoom, pan := nextPan)
    case SetZoom(zoom) =>
      var nextZoom := Clamp(zoom, MinZoom, MaxZoom);
      if nextZoom == s.zoom then s else s.(zoom := nextZoom)
    case SetSnapToGrid(enabled) =>
      s.(snapToGrid := enabled)
    case ToggleSnapToGrid =>
      s.(snapToGrid := !s.snapToGrid)
    case SetMobileSheetOpen(open) =>
      s.(mobileSheetOpen := open)
    case SetMobileSelectionOpen(open) =>
      s.(mobileSelectionOpen := open)
    case DismissHint =>
      s.(showHint := false)
    case AddObject(added) =>
      AddStep(s, added, now)
    case PatchObjects(targetIds, patch) =>
      PatchStep(s, targetIds.GetOr(s.selectedIds), patch, now)
    case MoveObjects(targetIds, dx, dy, snap) =>
      MoveStep(s, targetIds.GetOr(s.selectedIds), dx, dy, snap, now)
    case ResizeNote(id, width, height) =>
      if id == "" then s else PatchStep(s, [id], ResizePatch(width, height), now)
    case DeleteSelected =>
      DeleteStep(s, now)
    case DuplicateSelected(freshId) =>
      DuplicateStep(s, freshId, now)
    case Undo =>
      UndoStep(s)
    case Redo =>
      RedoStep(s)
    case Unknown =>
      s
  }

  /** ADD_OBJECT: append the object and select it alone. */
  function AddStep(s: State, added: Option<Obj>, now: int): State {
    if added.None? then s
    else
      var nextBoard := WithBoardObjects(s.present, s.present.objects + [added.value], now);
      CommitBoard(s, Fresh(nextBoard), [added.value.id])
  }

  /** PATCH_OBJECTS (and RESIZE_NOTE, which patches one id with ResizePatch): commit only when some object changed. */
  function PatchStep(s: State, ids: seq<string>, patch: PatchSpec, now: int): State {
    if |ids| == 0 then s
    else
      var next := PatchBoard(s.present, ids, patch, now);
      if next.Same? then s else CommitBoard(s, next, s.selectedIds)
  }

  /** MOVE_OBJECTS: translate the listed objects; nothing happens without ids, delta or a listed object. */
  function MoveStep(s: State, ids: seq<string>, dx: real, dy: real, snap: bool, now: int): State {
    if |ids| == 0 || (dx == 0.0 && dy == 0.0) then s
    else if !AnyListed(s.present.objects, ids) then s
    else
      var nextBoard := WithBoardObjects(s.present, MoveAll(s.present.objects, ids, dx, dy, snap, now), now);
      CommitBoard(s, Fresh(nextBoard), s.selectedIds)
  }

  /** DELETE_SELECTED: drop the selected objects and clear the selection. */
  function DeleteStep(s: State, now: int): State {
    if |s.selectedIds| == 0 then s
    else
      var nextBoard := WithBoardObjects(s.present, Drop(s.present.objects, s.selectedIds), now);
      CommitBoard(s, Fresh(nextBoard), [])
  }

  /** DUPLICATE_SELECTED: append a copy of each selected object, in board order, and select the copies. */
  function DuplicateStep(s: State, freshId: nat -> string, now: int): State {
    if |s.selectedIds| == 0 then s
    else
      var duplicated := DuplicateAll(Keep(s.present.objects, s.selectedIds), freshId, now);
      if |duplicated| == 0 then s
      else
        var nextBoard := WithBoardObjects(s.present, s.present.objects + duplicated, now);
        CommitBoard(s, Fresh(nextBoard), IdsOf(duplicated))
  }

  /** `selectedIds.filter((item) => item !== id)`: every occurrence of `id` removed, the rest in order. */
  function Remove(ids: seq<string>, id: string): (r: seq<string>)
    ensures forall x :: x in r <==> x in ids && x != id
    ensures |r| <= |ids|
    decreases |ids|
  {
    if ids == [] then []
    else if ids[|ids| - 1] == id then Remove(ids[..|ids| - 1], id)
    else Remove(ids[..|ids| - 1], id) + [ids[|ids| - 1]]
  }

  /** Removal works piece by piece, so the remaining ids keep their order and multiplicity. */
  lemma {:induction false} RemoveConcat(a: seq<string>, b: seq<string>, id: string)
    ensures Remove(a + b, id) == Remove(a, id) + Remove(b, id)
    decreases |b|
  {
    if b == [] {
      assert a + b == a;
    } else {
      var init := b[..|b| - 1];
      assert (a + b)[..|a + b| - 1] == a + init;
      assert (a + b)[|a + b| - 1] == b[|b| - 1];
      RemoveConcat(a, init, id);
    }
  }
}
