/**
 * What the board reducer guarantees: its invariants survive every action, the
 * history is bounded and undo/redo are inverse, and each command does exactly
 * what it says to the board and the selection.
 */
module ReducerProperties {
  import opened Wrappers
  import opened Objects
  import opened Geometry
  import opened Selection
  import opened Reducer

  // ------------------------------------------------------------ invariants

  /** Every action keeps selection ⊆ present ids (duplicate-free), |past| + |future| ≤ limit ≥ 20, and zoom in bounds. */
  lemma ReducePreservesValid(s: State, a: Action, now: int)
    requires Valid(s)
    ensures Valid(Reduce(s, a, now))
  {
    match a
    case SetSelectedIds(ids) =>
      ReselectValid(s, ids);
    case ToggleSelectedId(id) =>
      ReselectValid(s, if id in s.selectedIds then Remove(s.selectedIds, id) else s.selectedIds + [id]);
    case PatchObjects(targetIds, patch) =>
      PatchStepValid(s, targetIds.GetOr(s.selectedIds), patch, now);
    case ResizeNote(id, width, height) =>
      PatchStepValid(s, [id], ResizePatch(width, height), now);
    case AddObject(added) =>
      AddStepValid(s, added, now);
    case MoveObjects(targetIds, dx, dy, snap) =>
      MoveStepValid(s, targetIds.GetOr(s.selectedIds), dx, dy, snap, now);
    case DeleteSelected =>
      DeleteStepValid(s, now);
    case DuplicateSelected(freshId) =>
      DuplicateStepValid(s, freshId, now);
    case _ =>
      ViewActionValid(s, a, now);
  }

  /** Actions that touch neither the board nor the selection keep the invariants. */
  lemma ViewActionValid(s: State, a: Action, now: int)
    requires Valid(s)
    requires !(a.SetSelectedIds? || a.ToggleSelectedId? || a.PatchObjects? || a.ResizeNote?)
    requires !(a.AddObject? || a.MoveObjects? || a.DeleteSelected? || a.DuplicateSelected?)
    ensures Valid(Reduce(s, a, now))
  {
    match a
    case SetViewport(zoom, _) =>
      assert MinZoom <= Clamp(zoom, MinZoom, MaxZoom) <= MaxZoom;
    case SetZoom(zoom) =>
      assert MinZoom <= Clamp(zoom, MinZoom, MaxZoom) <= MaxZoom;
    case _ =>
  }

  /** Replacing the selection by a sanitised one keeps the invariants. */
  lemma ReselectValid(s: State, ids: seq<string>)
    requires Valid(s)
    ensures Valid(s.(selectedIds := SanitizeFor(ids, s.present)))
  {
  }

  lemma PatchStepValid(s: State, ids: seq<string>, patch: PatchSpec, now: int)
    requires Valid(s)
    ensures Valid(PatchStep(s, ids, patch, now))
  {
    if |ids| > 0 {
      var next := PatchBoard(s.present, ids, patch, now);
      if next.Fresh? {
        CommitKeepsValid(s, next.board, s.selectedIds);
      }
    }
  }

  lemma AddStepValid(s: State, added: Option<Obj>, now: int)
    requires Valid(s)
    ensures Valid(AddStep(s, added, now))
  {
    if added.Some? {
      CommitKeepsValid(s, WithBoardObjects(s.present, s.present.objects + [added.value], now), [added.value.id]);
    }
  }

  lemma MoveStepValid(s: State, ids: seq<string>, dx: real, dy: real, snap: bool, now: int)
    requires Valid(s)
    ensures Valid(MoveStep(s, ids, dx, dy, snap, now))
  {
    if |ids| > 0 && !(dx == 0.0 && dy == 0.0) && AnyListed(s.present.objects, ids) {
      CommitKeepsValid(s, WithBoardObjects(s.present, MoveAll(s.present.objects, ids, dx, dy, snap, now), now),
                       s.selectedIds);
    }
  }

  lemma DeleteStepValid(s: State, now: int)
    requires Valid(s)
    ensures Valid(DeleteStep(s, now))
  {
    if |s.selectedIds| > 0 {
      CommitKeepsValid(s, WithBoardObjects(s.present, Drop(s.present.objects, s.selectedIds), now), []);
    }
  }

  lemma DuplicateStepValid(s: State, freshId: nat -> string, now: int)
    requires Valid(s)
    ensures Valid(DuplicateStep(s, freshId, now))
  {
    if |s.selectedIds| > 0 {
      var duplicated := DuplicateAll(Keep(s.present.objects, s.selectedIds), freshId, now);
      if |duplicated| > 0 {
        CommitKeepsValid(s, WithBoardObjects(s.present, s.present.objects + duplicated, now), IdsOf(duplicated));
      }
    }
  }

  /** A commit keeps the invariants: the trimmed past fits the limit and `future` is empty. */
  lemma CommitKeepsValid(s: State, b: Board, selection: seq<string>)
    requires Valid(s)
    ensures Valid(CommitBoard(s, Fresh(b), selection))
  {
    var r := CommitBoard(s, Fresh(b), selection);
    assert |r.past| <= s.historyLimit;
  }

  // --------------------------------------------------------------- history

  /**
   * A commit on a valid state adds one entry to `past`, ending with the old present,
   * until the limit is reached; from then on the oldest entry is dropped and
   * `|past|` stays at the limit.
   */
  lemma CommitPastLength(s: State, b: Board, selection: seq<string>)
    requires Valid(s)
    ensures var r := CommitBoard(s, Fresh(b), selection);
            && |r.past| == (if |s.past| < s.historyLimit then |s.past| + 1 else s.historyLimit)
            && r.past[|r.past| - 1] == s.present
            && (|s.past| == s.historyLimit ==> r.past == s.past[1..] + [s.present])
            && (|s.past| < s.historyLimit ==> r.past == s.past + [s.present])
  {
    var r := CommitBoard(s, Fresh(b), selection);
    if |s.past| == s.historyLimit {
      assert (s.past + [s.present])[1..] == s.past[1..] + [s.present];
    }
  }

  /** Undoing right after a commit restores the board that was present before it and puts the new board in `future`. */
  lemma UndoRevertsCommit(s: State, b: Board, selection: seq<string>)
    requires Valid(s)
    ensures var u := UndoStep(CommitBoard(s, Fresh(b), selection));
            u.present == s.present && u.future == [b]
  {
    CommitPastLength(s, b, selection);
  }

  /** The three history buckets. */
  function History(s: State): (seq<Board>, Board, seq<Board>) {
    (s.past, s.present, s.future)
  }

  /** UNDO then REDO restores past, present and future. */
  lemma UndoThenRedo(s: State)
    requires |s.past| > 0
    ensures History(RedoStep(UndoStep(s))) == History(s)
  {
    assert s.past[..|s.past| - 1] + [s.past[|s.past| - 1]] == s.past;
  }

  /** REDO then UNDO restores past, present and future. */
  lemma RedoThenUndo(s: State)
    requires |s.future| > 0
    ensures History(UndoStep(RedoStep(s))) == History(s)
  {
    var r := RedoStep(s);
    assert r.past[..|r.past| - 1] == s.past;
    assert [s.present] + r.future == [s.present] + s.future[1..];
    assert [s.future[0]] + s.future[1..] == s.future;
  }

  function UndoTimes(s: State, n: nat): State
    decreases n
  {
    if n == 0 then s else UndoTimes(UndoStep(s), n - 1)
  }

  function RedoTimes(s: State, n: nat): State
    decreases n
  {
    if n == 0 then s else RedoStep(RedoTimes(s, n - 1))
  }

  lemma RedoSeesOnlyHistory(a: State, b: State)
    requires History(a) == History(b)
    ensures History(RedoStep(a)) == History(RedoStep(b))
  {
  }

  lemma {:induction false} RedoTimesSeesOnlyHistory(a: State, b: State, n: nat)
    requires History(a) == History(b)
    ensures History(RedoTimes(a, n)) == History(RedoTimes(b, n))
    decreases n
  {
    if n > 0 {
      RedoTimesSeesOnlyHistory(a, b, n - 1);
      RedoSeesOnlyHistory(RedoTimes(a, n - 1), RedoTimes(b, n - 1));
    }
  }

  /** Undoing `n` steps (at most as many as `past` holds) and then redoing `n` steps restores the history exactly. */
  lemma {:induction false} UndoAllRedoAll(s: State, n: nat)
    requires n <= |s.past|
    ensures History(RedoTimes(UndoTimes(s, n), n)) == History(s)
    decreases n
  {
    if n > 0 {
      var u := UndoStep(s);
      UndoAllRedoAll(u, n - 1);
      var inner := RedoTimes(UndoTimes(u, n - 1), n - 1);
      assert History(inner) == History(u);
      RedoSeesOnlyHistory(inner, u);
      UndoThenRedo(s);
    }
  }

  // -------------------------------------------------------------- viewport

  /**
   * SET_ZOOM sets the clamped zoom and changes nothing else; when the clamped zoom is
   * the current one the state is returned as it is, so a second identical SET_ZOOM
   * does nothing.
   */
  lemma SetZoomIdempotent(s: State, zoom: real, now: int)
    ensures var r := Reduce(s, SetZoom(zoom), now);
            && r.zoom == Clamp(zoom, MinZoom, MaxZoom)
            && MinZoom <= r.zoom <= MaxZoom
            && r.(zoom := s.zoom) == s
            && (s.zoom == Clamp(zoom, MinZoom, MaxZoom) ==> r == s)
            && Reduce(r, SetZoom(zoom), now) == r
  {
  }

  /** SET_PAN sets the pan and changes nothing else; an equal pan returns the state as it is. */
  lemma SetPanOnlyPans(s: State, pan: Point, now: int)
    ensures var r := Reduce(s, SetPan(pan), now);
            && r.pan == pan
            && r.(pan := s.pan) == s
            && (s.pan == pan ==> r == s)
            && Reduce(r, SetPan(pan), now) == r
  {
  }

  /**
   * The setting actions and SET_SELECTED_IDS change their one field and nothing else;
   * an unknown action changes nothing.
   */
  lemma OneSettingChanges(s: State, a: Action, now: int)
    ensures var r := Reduce(s, a, now);
            && (a.SetTool? ==> r.tool == a.tool && r.(tool := s.tool) == s)
            && (a.SetSelectedIds? ==> r.selectedIds == SanitizeFor(a.ids, s.present) && r.(selectedIds := s.selectedIds) == s)
            && (a.SetSnapToGrid? ==> r.snapToGrid == a.enabled && r.(snapToGrid := s.snapToGrid) == s)
            && (a.ToggleSnapToGrid? ==> r.snapToGrid == !s.snapToGrid && r.(snapToGrid := s.snapToGrid) == s)
            && (a.SetMobileSheetOpen? ==> r.mobileSheetOpen == a.open && r.(mobileSheetOpen := s.mobileSheetOpen) == s)
            && (a.SetMobileSelectionOpen? ==>
                  r.mobileSelectionOpen == a.open && r.(mobileSelectionOpen := s.mobileSelectionOpen) == s)
            && (a.DismissHint? ==> !r.showHint && r.(showHint := s.showHint) == s)
            && (a.Unknown? ==> r == s)
  {
  }

  /** LOAD_BOARD replaces the present, forgets the history, clears the selection and keeps the settings. */
  lemma LoadResets(s: State, board: Board, now: int)
    requires Valid(s)
    ensures var r := Reduce(s, LoadBoard(board), now);
            && r.present == board && r.past == [] && r.future == [] && r.selectedIds == []
            && SameSettings(r, s) && Valid(r)
  {
  }

  /** SET_VIEWPORT leaves a clamped zoom, the given pan (or the old one), and is the identity when both already hold. */
  lemma SetViewportClamps(s: State, zoom: real, pan: Option<Point>, now: int)
    ensures var r := Reduce(s, SetViewport(zoom, pan), now);
            && r.zoom == Clamp(zoom, MinZoom, MaxZoom) && r.pan == pan.GetOr(s.pan)
            && History(r) == History(s) && r.selectedIds == s.selectedIds
            && (s.zoom == Clamp(zoom, MinZoom, MaxZoom) && s.pan == pan.GetOr(s.pan) ==> r == s)
  {
  }

  // --------------------------------------------------------------- patches

  /** PATCH_OBJECTS that changes no object returns the state itself: no history entry. */
  lemma PatchWithoutChangeIsNoop(s: State, targetIds: Option<seq<string>>, spec: PatchSpec, now: int)
    requires forall i :: 0 <= i < |s.present.objects| ==>
               !ObjectChanges(s.present.objects[i], targetIds.GetOr(s.selectedIds), spec)
    ensures Reduce(s, PatchObjects(targetIds, spec), now) == s
  {
  }

  /**
   * PATCH_OBJECTS that changes some object commits: each object is patched or kept
   * as PatchedObject says (unlisted, null-patched and no-difference objects keep
   * even their timestamp), and the old board is pushed on the history.
   */
  lemma PatchCommits(s: State, ids: seq<string>, spec: PatchSpec, now: int, k: nat)
    requires Valid(s)
    requires k < |s.present.objects| && ObjectChanges(s.present.objects[k], ids, spec)
    ensures var r := PatchStep(s, ids, spec, now);
            && |r.present.objects| == |s.present.objects|
            && (forall i :: 0 <= i < |s.present.objects| ==>
                  r.present.objects[i] == PatchedObject(s.present.objects[i], ids, spec, now))
            && r.present.objects[k].updatedAt == now
            && r.past[|r.past| - 1] == s.present && r.future == []
  {
    assert |ids| > 0;
    var next := PatchBoard(s.present, ids, spec, now);
    assert next.Fresh?;
    assert PatchStep(s, ids, spec, now) == CommitBoard(s, next, s.selectedIds);
    CommitPastLength(s, next.board, s.selectedIds);
  }

  /**
   * RESIZE_NOTE alters notes only, and only the one with the given id: afterwards that
   * note has exactly the given width and height. An empty id does nothing.
   */
  lemma ResizeTouchesOnlyTheNote(s: State, id: string, width: real, height: real, now: int)
    ensures var r := Reduce(s, ResizeNote(id, width, height), now);
            && |r.present.objects| == |s.present.objects|
            && (forall i :: 0 <= i < |s.present.objects| && r.present.objects[i] != s.present.objects[i] ==>
                 && s.present.objects[i].Note? && s.present.objects[i].id == id
                 && r.present.objects[i].Note? && r.present.objects[i].width == width
                 && r.present.objects[i].height == height)
            && (id != "" ==> forall i :: 0 <= i < |s.present.objects| && s.present.objects[i].Note?
                                           && s.present.objects[i].id == id ==>
                   r.present.objects[i].Note? && r.present.objects[i].width == width
                   && r.present.objects[i].height == height)
            && (id == "" ==> r == s)
  {
    if id != "" {
      var spec := ResizePatch(width, height);
      assert Reduce(s, ResizeNote(id, width, height), now) == PatchStep(s, [id], spec, now);
      var next := PatchBoard(s.present, [id], spec, now);
      if next.Fresh? {
        forall i | 0 <= i < |s.present.objects| && next.board.objects[i] != s.present.objects[i]
          ensures s.present.objects[i].Note? && s.present.objects[i].id == id
        {
          var o := s.present.objects[i];
          assert ObjectChanges(o, [id], spec);
        }
      }
      forall i | 0 <= i < |s.present.objects| && s.present.objects[i].Note? && s.present.objects[i].id == id
        ensures PatchedObject(s.present.objects[i], [id], spec, now).width == width
        ensures PatchedObject(s.present.objects[i], [id], spec, now).height == height
      {
        var o := s.present.objects[i];
        assert PartialFor(spec, o) == Some(Patch(None, None, Some(width), Some(height), None));
      }
    }
  }

  // ----------------------------------------------------------------- moves

  /** MOVE_OBJECTS with no ids, or with a zero delta, does nothing. */
  lemma MoveNoop(s: State, targetIds: Option<seq<string>>, dx: real, dy: real, snap: bool, now: int)
    requires |targetIds.GetOr(s.selectedIds)| == 0 || (dx == 0.0 && dy == 0.0)
    ensures Reduce(s, MoveObjects(targetIds, dx, dy, snap), now) == s
  {
  }

  /**
   * Otherwise MOVE_OBJECTS translates exactly the listed objects (stamping them
   * `now`) and keeps every other object, the object count and the order.
   */
  lemma MoveTranslatesListed(s: State, targetIds: Option<seq<string>>, dx: real, dy: real, snap: bool, now: int)
    requires |targetIds.GetOr(s.selectedIds)| > 0 && !(dx == 0.0 && dy == 0.0)
    ensures var r := Reduce(s, MoveObjects(targetIds, dx, dy, snap), now);
            var ids := targetIds.GetOr(s.selectedIds);
            && |r.present.objects| == |s.present.objects|
            && (forall i :: 0 <= i < |s.present.objects| ==>
                  var o := s.present.objects[i];
                  && (o.id in ids ==> r.present.objects[i] == TranslateObject(o, dx, dy, snap).(updatedAt := now))
                  && (o.id !in ids ==> r.present.objects[i] == o))
            && (!AnyListed(s.present.objects, ids) ==> r == s)
            && (AnyListed(s.present.objects, ids) ==>
                  && r.present.version == s.present.version && r.present.lastUpdatedAt == now
                  && (|s.past| < s.historyLimit ==> r.past == s.past + [s.present])
                  && r.future == [] && SameSettings(r, s))
            && (Valid(s) && AnyListed(s.present.objects, ids) ==>
                  |r.past| > 0 && r.past[|r.past| - 1] == s.present && r.selectedIds == s.selectedIds)
  {
    var ids := targetIds.GetOr(s.selectedIds);
    var objs := s.present.objects;
    var r := Reduce(s, MoveObjects(targetIds, dx, dy, snap), now);
    assert r == MoveStep(s, ids, dx, dy, snap, now);
    if !AnyListed(objs, ids) {
      assert r == s;
      assert forall i :: 0 <= i < |objs| ==> objs[i].id !in ids;
    } else {
      MoveStepCommits(s, ids, dx, dy, snap, now);
      assert forall i :: 0 <= i < |objs| ==> r.present.objects[i] == MovedObject(objs[i], ids, dx, dy, snap, now);
    }
  }

  /** A move that reaches some object is one commit: the old board is pushed on the history and the selection is kept. */
  lemma MoveStepCommits(s: State, ids: seq<string>, dx: real, dy: real, snap: bool, now: int)
    requires |ids| > 0 && !(dx == 0.0 && dy == 0.0) && AnyListed(s.present.objects, ids)
    ensures var r := MoveStep(s, ids, dx, dy, snap, now);
            && r.present.objects == MoveAll(s.present.objects, ids, dx, dy, snap, now)
            && r.present.version == s.present.version && r.present.lastUpdatedAt == now
            && (|s.past| < s.historyLimit ==> r.past == s.past + [s.present])
            && r.future == [] && SameSettings(r, s)
            && (Valid(s) ==> |r.past| > 0 && r.past[|r.past| - 1] == s.present && r.selectedIds == s.selectedIds)
  {
    var objs := s.present.objects;
    var board := WithBoardObjects(s.present, MoveAll(objs, ids, dx, dy, snap, now), now);
    assert MoveStep(s, ids, dx, dy, snap, now) == CommitBoard(s, Fresh(board), s.selectedIds);
    if Valid(s) {
      CommitPastLength(s, board, s.selectedIds);
      MoveKeepsIds(objs, ids, dx, dy, snap, now);
      SanitizeKeepsClean(s.selectedIds, IdsOf(board.objects));
    }
  }

  /** Moving changes positions and timestamps only: the ids, in order, are those of the board before. */
  lemma MoveKeepsIds(objs: seq<Obj>, ids: seq<string>, dx: real, dy: real, snap: bool, now: int)
    ensures IdsOf(MoveAll(objs, ids, dx, dy, snap, now)) == IdsOf(objs)
  {
    var moved := MoveAll(objs, ids, dx, dy, snap, now);
    forall i | 0 <= i < |objs| ensures moved[i].id == objs[i].id {
      var o := objs[i];
      if o.id in ids {
        match o
        case Note(_, _, _, _, _, _, _, _, _) =>
        case Rect(_, _, _, _, _, _, _, _, _) =>
        case Arrow(_, _, _, _, _, _, _, _, _, _) =>
      }
    }
  }

  /** With snapping, every listed object that sat on the grid still sits on it after the move. */
  lemma MoveKeepsGrid(s: State, targetIds: Option<seq<string>>, dx: real, dy: real, now: int, i: nat)
    requires |targetIds.GetOr(s.selectedIds)| > 0 && !(dx == 0.0 && dy == 0.0)
    requires i < |s.present.objects|
    requires IsMultiple(s.present.objects[i].x, GridSize) && IsMultiple(s.present.objects[i].y, GridSize)
    ensures var r := Reduce(s, MoveObjects(targetIds, dx, dy, true), now);
            IsMultiple(r.present.objects[i].x, GridSize) && IsMultiple(r.present.objects[i].y, GridSize)
  {
    MoveTranslatesListed(s, targetIds, dx, dy, true, now);
    TranslateKeepsGrid(s.present.objects[i], dx, dy);
  }

  // -------------------------------------------------------- delete, duplicate

  /** DELETE_SELECTED and DUPLICATE_SELECTED do nothing when nothing is selected. */
  lemma EmptySelectionNoops(s: State, freshId: nat -> string, now: int)
    requires |s.selectedIds| == 0
    ensures Reduce(s, DeleteSelected, now) == s && Reduce(s, DuplicateSelected(freshId), now) == s
  {
  }

  /** DELETE_SELECTED removes exactly the selected objects, keeps the rest in order, and clears the selection. */
  lemma DeleteRemovesSelected(s: State, now: int)
    requires Valid(s) && |s.selectedIds| > 0
    ensures var r := DeleteStep(s, now);
            && r.present.objects == Drop(s.present.objects, s.selectedIds)
            && (forall o :: o in r.present.objects <==> o in s.present.objects && o.id !in s.selectedIds)
            && |r.present.objects| < |s.present.objects|
            && r.selectedIds == [] && r.past[|r.past| - 1] == s.present
  {
    var objs := s.present.objects;
    SelectedIsKept(s);
    KeepDropPartition(objs, s.selectedIds);
    var b := WithBoardObjects(s.present, Drop(objs, s.selectedIds), now);
    assert DeleteStep(s, now) == CommitBoard(s, Fresh(b), []);
    CommitPastLength(s, b, []);
  }

  /** On a valid state with a selection, some present object is selected. */
  lemma SelectedIsKept(s: State)
    requires Valid(s) && |s.selectedIds| > 0
    ensures |Keep(s.present.objects, s.selectedIds)| > 0
  {
    var objs := s.present.objects;
    var id := s.selectedIds[0];
    assert id in IdsOf(objs);
    var k :| 0 <= k < |objs| && IdsOf(objs)[k] == id;
    assert objs[k] in Keep(objs, s.selectedIds);
  }

  /**
   * DUPLICATE_SELECTED on a valid state appends one copy per selected object, in
   * board order, and, when the supplied ids are distinct, selects exactly the copies.
   */
  lemma DuplicateAppendsCopies(s: State, freshId: nat -> string, now: int)
    requires Valid(s) && |s.selectedIds| > 0
    ensures var r := DuplicateStep(s, freshId, now);
            var copies := DuplicateAll(Keep(s.present.objects, s.selectedIds), freshId, now);
            && |copies| > 0
            && r.present.objects == s.present.objects + copies
            && ((forall i, j :: 0 <= i < j < |copies| ==> freshId(i) != freshId(j)) ==> r.selectedIds == IdsOf(copies))
            && r.present.version == s.present.version && r.present.lastUpdatedAt == now
            && r.past[|r.past| - 1] == s.present && r.future == [] && SameSettings(r, s)
  {
    var objs := s.present.objects;
    SelectedIsKept(s);
    var copies := DuplicateAll(Keep(objs, s.selectedIds), freshId, now);
    var board := WithBoardObjects(s.present, objs + copies, now);
    assert DuplicateStep(s, freshId, now) == CommitBoard(s, Fresh(board), IdsOf(copies));
    CommitPastLength(s, board, IdsOf(copies));
    if forall i, j :: 0 <= i < j < |copies| ==> freshId(i) != freshId(j) {
      CopiesSelectable(objs, copies, freshId, now);
      SanitizeKeepsClean(IdsOf(copies), IdsOf(objs + copies));
    }
  }

  lemma CopiesSelectable(objs: seq<Obj>, copies: seq<Obj>, freshId: nat -> string, now: int)
    requires forall i :: 0 <= i < |copies| ==> copies[i].id == freshId(i)
    requires forall i, j :: 0 <= i < j < |copies| ==> freshId(i) != freshId(j)
    ensures NoDup(IdsOf(copies))
    ensures forall x :: x in IdsOf(copies) ==> x in IdsOf(objs + copies)
  {
    var ids := IdsOf(copies);
    forall x | x in ids ensures x in IdsOf(objs + copies) {
      var p :| 0 <= p < |ids| && ids[p] == x;
      assert IdsOf(objs + copies)[|objs| + p] == x;
    }
  }

  /**
   * Adding an object with a new id, deleting it (it is the selection) and undoing
   * brings back the board holding the object as it was added; the selection after
   * the undo is empty, because DELETE_SELECTED cleared it and UNDO only sanitises.
   */
  lemma AddDeleteUndo(s: State, o: Obj, now1: int, now2: int, now3: int)
    requires Valid(s) && o.id !in IdsOf(s.present.objects)
    ensures var s1 := AddStep(s, Some(o), now1);
            var s2 := DeleteStep(s1, now2);
            var s3 := UndoStep(s2);
            && s1.selectedIds == [o.id]
            && s2.present.objects == s.present.objects
            && s3.present == s1.present && s3.present.objects[|s3.present.objects| - 1] == o
            && s3.selectedIds == []
  {
    var s1 := AddStep(s, Some(o), now1);
    AddSelectsNew(s, o, now1);
    DropOnlyLast(s.present.objects, o);
    var s2 := DeleteStep(s1, now2);
    assert s2.present.objects == s.present.objects;
    CommitPastLength(s1, s2.present, []);
  }

  /** ADD_OBJECT with a new id appends the object, selects it alone and keeps the invariants. */
  lemma AddSelectsNew(s: State, o: Obj, now: int)
    requires Valid(s) && o.id !in IdsOf(s.present.objects)
    ensures var r := AddStep(s, Some(o), now);
            && r.present.objects == s.present.objects + [o] && r.selectedIds == [o.id] && Valid(r)
            && r.past[|r.past| - 1] == s.present
  {
    var objs := s.present.objects;
    var b1 := WithBoardObjects(s.present, objs + [o], now);
    var r := CommitBoard(s, Fresh(b1), [o.id]);
    assert AddStep(s, Some(o), now) == r;
    assert IdsOf(b1.objects)[|objs|] == o.id;
    assert NoDup([o.id]);
    SanitizeKeepsClean([o.id], IdsOf(b1.objects));
    assert r.selectedIds == [o.id];
    AddStepValid(s, Some(o), now);
    CommitPastLength(s, b1, [o.id]);
  }

  lemma DropOnlyLast(objs: seq<Obj>, o: Obj)
    requires o.id !in IdsOf(objs)
    ensures Drop(objs + [o], [o.id]) == objs
  {
    assert (objs + [o])[..|objs|] == objs;
    DropNone(objs, [o.id]);
  }

  lemma {:induction false} DropNone(objs: seq<Obj>, ids: seq<string>)
    requires forall i :: 0 <= i < |objs| ==> objs[i].id !in ids
    ensures Drop(objs, ids) == objs
    decreases |objs|
  {
    if objs != [] {
      DropNone(objs[..|objs| - 1], ids);
    }
  }

  // -------------------------------------------------------------- selection

  /** TOGGLE_SELECTED_ID removes a selected id, and appends a known unselected one at the end. */
  lemma ToggleSelected(s: State, id: string, now: int)
    requires Valid(s)
    ensures var r := Reduce(s, ToggleSelectedId(id), now);
            && (id in s.selectedIds ==> r.selectedIds == Remove(s.selectedIds, id))
            && (id !in s.selectedIds && id in IdsOf(s.present.objects) ==> r.selectedIds == s.selectedIds + [id])
            && (id !in s.selectedIds && id !in IdsOf(s.present.objects) ==> r.selectedIds == s.selectedIds)
            && History(r) == History(s) && r == s.(selectedIds := r.selectedIds)
  {
    var known := IdsOf(s.present.objects);
    if id in s.selectedIds {
      assert Reduce(s, ToggleSelectedId(id), now) == s.(selectedIds := Sanitize(Remove(s.selectedIds, id), known));
      RemoveKeepsDistinct(s.selectedIds, id);
      SanitizeKeepsClean(Remove(s.selectedIds, id), known);
    } else if id in known {
      assert Reduce(s, ToggleSelectedId(id), now) == s.(selectedIds := Sanitize(s.selectedIds + [id], known));
      assert NoDup(s.selectedIds + [id]);
      SanitizeKeepsClean(s.selectedIds + [id], known);
    } else {
      assert Reduce(s, ToggleSelectedId(id), now) == s.(selectedIds := Sanitize(s.selectedIds + [id], known));
      SanitizeDropsUnknownLast(s.selectedIds, id, known);
      SanitizeKeepsClean(s.selectedIds, known);
    }
  }

  lemma {:induction false} RemoveKeepsDistinct(ids: seq<string>, id: string)
    requires NoDup(ids)
    ensures NoDup(Remove(ids, id))
    decreases |ids|
  {
    if ids != [] {
      var init := ids[..|ids| - 1];
      assert NoDup(init);
      RemoveKeepsDistinct(init, id);
      assert ids[|ids| - 1] !in init;
    }
  }

  lemma SanitizeDropsUnknownLast(ids: seq<string>, id: string, known: seq<string>)
    requires id !in known
    ensures Sanitize(ids + [id], known) == Sanitize(ids, known)
  {
    var a, b := Sanitize(ids + [id], known), Sanitize(ids, known);
    var d := Dedup(ids + [id]);
    assert (ids + [id])[..|ids|] == ids;
    if id in Dedup(ids) {
      assert d == Dedup(ids);
    } else {
      assert d == Dedup(ids) + [id];
      assert d[..|d| - 1] == Dedup(ids);
    }
  }
}
