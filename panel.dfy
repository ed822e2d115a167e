/**
 * The properties panel's logic, without rendering: which objects it shows as
 * selected, the common value each field displays, the patches its inputs send
 * through PATCH_OBJECTS (applied to the selection), and the selection list's
 * check boxes.
 */
module Panel {
  import opened Wrappers
  import opened Objects
  import Reducer

  /**
   * `fieldValueOrEmpty`, given the field's values in order: the value every item
   * shares, or `None` (the empty string) when there are no items or they differ.
   */
  function FieldValueOrEmpty<T(==)>(values: seq<T>): (r: Option<T>)
    ensures r.Some? ==> |values| > 0 && forall i :: 0 <= i < |values| ==> values[i] == r.value
    ensures r.None? ==> |values| == 0 || exists i :: 0 <= i < |values| && values[i] != values[0]
  {
    if |values| == 0 then None
    else if forall i :: 0 <= i < |values| ==> values[i] == values[0] then Some(values[0])
    else None
  }

  /** The objects the panel edits: those of the board whose id is selected, in board order. */
  function SelectedObjects(objects: seq<Obj>, selectedIds: seq<string>): (r: seq<Obj>)
    ensures forall o :: o in r <==> o in objects && o.id in selectedIds
  {
    Keep(objects, selectedIds)
  }

  /** The one selected object, when exactly one is selected (the text field is shown only then). */
  function Single(selected: seq<Obj>): (r: Option<Obj>)
    ensures r.Some? <==> |selected| == 1
    ensures r.Some? ==> r.value in selected
  {
    if |selected| == 1 then Some(selected[0]) else None
  }

  function Colors(objs: seq<Obj>): (r: seq<string>)
    ensures |r| == |objs| && forall i :: 0 <= i < |objs| ==> r[i] == objs[i].color
  {
    seq(|objs|, i requires 0 <= i < |objs| => objs[i].color)
  }

  /** The colour picker's value: the selection's common non-empty colour, the note yellow otherwise. */
  function ColorValue(selected: seq<Obj>): (c: string)
    ensures |selected| > 0 && selected[0].color != "" && (forall i :: 0 <= i < |selected| ==> selected[i].color == selected[0].color)
            ==> c == selected[0].color
    ensures c != NoteColor ==> |selected| > 0 && forall o :: o in selected ==> o.color == c
    ensures c != ""
  {
    var common := FieldValueOrEmpty(Colors(selected));
    if common.None? || common.value == "" then NoteColor else common.value
  }

  /** The selected notes and rects, in order: the objects with a width and a height. */
  function Resizable(objs: seq<Obj>): (r: seq<Obj>)
    ensures |r| <= |objs|
    ensures forall o :: o in r <==> o in objs && !o.Arrow?
    decreases |objs|
  {
    if objs == [] then []
    else if !objs[|objs| - 1].Arrow? then Resizable(objs[..|objs| - 1]) + [objs[|objs| - 1]]
    else Resizable(objs[..|objs| - 1])
  }

  /** The selected arrows, in order: the objects with a stroke width. */
  function Arrows(objs: seq<Obj>): (r: seq<Obj>)
    ensures |r| <= |objs|
    ensures forall o :: o in r <==> o in objs && o.Arrow?
    decreases |objs|
  {
    if objs == [] then []
    else if objs[|objs| - 1].Arrow? then Arrows(objs[..|objs| - 1]) + [objs[|objs| - 1]]
    else Arrows(objs[..|objs| - 1])
  }

  /** The note-and-rect filter works piece by piece, keeping board order. */
  lemma {:induction false} ResizableConcat(a: seq<Obj>, b: seq<Obj>)
    ensures Resizable(a + b) == Resizable(a) + Resizable(b)
    decreases |b|
  {
    if b == [] {
      assert a + b == a;
    } else {
      var init := b[..|b| - 1];
      assert (a + b)[..|a + b| - 1] == a + init;
      assert (a + b)[|a + b| - 1] == b[|b| - 1];
      ResizableConcat(a, init);
    }
  }

  /** The arrow filter works piece by piece, keeping board order. */
  lemma {:induction false} ArrowsConcat(a: seq<Obj>, b: seq<Obj>)
    ensures Arrows(a + b) == Arrows(a) + Arrows(b)
    decreases |b|
  {
    if b == [] {
      assert a + b == a;
    } else {
      var init := b[..|b| - 1];
      assert (a + b)[..|a + b| - 1] == a + init;
      assert (a + b)[|a + b| - 1] == b[|b| - 1];
      ArrowsConcat(a, init);
    }
  }

  /** Every selected object is in exactly one of the two groups the size and stroke fields edit. */
  lemma {:induction false} ResizableArrowsPartition(objs: seq<Obj>)
    ensures |Resizable(objs)| + |Arrows(objs)| == |objs|
    decreases |objs|
  {
    if objs != [] {
      ResizableArrowsPartition(objs[..|objs| - 1]);
    }
  }

  function Widths(objs: seq<Obj>): (r: seq<real>)
    requires forall i :: 0 <= i < |objs| ==> !objs[i].Arrow?
    ensures |r| == |objs| && forall i :: 0 <= i < |objs| ==> r[i] == objs[i].width
  {
    seq(|objs|, i requires 0 <= i < |objs| => objs[i].width)
  }

  function Heights(objs: seq<Obj>): (r: seq<real>)
    requires forall i :: 0 <= i < |objs| ==> !objs[i].Arrow?
    ensures |r| == |objs| && forall i :: 0 <= i < |objs| ==> r[i] == objs[i].height
  {
    seq(|objs|, i requires 0 <= i < |objs| => objs[i].height)
  }

  function StrokeWidths(objs: seq<Obj>): (r: seq<real>)
    requires forall i :: 0 <= i < |objs| ==> objs[i].Arrow?
    ensures |r| == |objs| && forall i :: 0 <= i < |objs| ==> r[i] == objs[i].strokeWidth
  {
    seq(|objs|, i requires 0 <= i < |objs| => objs[i].strokeWidth)
  }

  /** What holds at every index of a sequence holds of every member. */
  lemma AllMembers(objs: seq<Obj>, P: Obj -> bool)
    requires forall i :: 0 <= i < |objs| ==> P(objs[i])
    ensures forall o :: o in objs ==> P(o)
  {
  }

  /** The width field's value: the width every selected note and rect shares, or empty. */
  function CommonWidth(selected: seq<Obj>): (r: Option<real>)
    ensures r.Some? ==> exists o :: o in selected && !o.Arrow?
    ensures r.Some? ==> forall o :: o in selected && !o.Arrow? ==> o.width == r.value
    ensures (exists o :: o in selected && !o.Arrow?)
            && (forall o, p :: o in selected && !o.Arrow? && p in selected && !p.Arrow? ==> o.width == p.width)
            ==> r.Some?
  {
    var boxes := Resizable(selected);
    var r := FieldValueOrEmpty(Widths(boxes));
    if r.Some? then
      assert boxes[0] in boxes;
      AllMembers(boxes, (o: Obj) => !o.Arrow? && o.width == r.value);
      r
    else
      assert (exists o :: o in selected && !o.Arrow?)
             && (forall o, p :: o in selected && !o.Arrow? && p in selected && !p.Arrow? ==> o.width == p.width)
             ==> false by {
        if exists o :: o in selected && !o.Arrow? {
          var o :| o in selected && !o.Arrow?;
          assert o in boxes;
          forall i | 0 <= i < |boxes| ensures boxes[i] in selected && !boxes[i].Arrow? {
            assert boxes[i] in boxes;
          }
        }
      }
      r
  }

  /** The height field's value: the height every selected note and rect shares, or empty. */
  function CommonHeight(selected: seq<Obj>): (r: Option<real>)
    ensures r.Some? ==> exists o :: o in selected && !o.Arrow?
    ensures r.Some? ==> forall o :: o in selected && !o.Arrow? ==> o.height == r.value
    ensures (exists o :: o in selected && !o.Arrow?)
            && (forall o, p :: o in selected && !o.Arrow? && p in selected && !p.Arrow? ==> o.height == p.height)
            ==> r.Some?
  {
    var boxes := Resizable(selected);
    var r := FieldValueOrEmpty(Heights(boxes));
    if r.Some? then
      assert boxes[0] in boxes;
      AllMembers(boxes, (o: Obj) => !o.Arrow? && o.height == r.value);
      r
    else
      assert (exists o :: o in selected && !o.Arrow?)
             && (forall o, p :: o in selected && !o.Arrow? && p in selected && !p.Arrow? ==> o.height == p.height)
             ==> false by {
        if exists o :: o in selected && !o.Arrow? {
          var o :| o in selected && !o.Arrow?;
          assert o in boxes;
          forall i | 0 <= i < |boxes| ensures boxes[i] in selected && !boxes[i].Arrow? {
            assert boxes[i] in boxes;
          }
        }
      }
      r
  }

  /** The stroke field's value: the stroke width every selected arrow shares, or empty. */
  function CommonStrokeWidth(selected: seq<Obj>): (r: Option<real>)
    ensures r.Some? ==> exists o :: o in selected && o.Arrow?
    ensures r.Some? ==> forall o :: o in selected && o.Arrow? ==> o.strokeWidth == r.value
    ensures (exists o :: o in selected && o.Arrow?)
            && (forall o, p :: o in selected && o.Arrow? && p in selected && p.Arrow? ==> o.strokeWidth == p.strokeWidth)
            ==> r.Some?
  {
    var arrows := Arrows(selected);
    var r := FieldValueOrEmpty(StrokeWidths(arrows));
    if r.Some? then
      assert arrows[0] in arrows;
      AllMembers(arrows, (o: Obj) => o.Arrow? && o.strokeWidth == r.value);
      r
    else
      assert (exists o :: o in selected && o.Arrow?)
             && (forall o, p :: o in selected && o.Arrow? && p in selected && p.Arrow? ==> o.strokeWidth == p.strokeWidth)
             ==> false by {
        if exists o :: o in selected && o.Arrow? {
          var o :| o in selected && o.Arrow?;
          assert o in arrows;
          forall i | 0 <= i < |arrows| ensures arrows[i] in selected && arrows[i].Arrow? {
            assert arrows[i] in arrows;
          }
        }
      }
      r
  }

  // ------------------------------------------------------------ the edits

  /** The colour picker's patch. */
  function ColorEdit(color: string): Reducer.PatchSpec {
    Reducer.Fixed(Some(Reducer.Patch(Some(color), None, None, None, None)))
  }

  /** The text field's patch. */
  function TextEdit(text: string): Reducer.PatchSpec {
    Reducer.Fixed(Some(Reducer.Patch(None, Some(text), None, None, None)))
  }

  /** A width, height or stroke edit skips NaN, which `Number` yields for text that is not a number; any number is sent. */
  function NumberEdit(value: Option<real>, field: Obj -> Option<Reducer.Patch>): (r: Option<Reducer.PatchSpec>)
    ensures r.Some? <==> value.Some?
    ensures r.Some? ==> r.value.PerObject? && r.value.f == field
  {
    if value.None? then None else Some(Reducer.PerObject(field))
  }

  /**
   * The width input's change: `None` when the number does not parse (NaN), else
   * a per-object patch that sets the width of notes and rects and skips arrows.
   */
  function WidthEdit(value: Option<real>): Option<Reducer.PatchSpec> {
    NumberEdit(value, (o: Obj) => if o.Arrow? then None else Some(Reducer.Patch(None, None, value, None, None)))
  }

  /** The height input's change, like the width's. */
  function HeightEdit(value: Option<real>): Option<Reducer.PatchSpec> {
    NumberEdit(value, (o: Obj) => if o.Arrow? then None else Some(Reducer.Patch(None, None, None, value, None)))
  }

  /** The stroke input's change: a per-object patch that sets the stroke width of arrows and skips the rest. */
  function StrokeWidthEdit(value: Option<real>): Option<Reducer.PatchSpec> {
    NumberEdit(value, (o: Obj) => if o.Arrow? then Some(Reducer.Patch(None, None, None, None, value)) else None)
  }

  /** The board's objects after PATCH_OBJECTS with these ids and this patch. */
  function PatchAll(objs: seq<Obj>, ids: seq<string>, spec: Reducer.PatchSpec, now: int): (r: seq<Obj>)
    ensures |r| == |objs|
    ensures forall i :: 0 <= i < |objs| ==> r[i] == Reducer.PatchedObject(objs[i], ids, spec, now)
  {
    seq(|objs|, i requires 0 <= i < |objs| => Reducer.PatchedObject(objs[i], ids, spec, now))
  }

  /** PATCH_OBJECTS leaves the board's objects as `PatchAll` describes, whether or not it commits. */
  lemma PatchBoardObjects(board: Board, ids: seq<string>, spec: Reducer.PatchSpec, now: int)
    ensures var next := Reducer.PatchBoard(board, ids, spec, now);
            (if next.Same? then board.objects else next.board.objects) == PatchAll(board.objects, ids, spec, now)
  {
  }

  /** A colour edit recolours exactly the listed objects and changes nothing else but their timestamp. */
  lemma ColorEditRecolors(o: Obj, ids: seq<string>, color: string, now: int)
    ensures var r := Reducer.PatchedObject(o, ids, ColorEdit(color), now);
            && r.color == (if o.id in ids then color else o.color)
            && r.(color := o.color, updatedAt := o.updatedAt) == o
  {
  }

  /** A text edit rewrites the text of exactly the listed objects and changes nothing else but their timestamp. */
  lemma TextEditRewrites(o: Obj, ids: seq<string>, text: string, now: int)
    ensures var r := Reducer.PatchedObject(o, ids, TextEdit(text), now);
            && r.text == (if o.id in ids then text else o.text)
            && r.(text := o.text, updatedAt := o.updatedAt) == o
  {
  }

  /**
   * A width edit sets the width of every listed note and rect and touches nothing
   * else: arrows and unlisted objects are left as they are.
   */
  lemma WidthEditSetsBoxes(o: Obj, ids: seq<string>, v: real, now: int)
    ensures var r := Reducer.PatchedObject(o, ids, WidthEdit(Some(v)).value, now);
            && (o.Arrow? || o.id !in ids ==> r == o)
            && (!o.Arrow? && o.id in ids ==> r.width == v && r.(width := o.width, updatedAt := o.updatedAt) == o)
  {
  }

  /** A height edit sets the height of every listed note and rect and leaves arrows and unlisted objects alone. */
  lemma HeightEditSetsBoxes(o: Obj, ids: seq<string>, v: real, now: int)
    ensures var r := Reducer.PatchedObject(o, ids, HeightEdit(Some(v)).value, now);
            && (o.Arrow? || o.id !in ids ==> r == o)
            && (!o.Arrow? && o.id in ids ==> r.height == v && r.(height := o.height, updatedAt := o.updatedAt) == o)
  {
  }

  /** A stroke edit sets the stroke width of every listed arrow and leaves notes, rects and unlisted objects alone. */
  lemma StrokeWidthEditSetsArrows(o: Obj, ids: seq<string>, v: real, now: int)
    ensures var r := Reducer.PatchedObject(o, ids, StrokeWidthEdit(Some(v)).value, now);
            && (!o.Arrow? || o.id !in ids ==> r == o)
            && (o.Arrow? && o.id in ids ==> r.strokeWidth == v && r.(strokeWidth := o.strokeWidth, updatedAt := o.updatedAt) == o)
  {
  }

  /** Patching keeps every object's id and kind, so selecting and patching commute. */
  lemma {:induction false} KeepPatched(objs: seq<Obj>, ids: seq<string>, spec: Reducer.PatchSpec, now: int)
    ensures Keep(PatchAll(objs, ids, spec, now), ids) == PatchAll(Keep(objs, ids), ids, spec, now)
    decreases |objs|
  {
    if objs != [] {
      var init, last := objs[..|objs| - 1], objs[|objs| - 1];
      KeepPatched(init, ids, spec, now);
      var all := PatchAll(objs, ids, spec, now);
      assert all[..|all| - 1] == PatchAll(init, ids, spec, now);
      var patchedLast := all[|all| - 1];
      PatchedKeepsIdentity(last, ids, spec, now);
      if last.id in ids {
        assert Keep(all, ids) == Keep(PatchAll(init, ids, spec, now), ids) + [patchedLast];
        assert Keep(objs, ids) == Keep(init, ids) + [last];
        PatchAllSnoc(Keep(init, ids), last, ids, spec, now);
      } else {
        assert Keep(all, ids) == Keep(PatchAll(init, ids, spec, now), ids);
        assert Keep(objs, ids) == Keep(init, ids);
      }
    }
  }

  /** Patching a sequence with one more object at its end appends that object patched. */
  lemma PatchAllSnoc(objs: seq<Obj>, o: Obj, ids: seq<string>, spec: Reducer.PatchSpec, now: int)
    ensures PatchAll(objs + [o], ids, spec, now) == PatchAll(objs, ids, spec, now) + [Reducer.PatchedObject(o, ids, spec, now)]
  {
    var a, b := PatchAll(objs + [o], ids, spec, now), PatchAll(objs, ids, spec, now) + [Reducer.PatchedObject(o, ids, spec, now)];
    assert |a| == |b|;
    forall i | 0 <= i < |a| ensures a[i] == b[i] {
      if i < |objs| {
        assert (objs + [o])[i] == objs[i];
      }
    }
  }

  /** Patching keeps an object's id and its variant. */
  lemma PatchedKeepsIdentity(o: Obj, ids: seq<string>, spec: Reducer.PatchSpec, now: int)
    ensures var r := Reducer.PatchedObject(o, ids, spec, now);
            r.id == o.id && r.Arrow? == o.Arrow?
  {
    var r := Reducer.PatchedObject(o, ids, spec, now);
    assert r.KindOf() == o.KindOf();
  }

  /** Patching keeps every object's kind, so taking the notes and rects and patching commute. */
  lemma {:induction false} ResizablePatched(objs: seq<Obj>, ids: seq<string>, spec: Reducer.PatchSpec, now: int)
    ensures Resizable(PatchAll(objs, ids, spec, now)) == PatchAll(Resizable(objs), ids, spec, now)
    decreases |objs|
  {
    if objs != [] {
      var init, last := objs[..|objs| - 1], objs[|objs| - 1];
      ResizablePatched(init, ids, spec, now);
      var all := PatchAll(objs, ids, spec, now);
      assert all[..|all| - 1] == PatchAll(init, ids, spec, now);
      var patchedLast := all[|all| - 1];
      PatchedKeepsIdentity(last, ids, spec, now);
      if !last.Arrow? {
        assert Resizable(all) == Resizable(PatchAll(init, ids, spec, now)) + [patchedLast];
        assert Resizable(objs) == Resizable(init) + [last];
        assert PatchAll(Resizable(objs), ids, spec, now)
               == PatchAll(Resizable(init), ids, spec, now) + [patchedLast];
      } else {
        assert Resizable(all) == Resizable(PatchAll(init, ids, spec, now));
        assert Resizable(objs) == Resizable(init);
      }
    }
  }

  /**
   * After a width edit of the selection, the width field shows the value typed,
   * as soon as a note or rect is selected.
   */
  lemma WidthEditShowsValue(objects: seq<Obj>, selectedIds: seq<string>, v: real, now: int)
    ensures var after := PatchAll(objects, selectedIds, WidthEdit(Some(v)).value, now);
            CommonWidth(SelectedObjects(after, selectedIds))
            == if |Resizable(SelectedObjects(objects, selectedIds))| > 0 then Some(v) else None
  {
    var spec := WidthEdit(Some(v)).value;
    var after := PatchAll(objects, selectedIds, spec, now);
    var selected := Keep(objects, selectedIds);
    var boxes := Resizable(selected);
    KeepPatched(objects, selectedIds, spec, now);
    ResizablePatched(selected, selectedIds, spec, now);
    assert Resizable(Keep(after, selectedIds)) == PatchAll(boxes, selectedIds, spec, now);
    PatchedBoxesShowWidth(boxes, selectedIds, v, now);
  }

  /** Listed notes and rects, patched by a width edit, all show that width. */
  lemma PatchedBoxesShowWidth(boxes: seq<Obj>, ids: seq<string>, v: real, now: int)
    requires forall o :: o in boxes ==> !o.Arrow? && o.id in ids
    ensures var patched := PatchAll(boxes, ids, WidthEdit(Some(v)).value, now);
            Resizable(patched) == patched
            && FieldValueOrEmpty(Widths(patched)) == if |boxes| > 0 then Some(v) else None
  {
    PatchedBoxesWidths(boxes, ids, v, now);
    BoxesShowWidth(PatchAll(boxes, ids, WidthEdit(Some(v)).value, now), v);
  }

  /** Notes and rects that all have width v are their own filter, and the width field shows v unless there are none. */
  lemma BoxesShowWidth(objs: seq<Obj>, v: real)
    requires forall i :: 0 <= i < |objs| ==> !objs[i].Arrow? && objs[i].width == v
    ensures Resizable(objs) == objs
    ensures FieldValueOrEmpty(Widths(objs)) == if |objs| > 0 then Some(v) else None
  {
    NoArrowsKept(objs);
    var widths := Widths(objs);
    if |objs| > 0 {
      assert FieldValueOrEmpty(widths) == Some(widths[0]);
    }
  }

  /** Each listed note or rect, patched by a width edit, is still a note or rect and has that width. */
  lemma PatchedBoxesWidths(boxes: seq<Obj>, ids: seq<string>, v: real, now: int)
    requires forall o :: o in boxes ==> !o.Arrow? && o.id in ids
    ensures var patched := PatchAll(boxes, ids, WidthEdit(Some(v)).value, now);
            forall i :: 0 <= i < |patched| ==> !patched[i].Arrow? && patched[i].width == v
  {
    var patched := PatchAll(boxes, ids, WidthEdit(Some(v)).value, now);
    forall i | 0 <= i < |boxes|
      ensures !patched[i].Arrow? && patched[i].width == v
    {
      assert boxes[i] in boxes;
      WidthEditSetsBoxes(boxes[i], ids, v, now);
    }
  }

  /** A sequence without arrows is its own notes-and-rects filter. */
  lemma {:induction false} NoArrowsKept(objs: seq<Obj>)
    requires forall i :: 0 <= i < |objs| ==> !objs[i].Arrow?
    ensures Resizable(objs) == objs
    decreases |objs|
  {
    if objs != [] {
      var init := objs[..|objs| - 1];
      NoArrowsKept(init);
      assert objs == init + [objs[|objs| - 1]];
    }
  }

  // ------------------------------------------------------- selection list

  /** `toggleSelection`: a checked box appends the id, an unchecked one removes every occurrence of it. */
  function ToggleSelection(selectedIds: seq<string>, id: string, checked: bool): (r: seq<string>)
    ensures forall x :: x in r <==> (checked && x == id) || (x in selectedIds && (checked || x != id))
    ensures checked ==> |r| == |selectedIds| + 1 && r[..|selectedIds|] == selectedIds
  {
    if checked then selectedIds + [id] else Reducer.Remove(selectedIds, id)
  }

  /** Removing an id that is not there changes nothing. */
  lemma {:induction false} RemoveAbsent(ids: seq<string>, id: string)
    requires id !in ids
    ensures Reducer.Remove(ids, id) == ids
    decreases |ids|
  {
    if ids != [] {
      RemoveAbsent(ids[..|ids| - 1], id);
      assert ids[..|ids| - 1] + [ids[|ids| - 1]] == ids;
    }
  }

  /** Checking and then unchecking an unselected object's box restores the selection. */
  lemma CheckThenUncheck(selectedIds: seq<string>, id: string)
    requires id !in selectedIds
    ensures ToggleSelection(ToggleSelection(selectedIds, id, true), id, false) == selectedIds
  {
    var checked := selectedIds + [id];
    assert checked[..|checked| - 1] == selectedIds;
    RemoveAbsent(selectedIds, id);
  }

  /**
   * A check box sent through SET_SELECTED_IDS: checking selects the object (when
   * it is on the board) in addition to the rest, unchecking deselects it, and the
   * selection stays free of duplicates either way.
   */
  lemma ToggleThroughReducer(s: Reducer.State, id: string, checked: bool, now: int)
    requires Reducer.Valid(s)
    ensures var r := Reducer.Reduce(s, Reducer.SetSelectedIds(ToggleSelection(s.selectedIds, id, checked)), now);
            && Reducer.Valid(r)
            && (forall x :: x in r.selectedIds <==>
                  (x in s.selectedIds && x != id) || (x == id && checked && id in IdsOf(s.present.objects)))
  {
  }
}
