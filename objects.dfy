/**
 * The board's object model: the three shape variants, the board value, the
 * drawing tools, the shape factories with their per-type defaults, duplication,
 * the demo board and the index-based labels.
 *
 * Clock readings and freshly generated ids are parameters (`now`, `id`): the
 * generator itself is modelled in module Ids.
 */
module Objects {
  import opened Wrappers
  import Text

  const BoardVersion := 1

  datatype Kind = NoteKind | RectKind | ArrowKind

  /** The drawing tool: selection, or one of the three shape kinds. */
  datatype Tool = SelectTool | ShapeTool(kind: Kind)

  /** A board object, one constructor per `type`; coordinates are world-space reals, timestamps epoch milliseconds. */
  datatype Obj =
    | Note(id: string, x: real, y: real, color: string, createdAt: int, updatedAt: int,
           width: real, height: real, text: string)
    | Rect(id: string, x: real, y: real, color: string, createdAt: int, updatedAt: int,
           width: real, height: real, text: string)
    | Arrow(id: string, x: real, y: real, color: string, createdAt: int, updatedAt: int,
            x2: real, y2: real, strokeWidth: real, text: string)
  {
    function KindOf(): Kind {
      match this
      case Note(_, _, _, _, _, _, _, _, _) => NoteKind
      case Rect(_, _, _, _, _, _, _, _, _) => RectKind
      case Arrow(_, _, _, _, _, _, _, _, _, _) => ArrowKind
    }

    /** The second endpoint's x for an arrow; 0 for the shapes that have none. */
    function EndX(): real { if Arrow? then x2 else 0.0 }
    function EndY(): real { if Arrow? then y2 else 0.0 }

    /**
     * The same object with its position (and an arrow's second endpoint) replaced;
     * the end coordinates are ignored for notes and rects.
     */
    function WithAnchors(nx: real, ny: real, nx2: real, ny2: real): (r: Obj)
      ensures r.KindOf() == KindOf() && r.x == nx && r.y == ny
      ensures Arrow? ==> r.x2 == nx2 && r.y2 == ny2
    {
      match this
      case Note(i, _, _, c, ca, u, w, h, t) => Note(i, nx, ny, c, ca, u, w, h, t)
      case Rect(i, _, _, c, ca, u, w, h, t) => Rect(i, nx, ny, c, ca, u, w, h, t)
      case Arrow(i, _, _, c, ca, u, _, _, sw, t) => Arrow(i, nx, ny, c, ca, u, nx2, ny2, sw, t)
    }
  }

  /** A board: its format version, its objects in insertion (z-) order, and the time of the last change. */
  datatype Board = Board(version: int, objects: seq<Obj>, lastUpdatedAt: int)

  const NoteColor := "#fbbf24"
  const RectColor := "#60a5fa"
  const ArrowColor := "#f43f5e"
  const NotePlaceholder := "Add your note here"
  const DuplicateOffset: real := 28.0

  function DefaultColor(kind: Kind): string {
    match kind
    case NoteKind => NoteColor
    case RectKind => RectColor
    case ArrowKind => ArrowColor
  }

  /**
   * `createObject`: a shape of the given kind at (x, y). Notes are 220 by 160 with a
   * placeholder text, rects 240 by 140 with empty text, arrows end 180 right and
   * 70 below their start with stroke width 3; a missing colour is the kind's default.
   */
  function CreateObject(kind: Kind, x: real, y: real, color: Option<string>, text: Option<string>,
                        id: string, now: int): (o: Obj)
    ensures o.KindOf() == kind && o.id == id && o.x == x && o.y == y
    ensures o.color == (if color.Some? then color.value else DefaultColor(kind))
    ensures o.createdAt == now && o.updatedAt == now
    ensures kind == NoteKind ==> o.width == 220.0 && o.height == 160.0
                                 && o.text == (if text.Some? then text.value else NotePlaceholder)
    ensures kind == RectKind ==> o.width == 240.0 && o.height == 140.0
                                 && o.text == (if text.Some? then text.value else "")
    ensures kind == ArrowKind ==> o.x2 == x + 180.0 && o.y2 == y + 70.0 && o.strokeWidth == 3.0
                                  && o.text == (if text.Some? then text.value else "")
  {
    var c := if color.Some? then color.value else DefaultColor(kind);
    match kind
    case NoteKind =>
      Note(id, x, y, c, now, now, 220.0, 160.0, if text.Some? then text.value else NotePlaceholder)
    case RectKind =>
      Rect(id, x, y, c, now, now, 240.0, 140.0, if text.Some? then text.value else "")
    case ArrowKind =>
      Arrow(id, x, y, c, now, now, x + 180.0, y + 70.0, 3.0, if text.Some? then text.value else "")
  }

  /**
   * `duplicateObject`: a copy under a fresh id with new timestamps, shifted by
   * `offset` on both axes (both endpoints for an arrow); every other field is kept.
   */
  function DuplicateObject(o: Obj, offset: real, id: string, now: int): (d: Obj)
    ensures d.KindOf() == o.KindOf() && d.id == id && d.createdAt == now && d.updatedAt == now
    ensures d.x == o.x + offset && d.y == o.y + offset
    ensures d.color == o.color && d.text == o.text
    ensures !o.Arrow? ==> d.width == o.width && d.height == o.height
    ensures o.Arrow? ==> d.x2 == o.x2 + offset && d.y2 == o.y2 + offset && d.strokeWidth == o.strokeWidth
  {
    var next := o.(id := id, createdAt := now, updatedAt := now);
    next.WithAnchors(o.x + offset, o.y + offset, o.EndX() + offset, o.EndY() + offset)
  }

  /**
   * `createDemoBoard`: version 1 with a welcome note, a goal rectangle and an arrow
   * whose end is moved to (460, 220). The three ids are supplied by the caller.
   */
  function CreateDemoBoard(noteId: string, rectId: string, arrowId: string, now: int): (b: Board)
    ensures b.version == BoardVersion && |b.objects| == 3
    ensures b.objects[0].Note? && b.objects[1].Rect? && b.objects[2].Arrow?
    ensures b.objects[0].id == noteId && b.objects[1].id == rectId && b.objects[2].id == arrowId
    ensures b.objects[2].x == 320.0 && b.objects[2].y == 220.0
    ensures b.objects[2].x2 == 460.0 && b.objects[2].y2 == 220.0
  {
    var welcomeNote := CreateObject(NoteKind, 120.0, 120.0, Some(NoteColor),
                                    Some("Welcome to Collab Board Lite. Drag, edit, and create."), noteId, now);
    var taskRect := CreateObject(RectKind, 460.0, 150.0, Some(RectColor), Some("Goal\nShip the MVP"), rectId, now);
    var linkArrow := CreateObject(ArrowKind, 320.0, 220.0, Some(ArrowColor), None, arrowId, now)
                       .(x2 := 460.0, y2 := 220.0);
    Board(BoardVersion, [welcomeNote, taskRect, linkArrow], now)
  }

  function LabelPrefix(kind: Kind): string {
    match kind
    case NoteKind => "Note "
    case RectKind => "Rectangle "
    case ArrowKind => "Arrow "
  }

  /** `getObjectLabel`: the kind's name followed by the one-based position `index + 1` in decimal. */
  function GetObjectLabel(o: Obj, index: nat): (name: string)
    ensures |name| > |LabelPrefix(o.KindOf())|
    ensures name[..|LabelPrefix(o.KindOf())|] == LabelPrefix(o.KindOf())
    ensures forall i :: |LabelPrefix(o.KindOf())| <= i < |name| ==> '0' <= name[i] <= '9'
    ensures name[|LabelPrefix(o.KindOf())|] != '0'
    ensures Text.Value(name[|LabelPrefix(o.KindOf())|..], 10) == index + 1
  {
    var p := LabelPrefix(o.KindOf());
    var n := Text.Digits(index + 1, 10);
    Text.DigitsRoundTrip(index + 1, 10);
    assert (p + n)[|p|..] == n;
    p + n
  }

  /** Two objects of one kind at different positions get different labels. */
  lemma LabelsDistinct(o: Obj, i: nat, p: Obj, j: nat)
    requires o.KindOf() == p.KindOf() && i != j
    ensures GetObjectLabel(o, i) != GetObjectLabel(p, j)
  {
  }

  /** The ids of `objs`, in order. */
  function IdsOf(objs: seq<Obj>): (ids: seq<string>)
    ensures |ids| == |objs| && forall i :: 0 <= i < |objs| ==> ids[i] == objs[i].id
  {
    seq(|objs|, i requires 0 <= i < |objs| => objs[i].id)
  }

  /** The objects of `objs` whose id is in `ids`, in board order (`objects.filter((o) => idSet.has(o.id))`). */
  function Keep(objs: seq<Obj>, ids: seq<string>): (r: seq<Obj>)
    ensures |r| <= |objs|
    ensures forall o :: o in r <==> o in objs && o.id in ids
    decreases |objs|
  {
    if objs == [] then []
    else if objs[|objs| - 1].id in ids then Keep(objs[..|objs| - 1], ids) + [objs[|objs| - 1]]
    else Keep(objs[..|objs| - 1], ids)
  }

  /** The objects of `objs` whose id is not in `ids`, in board order. */
  function Drop(objs: seq<Obj>, ids: seq<string>): (r: seq<Obj>)
    ensures |r| <= |objs|
    ensures forall o :: o in r <==> o in objs && o.id !in ids
    decreases |objs|
  {
    if objs == [] then []
    else if objs[|objs| - 1].id in ids then Drop(objs[..|objs| - 1], ids)
    else Drop(objs[..|objs| - 1], ids) + [objs[|objs| - 1]]
  }

  /** Filtering works piece by piece: kept objects stay in board order, each as often as on the board. */
  lemma {:induction false} KeepConcat(a: seq<Obj>, b: seq<Obj>, ids: seq<string>)
    ensures Keep(a + b, ids) == Keep(a, ids) + Keep(b, ids)
    decreases |b|
  {
    if b == [] {
      assert a + b == a;
    } else {
      var init := b[..|b| - 1];
      assert (a + b)[..|a + b| - 1] == a + init;
      assert (a + b)[|a + b| - 1] == b[|b| - 1];
      KeepConcat(a, init, ids);
    }
  }

  /** Dropping works piece by piece, so the remaining objects stay in board order. */
  lemma {:induction false} DropConcat(a: seq<Obj>, b: seq<Obj>, ids: seq<string>)
    ensures Drop(a + b, ids) == Drop(a, ids) + Drop(b, ids)
    decreases |b|
  {
    if b == [] {
      assert a + b == a;
    } else {
      var init := b[..|b| - 1];
      assert (a + b)[..|a + b| - 1] == a + init;
      assert (a + b)[|a + b| - 1] == b[|b| - 1];
      DropConcat(a, init, ids);
    }
  }

  /** Keeping and dropping by the same ids split the board: the kept and the dropped objects add up to all of them. */
  lemma {:induction false} KeepDropPartition(objs: seq<Obj>, ids: seq<string>)
    ensures |Keep(objs, ids)| + |Drop(objs, ids)| == |objs|
    decreases |objs|
  {
    if objs != [] {
      KeepDropPartition(objs[..|objs| - 1], ids);
    }
  }
}
