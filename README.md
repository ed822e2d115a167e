# Collab Board Lite — a Dafny model of the whiteboard state engine

Collab Board Lite is a small browser whiteboard. Its core is a state engine. It
holds sticky notes, rectangles and arrows on a board. A reducer applies
commands (add, patch, move, resize, delete, duplicate, select, pan, zoom) and
keeps a bounded linear undo/redo history. The canvas turns pointer and wheel
input into those commands. While a drag or resize is in progress, the canvas
draws a live preview and commits nothing. Persistence keeps the board in one
versioned storage entry.

The model, one Dafny module per source file:

| module | file | models |
|---|---|---|
| `Wrappers` | wrappers.dfy | an `Option` type (JavaScript's `null` / missing value) |
| `Text` | text.dfy | base-36 digits (`Number.prototype.toString(36)`), `padStart`, the text after the last `-` |
| `Objects` | objects.dfy | the three shape variants, the board, `createObject`, `duplicateObject`, `createDemoBoard`, `getObjectLabel`, id filters |
| `Geometry` | geometry.dfy | `clamp`, `snap`, `snapPoint`, `screenToWorld`, `getObjectBounds`, `translateObject` |
| `Selection` | selection.dfy | `sanitizeSelection`: dedup in first-occurrence order, then keep the known ids |
| `Reducer` | reducer.dfy | `createInitialState`, `withBoardObjects`, `commitBoard`, `patchObjects` and every `boardReducer` case |
| `ReducerProperties` | reducer_properties.dfy | the reducer's invariants and history laws |
| `Ids` | ids.dfy | `createId`: the generator with its `sequence` counter, both branches |
| `Storage` | storage.dfy | `isValidBoard`, `loadBoard`, `saveBoard`, `clearBoard` over one stored entry |
| `Canvas` | canvas.dfy | the canvas's gesture state machine (`Controller`), `toWorld`, the wheel zoom, `withPreview` |
| `Panel` | panel.dfy | the properties panel's field values, edit patches and selection check boxes |

How the source's mechanisms appear in the model:

- Objects are a datatype with one constructor per `type`. Coordinates are exact
  reals, timestamps are integers.
- Clock readings (`Date.now()`, `new Date().toISOString()`) are parameters (`now`,
  `updatedAt`).
- Fresh ids for duplicates are a parameter `freshId: nat -> string`, one per copy.
  The generator itself is modelled in `Ids`.
- The reducer returns the very same state object for a no-op. The model mirrors
  this with `Next = Same | Fresh(board)`: `commitBoard` does nothing for `Same`.
- A patch is a record of optional keys (`color`, `text`, `width`, `height`,
  `strokeWidth`). It is either a fixed partial or a per-object function returning
  a partial or `null`.
- Storage is a class holding the one entry. JSON encoding is the identity.
  Unparseable text and non-object values are constructors of `Stored`.
- The canvas component is a class `Controller`. Its fields are the interaction
  ref and the two preview states. Props are a `View` value passed to each
  handler, and DOM facts about an event are fields of `Pointer`. The callbacks a
  handler invokes are returned as a list of `Command`s.

Behaviour worth knowing, which the model reproduces as the code has it:

- After add, delete, undo, the selection is empty, not the restored object's id.
  DELETE_SELECTED clears the selection and UNDO only sanitises it
  (`ReducerProperties.AddDeleteUndo`).
- A pointer-down during a gesture is not rejected. It replaces the gesture in
  progress (`Canvas.Controller.CanvasPointerDown`, `ObjectPointerDown`,
  `StartResize`).
- Only the canvas resize gesture clamps a note's size. RESIZE_NOTE and the
  panel's width and height edits store any number. With snapping on, the
  gesture's height can be 96, below the minimum of 100, because the clamp runs
  before the snap (`Canvas.SnappedHeightBelowMinimum`).
- Pressing an object with a shape tool adds a new shape there. The object's
  handler does not stop the event, so it reaches the canvas handler
  (`Canvas.Controller.PressObject`).
- Loading falls back to the seed and saves it, but an invalid seed is not saved
  (`Storage.SavedEntry`).

## Model

| member | source | states |
|---|---|---|
| Text.Digits | src/lib/ids.js:9 | the digits of a natural number in the base: at least one, each a digit character worth less than the base, no leading zero |
| Text.DigitsRoundTrip | src/lib/ids.js:9 | reading the digits back gives the number |
| Text.DigitsInjective | src/lib/ids.js:9 | different numbers have different digit strings |
| Text.PadStart | src/lib/ids.js:10 | the padded string has the requested length (at least the original's) and is fill characters followed by the original |
| Text.PadStartDigits | src/lib/ids.js:10 | zero padding keeps a digit string a digit string, and changes it only when padding to exactly the width |
| Text.PadStartValue | src/lib/ids.js:10 | zero padding does not change a digit string's value |
| Text.LastSegment | src/lib/ids.js:11 | a suffix free of `-` that is either the whole text or starts right after a `-` |
| Text.LastSegmentAfterDash | src/lib/ids.js:11 | the last segment of `a-b` is `b` when `b` has no `-` |
| Objects.CreateObject | src/features/board/objects.js:25-66 | the shape of the requested kind at (x, y), stamped `now`, with its default size, colour and text unless given |
| Objects.DuplicateObject | src/features/board/objects.js:68-92 | a copy under a new id and timestamps, shifted by the offset (both endpoints of an arrow) |
| Objects.CreateDemoBoard | src/features/board/objects.js:94-127 | a version-1 board of a welcome note, a goal rectangle and an arrow from (320, 220) to (460, 220) |
| Objects.GetObjectLabel | src/features/board/objects.js:129-143 | the kind's name followed by the decimal numeral of the index plus one: decimal digits only, no leading zero |
| Objects.LabelsDistinct | src/features/board/objects.js:129-143 | objects at different indexes get different labels |
| Objects.Keep | src/features/board/reducer.js:303-305 | exactly the objects whose id is listed, at most as many as given |
| Objects.KeepConcat | src/features/board/reducer.js:303-305 | the filter works piece by piece, so kept objects stay in board order and multiplicity |
| Objects.Drop | src/features/board/reducer.js:292-293 | exactly the objects whose id is not listed, at most as many as given |
| Objects.DropConcat | src/features/board/reducer.js:292-293 | the filter works piece by piece, so the remaining objects stay in board order |
| Objects.KeepDropPartition | src/features/board/reducer.js:292-305 | kept and dropped objects add up to the whole board |
| Geometry.Clamp | src/lib/geometry.js:3-5 | the result is at most `max`, at least `min` when `min <= max`, and the value itself when in range |
| Geometry.Round | src/lib/geometry.js:8 | `Math.round` lies within half a unit of its argument |
| Geometry.Snap | src/lib/geometry.js:7-9 | a multiple of the step in (v - step/2, v + step/2], so an exact half-step tie goes to the upper multiple as `Math.round` does |
| Geometry.SnapIdempotent | src/lib/geometry.js:7-9 | values on the grid are fixed points; snapping twice is snapping once |
| Geometry.SnapMonotone | src/lib/geometry.js:7-9 | snapping keeps order for a positive step |
| Geometry.SnapUnique | src/lib/geometry.js:7-9 | any multiple of a positive step in (v - step/2, v + step/2] is the snapped value, so the contract fixes the result |
| Geometry.SnapTiesUp | src/lib/geometry.js:7-9 | on the 16-unit grid +8 snaps to 16 and -8 snaps to 0 |
| Geometry.SnapPoint | src/lib/geometry.js:11-16 | both coordinates snapped independently |
| Geometry.ScreenToWorld | src/lib/geometry.js:18-23 | mapping the world point back through rect, pan and zoom gives the client point |
| Geometry.GetObjectBounds | src/lib/geometry.js:25-46 | the stored box of a note or rect; for an arrow the box from the minimum corner holding both endpoints, its span exact when not zero and 1 when zero |
| Geometry.AppliedDelta | src/lib/geometry.js:49-50 | the delta itself, or the delta snapped to the 16-unit grid: a multiple of 16 within 8 of it |
| Geometry.TranslateObject | src/lib/geometry.js:48-67 | every positional field shifted by the same delta, nothing else changed |
| Geometry.TranslateKeepsGrid | src/lib/geometry.js:48-67 | with snapping, a grid-aligned object stays grid-aligned |
| Geometry.DuplicateIsTranslate | src/features/board/objects.js:68-92 | duplicating is an unsnapped translation by the offset under a new id and timestamps |
| Geometry.CreatedBounds | src/features/board/objects.js:37-63 | a created shape's bounds are its default box at the requested point |
| Selection.Dedup | src/features/board/reducer.js:18 | duplicate-free, with exactly the members of the input |
| Selection.DedupOrder | src/features/board/reducer.js:18 | each id kept at the place of its first occurrence |
| Selection.KeepKnown | src/features/board/reducer.js:17-18 | exactly the listed ids that are known |
| Selection.KeepKnownOrder | src/features/board/reducer.js:17-18 | filtering a duplicate-free list keeps it duplicate-free and in first-occurrence order |
| Selection.Sanitize | src/features/board/reducer.js:16-19 | duplicate-free; an id is in it iff selected and known; first-occurrence order |
| Selection.SanitizeKeepsClean | src/features/board/reducer.js:16-19 | a duplicate-free selection of known ids is left unchanged |
| Selection.DedupKeepsDistinct | src/features/board/reducer.js:18 | dedup leaves a duplicate-free sequence unchanged |
| Selection.KeepKnownKeepsKnown | src/features/board/reducer.js:17-18 | filtering keeps a sequence of known ids unchanged |
| Reducer.CreateInitialState | src/features/board/reducer.js:73-90 | a valid state: empty history, nothing selected, history limit the option or 60, raised to 20 when below, select tool, zoom 1, pan origin, snapping and both sheets off, hint as asked |
| Reducer.WithBoardObjects | src/features/board/reducer.js:8-14 | same version, the new objects, change time `now` |
| Reducer.CommitBoard | src/features/board/reducer.js:21-38 | no-op for the same board; else the present pushed on a past trimmed to the limit, future emptied, selection sanitised; limit, tool, zoom, pan, snapping, sheets and hint unchanged |
| Reducer.UndoStep | src/features/board/reducer.js:320-335 | the last past board becomes present, the old present heads the future, selection sanitised; all settings unchanged |
| Reducer.RedoStep | src/features/board/reducer.js:337-350 | the first future board becomes present, the old present ends the past, selection sanitised; all settings unchanged |
| Reducer.ApplyPatch | src/features/board/reducer.js:55-59 | the patched keys take the patch's values, `updatedAt` becomes now, id, kind and position stay |
| Reducer.PatchWithoutDiff | src/features/board/reducer.js:61-64 | a patch with no differing key would change nothing but the timestamp |
| Reducer.HasDiff | src/features/board/reducer.js:61 | definition; its meaning is stated by `PatchWithoutDiff` and `PatchedObject` |
| Reducer.PatchedObject | src/features/board/reducer.js:45-68 | an object is patched iff listed, its partial is an object and some key differs |
| Reducer.PatchBoard | src/features/board/reducer.js:40-71 | the same board iff no object changes; otherwise every object patched or kept as above, version kept and the board stamped `now` |
| Reducer.ResizePatch | src/features/board/reducer.js:269-278 | definition; stated by `ResizeTouchesOnlyTheNote` |
| Reducer.MovedObject | src/features/board/reducer.js:243-253 | definition; stated by `MoveTranslatesListed` |
| Reducer.AnyListed | src/features/board/reducer.js:240-257 | definition; stated by `MoveTranslatesListed` (no listed object: the state is returned) |
| Reducer.MoveAll | src/features/board/reducer.js:243-253 | one moved-or-kept object per object, in order |
| Reducer.DuplicateAll | src/features/board/reducer.js:304-306 | one duplicate per object, in order, the i-th under the i-th fresh id |
| Reducer.Remove | src/features/board/reducer.js:122 | every occurrence of the id removed, the rest kept, no longer than before |
| Reducer.RemoveConcat | src/features/board/reducer.js:122 | removal works piece by piece, so the remaining ids keep their order and multiplicity |
| Reducer.AddStep | src/features/board/reducer.js:208-215 | definition; stated by `AddSelectsNew` and `AddStepValid` |
| Reducer.PatchStep | src/features/board/reducer.js:217-229 | definition; stated by `PatchCommits`, `PatchWithoutChangeIsNoop` and `PatchStepValid` |
| Reducer.MoveStep | src/features/board/reducer.js:231-261 | definition; stated by `MoveNoop`, `MoveTranslatesListed`, `MoveStepCommits` and `MoveStepValid` |
| Reducer.DeleteStep | src/features/board/reducer.js:287-296 | definition; stated by `DeleteRemovesSelected`, `EmptySelectionNoops` and `DeleteStepValid` |
| Reducer.DuplicateStep | src/features/board/reducer.js:298-318 | definition; stated by `DuplicateAppendsCopies`, `EmptySelectionNoops` and `DuplicateStepValid` |
| Reducer.Reduce | src/features/board/reducer.js:92-355 | definition; every case is stated by a `ReducerProperties` lemma or by `UndoStep` and `RedoStep`, and `ReducePreservesValid` covers all of them |
| ReducerProperties.ReducePreservesValid | src/features/board/reducer.js:92-355 | every action keeps: selection duplicate-free and within the present ids, past plus future within the limit, limit at least 20, zoom within 0.35..2.5 |
| ReducerProperties.ViewActionValid | src/features/board/reducer.js:94-207 | tool, pan, viewport, zoom, snap, sheet and hint actions, load, undo, redo and unknown actions keep those invariants; zoom is clamped |
| ReducerProperties.ReselectValid | src/features/board/reducer.js:111-129 | replacing the selection by a sanitised one keeps those invariants |
| ReducerProperties.PatchStepValid | src/features/board/reducer.js:217-229 | patching the listed objects keeps those invariants |
| ReducerProperties.AddStepValid | src/features/board/reducer.js:208-215 | adding an object keeps those invariants |
| ReducerProperties.MoveStepValid | src/features/board/reducer.js:231-261 | moving the listed objects keeps those invariants |
| ReducerProperties.DeleteStepValid | src/features/board/reducer.js:287-296 | deleting the selection keeps those invariants |
| ReducerProperties.DuplicateStepValid | src/features/board/reducer.js:298-318 | duplicating the selection keeps those invariants |
| ReducerProperties.CommitKeepsValid | src/features/board/reducer.js:21-38 | a commit keeps those invariants |
| ReducerProperties.CommitPastLength | src/features/board/reducer.js:26-29 | past grows by one until the limit, then the oldest entry is dropped; the old present is its last entry |
| ReducerProperties.UndoRevertsCommit | src/features/board/reducer.js:320-335 | undo right after a commit restores the previous board |
| ReducerProperties.UndoThenRedo | src/features/board/reducer.js:320-350 | undo then redo restores past, present and future |
| ReducerProperties.RedoThenUndo | src/features/board/reducer.js:320-350 | redo then undo restores past, present and future |
| ReducerProperties.RedoSeesOnlyHistory | src/features/board/reducer.js:337-350 | redo's history depends on the history alone |
| ReducerProperties.RedoTimesSeesOnlyHistory | src/features/board/reducer.js:337-350 | so does that of n redos |
| ReducerProperties.UndoAllRedoAll | src/features/board/reducer.js:320-350 | n undos (n at most the past's length) then n redos restore the history |
| ReducerProperties.OneSettingChanges | src/features/board/reducer.js:104-206 | SET_SELECTED_IDS (to the sanitised ids), SET_TOOL, SET_SNAP_TO_GRID, TOGGLE_SNAP_TO_GRID, the two sheet actions and DISMISS_HINT change their one field and nothing else; an unknown action changes nothing |
| ReducerProperties.LoadResets | src/features/board/reducer.js:94-102 | LOAD_BOARD makes the board present with no history and no selection, settings kept, invariants kept |
| ReducerProperties.SetPanOnlyPans | src/features/board/reducer.js:131-140 | SET_PAN sets the pan and nothing else; an equal pan returns the state as it is |
| ReducerProperties.SetZoomIdempotent | src/features/board/reducer.js:161-171 | SET_ZOOM sets exactly the clamped zoom and nothing else, returns the state as it is when that is the current zoom, and applying it twice equals once |
| ReducerProperties.SetViewportClamps | src/features/board/reducer.js:142-159 | SET_VIEWPORT clamps zoom, keeps the old pan when none is given, touches no history |
| ReducerProperties.PatchWithoutChangeIsNoop | src/features/board/reducer.js:217-229 | a patch changing no object returns the state itself |
| ReducerProperties.PatchCommits | src/features/board/reducer.js:217-229 | a patch changing an object commits the per-object result and pushes the old board |
| ReducerProperties.ResizeTouchesOnlyTheNote | src/features/board/reducer.js:263-285 | RESIZE_NOTE changes only the note with that id, and that note ends with exactly the given width and height; an empty id does nothing |
| ReducerProperties.MoveNoop | src/features/board/reducer.js:231-238 | no ids or a zero delta: the state itself |
| ReducerProperties.MoveTranslatesListed | src/features/board/reducer.js:231-261 | listed objects translated and stamped, others kept, count and order kept; a move that matches no object returns the state unchanged; otherwise the board is stamped, `future` emptied, settings kept and (on a valid state) the old board pushed on `past` with the selection kept |
| ReducerProperties.MoveStepCommits | src/features/board/reducer.js:255-260 | a move that reaches an object is one commit: objects moved, version kept, board stamped, history pushed, `future` emptied, settings kept, selection kept on a valid state |
| ReducerProperties.MoveKeepsIds | src/features/board/reducer.js:243-253 | moving keeps every object's id in place |
| ReducerProperties.MoveKeepsGrid | src/features/board/reducer.js:243-253 | snapped moves keep grid-aligned listed objects aligned |
| ReducerProperties.EmptySelectionNoops | src/features/board/reducer.js:287-300 | delete and duplicate do nothing without a selection |
| ReducerProperties.DeleteRemovesSelected | src/features/board/reducer.js:287-296 | exactly the selected objects removed, order kept, selection cleared, old board pushed |
| ReducerProperties.SelectedIsKept | src/features/board/reducer.js:303-308 | on a valid state, a non-empty selection selects some object |
| ReducerProperties.DuplicateAppendsCopies | src/features/board/reducer.js:298-318 | one copy per selected object appended in board order; with distinct fresh ids the copies become the selection; the old board pushed on `past`, `future` emptied, the board stamped and the settings kept |
| ReducerProperties.CopiesSelectable | src/features/board/reducer.js:312-317 | distinct fresh ids give a duplicate-free selection of present ids |
| ReducerProperties.AddDeleteUndo | src/features/board/reducer.js:208-215 | add, delete, undo restores the board with the added object; the selection ends empty |
| ReducerProperties.AddSelectsNew | src/features/board/reducer.js:208-215 | ADD_OBJECT appends the object, selects it alone, keeps the invariants |
| ReducerProperties.DropOnlyLast | src/features/board/reducer.js:293 | deleting a newly added object leaves the earlier objects |
| ReducerProperties.DropNone | src/features/board/reducer.js:293 | dropping ids no object has keeps the board |
| ReducerProperties.ToggleSelected | src/features/board/reducer.js:118-129 | a selected id is removed; a known unselected id is appended; an unknown one changes nothing; nothing but the selection changes |
| ReducerProperties.RemoveKeepsDistinct | src/features/board/reducer.js:122 | removing an id keeps a selection duplicate-free |
| ReducerProperties.SanitizeDropsUnknownLast | src/features/board/reducer.js:16-19 | appending an unknown id does not change the sanitised selection |
| Ids.Suffix | src/lib/ids.js:10 | at least three base-36 digit characters, a leading zero only when padded to exactly three, reading back the sequence number |
| Ids.FallbackId | src/lib/ids.js:8-11 | starts with the prefix and a dash; `FallbackIdDecodes` and `FallbackIdsDistinct` state the rest |
| Ids.FallbackIdDecodes | src/lib/ids.js:8-11 | the fallback id's last segment decodes to its sequence number |
| Ids.FallbackIdsDistinct | src/lib/ids.js:8-11 | fallback ids with different sequence numbers differ |
| Ids.IdGenerator.CreateId | src/lib/ids.js:3-12 | with a UUID source, prefix-uuid and the counter untouched; otherwise the counter incremented and the fallback id built from it |
| Ids.TwoFallbackIdsDiffer | src/lib/ids.js:8-11 | two fallback ids from one generator differ, whatever the clock says |
| Storage.Accepted | src/lib/storage.js:22-34 | a stored board is accepted iff the entry is an envelope of version 1 holding a version-1 board |
| Storage.IsValidBoard | src/lib/storage.js:8-15 | definition; stated by `Accepted` and `MalformedEntriesSeed` |
| Storage.Encode | src/lib/storage.js:49-53 | the written envelope is accepted back exactly when the board has version 1, and then yields that board |
| Storage.SavedEntry | src/lib/storage.js:44-56 | saving writes only when storage is usable and the board valid, and then the board is accepted on load |
| Storage.LoadOutcome | src/lib/storage.js:17-42 | without storage the seed as first run; an accepted board as not first run; else the seed as first run, saved |
| Storage.SaveThenLoad | src/lib/storage.js:17-56 | loading after saving a valid board returns it, not as first run |
| Storage.SeedIsPersisted | src/lib/storage.js:39-41 | a load that seeds makes the next load return that seed as stored |
| Storage.MalformedEntriesSeed | src/lib/storage.js:22-37 | unparseable, non-object, wrong-version and invalid entries all lead to the seed |
| Storage.BoardStore.Load | src/lib/storage.js:17-42 | the result and the new entry are those of `LoadOutcome` |
| Storage.BoardStore.Save | src/lib/storage.js:44-56 | the new entry is that of `SavedEntry` |
| Storage.BoardStore.Clear | src/lib/storage.js:58-64 | the entry is removed when storage is usable |
| Storage.ClearThenLoad | src/lib/storage.js:58-64 | after clearing, a load returns the seed as first run |
| Canvas.ToWorld | src/features/board/Canvas.jsx:35-42 | the origin without a viewport; else the world point that maps back to the client point |
| Canvas.PanFrom | src/features/board/Canvas.jsx:44-51 | the pan moves by the pointer's client displacement |
| Canvas.PanKeepsGrabbedPoint | src/features/board/Canvas.jsx:44-51 | panning keeps the grabbed world point under the pointer |
| Canvas.DragDelta | src/features/board/Canvas.jsx:83-95 | the world displacement since the drag began; when snapping, each component snapped to the 16-unit grid (a multiple within half a cell, ties going up) |
| Canvas.ResizeTo | src/features/board/Canvas.jsx:97-116 | the start size plus the pointer's world displacement clamped to 140..960 by 100..720, then snapped when snapping; so grid multiples within 144..960 by 96..720 when snapped |
| Canvas.SnappedLimits | src/features/board/Canvas.jsx:99-113 | the size limits snap to 144, 960, 96 and 720 |
| Canvas.SnappedHeightBelowMinimum | src/features/board/Canvas.jsx:104-113 | a snapped resize can yield height 96 |
| Canvas.WheelViewport | src/features/board/Canvas.jsx:205-216 | zoom times 0.92 when scrolling down and 1.08 otherwise, clamped to 0.35..2.5; the pan that keeps the cursor's world point unchanged |
| Canvas.AnchorKept | src/features/board/Canvas.jsx:207-215 | on one axis, the computed pan maps the cursor back to the world coordinate it had before the zoom |
| Canvas.Wheel | src/features/board/Canvas.jsx:197-219 | no command without a viewport; else one viewport command with that zoom, keeping the cursor's world point |
| Canvas.WithPreview | src/features/board/Canvas.jsx:221-251 | dragged objects shown moved (both arrow endpoints), the resized note at the preview size, all else as stored |
| Canvas.DragCommitMatchesPreview | src/features/board/Canvas.jsx:221-240 | committing a drag puts each object where its preview showed it |
| Canvas.ResizeCommitMatchesPreview | src/features/board/Canvas.jsx:242-248 | committing a resize gives each object the size its preview showed |
| Canvas.Controller.constructor | src/features/board/Canvas.jsx:28-31 | no gesture and no previews |
| Canvas.Controller.CanvasPointerDown | src/features/board/Canvas.jsx:123-144 | other buttons ignored; shape tool adds at the (snapped) world point; select tool clears the selection and starts panning |
| Canvas.Controller.ObjectPointerDown | src/features/board/Canvas.jsx:146-180 | desktop shift toggles; else selects the working ids and starts a drag unless on a no-drag element; the event bubbles iff the button is not primary or a shape tool is active |
| Canvas.IsDesktopShiftToggle | src/features/board/Canvas.jsx:157-158 | definition; stated by `Controller.ObjectPointerDown` (a desktop shift press only toggles) |
| Canvas.Controller.PressObject | src/features/board/Canvas.jsx:146-180 | with a shape tool, pressing an object adds a shape at that point |
| Canvas.Controller.StartResize | src/features/board/Canvas.jsx:182-195 | starts resizing from the note's drawn size |
| Canvas.Controller.PointerMove | src/features/board/Canvas.jsx:72-117 | panning emits the new pan; dragging and resizing only update their preview |
| Canvas.Controller.PointerUp | src/features/board/Canvas.jsx:53-70 | at most one commit, of the previewed move or resize; gesture and previews cleared |
| Canvas.DragGesture | src/features/board/Canvas.jsx:146-180 | press, move, release on an unselected object selects it, then moves it by the pointer's world displacement |
| Panel.FieldValueOrEmpty | src/features/board/PropertiesPanel.jsx:4-11 | the value every item shares, or empty when there are none or they differ |
| Panel.SelectedObjects | src/features/board/PropertiesPanel.jsx:22-23 | exactly the board objects whose id is selected (in board order by `Objects.KeepConcat`) |
| Panel.Single | src/features/board/PropertiesPanel.jsx:24 | an object exactly when one is selected |
| Panel.ColorValue | src/features/board/PropertiesPanel.jsx:26 | the common non-empty colour, else the note yellow; never empty |
| Panel.Resizable | src/features/board/PropertiesPanel.jsx:28-30 | exactly the notes and rects |
| Panel.ResizableConcat | src/features/board/PropertiesPanel.jsx:28-30 | the note-and-rect filter works piece by piece, keeping order |
| Panel.Arrows | src/features/board/PropertiesPanel.jsx:34 | exactly the arrows |
| Panel.ArrowsConcat | src/features/board/PropertiesPanel.jsx:34 | the arrow filter works piece by piece, keeping order |
| Panel.ResizableArrowsPartition | src/features/board/PropertiesPanel.jsx:28-34 | each selected object is in exactly one of the two groups |
| Panel.CommonWidth | src/features/board/PropertiesPanel.jsx:31 | a value exactly when notes or rects are selected and all share one width, and then that width |
| Panel.CommonHeight | src/features/board/PropertiesPanel.jsx:32 | a value exactly when notes or rects are selected and all share one height, and then that height |
| Panel.CommonStrokeWidth | src/features/board/PropertiesPanel.jsx:35 | a value exactly when arrows are selected and all share one stroke width, and then that stroke width |
| Panel.NumberEdit | src/features/board/PropertiesPanel.jsx:114-115 | a number input sends a patch iff the number is not NaN |
| Panel.ColorEdit | src/features/board/PropertiesPanel.jsx:83 | definition; stated by `ColorEditRecolors` |
| Panel.TextEdit | src/features/board/PropertiesPanel.jsx:95 | definition; stated by `TextEditRewrites` |
| Panel.WidthEdit | src/features/board/PropertiesPanel.jsx:113-123 | definition; stated by `WidthEditSetsBoxes` and `WidthEditShowsValue` |
| Panel.HeightEdit | src/features/board/PropertiesPanel.jsx:136-146 | definition; stated by `HeightEditSetsBoxes` |
| Panel.StrokeWidthEdit | src/features/board/PropertiesPanel.jsx:163-173 | definition; stated by `StrokeWidthEditSetsArrows` |
| Panel.PatchAll | src/features/board/reducer.js:45-68 | one patched-or-kept object per object, in order |
| Panel.PatchBoardObjects | src/features/board/reducer.js:40-71 | PATCH_OBJECTS leaves exactly those objects, committed or not |
| Panel.ColorEditRecolors | src/features/board/PropertiesPanel.jsx:83 | a colour edit recolours exactly the listed objects |
| Panel.TextEditRewrites | src/features/board/PropertiesPanel.jsx:95 | a text edit rewrites exactly the listed objects' text |
| Panel.WidthEditSetsBoxes | src/features/board/PropertiesPanel.jsx:113-123 | a width edit sets listed notes' and rects' width and leaves arrows alone |
| Panel.HeightEditSetsBoxes | src/features/board/PropertiesPanel.jsx:136-146 | a height edit sets listed notes' and rects' height and leaves arrows alone |
| Panel.StrokeWidthEditSetsArrows | src/features/board/PropertiesPanel.jsx:163-173 | a stroke edit sets listed arrows' stroke width and leaves the rest alone |
| Panel.PatchedKeepsIdentity | src/features/board/reducer.js:55-59 | patching keeps an object's id and variant |
| Panel.KeepPatched | src/features/board/PropertiesPanel.jsx:23 | selecting and patching commute |
| Panel.PatchAllSnoc | src/features/board/reducer.js:45-68 | patching a sequence with one more object appends that object patched |
| Panel.ResizablePatched | src/features/board/PropertiesPanel.jsx:28-30 | taking notes and rects and patching commute |
| Panel.PatchedBoxesShowWidth | src/features/board/PropertiesPanel.jsx:112-121 | notes and rects all given width v stay notes and rects, and the width field then shows v, or is empty when there are none |
| Panel.PatchedBoxesWidths | src/features/board/PropertiesPanel.jsx:116-121 | every listed note or rect patched by a width edit stays a note or rect with the typed width |
| Panel.BoxesShowWidth | src/features/board/PropertiesPanel.jsx:28-31 | notes and rects sharing width v are their own filter and the width field shows v, or nothing when there are none |
| Panel.NoArrowsKept | src/features/board/PropertiesPanel.jsx:28-30 | a list with no arrow is its own note-and-rect filter |
| Panel.WidthEditShowsValue | src/features/board/PropertiesPanel.jsx:112-121 | after a width edit the width field shows the typed value whenever a note or rect is selected |
| Panel.ToggleSelection | src/features/board/PropertiesPanel.jsx:37-44 | checking appends the id; unchecking removes every occurrence and keeps the rest (in order by `Reducer.RemoveConcat`) |
| Panel.RemoveAbsent | src/features/board/PropertiesPanel.jsx:43 | removing an absent id changes nothing |
| Panel.CheckThenUncheck | src/features/board/PropertiesPanel.jsx:37-44 | checking then unchecking an unselected object's box restores the selection |
| Panel.ToggleThroughReducer | src/features/board/PropertiesPanel.jsx:37-44 | through SET_SELECTED_IDS a check box selects or deselects its object and keeps the invariants |

## Left out

- Rendering (JSX, class names, the SVG arrow, grid background) is not modelled. Nor are toasts, keyboard shortcuts or the page's toolbar zoom buttons: they sit outside the engine.
- Floating point is modelled as exact reals. NaN, infinities and rounding error are out of scope, as are `Number(action.dx) || 0` coercions of non-numbers.
- Objects with an unknown `type` are not modelled, so neither is `createObject`'s bare base object nor `getObjectLabel`'s "Object n" label.
- A patch's keys are the five the panel and reducer use. A stray key on the wrong variant is not stored, only counted as a difference.
- Reducer.Reduce: no contract of its own. Every case is stated by a ReducerProperties lemma (`OneSettingChanges`, `LoadResets`, `SetPanOnlyPans`, `SetViewportClamps`, `SetZoomIdempotent`, `ToggleSelected`, `ToggleThroughReducer`, the patch, move, resize, delete and duplicate lemmas) or by `UndoStep` and `RedoStep`.
- Geometry.Snap: steps of 0 and zooms of 0 are excluded by `requires`. The source never passes them: the grid step is 16 and the zoom is clamped to 0.35..2.5.
- Ids.IdGenerator.CreateId: the UUID is a parameter because randomness is out of scope. Global uniqueness of ids is not enforced by the source and not claimed here.
- Storage: `canUseStorage` is a constant flag of the store. Storage exceptions other than parse failures (quota, security errors) are not modelled.
- Storage.BoardStore.Load: the seed factory's effects (clock readings, id generation) are not modelled. The seed is a value that the factory would produce.
- Canvas: pointer capture, `preventDefault` and `stopPropagation` are DOM calls. Only their effect on which handler runs is modelled (`PressObject`).
- Canvas.Controller: React state updates land immediately. Render batching and handlers closing over stale props or previews are not modelled.
- Canvas: the keyboard select on an arrow (Enter or Space) and the note textarea's text edit are rendering callbacks. They are covered by SET_SELECTED_IDS and `Panel.TextEdit`.
- Objects.CreateDemoBoard: the three objects share one `now`. The source reads the clock once per object and once for the board.
- Reducer: one clock reading per action stands for the source's several. `patchObjects`, each moved object, each duplicate and `withBoardObjects` each read `Date.now()`. So `MoveTranslatesListed`, `DuplicateAppendsCopies`, `PatchBoard` and `PatchCommits` give the objects' `updatedAt` and the board's `lastUpdatedAt` the same value, which the source does not guarantee.
- Storage: an entry whose `objects` array holds malformed items is not representable. `isValidBoard` checks only the version and that `objects` is an array, while `Candidate` holds a well-typed `Board`, so the model cannot express a structurally accepted but ill-formed board.
- MOVE_OBJECTS from the canvas never asks for snapping. The drag delta is already snapped by the canvas.
