# Ink annotations for a lecture-slide viewer

A model of the freehand annotation layer of a document viewer. Each page
keeps a stack of ink strokes. Pointer-down starts a stroke, pointer moves
extend it, pointer-up ends it. Undo and redo move the newest stroke between
the page and a redo stack. The eraser permanently drops every stroke that has
a sample near the eraser position. Two small helpers sit beside it: a check
that the modifier keys a shortcut names are held, and boolean settings kept
under a `"settings:"` key prefix in the browser's string storage.

Files:

- `annotations.dfy`, module `Annotations`: points, path segments, the
  `Annotation` stroke class, the `PageAnnotations` page class and the
  eraser's filter `Survivors` with its lemmas.
- `undo_history.dfy`, module `UndoHistory`: the page's two lists as a value,
  the undo, redo and start transitions that the page methods are proved
  against, and lemmas about sequences of them.
- `helpers.dfy`, module `Helpers`: `CheckModifiers` against a membership
  predicate, and the boolean setting read and write over a map.

Modelling choices:

- The host path object becomes the list of commands a stroke sends to it:
  one `MoveTo` to the first sample and then a `LineTo` for every sample,
  the first one included. `Annotation.Valid()` ties the path to the samples,
  so the path always has one more command than the stroke has samples.
- The stroke's style (colour `#c0392b`, width 5, round cap and join) is held
  in `const` fields. The constructor sets them and nothing can change them.
- Coordinates and the radius are integers. The hit test compares squared
  distances, as the source does.
- The browser storage is a `Storage` object holding a `map<string, string>`.
  `getBoolSetting` takes the map as a parameter. A `BoolProperty` holds a
  reference to the storage it reads and writes.
- `end` appends one line segment, as `lineTo` does; there is no smoothing
  pass and the path is never rebuilt.

## Model

| member | source | states |
|---|---|---|
| `Annotations.Lines` | src/lib/annotations.js:15-16 | one line command per sample, in sample order, and nothing else |
| `Annotations.PathOf` | src/lib/annotations.js:4-7 | the path of a stroke has length samples + 1: a move to the first sample, then a line to every sample in order |
| `Annotations.PathOfAppend` | src/lib/annotations.js:14-22 | adding one sample adds one line command at the end and leaves the earlier commands unchanged |
| `Annotations.Annotation.constructor` | src/lib/annotations.js:3-12 | a new stroke has samples `[p]`, path `[MoveTo(p), LineTo(p)]`, and the fixed colour, width 5 and round cap and join |
| `Annotations.Annotation.LineTo` | src/lib/annotations.js:14-17 | appends exactly the sample and exactly one line command; keeps the path consistent with the samples |
| `Annotations.Annotation.End` | src/lib/annotations.js:19-22 | the same effect as `LineTo`: one sample and one line command appended, no rebuild of the path |
| `Annotations.Annotation.HitTest` | src/lib/annotations.js:36-45 | true iff some recorded sample q has (q.x-p.x)² + (q.y-p.y)² ≤ r², the boundary included; changes nothing |
| `Annotations.HitsAppend` | src/lib/annotations.js:14-22 | a stroke extended by q is hit iff it was hit before or q itself is near |
| `Annotations.KeepUnhit` | src/lib/annotations.js:94 | the filter asks each stroke's hit test in order and returns exactly `Survivors` |
| `Annotations.SurvivorsMember` | src/lib/annotations.js:93-95 | a stroke survives the eraser iff it was on the page and none of its samples is within the radius |
| `Annotations.SurvivorsAppend` | src/lib/annotations.js:93-95 | erasing distributes over concatenation, so the survivors keep their relative order |
| `Annotations.SurvivorsLength` | src/lib/annotations.js:93-95 | erasing never adds strokes, and it keeps the count only when it removes nothing |
| `Annotations.SurvivorsNoHit` | src/lib/annotations.js:93-95 | an eraser that touches no stroke leaves the list as it was |
| `Annotations.SurvivorsDistinct` | src/lib/annotations.js:93-95 | erasing keeps the strokes pairwise distinct |
| `Annotations.PageAnnotations.constructor` | src/lib/annotations.js:50-53 | a new page has no strokes and an empty redo stack |
| `Annotations.PageAnnotations.Clear` | src/lib/annotations.js:55-58 | both lists are empty afterwards |
| `Annotations.PageAnnotations.Start` | src/lib/annotations.js:60-65 | empties the redo stack and appends a fresh stroke with samples `[p]`, path `[MoveTo(p), LineTo(p)]` and the fixed colour, width 5 and round cap and join as the last element; earlier strokes stay in place |
| `Annotations.PageAnnotations.Top` | src/lib/annotations.js:103-105 | the last stroke, or null exactly when the page has none |
| `Annotations.PageAnnotations.Update` | src/lib/annotations.js:67-69 | extends only the top stroke by one sample and one line command; the lists, the redo stack and every other stroke are unchanged |
| `Annotations.PageAnnotations.End` | src/lib/annotations.js:71-73 | the same as `Update`, through the stroke's own `End` |
| `Annotations.PageAnnotations.Undo` | src/lib/annotations.js:75-82 | the new lists and the result are those of `UndoHistory.Undo` on the old lists |
| `Annotations.PageAnnotations.Redo` | src/lib/annotations.js:84-91 | the new lists and the result are those of `UndoHistory.Redo` on the old lists |
| `Annotations.PageAnnotations.Erase` | src/lib/annotations.js:93-95 | the page holds `Survivors` of its old strokes, in order; the redo stack is untouched |
| `UndoHistory.Undo` | src/lib/annotations.js:75-82 | on a non-empty page the last stroke moves to the top of the redo stack and the result is true; an empty page gives false and no change; the total count is kept |
| `UndoHistory.Redo` | src/lib/annotations.js:84-91 | the mirror of undo: the top of the redo stack goes back on the page, or false and no change when the redo stack is empty; the total count is kept |
| `UndoHistory.Start` | src/lib/annotations.js:60-65 | the redo stack is emptied and the new stroke becomes the last one, after the old strokes |
| `UndoHistory.RedoAfterUndo` | src/lib/annotations.js:75-91 | a successful undo followed by a redo restores both lists and reports true |
| `UndoHistory.UndoAfterRedo` | src/lib/annotations.js:75-91 | a successful redo followed by an undo restores both lists and reports true |
| `UndoHistory.RedoAfterStartFails` | src/lib/annotations.js:60-65 | after a stroke is started, redo reports false and changes nothing, whatever was undone before |
| `UndoHistory.UndoTimesShape` | src/lib/annotations.js:75-82 | k undos remove the last k strokes from the page and stack them above the old redo stack, newest lowest: position j above the old redo stack holds the stroke that was j from the top of the page |
| `UndoHistory.UndoRedoTimes` | src/lib/annotations.js:75-91 | k undos followed by k redos restore both lists |
| `Helpers.CheckModifiers` | src/lib/helpers.js:20-47 | true iff each of Ctrl/Control, Alt, Shift and Meta that the list names has its flag set |
| `Helpers.NoModifiers` | src/lib/helpers.js:20-47 | an empty list is always satisfied |
| `Helpers.SingleModifier` | src/lib/helpers.js:23-42 | "Ctrl" and "Control" both need the control flag; "Alt", "Shift" and "Meta" need their own flags |
| `Helpers.UnknownModifierIgnored` | src/lib/helpers.js:22-44 | inserting an unrecognised name anywhere does not change the result |
| `Helpers.ModifiersByMembership` | src/lib/helpers.js:20-47 | two lists with the same names give the same result, whatever their order and repetitions |
| `Helpers.GetBoolSetting` | src/lib/helpers.js:14-17 | the default when `"settings:" + key` is absent, otherwise whether the stored string is exactly `"true"` |
| `Helpers.SetThenGet` | src/lib/helpers.js:4-9 | storing a boolean as "true"/"false" and reading it back gives that boolean for either default |
| `Helpers.SetLeavesOthers` | src/lib/helpers.js:8-9 | writing one setting leaves every other setting's value as it was |
| `Helpers.BoolProperty.constructor` | src/lib/helpers.js:2-12 | the property is bound to the given storage, key and default |
| `Helpers.BoolProperty.Get` | src/lib/helpers.js:4-7 | decodes exactly as `GetBoolSetting` does over the same storage |
| `Helpers.BoolProperty.Set` | src/lib/helpers.js:8-10 | the storage gains "true" or "false" under the prefixed key, other keys unchanged, and `Get` returns the value written |

## Left out

- `Annotation.draw` and `PageAnnotations.draw` (src/lib/annotations.js:24-34, 97-101): canvas drawing calls on the host rendering API. Only the segment list of the path is modelled.
- The host path object and `window.localStorage` are replaced by a segment sequence and a `map<string, string>` held in a `Storage` object.
- Floating-point coordinates are not modelled: points and the radius are integers, and the squared-distance comparison is exact.
- Of the keyboard event, only its four modifier flags are modelled.
- `Annotations.PageAnnotations.Update` and `Annotations.PageAnnotations.End` require a non-empty page. In the source, `top()` then yields `undefined` and the call throws a type error; the model treats that as a caller error rather than modelling the exception.
- `Helpers.BoolProperty.Set` takes a boolean. The source passes any value to the storage, which stores its string form; only the boolean case is modelled.
