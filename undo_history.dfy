/**
  The two lists a page keeps, seen as plain values: the strokes on the page
  (`annotations`, oldest first) and the strokes taken back by undo
  (`redoStack`, most recently undone last). The class `PageAnnotations`
  in module `Annotations` is specified by these transitions.
 */
module UndoHistory {

  datatype History<T> = History(annotations: seq<T>, redoStack: seq<T>)

  /** The result of an undo or redo: the new lists and whether an element moved. */
  datatype Step<T> = Step(after: History<T>, moved: bool)

  /** Number of strokes held by either list. */
  function Size<T>(h: History<T>): nat {
    |h.annotations| + |h.redoStack|
  }

  /** Takes the last stroke off `annotations` and pushes it on `redoStack`. */
  function Undo<T>(h: History<T>): (r: Step<T>)
    ensures r.moved <==> h.annotations != []
    ensures r.moved ==>
      r.after.annotations + [h.annotations[|h.annotations| - 1]] == h.annotations &&
      r.after.redoStack == h.redoStack + [h.annotations[|h.annotations| - 1]]
    ensures !r.moved ==> r.after == h
    ensures Size(r.after) == Size(h)
  {
    var n := |h.annotations|;
    if n == 0 then Step(h, false)
    else Step(History(h.annotations[..n - 1], h.redoStack + [h.annotations[n - 1]]), true)
  }

  /** Takes the last stroke off `redoStack` and pushes it back on `annotations`. */
  function Redo<T>(h: History<T>): (r: Step<T>)
    ensures r.moved <==> h.redoStack != []
    ensures r.moved ==>
      r.after.redoStack + [h.redoStack[|h.redoStack| - 1]] == h.redoStack &&
      r.after.annotations == h.annotations + [h.redoStack[|h.redoStack| - 1]]
    ensures !r.moved ==> r.after == h
    ensures Size(r.after) == Size(h)
  {
    var n := |h.redoStack|;
    if n == 0 then Step(h, false)
    else Step(History(h.annotations + [h.redoStack[n - 1]], h.redoStack[..n - 1]), true)
  }

  /** Starting a stroke: the redo chain is dropped and the new stroke goes on top. */
  function Start<T>(h: History<T>, stroke: T): (r: History<T>)
    ensures r.redoStack == []
    ensures |r.annotations| == |h.annotations| + 1
    ensures r.annotations[..|h.annotations|] == h.annotations
    ensures r.annotations[|h.annotations|] == stroke
  {
    History(h.annotations + [stroke], [])
  }

  /** A successful undo is reversed exactly by the redo that follows it. */
  lemma RedoAfterUndo<T>(h: History<T>)
    requires h.annotations != []
    ensures Redo(Undo(h).after) == Step(h, true)
  {
  }

  /** A successful redo is reversed exactly by the undo that follows it. */
  lemma UndoAfterRedo<T>(h: History<T>)
    requires h.redoStack != []
    ensures Undo(Redo(h).after) == Step(h, true)
  {
  }

  /** After a stroke is started, redo has nothing to bring back, whatever was undone before. */
  lemma RedoAfterStartFails<T>(h: History<T>, stroke: T)
    ensures !Redo(Start(h, stroke)).moved
    ensures Redo(Start(h, stroke)).after == Start(h, stroke)
  {
  }

  /** k undos in a row. */
  function UndoTimes<T>(h: History<T>, k: nat): History<T>
    decreases k
  {
    if k == 0 then h else UndoTimes(Undo(h).after, k - 1)
  }

  /** k redos in a row. */
  function RedoTimes<T>(h: History<T>, k: nat): History<T>
    decreases k
  {
    if k == 0 then h else RedoTimes(Redo(h).after, k - 1)
  }

  /**
    k undos take the last k strokes off the page and stack them on top of
    the redo stack, leaving the strokes below untouched.
   */
  lemma {:induction false} UndoTimesShape<T>(h: History<T>, k: nat)
    requires k <= |h.annotations|
    ensures UndoTimes(h, k).annotations == h.annotations[..|h.annotations| - k]
    ensures |UndoTimes(h, k).redoStack| == |h.redoStack| + k
    ensures UndoTimes(h, k).redoStack[..|h.redoStack|] == h.redoStack
    ensures forall i :: |h.redoStack| <= i < |h.redoStack| + k ==>
      UndoTimes(h, k).redoStack[i] == h.annotations[|h.annotations| - 1 - (i - |h.redoStack|)]
    decreases k
  {
    if k > 0 {
      var n := |h.annotations|;
      var h1 := Undo(h).after;
      UndoTimesShape(h1, k - 1);
      assert h1.annotations[..|h1.annotations| - (k - 1)] == h.annotations[..n - k];
      assert h1.redoStack[..|h.redoStack|] == h.redoStack;
      var r := UndoTimes(h, k).redoStack;
      // The first undo puts the top stroke directly above the old redo stack;
      // the other k - 1 come from the page that first undo left.
      assert r[..|h1.redoStack|] == h1.redoStack;
      assert r[|h.redoStack|] == h1.redoStack[|h.redoStack|] == h.annotations[n - 1];
    }
  }

  /**
    The history is linear: k undos followed by k redos give back the lists
    one started with, provided there were at least k strokes to undo.
   */
  lemma {:induction false} UndoRedoTimes<T>(h: History<T>, k: nat)
    requires k <= |h.annotations|
    ensures RedoTimes(UndoTimes(h, k), k) == h
    decreases k
  {
    if k > 0 {
      var h1 := Undo(h).after;
      UndoRedoTimes(h1, k - 1);
      // The last of the k undos is reversed by the last of the k redos.
      RedoTimesSplit(UndoTimes(h1, k - 1), k - 1);
      RedoAfterUndo(h);
    }
  }

  /** k + 1 redos are k redos followed by one more. */
  lemma {:induction false} RedoTimesSplit<T>(h: History<T>, k: nat)
    ensures RedoTimes(h, k + 1) == Redo(RedoTimes(h, k)).after
    decreases k
  {
    if k > 0 {
      RedoTimesSplit(Redo(h).after, k - 1);
    }
  }
}
