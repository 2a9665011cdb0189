/**
  Freehand ink strokes on one page of a document viewer, and the stack of
  strokes the page keeps with undo, redo and eraser.

  A stroke's rendering path is kept as a list of segment commands, the
  part of the host's path object that the strokes use: one `MoveTo`
  followed by `LineTo`s.
 */
module Annotations {
  import UndoHistory

  /** A pointer sample in surface coordinates. */
  datatype Point = Point(x: int, y: int)

  /** A path command. */
  datatype Segment = MoveTo(to: Point) | LineTo(to: Point)

  function Square(n: int): int {
    n * n
  }

  /** The squared Euclidean distance between two points. */
  function DistanceSquared(q: Point, p: Point): int {
    Square(q.x - p.x) + Square(q.y - p.y)
  }

  /** `q` lies within `radius` of `p`, the boundary included. */
  predicate Near(q: Point, p: Point, radius: int) {
    DistanceSquared(q, p) <= radius * radius
  }

  /** Some sample of `points` lies within `radius` of `p`. */
  predicate Hits(points: seq<Point>, p: Point, radius: int) {
    exists i :: 0 <= i < |points| && Near(points[i], p, radius)
  }

  /** One straight segment to each point, in order. */
  function Lines(points: seq<Point>): (r: seq<Segment>)
    ensures |r| == |points|
    ensures forall i :: 0 <= i < |points| ==> r[i] == LineTo(points[i])
  {
    if points == [] then []
    else Lines(points[..|points| - 1]) + [LineTo(points[|points| - 1])]
  }

  /**
    The path a stroke with these samples holds: a move to the first sample,
    then a line to every sample including the first one (the zero-length
    segment that makes a single tap draw a dot).
   */
  function PathOf(points: seq<Point>): (r: seq<Segment>)
    requires |points| >= 1
    ensures |r| == |points| + 1
    ensures r[0] == MoveTo(points[0])
    ensures forall i :: 0 <= i < |points| ==> r[i + 1] == LineTo(points[i])
  {
    [MoveTo(points[0])] + Lines(points)
  }

  /** Appending a sample appends exactly one line segment to the path. */
  lemma PathOfAppend(points: seq<Point>, q: Point)
    requires |points| >= 1
    ensures PathOf(points + [q]) == PathOf(points) + [LineTo(q)]
  {
  }

  /** Adding a sample to a stroke can only make it hit more often. */
  lemma HitsAppend(points: seq<Point>, q: Point, p: Point, radius: int)
    ensures Hits(points + [q], p, radius) <==> Hits(points, p, radius) || Near(q, p, radius)
  {
    if Hits(points, p, radius) {
      var i :| 0 <= i < |points| && Near(points[i], p, radius);
      assert (points + [q])[i] == points[i];
    }
    if Near(q, p, radius) {
      assert (points + [q])[|points|] == q;
    }
  }

  /** One pen gesture: its samples, its path and its fixed style. */
  class Annotation {
    var points: seq<Point>
    var path: seq<Segment>
    const strokeStyle: string
    const lineWidth: int
    const lineCap: string
    const lineJoin: string

    /** A stroke has at least one sample and its path follows the samples. */
    ghost predicate Valid()
      reads this
    {
      |points| >= 1 && path == PathOf(points)
    }

    /** The style every stroke is drawn with: red, width 5, round cap and join. */
    predicate DefaultStyle() {
      strokeStyle == "#c0392b" && lineWidth == 5 && lineCap == "round" && lineJoin == "round"
    }

    constructor (point: Point)
      ensures Valid()
      ensures points == [point]
      ensures path == [MoveTo(point), Segment.LineTo(point)]
      ensures DefaultStyle()
    {
      points := [point];
      path := [MoveTo(point), Segment.LineTo(point)];
      strokeStyle := "#c0392b";
      lineWidth := 5;
      lineCap := "round";
      lineJoin := "round";
    }

    /** Records a sample while the gesture goes on. */
    method LineTo(point: Point)
      requires Valid()
      modifies this
      ensures Valid()
      ensures points == old(points) + [point]
      ensures path == old(path) + [Segment.LineTo(point)]
    {
      PathOfAppend(points, point);
      points := points + [point];
      path := path + [Segment.LineTo(point)];
    }

    /** Records the last sample of the gesture; the path is not rebuilt. */
    method End(point: Point)
      requires Valid()
      modifies this
      ensures Valid()
      ensures points == old(points) + [point]
      ensures path == old(path) + [Segment.LineTo(point)]
    {
      PathOfAppend(points, point);
      points := points + [point];
      path := path + [Segment.LineTo(point)];
    }

    /** Whether some recorded sample lies within `radius` of `point`. */
    method HitTest(point: Point, radius: int) returns (hit: bool)
      ensures hit <==> Hits(points, point, radius)
    {
      var r2 := radius * radius;
      for i := 0 to |points|
        invariant forall j :: 0 <= j < i ==> !Near(points[j], point, radius)
      {
        var pt := points[i];
        var dist := Square(pt.x - point.x) + Square(pt.y - point.y);
        if dist <= r2 {
          return true;
        }
      }
      return false;
    }
  }

  /** The strokes of `strokes` that no sample puts within `radius` of `p`, in order. */
  function Survivors(strokes: seq<Annotation>, p: Point, radius: int): (r: seq<Annotation>)
    reads strokes
  {
    if strokes == [] then []
    else
      var kept := Survivors(strokes[..|strokes| - 1], p, radius);
      var last := strokes[|strokes| - 1];
      if Hits(last.points, p, radius) then kept else kept + [last]
  }

  /** A stroke survives the eraser iff it was there and none of its samples is near. */
  lemma {:induction false} SurvivorsMember(strokes: seq<Annotation>, p: Point, radius: int, a: Annotation)
    ensures a in Survivors(strokes, p, radius) <==> a in strokes && !Hits(a.points, p, radius)
  {
    if strokes != [] {
      var init := strokes[..|strokes| - 1];
      SurvivorsMember(init, p, radius, a);
      assert strokes == init + [strokes[|strokes| - 1]];
    }
  }

  /** Erasing works stroke by stroke: it distributes over concatenation, so order is kept. */
  lemma {:induction false} SurvivorsAppend(xs: seq<Annotation>, ys: seq<Annotation>, p: Point, radius: int)
    ensures Survivors(xs + ys, p, radius) == Survivors(xs, p, radius) + Survivors(ys, p, radius)
  {
    if ys == [] {
      assert xs + ys == xs;
    } else {
      var init := ys[..|ys| - 1];
      SurvivorsAppend(xs, init, p, radius);
      assert (xs + ys)[..|xs + ys| - 1] == xs + init;
    }
  }

  /** The survivors are a subsequence of the strokes: no more of them, never reordered. */
  lemma {:induction false} SurvivorsLength(strokes: seq<Annotation>, p: Point, radius: int)
    ensures |Survivors(strokes, p, radius)| <= |strokes|
    ensures |Survivors(strokes, p, radius)| == |strokes| <==> Survivors(strokes, p, radius) == strokes
  {
    if strokes != [] {
      var init := strokes[..|strokes| - 1];
      SurvivorsLength(init, p, radius);
      assert strokes == init + [strokes[|strokes| - 1]];
    }
  }

  /** An eraser that touches no stroke changes nothing. */
  lemma {:induction false} SurvivorsNoHit(strokes: seq<Annotation>, p: Point, radius: int)
    requires forall i :: 0 <= i < |strokes| ==> !Hits(strokes[i].points, p, radius)
    ensures Survivors(strokes, p, radius) == strokes
  {
    if strokes != [] {
      var init := strokes[..|strokes| - 1];
      SurvivorsNoHit(init, p, radius);
      assert strokes == init + [strokes[|strokes| - 1]];
    }
  }

  /**
    The filter the eraser applies: asks each stroke, in order, whether it
    is hit, and keeps those that are not.
   */
  method KeepUnhit(strokes: seq<Annotation>, point: Point, radius: int) returns (kept: seq<Annotation>)
    ensures kept == Survivors(strokes, point, radius)
  {
    kept := [];
    for i := 0 to |strokes|
      invariant kept == Survivors(strokes[..i], point, radius)
    {
      var item := strokes[i];
      var hit := item.HitTest(point, radius);
      assert strokes[..i + 1][..i] == strokes[..i];
      if !hit {
        kept := kept + [item];
      }
    }
    assert strokes[..|strokes|] == strokes;
  }

  /** No stroke appears twice. */
  ghost predicate Distinct(strokes: seq<Annotation>) {
    forall i, j :: 0 <= i < j < |strokes| ==> strokes[i] != strokes[j]
  }

  lemma {:induction false} SurvivorsDistinct(strokes: seq<Annotation>, p: Point, radius: int)
    requires Distinct(strokes)
    ensures Distinct(Survivors(strokes, p, radius))
  {
    if strokes != [] {
      var init := strokes[..|strokes| - 1];
      var last := strokes[|strokes| - 1];
      SurvivorsDistinct(init, p, radius);
      SurvivorsMember(init, p, radius, last);
    }
  }

  /** The strokes of one page: those drawn and those taken back by undo. */
  class PageAnnotations {
    var annotations: seq<Annotation>
    var redoStack: seq<Annotation>

    /**
      Every stroke is well formed, no stroke is held twice and none is in
      both lists.
     */
    ghost predicate Valid()
      reads this, annotations, redoStack
    {
      (forall a :: a in annotations ==> a.Valid()) &&
      (forall a :: a in redoStack ==> a.Valid()) &&
      Distinct(annotations) && Distinct(redoStack) &&
      (forall a :: a in annotations ==> a !in redoStack)
    }

    /** The two lists as a value, for the transitions of `UndoHistory`. */
    ghost function Model(): UndoHistory.History<Annotation>
      reads this
    {
      UndoHistory.History(annotations, redoStack)
    }

    constructor ()
      ensures Valid()
      ensures annotations == [] && redoStack == []
    {
      annotations := [];
      redoStack := [];
    }

    method Clear()
      modifies this
      ensures Valid()
      ensures annotations == [] && redoStack == []
    {
      annotations := [];
      redoStack := [];
    }

    /** Begins a stroke at `point`: the redo chain is dropped, the new stroke goes on top. */
    method Start(point: Point) returns (annotation: Annotation)
      requires Valid()
      modifies this
      ensures Valid()
      ensures fresh(annotation)
      ensures annotation.points == [point]
      ensures annotation.path == [MoveTo(point), Segment.LineTo(point)]
      ensures annotation.DefaultStyle()
      ensures Model() == UndoHistory.Start(old(Model()), annotation)
      ensures annotations == old(annotations) + [annotation] && redoStack == []
    {
      redoStack := [];
      annotation := new Annotation(point);
      annotations := annotations + [annotation];
    }

    /** The stroke on top of the page, or null when the page has none. */
    function Top(): (r: Annotation?)
      reads this
      ensures r == null <==> annotations == []
      ensures r != null ==> r == annotations[|annotations| - 1]
    {
      if annotations == [] then null else annotations[|annotations| - 1]
    }

    /** Extends the stroke on top while the gesture goes on; no other stroke changes. */
    method Update(point: Point)
      requires Valid()
      requires annotations != []
      modifies annotations[|annotations| - 1]
      ensures Valid()
      ensures annotations == old(annotations) && redoStack == old(redoStack)
      ensures Top().points == old(Top().points) + [point]
      ensures Top().path == old(Top().path) + [LineTo(point)]
      ensures forall i :: 0 <= i < |annotations| - 1 ==>
        annotations[i].points == old(annotations[i].points) &&
        annotations[i].path == old(annotations[i].path)
    {
      var top := Top();
      top.LineTo(point);
    }

    /** Ends the gesture of the stroke on top; no other stroke changes. */
    method End(point: Point)
      requires Valid()
      requires annotations != []
      modifies annotations[|annotations| - 1]
      ensures Valid()
      ensures annotations == old(annotations) && redoStack == old(redoStack)
      ensures Top().points == old(Top().points) + [point]
      ensures Top().path == old(Top().path) + [LineTo(point)]
      ensures forall i :: 0 <= i < |annotations| - 1 ==>
        annotations[i].points == old(annotations[i].points) &&
        annotations[i].path == old(annotations[i].path)
    {
      var top := Top();
      top.End(point);
    }

    /** Moves the top stroke to the redo stack; false, and no change, when there is none. */
    method Undo() returns (moved: bool)
      requires Valid()
      modifies this
      ensures Valid()
      ensures UndoHistory.Step(Model(), moved) == UndoHistory.Undo(old(Model()))
    {
      var n := |annotations|;
      if n > 0 {
        var item := annotations[n - 1];
        assert item !in redoStack;
        annotations := annotations[..n - 1];
        redoStack := redoStack + [item];
        return true;
      }
      return false;
    }

    /** Moves the top of the redo stack back onto the page; false, and no change, when empty. */
    method Redo() returns (moved: bool)
      requires Valid()
      modifies this
      ensures Valid()
      ensures UndoHistory.Step(Model(), moved) == UndoHistory.Redo(old(Model()))
    {
      var n := |redoStack|;
      if n > 0 {
        var item := redoStack[n - 1];
        assert item !in annotations;
        redoStack := redoStack[..n - 1];
        annotations := annotations + [item];
        return true;
      }
      return false;
    }

    /**
      Removes for good every stroke with a sample within `radius` of
      `point`; the others keep their order and the redo stack is untouched.
     */
    method Erase(point: Point, radius: int)
      requires Valid()
      modifies this
      ensures Valid()
      ensures annotations == Survivors(old(annotations), point, radius)
      ensures redoStack == old(redoStack)
    {
      var strokes := annotations;
      var kept := KeepUnhit(strokes, point, radius);
      SurvivorsDistinct(strokes, point, radius);
      forall a | a in kept
        ensures a in strokes && a.Valid() && a !in redoStack
      {
        SurvivorsMember(strokes, point, radius, a);
      }
      annotations := kept;
    }
  }

  /**
    Two strokes drawn, one undone, a third started: the undone stroke is
    gone from the redo stack for good.
   */
  method UndoThenStartScenario(a: Point, b: Point, c: Point) {
    var page := new PageAnnotations();
    var first := page.Start(a);
    var second := page.Start(b);
    assert page.annotations == [first, second];
    var undone := page.Undo();
    assert undone && page.annotations == [first] && page.redoStack == [second];
    var third := page.Start(c);
    assert page.annotations == [first, third] && page.redoStack == [];
    var redone := page.Redo();
    assert !redone && page.annotations == [first, third];
  }
}
