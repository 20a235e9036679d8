/**
  Stroke capture: the state updaters the pan gesture's start and update
  handlers pass to `setPaths`. A drag becomes one stroke: a move to the
  first point, then one line per update, in the pen colour current when
  the drag began.
 */
module Capture {
  import opened PathText

  /** A colour string such as `#000000`; never inspected. */
  type Color = string

  /** A pointer position reported by the gesture (`g.x`, `g.y`). */
  datatype Point = Point(x: int, y: int)

  /** One drawn stroke: its path commands in capture order, and its colour. */
  datatype Stroke = Stroke(segments: seq<Segment>, color: Color)

  /** A captured stroke starts with one move and continues with lines only. */
  predicate WellFormed(st: Stroke) {
    && |st.segments| > 0
    && st.segments[0].Move?
    && forall i :: 1 <= i < |st.segments| ==> st.segments[i].Line?
  }

  predicate AllWellFormed(store: seq<Stroke>) {
    forall i :: 0 <= i < |store| ==> WellFormed(store[i])
  }

  /** The line commands for a run of pointer updates. */
  function Lines(pts: seq<Point>): (ls: seq<Segment>)
    ensures |ls| == |pts|
    ensures forall i :: 0 <= i < |pts| ==> ls[i] == Line(pts[i].x, pts[i].y)
  {
    seq(|pts|, i requires 0 <= i < |pts| => Line(pts[i].x, pts[i].y))
  }

  /** Start of a drag: a new stroke `[M x y]` in `color` goes after all others. */
  function BeginStroke(store: seq<Stroke>, color: Color, p: Point): (r: seq<Stroke>)
    ensures |r| == |store| + 1
    ensures r[..|store|] == store
    ensures r[|store|].segments == [Move(p.x, p.y)] && r[|store|].color == color
    ensures WellFormed(r[|store|])
  {
    store + [Stroke([Move(p.x, p.y)], color)]
  }

  /**
    One drag update: `L x y` goes at the end of the last stroke. With no
    stroke at all the store is returned as it is.
   */
  function ExtendStroke(store: seq<Stroke>, p: Point): (r: seq<Stroke>)
    ensures |r| == |store|
    ensures |store| == 0 ==> r == store
    ensures |store| > 0 ==>
      && r[..|store| - 1] == store[..|store| - 1]
      && r[|store| - 1].color == store[|store| - 1].color
      && r[|store| - 1].segments == store[|store| - 1].segments + [Line(p.x, p.y)]
  {
    if |store| == 0 then store
    else
      var last := store[|store| - 1];
      store[|store| - 1 := last.(segments := last.segments + [Line(p.x, p.y)])]
  }

  /** A run of drag updates, applied in order. */
  function ExtendAll(store: seq<Stroke>, pts: seq<Point>): seq<Stroke>
    decreases |pts|
  {
    if |pts| == 0 then store else ExtendAll(ExtendStroke(store, pts[0]), pts[1..])
  }

  /** A whole drag: a start at `start`, then one update per point of `moves`. */
  function Drag(store: seq<Stroke>, color: Color, start: Point, moves: seq<Point>): seq<Stroke> {
    ExtendAll(BeginStroke(store, color, start), moves)
  }

  lemma BeginPreservesWellFormed(store: seq<Stroke>, color: Color, p: Point)
    requires AllWellFormed(store)
    ensures AllWellFormed(BeginStroke(store, color, p))
  {
  }

  lemma ExtendPreservesWellFormed(store: seq<Stroke>, p: Point)
    requires AllWellFormed(store)
    ensures AllWellFormed(ExtendStroke(store, p))
  {
  }

  /** Updates only ever lengthen the last stroke, by one line per point. */
  lemma {:induction false} ExtendAllAppendsLines(store: seq<Stroke>, pts: seq<Point>)
    requires |store| > 0
    ensures
      var last := store[|store| - 1];
      ExtendAll(store, pts) == store[|store| - 1 := last.(segments := last.segments + Lines(pts))]
    decreases |pts|
  {
    var n := |store|;
    var last := store[n - 1];
    if |pts| == 0 {
      assert last.segments + Lines(pts) == last.segments;
      assert store[n - 1 := last] == store;
    } else {
      var next := ExtendStroke(store, pts[0]);
      var last' := last.(segments := last.segments + [Line(pts[0].x, pts[0].y)]);
      assert next == store[n - 1 := last'];
      ExtendAllAppendsLines(next, pts[1..]);
      assert next[n - 1] == last';
      assert last'.segments + Lines(pts[1..]) == last.segments + Lines(pts);
    }
  }

  /**
    A drag with k updates appends one stroke holding exactly k + 1
    commands, `M` to the start point then `L` to each update point, in
    the colour given at the start; every earlier stroke is untouched.
   */
  lemma DragShape(store: seq<Stroke>, color: Color, start: Point, moves: seq<Point>)
    ensures
      var r := Drag(store, color, start, moves);
      && |r| == |store| + 1
      && r[..|store|] == store
      && r[|store|] == Stroke([Move(start.x, start.y)] + Lines(moves), color)
      && |r[|store|].segments| == |moves| + 1
      && WellFormed(r[|store|])
  {
    var b := BeginStroke(store, color, start);
    ExtendAllAppendsLines(b, moves);
    var r := Drag(store, color, start, moves);
    assert r == b[|store| := Stroke([Move(start.x, start.y)] + Lines(moves), color)];
    assert r[..|store|] == b[..|store|];
  }

  /** A drag keeps every stroke of a well-formed store well formed. */
  lemma DragPreservesWellFormed(store: seq<Stroke>, color: Color, start: Point, moves: seq<Point>)
    requires AllWellFormed(store)
    ensures AllWellFormed(Drag(store, color, start, moves))
  {
    DragShape(store, color, start, moves);
    var r := Drag(store, color, start, moves);
    forall i | 0 <= i < |r|
      ensures WellFormed(r[i])
    {
      if i < |store| {
        assert r[i] == r[..|store|][i];
      }
    }
  }

  /** Start at (1, 2) in red, update to (3, 4), on an empty canvas. */
  lemma CaptureExample()
    ensures Drag([], "#ff0000", Point(1, 2), [Point(3, 4)])
         == [Stroke([Move(1, 2), Line(3, 4)], "#ff0000")]
  {
    DragShape([], "#ff0000", Point(1, 2), [Point(3, 4)]);
    assert Lines([Point(3, 4)]) == [Line(3, 4)];
    assert [Move(1, 2)] + [Line(3, 4)] == [Move(1, 2), Line(3, 4)];
  }
}
