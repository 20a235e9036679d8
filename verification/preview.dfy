/**
  What the two canvases show. The drawing canvas shows every stroke's
  full path text; the preview canvas shows the strokes up to the one
  being replayed, earlier ones in full and the current one cut to the
  commands revealed so far.
 */
module Preview {
  import opened Wrappers
  import opened PathText
  import opened Capture
  import opened Draw

  /** One rendered path: its path text and its colour. */
  datatype Drawn = Drawn(path: string, color: Color)

  /** `Array.prototype.slice(0, k)` for k >= 0: the first k elements, or all of them. */
  function Take<T>(s: seq<T>, k: nat): (r: seq<T>)
    ensures |r| == (if k < |s| then k else |s|)
    ensures r == s[..|r|]
  {
    if k < |s| then s[..k] else s
  }

  /** The drawing canvas: each stroke's commands as path text, in its colour. */
  function Drawing(paths: seq<Stroke>): (r: seq<Drawn>)
    ensures |r| == |paths|
    ensures forall i :: 0 <= i < |paths| ==>
      Parse(r[i].path) == Some(paths[i].segments) && r[i].color == paths[i].color
  {
    RoundTripAll(paths);
    seq(|paths|, i requires 0 <= i < |paths| => Drawn(Serialize(paths[i].segments), paths[i].color))
  }

  lemma RoundTripAll(paths: seq<Stroke>)
    ensures forall i :: 0 <= i < |paths| ==> Parse(Serialize(paths[i].segments)) == Some(paths[i].segments)
  {
    forall i | 0 <= i < |paths|
      ensures Parse(Serialize(paths[i].segments)) == Some(paths[i].segments)
    {
      RoundTrip(paths[i].segments);
    }
  }

  /** How many commands of stroke `i` the preview shows. */
  function Revealed(s: Session, i: nat): nat
    requires i < |s.paths|
  {
    if i == s.replayIndex then s.currentSegment else |s.paths[i].segments|
  }

  /**
    The preview canvas: strokes 0 to `replayIndex` (those that exist);
    each earlier one exactly as on the drawing canvas, the current one
    as the text of its first `currentSegment` commands.
   */
  function PreviewOf(s: Session): (r: seq<Drawn>)
    ensures |r| == (if s.replayIndex < |s.paths| then s.replayIndex + 1 else |s.paths|)
    ensures forall i :: 0 <= i < |r| && i != s.replayIndex ==> r[i] == Drawing(s.paths)[i]
    ensures s.replayIndex < |s.paths| ==>
      var cur := s.paths[s.replayIndex];
      && r[s.replayIndex].color == cur.color
      && r[s.replayIndex].path == Serialize(Take(cur.segments, s.currentSegment))
  {
    var n := if s.replayIndex < |s.paths| then s.replayIndex + 1 else |s.paths|;
    seq(n, i requires 0 <= i < n =>
      Drawn(Serialize(Take(s.paths[i].segments, Revealed(s, i))), s.paths[i].color))
  }

  /**
    The preview never shows what the drawing does not: it has at most as
    many paths, each in the same colour, and each path text is a prefix
    of the drawn one that reads back as a prefix of the stroke's commands.
   */
  lemma PreviewWithinDrawing(s: Session)
    ensures var p := PreviewOf(s); var d := Drawing(s.paths);
      && |p| <= |d|
      && forall i :: 0 <= i < |p| ==>
           && p[i].color == d[i].color
           && p[i].path <= d[i].path
           && exists k :: 0 <= k <= |s.paths[i].segments| && Parse(p[i].path) == Some(s.paths[i].segments[..k])
  {
    var p := PreviewOf(s);
    var d := Drawing(s.paths);
    forall i | 0 <= i < |p|
      ensures p[i].color == d[i].color
      ensures p[i].path <= d[i].path
      ensures exists k :: 0 <= k <= |s.paths[i].segments| && Parse(p[i].path) == Some(s.paths[i].segments[..k])
    {
      var segs := s.paths[i].segments;
      var t := Take(segs, Revealed(s, i));
      assert p[i].path == Serialize(t);
      SerializePrefix(segs, |t|);
      RoundTrip(t);
      assert segs[..|segs|] == segs;
    }
  }

  /**
    Replay only ever reveals more: after any frame of a running replay
    the preview has at least as many paths, and each earlier path text is
    a prefix of the new one.
   */
  lemma RevealIsMonotone(s: Session)
    requires Valid(s) && s.tickPending
    ensures var p := PreviewOf(s); var q := PreviewOf(Frame(s));
      && |p| <= |q|
      && forall i :: 0 <= i < |p| ==> p[i].path <= q[i].path && p[i].color == q[i].color
  {
    var r := Frame(s);
    var p := PreviewOf(s);
    var q := PreviewOf(r);
    if s.replayIndex < |s.paths| {
      var ri := s.replayIndex;
      var segs := s.paths[ri].segments;
      forall i | 0 <= i < |p|
        ensures p[i].path <= q[i].path && p[i].color == q[i].color
      {
        if i == ri {
          var t := Take(segs, Revealed(r, i));
          assert q[i].path == Serialize(t);
          assert s.currentSegment <= |t|;
          assert t[..s.currentSegment] == segs[..s.currentSegment];
          SerializePrefix(t, s.currentSegment);
        }
      }
    }
  }

  /**
    When a replay started on an idle canvas with strokes has run its
    course, the preview is the drawing except the last stroke, which
    stops one command short: its text is a strict prefix of the drawn one.
   */
  lemma FinishedPreviewMissesLastCommand(s: Session)
    requires Valid(s) && !s.isReplaying && |s.paths| > 0
    ensures var n := |s.paths|;
      var last := s.paths[n - 1];
      var p := PreviewOf(RunFrames(StartReplay(s), TotalSegments(s.paths)));
      var d := Drawing(s.paths);
      && p == d[..n - 1] + [Drawn(Serialize(last.segments[..|last.segments| - 1]), last.color)]
      && |p[n - 1].path| < |d[n - 1].path|
  {
    var n := |s.paths|;
    var last := s.paths[n - 1];
    ReplayLastsTotalSegments(s);
    RunReachesIdle(StartReplay(s));
    var t := RunFrames(StartReplay(s), TotalSegments(s.paths));
    assert t.replayIndex == n - 1;
    assert WellFormed(last);
    SerializePrefix(last.segments, |last.segments| - 1);
    var p := PreviewOf(t);
    var d := Drawing(s.paths);
    assert p == d[..n - 1] + [Drawn(Serialize(last.segments[..|last.segments| - 1]), last.color)];
  }
}
