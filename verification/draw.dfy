/**
  The drawing session: every piece of the component's hook state made
  explicit in one record, the user-facing handlers as pure transitions,
  and the replay animation as a frame-driven step function. A scheduled
  animation frame is the flag `tickPending`; `Frame` is the platform
  invoking the callback, which happens only while a frame is scheduled.
 */
module Draw {
  import opened PathText
  import opened Capture

  datatype Session = Session(
    paths: seq<Stroke>,     // the captured strokes, in creation order
    replayIndex: nat,       // the stroke being revealed
    currentSegment: nat,    // how many of its commands are revealed
    isReplaying: bool,
    tickPending: bool,      // an animation frame is scheduled
    penColor: Color)

  /** The state of a freshly mounted canvas. */
  const Initial: Session := Session([], 0, 0, false, false, "#000000")

  /** The current replay position names a stroke and one of its commands. */
  predicate CursorInRange(s: Session) {
    s.replayIndex < |s.paths| && s.currentSegment < |s.paths[s.replayIndex].segments|
  }

  /**
    The legal states: every stroke well formed; a frame is scheduled
    exactly while a replay runs; and a running replay points at a command
    of a stroke, or (when started on an empty canvas) at position 0 of
    no stroke.
   */
  predicate Valid(s: Session) {
    && AllWellFormed(s.paths)
    && (s.isReplaying <==> s.tickPending)
    && (s.isReplaying ==>
          CursorInRange(s) || (|s.paths| == 0 && s.replayIndex == 0 && s.currentSegment == 0))
  }

  /** Pan gesture start: a new stroke in the current pen colour; nothing else changes. */
  function OnPanStart(s: Session, g: Point): (r: Session)
    ensures r.(paths := s.paths) == s
    ensures |r.paths| == |s.paths| + 1 && r.paths[..|s.paths|] == s.paths
    ensures r.paths[|s.paths|] == Stroke([Move(g.x, g.y)], s.penColor)
  {
    s.(paths := BeginStroke(s.paths, s.penColor, g))
  }

  /** Pan gesture update: a line to `g` at the end of the last stroke, if any. */
  function OnPanUpdate(s: Session, g: Point): (r: Session)
    ensures r.(paths := s.paths) == s
    ensures |s.paths| == 0 ==> r == s
    ensures |r.paths| == |s.paths|
    ensures |s.paths| > 0 ==>
      && r.paths[..|s.paths| - 1] == s.paths[..|s.paths| - 1]
      && r.paths[|s.paths| - 1] == s.paths[|s.paths| - 1].(segments := s.paths[|s.paths| - 1].segments + [Line(g.x, g.y)])
  {
    s.(paths := ExtendStroke(s.paths, g))
  }

  /** Choosing a pen colour affects only strokes started afterwards. */
  function OnColorChange(s: Session, c: Color): (r: Session)
    ensures r.(penColor := s.penColor) == s
    ensures r.paths == s.paths && r.penColor == c
  {
    s.(penColor := c)
  }

  /**
    The Replay button: ignored while a replay runs; otherwise rewinds to
    the first command of the first stroke and schedules exactly one frame
    (any earlier one is cancelled first).
   */
  function StartReplay(s: Session): (r: Session)
    ensures s.isReplaying ==> r == s
    ensures !s.isReplaying ==>
      && r.isReplaying && r.tickPending
      && r.replayIndex == 0 && r.currentSegment == 0
      && r.paths == s.paths && r.penColor == s.penColor
  {
    if s.isReplaying then s
    else s.(isReplaying := true, replayIndex := 0, currentSegment := 0, tickPending := true)
  }

  /**
    One animation frame of the replay, with the stroke index read from
    the state. Past the last stroke it ends the replay (see
    ReplayStepAsWritten for the code's own version of that branch).
    Otherwise it reveals one more command while the next one is still
    short of the stroke's length, moves to the next stroke when not,
    and ends the replay after the last stroke.
   */
  function ReplayStep(s: Session): (r: Session)
    ensures r.paths == s.paths && r.penColor == s.penColor
    ensures s.replayIndex >= |s.paths| ==>
      r.currentSegment == 0 && !r.isReplaying && !r.tickPending
    ensures CursorInRange(s) && s.currentSegment + 1 < |s.paths[s.replayIndex].segments| ==>
      r == s.(currentSegment := s.currentSegment + 1, tickPending := true)
    ensures CursorInRange(s) && s.currentSegment + 1 == |s.paths[s.replayIndex].segments| ==>
      if s.replayIndex + 1 < |s.paths|
      then r == s.(replayIndex := s.replayIndex + 1, currentSegment := 0, tickPending := true)
      else r == s.(isReplaying := false, tickPending := false)
  {
    if s.replayIndex >= |s.paths| then
      s.(currentSegment := 0, isReplaying := false, tickPending := false)
    else
      var next := s.currentSegment + 1;
      if next >= |s.paths[s.replayIndex].segments| then
        if s.replayIndex < |s.paths| - 1 then
          s.(replayIndex := s.replayIndex + 1, currentSegment := 0, tickPending := true)
        else
          s.(isReplaying := false, tickPending := false)
      else
        s.(currentSegment := next, tickPending := true)
  }

  /**
    The step exactly as the code writes it: past the last stroke (which
    happens when replay starts on an empty canvas) it resets the segment
    and schedules nothing, but leaves `isReplaying` set.
   */
  function ReplayStepAsWritten(s: Session): (r: Session)
    ensures s.replayIndex >= |s.paths| ==>
      r == s.(currentSegment := 0, tickPending := false)
    ensures s.replayIndex < |s.paths| ==> r == ReplayStep(s)
  {
    if s.replayIndex >= |s.paths| then
      s.(currentSegment := 0, tickPending := false)
    else
      var next := s.currentSegment + 1;
      if next >= |s.paths[s.replayIndex].segments| then
        if s.replayIndex < |s.paths| - 1 then
          s.(replayIndex := s.replayIndex + 1, currentSegment := 0, tickPending := true)
        else
          s.(isReplaying := false, tickPending := false)
      else
        s.(currentSegment := next, tickPending := true)
  }

  /** The platform delivering an animation frame: only a scheduled frame ever fires. */
  function Frame(s: Session): (r: Session)
    ensures !s.tickPending ==> r == s
    ensures r.paths == s.paths
  {
    if s.tickPending then ReplayStep(s) else s
  }

  /** `k` consecutive animation frames. */
  function RunFrames(s: Session, k: nat): Session
    decreases k
  {
    if k == 0 then s else RunFrames(Frame(s), k - 1)
  }

  /**
    The Clear button: cancels the scheduled frame, drops every stroke,
    rewinds both indices and ends any replay; the pen colour stays.
   */
  function ClearPaths(s: Session): (r: Session)
    ensures r.paths == [] && r.replayIndex == 0 && r.currentSegment == 0
    ensures !r.isReplaying && !r.tickPending
    ensures r.penColor == s.penColor
  {
    s.(paths := [], replayIndex := 0, currentSegment := 0, isReplaying := false, tickPending := false)
  }

  /** Number of commands over all strokes. */
  function TotalSegments(paths: seq<Stroke>): nat
    decreases |paths|
  {
    if |paths| == 0 then 0 else |paths[0].segments| + TotalSegments(paths[1..])
  }

  /**
    Frames the running replay still has to take: the rest of the current
    stroke plus every later stroke, or one frame to notice an empty canvas.
   */
  function TicksLeft(s: Session): nat
    requires Valid(s)
  {
    if !s.tickPending then 0
    else if s.replayIndex >= |s.paths| then 1
    else |s.paths[s.replayIndex].segments| - s.currentSegment + TotalSegments(s.paths[s.replayIndex + 1..])
  }

  // ---------------------------------------------------------------- validity

  lemma InitialValid()
    ensures Valid(Initial) && TicksLeft(Initial) == 0
  {
  }

  /** Capturing, even in the middle of a replay, keeps the state legal. */
  lemma CaptureKeepsValid(s: Session, g: Point)
    requires Valid(s)
    ensures Valid(OnPanStart(s, g))
    ensures Valid(OnPanUpdate(s, g))
  {
  }

  /** The buttons keep the state legal. */
  lemma ControlsKeepValid(s: Session, c: Color)
    requires Valid(s)
    ensures Valid(OnColorChange(s, c))
    ensures Valid(StartReplay(s))
    ensures Valid(ClearPaths(s))
  {
  }

  lemma TotalSegmentsUnfold(paths: seq<Stroke>, i: nat)
    requires i < |paths|
    ensures TotalSegments(paths[i..]) == |paths[i].segments| + TotalSegments(paths[i + 1..])
  {
  }

  /**
    Every frame of a running replay keeps the state legal and takes
    exactly one frame off what is left.
   */
  lemma FrameCountsDown(s: Session)
    requires Valid(s) && s.tickPending
    ensures Valid(Frame(s))
    ensures TicksLeft(Frame(s)) == TicksLeft(s) - 1
  {
  }

  /**
    A frame that keeps the replay running makes progress in the
    lexicographic order (strokes still to come, commands still to reveal
    in the current stroke); a frame that schedules nothing ends the replay.
   */
  lemma FrameProgress(s: Session)
    requires Valid(s) && s.tickPending
    ensures var r := Frame(s);
      if r.tickPending then
        && CursorInRange(s) && CursorInRange(r)
        && (|s.paths| - r.replayIndex < |s.paths| - s.replayIndex
           || (r.replayIndex == s.replayIndex
               && |r.paths[r.replayIndex].segments| - r.currentSegment
                  < |s.paths[s.replayIndex].segments| - s.currentSegment))
      else !r.isReplaying
  {
  }

  // ---------------------------------------------------------- termination

  lemma RunFramesStep(s: Session, k: nat)
    ensures RunFrames(s, k + 1) == RunFrames(Frame(s), k)
  {
  }

  /** Nothing but replay position and flags changes during replay. */
  lemma {:induction false} RunFramesKeepsStrokes(s: Session, k: nat)
    ensures RunFrames(s, k).paths == s.paths && RunFrames(s, k).penColor == s.penColor
    decreases k
  {
    if k > 0 {
      RunFramesKeepsStrokes(Frame(s), k - 1);
    }
  }

  /**
    After exactly TicksLeft frames a legal state is idle, with no frame
    scheduled and the strokes as they were. A replay that ran over a
    non-empty canvas stops on the last stroke, one command short of its
    end.
   */
  lemma {:induction false} RunReachesIdle(s: Session)
    requires Valid(s)
    ensures var t := RunFrames(s, TicksLeft(s));
      && Valid(t) && !t.isReplaying && !t.tickPending
      && t.paths == s.paths && t.penColor == s.penColor
      && (s.tickPending && |s.paths| > 0 ==>
            t.replayIndex == |s.paths| - 1
            && t.currentSegment == |s.paths[|s.paths| - 1].segments| - 1)
    decreases TicksLeft(s)
  {
    if s.tickPending {
      var f := Frame(s);
      FrameCountsDown(s);
      RunFramesStep(s, TicksLeft(f));
      RunReachesIdle(f);
      if !f.tickPending && |s.paths| > 0 {
        assert s.replayIndex == |s.paths| - 1;
      }
    }
  }

  /** Before TicksLeft frames have passed the replay is still running. */
  lemma {:induction false} RunStillPlaying(s: Session, k: nat)
    requires Valid(s) && k < TicksLeft(s)
    ensures Valid(RunFrames(s, k))
    ensures RunFrames(s, k).isReplaying && RunFrames(s, k).tickPending
    decreases k
  {
    if k > 0 {
      FrameCountsDown(s);
      RunFramesStep(s, k - 1);
      RunStillPlaying(Frame(s), k - 1);
    }
  }

  /**
    A replay started on a legal idle canvas with strokes takes exactly as
    many frames as there are commands in all strokes together: it is
    running after every earlier frame and idle after that one.
   */
  lemma ReplayLastsTotalSegments(s: Session)
    requires Valid(s) && !s.isReplaying && |s.paths| > 0
    ensures Valid(StartReplay(s))
    ensures TicksLeft(StartReplay(s)) == TotalSegments(s.paths)
    ensures var t := RunFrames(StartReplay(s), TotalSegments(s.paths));
      !t.isReplaying && !t.tickPending && t.paths == s.paths
    ensures forall k :: 0 <= k < TotalSegments(s.paths) ==> RunFrames(StartReplay(s), k).isReplaying
  {
    var t := StartReplay(s);
    ControlsKeepValid(s, s.penColor);
    assert WellFormed(s.paths[0]);
    TotalSegmentsUnfold(s.paths, 0);
    assert s.paths[0..] == s.paths;
    RunReachesIdle(t);
    forall k | 0 <= k < TotalSegments(s.paths)
      ensures RunFrames(t, k).isReplaying
    {
      RunStillPlaying(t, k);
    }
  }

  /** Two strokes of 3 and 2 commands: idle after the fifth frame, not before. */
  lemma ReplayExample(c: Color)
    ensures
      var s := Session([Stroke([Move(0, 0), Line(1, 1), Line(2, 2)], c),
                        Stroke([Move(3, 3), Line(4, 4)], c)], 0, 0, false, false, c);
      && !RunFrames(StartReplay(s), 5).isReplaying
      && RunFrames(StartReplay(s), 4).isReplaying
  {
  }

  /**
    Runs the replay to its end, one scheduled frame at a time, and reports
    how many frames it took.
   */
  method ReplayToEnd(s: Session) returns (t: Session, frames: nat)
    requires Valid(s)
    ensures Valid(t) && !t.isReplaying && !t.tickPending
    ensures frames == TicksLeft(s)
    ensures t == RunFrames(s, frames)
    ensures t.paths == s.paths && t.penColor == s.penColor
  {
    t := s;
    frames := 0;
    while t.tickPending
      invariant Valid(t)
      invariant frames + TicksLeft(t) == TicksLeft(s)
      invariant t == RunFrames(s, frames)
      invariant t.paths == s.paths && t.penColor == s.penColor
      decreases TicksLeft(t)
    {
      FrameCountsDown(t);
      RunFramesAppend(s, frames);
      t := Frame(t);
      frames := frames + 1;
    }
  }

  lemma {:induction false} RunFramesAppend(s: Session, k: nat)
    ensures RunFrames(s, k + 1) == Frame(RunFrames(s, k))
    decreases k
  {
    if k > 0 {
      RunFramesAppend(Frame(s), k - 1);
    }
  }

  // ------------------------------------------------- idempotence and clear

  /** Pressing Replay again while it runs changes nothing. */
  lemma StartReplayIdempotent(s: Session)
    ensures StartReplay(StartReplay(s)) == StartReplay(s)
  {
  }

  /** Clearing twice is clearing once. */
  lemma ClearIdempotent(s: Session)
    ensures ClearPaths(ClearPaths(s)) == ClearPaths(s)
  {
  }

  /** After Clear no frame fires: any number of frames leaves the cleared state alone. */
  lemma {:induction false} ClearHaltsReplay(s: Session, k: nat)
    ensures RunFrames(ClearPaths(s), k) == ClearPaths(s)
    decreases k
  {
    if k > 0 {
      ClearHaltsReplay(s, k - 1);
    }
  }

  // ------------------------------------------------ the out-of-range frame

  /**
    As written, Replay on an empty canvas leaves the session claiming to
    replay with no frame scheduled; after a stroke is drawn, the Replay
    button does nothing and no frame ever comes.
   */
  lemma EmptyReplaySticksAsWritten(g: Point, k: nat)
    ensures var t := ReplayStepAsWritten(StartReplay(Initial));
      && t.isReplaying && !t.tickPending && !Valid(t)
      && var d := OnPanStart(t, g);
         StartReplay(d) == d && RunFrames(d, k) == d
  {
  }

  lemma {:induction false} NoFrameNoChange(s: Session, k: nat)
    requires !s.tickPending
    ensures RunFrames(s, k) == s
    decreases k
  {
    if k > 0 {
      NoFrameNoChange(s, k - 1);
    }
  }

  /**
    With the replay ended on the out-of-range frame, the empty-canvas
    replay returns to the initial state, and Replay works again once a
    stroke is drawn.
   */
  lemma EmptyReplayEndsFixed(g: Point)
    ensures Frame(StartReplay(Initial)) == Initial
    ensures var d := OnPanStart(Frame(StartReplay(Initial)), g);
      StartReplay(d).isReplaying && StartReplay(d).tickPending && TicksLeft(StartReplay(d)) == 1
  {
  }
}
