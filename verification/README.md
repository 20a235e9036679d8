# Drawing session: stroke capture and replay

A model of the `Draw` component of a React Native sketch pad. The user
drags a finger to draw strokes. Each stroke is kept as a list of SVG path
commands (`M x y`, then `L x y` per update) in the pen colour current when
the drag began. A Replay button re-reveals the drawing on a second
"preview" canvas, one command per animation frame. A Clear button drops
everything and stops a running replay.

The component's hook state is one `Draw.Session` record. It holds the
strokes, the replay stroke index, the revealed-segment count, the
replaying flag, a `tickPending` flag standing for the scheduled
animation frame, and the pen colour. Every handler is a pure transition
on that record. `Draw.Frame` is the platform calling the scheduled frame
callback. It does nothing when no frame is scheduled, so a cancelled frame
never fires.

Modules, leaves first:

- `Wrappers`: `Option`.
- `Numerals`: decimal printing of integer coordinates, as a template literal prints an integral number, and its reader.
- `PathText`: the `Segment` command type, the text of one command, `join(" ")`, and `Parse`. `Parse` reads path text back into commands the way the canvas reads SVG path data. It is the inverse against which serialisation is proved.
- `Capture`: `Stroke`, the well-formedness invariant, and the two `setPaths` updaters of the pan gesture.
- `Draw`: the session, the handlers, the replay step, the legal-state invariant, and termination with an exact frame count.
- `Preview`: the drawing canvas and the preview canvas as lists of (path text, colour).

Where the model departs from the code:

- The code's replay callback is created in one render. It reads `paths` and `replayIndex` from that render's closure, and inside a `setCurrentSegment` updater it calls `setCurrentSegment(0)` and then returns the previous segment (Draw.tsx:78-96). The model reads every field from the current state and resets the segment to 0 when moving to the next stroke. This is the step the code evidently means; React's batching and stale closures are not modelled.
- The `>=` test at Draw.tsx:84 is followed exactly. The revealed-segment count therefore never reaches a stroke's length. A stroke of n commands takes exactly n frames, so a replay takes as many frames as there are commands in total (`Draw.ReplayLastsTotalSegments`). The finished preview shows the last stroke one command short (`Preview.FinishedPreviewMissesLastCommand`).
- The guard at Draw.tsx:56 always holds for a stored stroke, because `segments` is always an array. An update therefore always extends the last stroke, and the guard is not a branch of the model.
- The out-of-range frame (Draw.tsx:79-80) is corrected; see Findings.

## Model

| member | source | states |
|---|---|---|
| Numerals.IntRoundTrip | Draw.tsx:46 | a coordinate printed into a command's text reads back as the same integer |
| PathText.JoinAppend | Draw.tsx:144 | joining two non-empty lists of texts is their two joins with one space between |
| PathText.SerializeIsJoinOfWords | Draw.tsx:144 | a stroke's path text is the single-space join of all its command words, in order |
| PathText.SplitJoin | Draw.tsx:144 | splitting a single-space join of space-free words at spaces yields exactly those words |
| PathText.RoundTrip | Draw.tsx:144 | reading back the joined path text of any command list yields that same list, so order and content are kept |
| PathText.SerializeInjective | Draw.tsx:144 | two command lists with the same path text are equal |
| PathText.SerializePrefix | Draw.tsx:164 | the text of the first k commands is a prefix of the whole text, strictly shorter when k is below the length |
| PathText.SerializeExample | Draw.tsx:144 | `[M 0 0, L 5 5, L 10 10]` is written `M 0 0 L 5 5 L 10 10` |
| Capture.BeginStroke | Draw.tsx:44-49 | a drag start appends exactly one stroke `[M x y]` in the given colour after all strokes, which stay unchanged |
| Capture.ExtendStroke | Draw.tsx:52-60 | an update leaves an empty store unchanged; otherwise it appends one `L x y` to the last stroke only, keeping its colour, the stroke count and all other strokes |
| Capture.BeginPreservesWellFormed | Draw.tsx:44-49 | a drag start keeps every stroke a move followed by lines only |
| Capture.ExtendPreservesWellFormed | Draw.tsx:52-60 | an update keeps every stroke a move followed by lines only |
| Capture.ExtendAllAppendsLines | Draw.tsx:51-60 | a run of updates appends one line per point, in order, to the last stroke and changes nothing else |
| Capture.DragShape | Draw.tsx:43-60 | a start plus k updates appends one well-formed stroke of exactly k+1 commands, a move then the k lines, in the start colour; earlier strokes are untouched |
| Capture.DragPreservesWellFormed | Draw.tsx:43-60 | a whole drag keeps every stroke of the store well formed |
| Capture.CaptureExample | Draw.tsx:43-60 | start at (1,2) in `#ff0000` and update to (3,4) gives the one stroke `[M 1 2, L 3 4]` in `#ff0000` |
| Draw.OnPanStart | Draw.tsx:43-50 | the start handler adds one stroke in the current pen colour after the others and changes no other session field |
| Draw.OnPanUpdate | Draw.tsx:51-61 | the update handler is a no-op with no strokes; otherwise only the last stroke gains one line; no other session field changes |
| Draw.OnColorChange | Draw.tsx:39-41 | choosing a colour changes only the pen colour, never a captured stroke |
| Draw.StartReplay | Draw.tsx:65-74 | while replaying it is a no-op; otherwise it sets replaying, rewinds both indices to 0 and leaves one frame scheduled, strokes unchanged |
| Draw.ReplayStep | Draw.tsx:82-102 | one frame never changes strokes or colour; it reveals one more command while the next is short of the length, else moves to the next stroke at 0 with a frame scheduled, else ends the replay with no frame; out of range it ends the replay |
| Draw.ReplayStepAsWritten | Draw.tsx:77-104 | the code's step: out of range it zeroes the segment and schedules nothing but keeps the replaying flag; in range it equals `Draw.ReplayStep` |
| Draw.Frame | Draw.tsx:73 | with no frame scheduled nothing happens; a frame never changes the strokes |
| Draw.ClearPaths | Draw.tsx:107-113 | Clear empties the store, zeroes both indices, ends the replay and leaves no frame scheduled; the pen colour stays |
| Draw.InitialValid | Draw.tsx:31-36 | the freshly mounted state is legal and has no frames left |
| Draw.CaptureKeepsValid | Draw.tsx:43-61 | drag start and update keep the session legal, even while a replay runs |
| Draw.ControlsKeepValid | Draw.tsx:65-113 | colour change, Replay and Clear keep the session legal |
| Draw.FrameCountsDown | Draw.tsx:82-102 | a frame of a running replay keeps the session legal and lowers the frames still to come by exactly one |
| Draw.FrameProgress | Draw.tsx:82-95 | a frame that reschedules keeps the cursor on a command and lowers (strokes remaining, commands remaining in the stroke) lexicographically; one that does not ends the replay |
| Draw.RunFramesKeepsStrokes | Draw.tsx:77-104 | any number of frames leaves strokes and pen colour as they were |
| Draw.RunReachesIdle | Draw.tsx:77-104 | after exactly the remaining frame count a legal session is idle with nothing scheduled; a replay over strokes stops on the last stroke one command short of its end |
| Draw.RunStillPlaying | Draw.tsx:77-104 | before that many frames the replay is still running with a frame scheduled |
| Draw.ReplayLastsTotalSegments | Draw.tsx:65-104 | a replay started on an idle canvas with strokes runs for exactly the total number of commands: running after every earlier frame, idle after that one |
| Draw.ReplayExample | Draw.tsx:65-104 | strokes of 3 and 2 commands: still replaying after 4 frames, idle after the 5th |
| Draw.ReplayToEnd | Draw.tsx:77-104 | delivering scheduled frames until none is left ends idle after exactly the remaining frame count, with the strokes unchanged |
| Draw.StartReplayIdempotent | Draw.tsx:66 | pressing Replay twice is the same as pressing it once |
| Draw.ClearIdempotent | Draw.tsx:107-113 | clearing twice is the same as clearing once |
| Draw.ClearHaltsReplay | Draw.tsx:107-113 | after Clear no frame fires: any number of frames leaves the cleared state unchanged |
| Draw.EmptyReplaySticksAsWritten | Draw.tsx:79-80 | as written, Replay on an empty canvas leaves the replaying flag set with no frame scheduled; after a stroke is drawn, Replay does nothing and no frame ever comes |
| Draw.EmptyReplayEndsFixed | Draw.tsx:79-80 | with the corrected step, that replay returns to the initial state, and Replay works again after drawing |
| Preview.Take | Draw.tsx:164 | `slice(0, k)` is the first min(k, length) elements |
| Preview.Drawing | Draw.tsx:141-151 | the drawing canvas has one path per stroke, in its colour, whose text reads back as exactly the stroke's commands |
| Preview.PreviewOf | Draw.tsx:161-164 | the preview holds strokes 0..replayIndex that exist; earlier ones as drawn, the current one as the text of its first currentSegment commands |
| Preview.PreviewWithinDrawing | Draw.tsx:141-164 | each preview path keeps its stroke's colour and its text is a prefix of the drawn text that reads back as a prefix of the stroke's commands |
| Preview.RevealIsMonotone | Draw.tsx:161-164 | a replay frame never hides anything: the preview keeps or gains paths, and each earlier path text is a prefix of the new one |
| Preview.FinishedPreviewMissesLastCommand | Draw.tsx:84-96 | once a replay has run its course, the preview equals the drawing except the last stroke, whose text is strictly shorter, lacking its last command |

## Findings

| source | as written | input that shows it | evidently intended | confidence | as-written member | corrected member |
|---|---|---|---|---|---|---|
| Draw.tsx:79-80 | a frame that finds no stroke at the replay index returns 0 and schedules nothing, but never clears `isReplaying` | Replay pressed on an empty canvas, then one frame; afterwards every Replay press is ignored until Clear | the replay ends as it does after the last stroke (Draw.tsx:93) | not executed; high | Draw.EmptyReplaySticksAsWritten | Draw.EmptyReplayEndsFixed |

## Left out

- Rendering, `AppButton`, styles and the colour-picker modal (Draw.tsx:23-28, 122-250) are UI. Only the colour change handler and the path and preview expressions are modelled.
- The gesture and canvas libraries, and `.minDistance(0)`, are foreign code. Only the handler bodies are modelled. Every update is taken as it comes.
- `requestAnimationFrame` and `cancelAnimationFrame` are reduced to the `tickPending` flag. Frame ids, and their truthiness tests, are not modelled.
- The unmount cleanup (Draw.tsx:115-120) cancels the scheduled frame with no state left to observe, so it is not modelled.
- React's batching, stale closures, and the in-place `push` onto a shallow-copied array (Draw.tsx:57) are framework mechanics. The model uses immutable values and the evident step. The in-place `push` yields the same store value.
- Coordinates are integers, not floats. The decimal rendering of fractional numbers is not modelled.
- Colours are uninterpreted strings. Stroke width, cap and join are constants of the rendering and are not modelled.
- Draw.bak.tsx is a superseded copy of the capture handlers and App.tsx is layout; neither is part of this model.
