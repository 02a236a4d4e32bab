# SketchPad stroke tracker, modelled in Dafny

SketchPad is a multi-touch drawing demo for an HTML5 canvas. Its only logic with state is the
stroke tracker in `main.js`:

- **Touch path.** A table `lines` maps each touch identifier to the last point drawn for that
  finger.
  - `touchstart` seeds or overwrites an entry for every touch in the event's `touches` list.
  - `touchmove` strokes one segment per listed touch, from the finger's entry to its new
    position, and stores the new position as the entry.
  - `touchend` and `touchcancel` empty the whole table and save the canvas, but only when no
    touch remains.
- **Mouse path.** There is one implicit previous point, `xPos`/`yPos`.
  - `mousedown` registers the `mousemove` and `mouseup` listeners.
  - Each `mousemove` draws a line from the previous point to the mouse.
  - `mouseup` forgets the previous point, saves the canvas and unregisters both listeners.

`sketch.dfy` holds one module, `Sketch`. It has value types `Point`, `Touch` and `Segment`, and a
class `StrokeTracker`. The class's fields are the module-level state of `main.js`:

- `lines: map<int, Point>`
- `last: Option<Point>` for `xPos`/`yPos`, which are always written together
- `armed` for "the mousemove and mouseup listeners are registered"
- `segments`, the log of every segment stroked on the canvas
- `saves`, the number of calls to `saveImageData`

Every handler is a method, and its `ensures` clauses state the new state. The touch handlers are
proved against specification functions on values:

- `Track` gives the table after a list of touches.
- `MoveSegments` gives the segments a `touchmove` strokes.
- `TrackedPrefix` gives how far a `touchmove` gets before it meets a touch that has no entry.

Lemmas about these functions state what the handlers promise. Three client methods compose the
handlers and are proved:

- `SingleFingerStroke`: a one-finger stroke.
- `OneOfTwoFingersLifts`: one of two fingers lifts.
- `MouseStroke`: a whole mouse stroke.

Points where the model keeps the code's exact behaviour:

- **Moving a touch that has no entry.** This could be treated as a precondition. In the
  code, `lines[id].x` throws a TypeError partway through the `_.each` loop, after the earlier
  touches have already been drawn and stored. The model keeps that error path: `OnTouchMove`
  returns `ok == false` and stops at the first touch without an entry. It does not require the
  caller to avoid it.
- **The touch list is `e.touches`.** This lists every finger on the screen, not only those that
  moved. A finger that did not move still gets a segment, of zero length.
- **Continuing a mouse stroke.** A mouse stroke starts at the current point on its first move,
  but the code tests `!xPos || !yPos`, so a previous point with an x or y of 0 also
  counts as absent. That segment then starts at the new point and has zero length, so a mouse
  stroke through the canvas's left or top edge loses the segment that leaves the edge.
  `StrokeStart` and `MouseStroke` state this as written.

## Model

| member | source | states |
|---|---|---|
| `Sketch.Track` | main.js:88-93 | the table after a list of touches holds every old key plus every listed id; an id not listed keeps its old entry |
| `Sketch.TrackLastWins` | main.js:88-93 | after the list is applied in order, an id's entry is the coordinates of its last occurrence in the list |
| `Sketch.TrackPlacesEveryTouch` | main.js:88-93 | with distinct ids, every listed touch is tracked at exactly its (x, y) |
| `Sketch.TrackKeepsKeys` | main.js:100-108 | tracking touches that all have entries adds no key and removes none, so touchmove never creates or drops a finger |
| `Sketch.TrackedPrefix` | main.js:100-104 | the returned k bounds the prefix of the list whose ids all have entries; the touch at k, if any, has none (there the handler's lookup fails) |
| `Sketch.MoveSegments` | main.js:100-110 | a touchmove strokes exactly one segment per listed touch, in list order, and segment i ends at touch i's coordinates |
| `Sketch.MoveSegmentsStartAtPreviousPoint` | main.js:100-110 | with distinct ids, segment i runs from the finger's point before the event to its new point |
| `Sketch.StrokeStart` | main.js:145-148 | covers the falsy test `NoPreviousPoint` as well: a mouse segment continues from the previous point when that point has both coordinates non-zero; otherwise it starts at the new point, so a segment of positive length only ever leaves a non-zero stored point |
| `Sketch.StrokeTracker.constructor` | main.js:15-19 | the initial state: an empty table, no previous mouse point, listeners unregistered, nothing drawn or saved |
| `Sketch.StrokeTracker.OnTouchStart` | main.js:84-94 | the table becomes `Track` of the old table and the event's touches; nothing is drawn or saved |
| `Sketch.StrokeTracker.OnTouchMove` | main.js:96-111 | with k the tracked prefix: ok iff every touch has an entry; the table becomes `Track` of the first k touches; `MoveSegments` of them is appended to the canvas |
| `Sketch.StrokeTracker.MoveTouch` | main.js:100-109 | one touch: with no entry, fails and changes nothing; otherwise the entry becomes old + (new - old), which is the touch's point, and one segment from the old entry to it is stroked |
| `Sketch.StrokeTracker.DrawMulti` | main.js:178-197 | strokes one segment from the entry to the entry displaced by (moveX, moveY), returns the displaced point, and leaves the table unchanged |
| `Sketch.StrokeTracker.OnTouchEnd` | main.js:113-118 | with no touch remaining, the table is empty and there is exactly one more save; otherwise the table and the save count are unchanged; the canvas is never drawn on |
| `Sketch.StrokeTracker.OnTouchCancel` | main.js:120-125 | same as touchend: clears everything and saves once only when no touch remains |
| `Sketch.StrokeTracker.OnMouseDown` | main.js:127-130 | the move and up listeners are registered |
| `Sketch.StrokeTracker.DeliverMouseMove` | main.js:128-139 | a mousemove draws one segment and moves the previous point only while the listeners are registered; otherwise nothing changes |
| `Sketch.StrokeTracker.OnMouseMove` | main.js:132-134 | one segment from `StrokeStart` to the mouse; the mouse becomes the previous point |
| `Sketch.StrokeTracker.DeliverMouseUp` | main.js:128-140 | a mouseup ends the stroke and saves only while the listeners are registered; otherwise nothing changes |
| `Sketch.StrokeTracker.OnMouseUp` | main.js:136-141 | the previous point is cleared, exactly one save happens, and the listeners are unregistered |
| `Sketch.StrokeTracker.DrawLine` | main.js:143-171 | exactly one segment ending at (x, y), starting where `StrokeStart` says; (x, y) becomes the previous point |
| `Sketch.StrokeTracker.EndDraw` | main.js:173-176 | the previous mouse point is cleared |
| `Sketch.StrokeTracker.SaveImageData` | main.js:199-210 | each save is counted once |
| `Sketch.SingleFingerStroke` | main.js:84-118 | start, n moves and a final lift on one finger give exactly n segments forming a continuous stroke from the start point through every move, an empty table and one save |
| `Sketch.OneOfTwoFingersLifts` | main.js:84-118 | with two fingers down, a touchend that leaves one finger keeps both entries unchanged and saves nothing |
| `Sketch.MouseStroke` | main.js:127-176 | down, n moves and up give n segments, each ending at its mouse point and starting at the point before only when that point has no zero coordinate; afterwards there is no previous point, the listeners are unregistered, and one save has happened |

## Left out

- `init`: viewport meta tag, canvas creation and sizing, listener registration, the alert when
  the canvas is not supported, and restoring the stored PNG. These are DOM work and I/O.
- `getPixelRatio`: a browser capability lookup.
- `saveImageData` internals: `getImageData`, PNG encoding, the `localStorage` write and the
  quota-error catch. These are browser APIs; each call is only counted.
- `clearCanvas`: the confirm dialog and canvas resize on a shake gesture.
- Stroke styling: the gradient, its colour stops, line cap, join, width and composite mode.
  These are constant canvas configuration. A segment is recorded by its end points only.
- `preventDefault` calls, and the unused `r`, `g`, `b`, `a` and `started` variables.
- Browser coordinates are floating point. The model uses integers, so it does not capture
  rounding in `lines[id].x + (clientX - lines[id].x)`.
- The mouse handlers of the source take an event object. The model passes only its `clientX` and
  `clientY`, and the touch handlers only the `touches` list, with `_.each` as in-order iteration.
