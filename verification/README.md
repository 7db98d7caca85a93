# Circle editor: a Dafny model

This project models the page script of a small canvas drawing app. The user
draws a circle by dragging: a drag longer than 50 canvas units adds a circle
centred at the drag's midpoint, with the drag length as its radius and a
random `#rrggbb` fill colour. Pressing the mouse inside an existing circle
is a "hit": the first circle in the list that contains the point becomes the
pending deletion. The confirm button then removes it and repaints the
canvas, and the cancel button drops it.

The project has four modules:

- `Geometry` (`geometry.dfy`) holds the pure helpers. `MousePosition` maps an
  event to canvas units (offset by the canvas's corner, scaled by 2).
  `SquaredDistance` and `IsDistance` stand in for `calculateRadius`.
  `CircleCenter` gives the centre of a new circle. `IsPointInCircle` is the
  hit test.
- `HexColor` (`hex_color.dfy`) models the formatting of `getRandomHexColor`.
  It has the base-16 `toString` (`ToHex`), `padStart` (`PadStart`), the
  template (`FormatColor`) and the scaling of the random fraction
  (`ColorValue`). `HexValue` is an independent reading of hexadecimal text
  that the formatting is checked against.
- `CircleEditor` (`editor.dfy`) holds the `Editor` class. Its fields are the
  script's module-level variables: `circles`, `isDrawing`, `startX`,
  `startY` and `indexToDelete`. A further field, `surface`, lists the disks
  painted since the canvas was last cleared. Each handler is a method. The
  object invariant `Valid()` says that the pending index is absent or
  names a circle in the list; every handler preserves it. `FirstHit` gives
  the hit test's result, and `Splice` is `splice(i, 1)`.
- `Scenarios` (`scenarios.dfy`) drives event sequences through the handlers
  and checks them using only the handlers' contracts. Every scenario starts
  from a new `Editor` and reaches its state through the handlers alone; no
  field is set directly.

Numbers are exact reals. `Math.sqrt` is never computed. A value `d` is the
distance between two points when `d >= 0` and `d * d` equals the squared
distance (`IsDistance`), and every comparison with a distance is made on
squares. `PointInCircleIsClosedDisk` and `RadiusExceedsThreshold` prove
that the squared comparisons agree with the script's comparisons of square
roots.

The model keeps the script's behaviour as written, including these quirks:

- `MouseDown` starts a drag even on a hit. A hit followed by a long drag
  therefore still creates a circle.
- A miss leaves a stale pending index in place. A miss also hides the
  confirmation prompt (src/index.js:233-234), so the app itself cannot act
  on that stale index; the model's `Delete` can.
- The hit test picks the oldest matching circle, not the topmost one
  (`FirstHitIgnoresLaterCircles`).
- The reset button clears the pixels but not the list (`ResetCanvas`).

A 24-bit colour can be `0xffffff`, but the exclusive bound in
`Math.floor(Math.random() * 16777215)` never draws it, so `#ffffff` is never
produced (`RandomHexColorNeverWhite`).

## Model

| member | source | states |
|---|---|---|
| `Geometry.MousePosition` | src/index.js:151-157 | The canvas position maps back to the event's client position: subtract the canvas's corner, scale by the device factor 2, and the inverse recovers the event. |
| `Geometry.MousePositionScalesDistance` | src/index.js:151-157 | The mapping multiplies every squared distance by 4, whatever the canvas offset. |
| `Geometry.SquaredDistance` | src/index.js:114-118 | The quantity under calculateRadius's square root is never negative. |
| `Geometry.DistanceUnique` | src/index.js:114-118 | calculateRadius has exactly one possible result: two non-negative roots of the same squared distance are equal. |
| `Geometry.CircleCenter` | src/index.js:129-131 | getCircleCenter's point is equally far from both drag ends, and its squared distance to each is a quarter of theirs to each other (the midpoint). |
| `Geometry.IsDistance` | src/index.js:114-118 | A value accepted as the distance between two points bounds both coordinate differences: each lies between minus the distance and the distance. |
| `Geometry.IsPointInCircle` | src/index.js:167-172 | A hit needs a non-negative radius and lies in the circle's bounding square: each coordinate is within the radius of the centre's. |
| `Geometry.PointInCircleIsClosedDisk` | src/index.js:167-172 | The squared hit test holds exactly when the point's distance to the centre is at most the radius, so a boundary point is a hit; a negative radius contains nothing. |
| `Geometry.SquareMonotone` | src/index.js:65-67 | For non-negative reals, `<=` and `<` agree with the same comparison of their squares; this justifies the squared comparisons. |
| `HexColor.DigitChar` | src/index.js:140 | toString(16)'s digit for a value below 16 is a lower-case hex digit that reads back as that value. |
| `HexColor.HexValue` | src/index.js:140-141 | A string of k hex digits writes a value below 16^k. |
| `HexColor.ToHex` | src/index.js:140 | toString(16) gives at least one lower-case hex digit, no leading zero, and reads back as the number. |
| `HexColor.ToHexLength` | src/index.js:140-141 | A value below 16^k has at most k digits, so six-digit padding never truncates a 24-bit value. |
| `HexColor.PadStart` | src/index.js:141 | padStart returns the target length (or the input, if longer), ends with the input, and is filled with the pad character before it. |
| `HexColor.HexValueZeroPadded` | src/index.js:141 | Left zero padding does not change the value the digits write. |
| `HexColor.ColorValue` | src/index.js:139 | `Math.floor(random * 16777215)` lies in `[0, 16777215)` for every fraction Math.random can return. |
| `HexColor.ColorValueCovers` | src/index.js:139 | Every value below 16777215 is produced by some fraction in `[0, 1)`. |
| `HexColor.FormatColor` | src/index.js:139-141 | The template gives `#` followed by at least six lower-case hex digits, and those digits read back as the value. |
| `HexColor.RandomHexColor` | src/index.js:138-142 | getRandomHexColor returns `#` followed by at least six lower-case hex digits, writing a value below 16777215. |
| `HexColor.RandomHexColorShape` | src/index.js:138-142 | getRandomHexColor always returns `#` followed by exactly six lower-case hex digits, writing a value below 16777215. |
| `HexColor.FormatColorNotWhite` | src/index.js:139-141 | No value below the exclusive bound 16777215 is formatted as `#ffffff`. |
| `HexColor.FormatColorShape` | src/index.js:138-142 | For every value below 16^6 the colour is `#` followed by exactly six lower-case hex digits that encode the value, zero-padded on the left. |
| `HexColor.FormatColorInjective` | src/index.js:138-142 | Distinct values below 16^6 give distinct colour strings. |
| `HexColor.RandomHexColorNeverWhite` | src/index.js:138-142 | Because the bound is exclusive, getRandomHexColor never returns `#ffffff`, although it is a 24-bit colour. |
| `CircleEditor.FirstHit` | src/index.js:44-50 | The hit test returns the least index whose circle contains the point; it returns none exactly when no circle contains it. |
| `CircleEditor.FirstHitIgnoresLaterCircles` | src/index.js:44-50 | Appending a circle never changes an existing hit, even when the new circle is painted on top of the point. |
| `CircleEditor.Splice` | src/index.js:81 | `splice(i, 1)` with i in range removes exactly element i: the result is one shorter, keeps the elements before i, shifts those after down by one, and removes one occurrence of the deleted circle from the multiset. An index out of range leaves the list as it was. |
| `CircleEditor.RadiusExceedsThreshold` | src/index.js:65-67 | `radius > 50` holds exactly when the squared drag length exceeds 2500. |
| `CircleEditor.ThresholdInClientPixels` | src/index.js:12 | In client pixels the threshold is 25: a drag makes a circle exactly when its squared client-pixel length exceeds 625. |
| `CircleEditor.CreatedCircleContainsDrag` | src/index.js:64-70 | The circle a drag creates contains both ends of the drag. |
| `CircleEditor.Editor.constructor` | src/index.js:21-25 | Initial state: no circles, nothing painted, no drag, no pending deletion; the invariant holds. |
| `CircleEditor.Editor.MouseDown` | src/index.js:36-53 | Starts a drag at the mapped point even on a hit. Returns a hit exactly when some circle contains the point; on a hit, sets the pending index to the first such circle; on a miss, leaves the old pending index. The list and canvas are unchanged, and the invariant is preserved. |
| `CircleEditor.Editor.DrawCircle` | src/index.js:183-189 | Paints the disk; appends it to the list only when not redrawing; changes nothing else. |
| `CircleEditor.Editor.MouseUp` | src/index.js:61-74 | Without a drag in progress nothing changes. Otherwise it appends and paints exactly one circle when the squared drag length exceeds 2500. That circle is centred at the drag midpoint, with the drag length as radius and the formatted random colour. A shorter drag leaves the list unchanged. The drag ends, the pending index is kept, and the invariant is preserved. |
| `CircleEditor.Editor.ResetCanvas` | src/index.js:214-216 | Clears the canvas and leaves the list and all other state as they were. |
| `CircleEditor.Editor.RedrawCircles` | src/index.js:194-199 | Leaves the list unchanged, and afterwards the canvas shows exactly the list in order, whatever it showed before, so repeating it changes nothing. |
| `CircleEditor.Editor.Delete` | src/index.js:79-86 | With a pending index, removes exactly that circle (the result is one shorter, with order kept), repaints the canvas from the list and clears the pending index. Without one, nothing changes. The invariant is preserved. |
| `CircleEditor.Editor.Cancel` | src/index.js:91-94 | Clears the pending index and leaves the list, the canvas and the drag state unchanged. |

## Left out

- `CircleEditor.Editor.MouseUp`: takes Math.sqrt's result as its `radius` parameter, constrained to be the non-negative root of the squared drag length; `calculateRadius` is not computed.
- IEEE-754 arithmetic: coordinates, radii and the colour scaling are exact reals, so rounding in `Math.sqrt`, the midpoint, the scaling by 2 and `random * 16777215` is not modelled.
- `Math.random` is not modelled. Its result is the parameter `random`, which ranges over `[0, 1)`.
- `getBoundingClientRect` is not modelled. Its `left` and `top` are the parameter `rect`.
- The auto-dismiss timer (`timeout`, `clearTimeout`, src/index.js:24, 37) is left out: it is never scheduled, so cancelling it has no effect.
- `updateHitMissNotification` and the other element style changes are left out (src/index.js:3-9, 15-17, 83, 92, 224-236, 239). This covers the "Hit"/"Miss" text and colour, and the showing, hiding and placing of the confirmation prompt. They are DOM presentation only; the hit outcome is the `hit` result of `MouseDown`.
- The canvas 2D drawing calls (`beginPath`, `arc`, `fill`, `clearRect`) are not rendered to pixels. The canvas is modelled as the list of disks painted since it was last cleared (`surface`).
- `adjustCanvasSize` and the fixed canvas height (src/index.js:11, 17, 204-209) are left out: they read the browser window and set element sizes. The clearing that resizing causes is not modelled.
- The event-listener wiring (src/index.js:97-101, 209, 239) is left out. Each handler is a method, and the reset button's handler is `ResetCanvas`.
- Before the first mouse-down, `startX` and `startY` are `undefined`. The model starts them at 0. They are read only while a drag is in progress, which a mouse-down always starts.
