# circle-resizer, modelled in Dafny

The page fills the window with 1000 small shapes that drift at a constant velocity,
bounce off the edges of the viewport, grow while the mouse pointer is close to them
and shrink back otherwise. All of its logic lives in `js/index.js`. This project
models that logic.

- `common.dfy` (module `Common`): the pointer, which stays unknown until the first mouse
  movement. Also the random-size helper `randomMin`, the palette index, the
  velocity and position draws, the edge test with its reflection, and the ±50
  proximity square.
- `circles.dfy` (module `Circles`): the circle's state, its creation from random draws and
  its per-frame rule `CircleStep`. The rule bounces on the pre-move position, moves by
  the reflected velocity, then resizes against the pointer at the moved centre.
  The functions `Run`, `NearTrace` and `RadiusAfter` follow a circle over many frames;
  the lemmas `RunRadius`, `RunValid`, `GrowWhileNear`, `ShrinkWhileFar`, `RadiusBand`
  and `IdleShrink` are proved about them, and `CircleFrame` is one frame over the whole array. The class `Circle` holds the mutable fields. Its
  `Update` is proved to perform exactly `CircleStep`.
- `rectangles.dfy` (module `Rectangles`): the same for rectangles. Width and height move
  together. Two quirks of the constructor are kept as written. First, the height
  argument is replaced by a fresh `randomMin()` and survives only in `maxHeight`.
  Second, `minHeight` is never assigned. `height > undefined` is false, so a
  rectangle never shrinks.
- `animation.dfy` (module `Animation`): the class `Scene` holds the page's global state
  (`innerWidth`, `innerHeight`, `mouse`, `circleArray`, `rectangleArray`). Page load,
  `circleInit`, `rectangleInit`, the `mousemove` and `resize` handlers and one frame of
  `animateCircle` and `animateRectangle` are its methods. Each frame method is proved
  against `CircleFrame` / `RectangleFrame`.

Every random draw is an input, a real in [0, 1). The draw records list them in the
order the source draws them. The viewport size is an input too. Positions and
velocities are exact reals, and sizes are integers.

What the code does, kept as written:

- Before the first `mousemove`, `mouse.x` and `mouse.y` are `undefined`, so every near
  test is false and circles shrink to their floor (js/index.js:7-10, 164-173;
  `Circles.IdleShrink`).
- `minRadius` is `floor(random() * 10 + 1)`, in 1..10 (js/index.js:35-37, 132).
- The starting radius and the floor are drawn independently (js/index.js:184, 132), so
  a radius can start below its floor and stays there until the pointer comes near.
  What holds is min(initial radius, minRadius) ≤ radius ≤ 40 (`Circles.RadiusBand`).
- The velocity is negated whenever the shape pokes past an edge, whatever its
  direction (js/index.js:150-158), so a particle straddling an edge can be turned
  outward again (`Circles.StraddlingCircleTurnsOutward`).
- A circle's initial centre lies in [radius, W − radius] when W ≥ 2·radius, and strictly
  below W − radius only when W > 2·radius (js/index.js:185-186). A rectangle's (x, y)
  is read as its centre, as the edge test at js/index.js:65-71 reads it (the drawing
  call at js/index.js:55-58 uses it as the top-left corner); that point lies in
  [width/2, W) (js/index.js:103).
- The `resize` handler rebuilds only the circles (js/index.js:28-33).

## Model

| member | source | states |
|---|---|---|
| `Common.RandomMin` | js/index.js:35-37 | the draw helper yields an integer in 1..10, namely the floor of u·10 + 1 |
| `Common.ColorIndex` | js/index.js:131 | the colour pick is a palette index in 0..4, the floor of u·5 |
| `Common.Heading` | js/index.js:187-188 | a velocity component (u − 0.5)·2 lies in [−1, 1) and determines its draw |
| `Common.Spread` | js/index.js:185-186 | the initial centre keeps `radius` from both edges when the viewport has room (strictly from the far edge when it has more than enough), and lies between them reversed otherwise |
| `Common.Bounce` | js/index.js:150-158 | the speed along an axis never changes; the velocity is negated when the pre-move shape pokes past an edge, and unchanged otherwise |
| `Common.NearIsSquare` | js/index.js:164-167 | "near" holds iff the pointer is known and lies strictly within ±50 of the centre on both axes |
| `Circles.NewCircle` | js/index.js:180-192 | a new circle has radius and floor in 1..10 from their own draws, velocity in [−1, 1) per axis, a centre inside the viewport by its radius, and is valid |
| `Circles.RadiusStep` | js/index.js:164-173 | the radius changes by at most one; it grows exactly when near and below 40, and shrinks exactly when not near and above the floor |
| `Circles.CircleStep` | js/index.js:149-176 | one update: each axis velocity is reflected iff the pre-move circle pokes past that axis's edges, the centre advances by the reflected velocity, the radius resizes against the pointer at the moved centre, floor and colour are kept, validity is preserved |
| `Circles.RunRadius` | js/index.js:163-173 | over any number of frames the radius is determined by the frame-by-frame near flags alone, and the floor never changes |
| `Circles.RunValid` | js/index.js:164-173 | radius ≤ 40, radius ≥ 1 and floor in 1..10 hold over any number of frames |
| `Circles.GrowWhileNear` | js/index.js:168-170 | after k near frames the radius is min(40, r0 + k) |
| `Circles.ShrinkWhileFar` | js/index.js:171-173 | after k far frames a radius above its floor is max(floor, r0 − k); one at or below its floor stays put |
| `Circles.RadiusBand` | js/index.js:164-173 | whatever the pointer does, min(r0, floor) ≤ radius ≤ 40, and the radius moves at most one per frame |
| `Circles.UnknownNeverNear` | js/index.js:7-10 | before any mouse movement no frame counts as near |
| `Circles.IdleShrink` | js/index.js:171-173 | with the pointer still unknown, circles shrink one per frame to their floor, then stay there |
| `Circles.GrowNearPointer` | js/index.js:164-170 | a circle near the pointer for k consecutive frames reaches min(40, r0 + k) |
| `Circles.RestingPointerAlwaysNear` | js/index.js:160-167 | a motionless circle with the pointer on its centre is near on every frame |
| `Circles.RestingPointerGrows` | js/index.js:164-170 | in that scenario the radius climbs one per frame to 40 and holds |
| `Circles.StraddlingCircleTurnsOutward` | js/index.js:150-153 | a circle past the left edge that is already moving right is turned left again and moves further out |
| `Circles.CircleFrame` | js/index.js:200-202 | a frame keeps the number of circles and gives each index the update of that same index's old state |
| `Circles.CircleFrameSplit` | js/index.js:200-202 | the frame of a concatenation is the concatenation of the frames |
| `Circles.CircleFrameValid` | js/index.js:196-203 | a frame keeps every circle valid |
| `Circles.Circle.constructor` | js/index.js:125-133 | the fields are the arguments, with colour and floor drawn by the constructor |
| `Circles.Circle.Update` | js/index.js:149-176 | updating the fields in place yields exactly `CircleStep` of the old state |
| `Rectangles.Place` | js/index.js:103-104 | the initial centre lies in [half-size, viewport) when the viewport exceeds the half-size |
| `Rectangles.NewRectangle` | js/index.js:97-110 | a new rectangle has maxWidth = 6·width, a height from a fresh draw, maxHeight = height + 5·(the discarded height argument), no height floor, and is valid |
| `Rectangles.RectangleStep` | js/index.js:64-93 | one update: reflection on half-width and half-height, move, then width and height grow together iff near and both below their ceilings, shrink together iff far and both above their floors; width − height is invariant and with no height floor the width never decreases |
| `Rectangles.NeverShrinks` | js/index.js:87-90 | over any number of frames a rectangle stays valid, never gets narrower, and keeps width − height |
| `Rectangles.GrowWhileNear` | js/index.js:83-86 | after k near frames the width has grown by min(k, maxWidth − width, maxHeight − height) |
| `Rectangles.RectangleFrame` | js/index.js:118-120 | a frame keeps the number of rectangles and gives each index the update of that same index's old state |
| `Rectangles.Rectangle.constructor` | js/index.js:39-51 | the height argument is overwritten by a fresh draw and only feeds maxHeight; maxWidth = 6·width; minHeight is left undefined |
| `Rectangles.Rectangle.Update` | js/index.js:64-93 | updating the fields in place yields exactly `RectangleStep` of the old state |
| `Animation.Scene.constructor` | js/index.js:178-194 | on page load the pointer is unknown, the rectangle array is empty, and the circle array holds 1000 fresh circles from the draws |
| `Animation.Scene.CircleInit` | js/index.js:180-192 | the circle array is replaced by exactly 1000 distinct fresh circles, circle i built from draw record i, and the scene stays valid |
| `Animation.Scene.RectangleInit` | js/index.js:97-110 | the rectangle array is replaced by exactly 1000 distinct fresh rectangles, rectangle i built from draw record i |
| `Animation.Scene.MouseMove` | js/index.js:22-26 | the pointer becomes known at the event's coordinates; nothing else changes |
| `Animation.Scene.Resize` | js/index.js:28-33 | the viewport takes the new size and the circles are rebuilt from fresh draws; no previous circle survives; rectangles are untouched |
| `Animation.Scene.AnimateCircles` | js/index.js:196-203 | one frame updates every circle exactly once, in place, from its own old state, the pointer and the viewport; the array, pointer and viewport are unchanged |
| `Animation.Scene.AnimateRectangles` | js/index.js:114-121 | the same for the rectangle array |

## Left out

- Canvas setup, `clearRect` and the `draw` methods are left out. They are drawing calls with no logic.
- `requestAnimationFrame` self-rescheduling is left out. The model gives one frame per method call, and `Run` covers any finite number of frames for one particle.
- Event-listener registration is left out. The handlers are the methods `MouseMove` and `Resize`.
- `canvas.width`/`canvas.height` assignments are left out. They only size the drawing surface.
- `Math.random` is not modelled. Its results are inputs in [0, 1).
- The palette strings are left out. A colour is its index into the five-entry palette.
- IEEE-754 rounding of positions and velocities is left out. The model uses exact reals, since the rule only adds, negates and compares them.
