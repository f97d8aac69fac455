# Star-field model of the solar-system landing page

The page (`main.js`) renders a three.js scene: a background star field, a
loaded solar-system model with looping animation, and orbit camera controls.
The logic in it that is more than library wiring is the star field:

- **Initialisation** (`main.js:44-50`) allocates a `Float32Array` of
  `3 * starsCount` numbers (10,000 stars as x, y, z triples). It fills it
  star by star, setting each coordinate to `Math.random() * 2000 - 1000`.
- **`animateStars`** (`main.js:109-116`) runs once per frame. It walks the
  buffer in strides of 3 and moves each x coordinate left by 0.05. When the
  result falls below -1000, it resets the coordinate to exactly 1000.
- **The frame tick** `animate` (`main.js:119-125`) advances the star field
  once per frame. After that it advances the animation mixer by 0.01, but
  only once the model's load callback has created the mixer
  (`main.js:62, 89, 123`).

The model has two modules:

- `StarField` (`star_field.dfy`) holds the constants (10000 stars, bound
  1000, step 0.05) and the specification functions. `InitialPositions` is the
  filled buffer. `Drift` is the rule for one x coordinate. `AdvanceFrom` and
  `Advanced` give the buffer after one frame, and `AdvancedN` after n frames.
  `Visits` lists the indices the loop visits. The module also holds the two
  loops of the source as methods on an `array<real>`: `InitPositions` and
  `AnimateStars`. Each is proved to produce its specification function.
- `FrameLoop` (`frame_loop.dfy`) holds the class `Scene`, which owns the
  star buffer and the mixer. The mixer is modelled as an optional playback
  clock (`None` until the model has loaded). `Tick` is one call of `animate`.
  `Scene.Valid()` says that the buffer keeps its size and that every
  coordinate stays in [-1000, 1000]. `Tick` preserves it.

The random draws are an input sequence of 30,000 values. Star i uses draws
3i, 3i+1 and 3i+2, in the order the source calls `Math.random()`.
Coordinates are exact reals.

Two statements one might expect do not hold of the code, and the model
follows the code:

- The initial buffer lies in the half-open range [-1000, 1000), but a frame
  does not keep that range. A reset puts an x coordinate at exactly 1000
  (`HalfOpenRangeNotKept`). The range that every frame keeps is the closed
  one, [-1000, 1000].
- The drift is not arithmetic modulo a 2000-unit span. The reset discards
  the remainder below -1000 (`ResetDiscardsRemainder`). Between resets an x
  coordinate moves by exactly 0.05 per frame (`DriftWithoutReset`).

## Model

| member | source | states |
|---|---|---|
| `StarField.Coordinate` | main.js:47-49 | a coordinate `r * 2000 - 1000` lies in [-1000, 1000) exactly when the draw r lies in [0, 1) |
| `StarField.InitialPositions` | main.js:44-50 | the initial buffer has one coordinate per draw, the j-th made from the j-th draw; all coordinates lie in [-1000, 1000) exactly when all draws lie in [0, 1) |
| `StarField.InitPositions` | main.js:44-50 | the initialisation loop fills a fresh buffer of 3 * 10000 entries, star by star, equal to `InitialPositions(draws)` |
| `StarField.Drift` | main.js:112-113 | an x coordinate v becomes v - 0.05 when that is at least -1000, and exactly 1000 otherwise; a value in [-1000, 1000] stays in [-1000, 1000] |
| `StarField.Visits` | main.js:111 | the loop visits i, i+3, i+6, ... below the length, strictly increasing, so each x index is visited once; an index is visited exactly when it is in range and a multiple of 3 from the start |
| `StarField.AdvanceFrom` | main.js:111-114 | processing x indices from i onward, in stride order, keeps the length, drifts exactly the x entries at or after i and leaves every other entry unchanged |
| `StarField.Advanced` | main.js:110-114 | one frame keeps the buffer length, drifts every x entry (index divisible by 3) and leaves every y and z entry unchanged |
| `StarField.AnimateStars` | main.js:109-116 | in place, the buffer becomes `Advanced` of the old buffer: x entries drift, y and z entries are unchanged, and the indices visited are `Visits(0, length)` |
| `StarField.AdvancedStaysInClosedRange` | main.js:112-113 | if every coordinate lies in [-1000, 1000] before a frame, every coordinate lies there after it |
| `StarField.AdvancedNKeepsYZ` | main.js:111-113 | after any number of frames the length and every y and z entry are unchanged |
| `StarField.AdvancedNStaysInRange` | main.js:112-113 | if every x entry lies in [-1000, 1000], it still lies there after any number of frames |
| `StarField.DriftWithoutReset` | main.js:112 | while an x entry does not fall below -1000, after n frames it equals its start value minus n * 0.05 |
| `StarField.ResetDiscardsRemainder` | main.js:113 | an x entry that falls below -1000 lands on exactly 1000, not on the wrapped-around value v - 0.05 + 2000 |
| `StarField.HalfOpenRangeNotKept` | main.js:113 | a buffer in [-1000, 1000) can leave that half-open range after one frame, because a reset yields exactly 1000 |
| `FrameLoop.TickClock` | main.js:123 | the mixer clock exists after a frame exactly when it existed before, and then it is exactly 0.01 further on |
| `FrameLoop.TickClockNAdvances` | main.js:123 | after n frames the clock is n * 0.01 further on if the mixer exists, and still absent if it does not |
| `FrameLoop.Scene.constructor` | main.js:43-50 | at start-up the buffer is `InitialPositions(draws)`, every coordinate lies in [-1000, 1000), and there is no mixer |
| `FrameLoop.Scene.LoadSucceeded` | main.js:89 | the load callback installs the mixer with its clock at 0 and changes nothing else |
| `FrameLoop.Scene.Tick` | main.js:119-125 | one frame advances the star field exactly once and advances the mixer clock by 0.01 only if the mixer exists; the buffer keeps its size and stays in [-1000, 1000] |

## Left out

- Float32 storage: the buffer holds exact reals. The rounding of 0.05 and of each stored coordinate in a `Float32Array` is not modelled.
- `Math.random()` itself: the draws are an input sequence, and the range [0, 1) is a precondition where it matters.
- The renderer, scene graph, lights, the `Points` object and its material, and the `needsUpdate` flag (`main.js:6-18, 33-39, 51-58, 115`). They are three.js calls with no behaviour of their own to state.
- OrbitControls configuration and `controls.update()` (`main.js:21-30, 121`). This is the external library's damping and camera maths.
- GLTF loading, the mesh traversal that rewrites materials and shadow flags, and the clip actions (`main.js:61-99`). These are asynchronous I/O and three.js objects. Only the moment the mixer is created is modelled (`Scene.LoadSucceeded`). The progress and error callbacks only log, so they change no modelled state.
- The animation mixer's internals. The mixer is an abstract clock that advances by 0.01 per frame.
- The resize handler (`main.js:102-106`). It is DOM events plus an aspect-ratio division.
- `requestAnimationFrame` scheduling, console logging and the progress element (`main.js:94, 96, 98, 120`). Frames are modelled one `Tick` call at a time.
