# Particles: a verified model of the gesture-driven particle engine

The system is a browser toy. A webcam feeds two perception stages:

- a frame-difference **motion detector** whose disturbance points spawn drifting, fading particles (FLOW mode);
- a **hand-pose classifier** whose label (LIKE, POWER, FLOW, PEACE, ROCK, LOVE) is rendered as text and sampled into **target points**.

The **particle engine** then pulls its particles onto those target points (TEXT mode) and holds them there until the hand pose changes. The **main loop** glues these together once per frame. It calls `setMode` only when the detected label changes, and it maps motion points from webcam space onto the mirrored canvas.

This project models that core in Dafny and proves its contracts. It has one module per source file and two shared modules:

| module | file | models |
|---|---|---|
| `Types` | `types.dfy` | `null` as `Option`, RGBA bytes, `Math.random()` values, pixel and canvas points |
| `RowMajor` | `row_major.dfy` | row-major numbering of buffer cells, shared by both pixel scans |
| `Motion` | `motion.dfy` | `MotionDetector` of `src/motion.js` |
| `TextTargets` | `text_targets.dfy` | `TextTargetGen.generateTargets` of `src/text-targets.js`, from the pixel buffer on |
| `Gesture` | `gesture.dfy` | `GestureClassifier.classify` of `src/gesture.js` |
| `Particles` | `particles.dfy` | `Particle` and `ParticleSystem` of `src/particles.js` |
| `App` | `main.dfy` | the gesture transition block and the motion mapping of `src/main.js` |

Modelling choices:

- **Imperative code stays imperative.** The motion detector, the text sampler, the particle system and the main loop's transition state are classes whose methods run the source's loops. Each method's `ensures` ties its result or new state to a specification function of its inputs and the old state. The promised properties are then proved about those functions as lemmas. The classifier and the motion mapping are pure functions.
- **Particles are records.** The source never shares a particle object between two pool slots, so updating a particle in place is modelled as replacing its slot in the `particles` sequence.
- **Numbers.**
  - Doubles are modelled as `real`.
  - The hue counter advances by 0.5 degrees, so it and every particle hue are counted in half-degrees modulo 720. That makes `(hueCycle + 0.5) % 360` into `(hueCycle + 1) % 720` and `(hueCycle + i) % 360` into `(hueCycle + 2 * i) % 720`, both exact.
  - The motion detector's `* 0.1` with `Math.floor` becomes integer division by 10, and its `/ 0.1` becomes multiplication by 10.
- **Randomness is an argument.**
  - The `Particle` constructor's four draws are a `Draw`, with the random angle seen through its unit vector (cos, sin).
  - `setMode`'s position draws are a `Spot` per pool index.
  - `addParticles`' draws are a `coin` per motion-point index.
  - The shuffle `sort(() => Math.random() - 0.5)` is any function that returns a permutation of its input (`Particles.Shuffler`).
- **Canvas buffers are inputs.** `drawImage`, `fillText` and `getImageData` are canvas calls. The model starts from the RGBA bytes they return.

## Model

| member | source | states |
|---|---|---|
| Motion.MotionDetector.constructor | src/motion.js:2-18 | the low-resolution buffer is a tenth of the source size in each axis (rounded down), fixed for the detector's life; there is no previous frame yet |
| Motion.MotionDetector.Detect | src/motion.js:20-60 | the first call reports nothing whatever the frame; later calls report exactly the moved pixels of the stored frame against this one, in pixel order; every call then stores this frame as the previous one |
| Motion.AbsDiff | src/motion.js:35-37 | the channel difference is the distance between the two channel values, whichever is larger |
| Motion.MovedPixelsFacts | src/motion.js:33-39 | a pixel index is reported exactly when it is inside the buffer and its summed R, G, B change exceeds 100 (alpha ignored); indices come once each, in increasing order, at most one per pixel |
| Motion.MovedPixelsMembers | src/motion.js:33-39 | membership half of the above: reported indices are exactly the moved pixels |
| Motion.MovedPixelsSorted | src/motion.js:33-46 | ordering half: reported indices are in the buffer, strictly increasing, at most one per pixel |
| Motion.PointOf | src/motion.js:41-43 | the source-resolution location of buffer pixel k: its column k % w and row k / w, each times 10 |
| Motion.MotionPoints | src/motion.js:33-47 | what one comparison reports: the location of every moved pixel, in pixel order |
| Motion.MotionPointsNext | src/motion.js:33-47 | one loop turn appends the point of the current pixel exactly when it moved, after the points of the earlier pixels |
| Motion.StillFrameNoMotion | src/motion.js:35-39 | two identical consecutive frames report no motion |
| Motion.PointOfOrdered | src/motion.js:41-43 | a later pixel is reported at a later row, or further right in the same row |
| Motion.MotionPointsOrdered | src/motion.js:33-46 | the reported points are strictly in scan order (no duplicates) and number at most w * h |
| Motion.PointOfInFrame | src/motion.js:41-43 | a buffer pixel maps to a multiple of 10 in each axis, inside the 10w by 10h source area |
| Motion.MotionPointsInFrame | src/motion.js:41-46 | every reported point lies on the 10-pixel grid inside the 10w by 10h source area |
| Motion.MotionPointsExact | src/motion.js:33-46 | buffer pixel k is reported (at its scaled location) exactly when its summed R, G, B change exceeds 100 |
| RowMajor.Ordered | src/motion.js:41-43 | a larger flat index lies in a later row, or in the same row further right |
| RowMajor.Bounds | src/text-targets.js:30 | the flat index of a cell of a w by h grid is below w * h |
| RowMajor.RowBound | src/motion.js:43 | every flat index below w * h lies in one of the h rows |
| TextTargets.GridLines | src/text-targets.js:28-29 | the stride-8 loop visits ceil(n / 8) grid lines: the multiples of 8 below n |
| TextTargets.OffsetIs | src/text-targets.js:30 | the row-by-row pixel index of (x, y) is y * width + x |
| TextTargets.PixelCountIs | src/text-targets.js:23 | the canvas holds width * height pixels |
| TextTargets.OffsetInCanvas | src/text-targets.js:30-31 | every canvas pixel's index lies inside the buffer |
| TextTargets.TextTargetGen.constructor | src/text-targets.js:2-10 | the sampler keeps the render size it was built for |
| TextTargets.TextTargetGen.GenerateTargets | src/text-targets.js:23-37 | the nested stride-8 loops return exactly the grid scan of the buffer |
| TextTargets.ScanCell | src/text-targets.js:30-33 | the byte the inner loop reads for (x, y) is that pixel's alpha, inside the buffer, and the row scan grows by (x, y) exactly when it exceeds 128 |
| TextTargets.GridEnd | src/text-targets.js:28-29 | a stride-8 loop over n pixels leaves its index on the grid line after the last one visited |
| TextTargets.ScanRowDone | src/text-targets.js:28-35 | a finished row is appended after all earlier rows |
| TextTargets.Targets | src/text-targets.js:23-37 | the targets of a buffer: every row of the 8-pixel grid scanned left to right, rows top to bottom |
| TextTargets.RowScanFacts | src/text-targets.js:29-33 | the scan of one row collects exactly that row's inked grid points left of the current column, left to right, at most one per column |
| TextTargets.RowScanMembers | src/text-targets.js:29-33 | membership half of the above |
| TextTargets.RowScanSorted | src/text-targets.js:29-33 | ordering half: one row's points are in that row, left of the current column, strictly increasing in x |
| TextTargets.RowsOrdered | src/text-targets.js:28-33 | a later row appended to earlier rows keeps scan order |
| TextTargets.ScanFacts | src/text-targets.js:28-35 | the rows above y yield exactly the inked grid points above y, strictly in scan order |
| TextTargets.TargetsInked | src/text-targets.js:23-37 | a point is a target exactly when it is a multiple of 8 in both axes, inside the canvas and inked; targets are strictly in row-major order, so without duplicates |
| TextTargets.ScanBound | src/text-targets.js:28-33 | the rows above y yield at most ceil(width / 8) points each |
| TextTargets.TargetsBound | src/text-targets.js:28-33 | there are at most ceil(width / 8) * ceil(height / 8) targets |
| TextTargets.TargetsExact | src/text-targets.js:30-32 | grid point (x, y) of the canvas is a target exactly when byte (y * width + x) * 4 + 3 exceeds 128 |
| TextTargets.TransparentNoTargets | src/text-targets.js:31-32 | a buffer whose alpha bytes are all at most 128 (a cleared canvas) yields no targets |
| Gesture.Read | src/gesture.js:13-25 | a finger is up when its tip is strictly above its knuckle; the thumb is up when its tip is strictly above the index knuckle |
| Gesture.CountUp | src/gesture.js:27 | the count of raised fingers is zero exactly when none is up and the full length exactly when all are up |
| Gesture.Classify | src/gesture.js:8-51 | no landmarks give null; LIKE/POWER exactly when no finger is up (thumb up or not); FLOW exactly when all four are up; PEACE exactly for index and middle alone; LOVE/ROCK exactly for index and pinky alone (thumb up or not) |
| Gesture.UnknownPose | src/gesture.js:29-50 | a present hand gets null exactly when its finger pattern is none of the five above |
| Gesture.DependsOnKeyHeights | src/gesture.js:13-25 | the label depends only on the y coordinates of landmarks 4, 5, 8, 9, 12, 13, 16, 17 and 20 |
| Particles.SpeedSquared | src/particles.js:6-9 | a unit heading times a speed s gives a velocity whose squared length is s squared, in [0.25, 6.25) |
| Particles.NewParticle | src/particles.js:2-18 | a new particle sits where it is put, carries the given hue, is at full life and untargeted, moves at a speed in [0.5, 2.5), and has decay in [0.01, 0.03) and size in [1, 4) |
| Particles.Step | src/particles.js:20-52 | one particle step keeps the target, decay, size and hue and moves the particle by its new velocity; a targeted particle is held at life 1.0 and, while more than 1 from its target, pulled by a damped spring; an untargeted one slows by friction 0.95 and loses exactly its decay |
| Particles.Dead | src/particles.js:137 | a particle is removed when its life is at most 0 and it has no target |
| Particles.Evolve | src/particles.js:131-141 | the pool after `update`: every particle stepped, the dead ones dropped, the rest in order |
| Particles.StepLife | src/particles.js:20-52 | a step keeps the target; a targeted particle's life is pinned to 1.0 so it never dies; an untargeted one's life drops by exactly its decay, so by at least 0.01 and less than 0.03; well-formedness is kept |
| Particles.UpdateStep | src/particles.js:132-140 | one turn of the backward loop at index i reads the original particle and, stepping it and splicing it out if dead, extends the processed suffix by one |
| Particles.SurvivorsFacts | src/particles.js:137-139 | the surviving indices are exactly those whose particle is not dead after its step, once each, increasing |
| Particles.EvolveKeepsSurvivors | src/particles.js:131-141 | after `update` the pool is the stepped survivors in their original relative order |
| Particles.EvolveKeepsTargets | src/particles.js:131-141 | `update` never removes a targeted particle nor changes a target: the pool's targets, in order, are unchanged |
| Particles.EvolveWellFormed | src/particles.js:131-141 | after `update` every particle is still well formed and every targeted one is at full life |
| Particles.FlowKeepsHeldParticles | src/particles.js:106-111 | switching to FLOW and updating once removes none of the particles held on a target at full life, as `update` leaves every targeted particle: each is among the survivors, stepped free |
| Particles.GrowShape | src/particles.js:90-92 | growing keeps every old particle in its slot and appends new particles, each at a random canvas position with the current hue, until the pool holds n |
| Particles.TargetListPrefix | src/particles.js:95-104 | a pool targeted slot by slot at a list, and untargeted beyond it, has exactly that list as its targets |
| Particles.AssignShape | src/particles.js:95-104 | slot i is targeted exactly when i is below the target count, at the i-th shuffled target and with hue (hueCycle + i) % 360 degrees; the other slots keep their hue; nothing else changes |
| Particles.TextModeShape | src/particles.js:79-104 | after `setMode('TEXT', pts)` the pool holds at least the old pool and at least pts; old particles keep slot, position, velocity, life, decay and size; slot i is targeted exactly when i < \|pts\|, with hue (hueCycle + i) % 360; the pool's targets are a permutation of pts |
| Particles.FlowModeShape | src/particles.js:106-111 | `setMode('FLOW')` keeps the pool's length and order, clears every target and changes nothing else |
| Particles.Samples | src/particles.js:120-121 | the stride-4 loop visits ceil(n / 4) motion points |
| Particles.SampleStep | src/particles.js:121 | the stride-4 index stays within the visited samples |
| Particles.SpawnsFacts | src/particles.js:120-126 | below index i, one particle is spawned per visited motion point (index a multiple of 4) whose draw exceeds 0.9, placed there with the current hue; at most one per visited point |
| Particles.SpawnsShape | src/particles.js:115-129 | `addParticles` appends at most ceil(n / 4) particles, each at a motion point of index divisible by 4, with the pre-call hue, full life and no target; each visited point whose draw hits yields one; all are well formed |
| Particles.ParticleSystem.constructor | src/particles.js:63-69 | the engine starts with the given size, an empty pool, hue 0 and no target list |
| Particles.ParticleSystem.Resize | src/particles.js:71-76 | takes the new size and clears the target list, re-enabling spawning; the pool and hue are kept |
| Particles.ParticleSystem.SetMode | src/particles.js:78-113 | TEXT stores the target list, grows the pool to the shuffled target count and assigns the shuffled targets; any other mode clears the target list and every particle's target; size and hue are kept |
| Particles.ParticleSystem.GrowPool | src/particles.js:90-92 | the growing loop leaves exactly the grown pool |
| Particles.ParticleSystem.AssignTargets | src/particles.js:95-104 | the assigning loop leaves exactly the assigned pool; well-formedness is kept |
| Particles.ParticleSystem.ReleaseTargets | src/particles.js:108-111 | the releasing loop leaves exactly the released pool |
| Particles.ParticleSystem.AddParticles | src/particles.js:115-129 | with any target list, even an empty one, nothing changes; otherwise exactly the spawns are appended after the old pool and the hue advances by half a degree modulo 360 |
| Particles.ParticleSystem.Update | src/particles.js:131-141 | the in-place backward step-and-splice loop leaves exactly the evolved pool, still well formed; size, hue and target list are kept |
| App.DetectedGesture | src/main.js:64-68 | a label is detected only when a hand was tracked, and then it is the classification of the first hand |
| App.FirstHandOnly | src/main.js:66-67 | further tracked hands do not change the detected label |
| App.Call | src/main.js:71-82 | a frame makes a `setMode` call exactly when the detected label differs from the stored one, and the call shows the detected label (TEXT for a label, FLOW for none) |
| App.Calls | src/main.js:71-83 | the calls made over consecutive frames, one per change of label |
| App.CallsChange | src/main.js:71-83 | over a run of frames each `setMode` call changes what is shown: the first differs from the stored label, each differs from the previous, and the last shows the final stored label; at most one call per frame; none exactly when the label never changes |
| App.RepeatMakesNoCall | src/main.js:71 | a label repeated in the next frame makes no further call |
| App.PeaceThenRelease | src/main.js:71-82 | no hand, PEACE, PEACE, no hand make exactly a TEXT call for PEACE and then a FLOW call |
| App.ModeController.constructor | src/main.js:14-17 | no label is stored at start |
| App.ModeController.Transition | src/main.js:70-83 | the detected label is always stored; on no change the engine is untouched; a lost label switches it to FLOW; a new label switches it to TEXT with the sampled targets of that label's raster, shuffled |
| App.Scale | src/main.js:96-97 | the scale factor maps the webcam side exactly onto the canvas side |
| App.Mirror | src/main.js:104-107 | one motion point mirrored horizontally across the webcam width and scaled to the canvas |
| App.MapMotion | src/main.js:104-107 | one mapped point per motion point, in the same order, each mirrored horizontally and scaled to the canvas |
| App.ScaledBelow | src/main.js:96-97 | scaling a length within a webcam side onto the canvas keeps it within the canvas side |
| App.MirrorOnCanvas | src/main.js:104-107 | a point of the webcam frame lands on the canvas: x in [0, C], y in [0, D) |
| App.MappedOnCanvas | src/main.js:104-107 | every mapped point of in-frame motion lies on the canvas |
| App.MirrorSwapsSides | src/main.js:105 | mirroring swaps left and right on the canvas |
| App.MotionOnCanvas | src/main.js:93-107 | what the detector for a W by H webcam reports lands, once mapped, on the C by D canvas |
| Types.ToPoints | src/main.js:77-78 | the sampled targets are handed on one by one, with the same coordinates, in order |

## Left out

- Drawing is left out: `Particle.draw`, `ParticleSystem.draw`, compositing, the trail rectangle and `hsla` strings. There is nothing to prove about pixels on screen.
- Canvas calls are left out: `drawImage` downsampling in `detect`, and `clearRect`, `font`, `fillText` and `getImageData` in `generateTargets`. The model takes the RGBA buffers they produce as arguments. The font size `min(w, h) * 0.25` is therefore not modelled.
- The camera wrapper and the hand-tracker wrapper (`src/webcam.js`, `src/hands.js`) are not part of this model. Neither are the rest of `main` (DOM lookups, `await`, `requestAnimationFrame`, the resize listener, `console` and `alert`).
- Double-precision rounding is not modelled: reals stand for doubles. `x / 0.1` is taken as exactly `x * 10` and `Math.floor(width * 0.1)` as exactly `width / 10`.
- The random angle of a new particle is abstracted: the model takes any unit vector in place of `(cos a, sin a)`, so the uniform distribution of the angle is not captured.
- The distribution of randomness is not modelled. The comparator shuffle is only known to return some permutation, and its bias is not measured; spawning chance is modelled only as "the draw exceeds 0.9".
- Concurrency is not modelled. The loop runs one frame at a time, and late hand-tracker results are not modelled.
- Gesture.Classify: requires a present hand to have at least 21 landmarks. With fewer, the source reads `.y` of `undefined` and throws, and that failure is not modelled.
- App.DetectedGesture: requires tracked hands to be complete (21 landmarks) for the same reason.
- Motion.MotionDetector.Detect: for a webcam under 10 pixels in an axis the buffer has no pixels, and the model then reports no motion on every call. The source's `getImageData` on a zero-sized area throws instead, which stops the main loop; that failure is not modelled.
- TextTargets.TextTargetGen.GenerateTargets: for a canvas of zero width or height the model returns no targets. The source's `getImageData` throws there instead; that failure is not modelled.
- Particles.FlowKeepsHeldParticles: assumes the held particles are at full life, which `update` guarantees (`Particles.EvolveWellFormed`). A particle targeted by `setMode` and released again before any update keeps its old life and may die in the next update.
- App.Scale: requires a positive webcam size. For a zero size the source divides by zero and gets `Infinity` or `NaN`.
- Particles.ParticleSystem.SetMode: takes the shuffled target list as its argument rather than shuffling inside. The caller, `App.ModeController.Transition`, passes `shuffle(pts)` for an arbitrary permutation `shuffle`.
- Particles.ParticleSystem.SetMode: the assigning loop is the helper method `AssignTargets`, and the growing and releasing loops are the helpers `GrowPool` and `ReleaseTargets`. All three run the source's loops.
- Particles.StepLife: states the life and target parts of a step, not the spring numerics. `Particles.Step` computes those exactly over reals.
- The particle fields `x`, `y`, `vx` and `vy` carry no invariant. The spring and friction dynamics are modelled but nothing is proved about convergence.
- `Particles.NewParticle` fixes `hue` as a natural number of half-degrees. Real-valued hues other than multiples of 0.5 degrees never arise in the source.
- Reading the text buffer outside its bounds returns `undefined` in JavaScript. `TextTargets.Inked` treats that as not inked. With a buffer of the canvas size the scan never reads outside it.
