# earth.js core in Dafny

This project models the sequential core of the "earth" wind visualisation script, `public/libs/earth/1.0.0/earth.js`:

- the gesture interpreter, which turns d3's zoomstart/zoom/zoomend events into moveStart, move, click and debounced moveEnd events, and which ignores gestures until the globe is injected;
- the mask, a flat RGBA byte buffer of the visible globe;
- the vector field: lookup with rounding, its two sentinels, release, and randomize's bounded rejection loop;
- interpolateField's 2x2 block sweep, which fills the columns table and paints the mask, in batches that yield on a time budget and stop on cancellation;
- the particle frame: evolve, which ages, moves and buckets particles by intensity, and the position update of draw;
- the progress bar string and the unit toggle.

Files and modules:

| file | module | what |
|---|---|---|
| wrappers.dfy | Wrappers | `Option` |
| projection.dfy | Projections | the geographic coordinate shared by the sweep and the input controller |
| mask.dfy | Masks | the RGBA buffer, its pure model `SetPixel`, and the class `Mask` over an `array<Byte>` |
| field.dfy | Fields | vectors and their sentinels, lookup, randomize, and the class `Field` |
| interpolation.dfy | Interpolation | the sweep as pure functions, lemmas relating them to a mask-independent sweep, and the class `Interpolator` |
| gestures.dfy | Gestures | the event step function `Step`, trace lemmas, and the class `InputController` |
| particles.dfy | Particles | evolve, buckets and draw as functions and lemmas, and the class `Animator` |
| progress.dfy | Progress | report.progress |
| unit_toggle.dfy | UnitToggles | createUnitToggle |

The code is modelled where it is imperative: the handlers, `mask.set`, the column and batch loops, randomize's loop, and evolve and draw all become methods on classes. Each method's `ensures` ties its new state to a pure function of the old state, and the lemmas prove the code's promises about those functions.

Collaborators are parameters:

- `projection.invert`, the grid's `interpolate`, `distort` and `scale.gradient` are the functions of a `Sampler`;
- `colorStyles.indexFor` is a function into the bucket range;
- `globe.projection.invert` for a click is a function `invert`, carried by the zoomend event, so each click is inverted by the projection as it is at that moment;
- each random choice is a `draw: nat -> Point` giving the k-th candidate point;
- the time budget is `overBudget(k)`, which says whether the clock has run out after k columns of a batch;
- the debounce timer is an event, `DebounceFires`, that the environment may deliver at any time.

Two behaviours of the code worth stating:

- A batch that finds cancellation requested still resolves, with the columns it has (earth.js:534, 547). `BatchInterpolate` states this.
- A batch that yields after its last column reports progress of 1 or more, and that hides the bar (earth.js:539-541, 69). `SweepProgress` states this.

## Model

| member | source | states |
|---|---|---|
| Masks.SetPixel | public/libs/earth/1.0.0/earth.js:399-404 | writing pixel (x, y) changes exactly bytes (y*width+x)*4 .. +3, to the four channels of the colour, and leaves every other byte as it was; a write outside the buffer is dropped |
| Masks.Visible | public/libs/earth/1.0.0/earth.js:395-398 | isVisible(x, y) holds exactly when pixel (x, y) lies in the buffer and its alpha byte is non-zero (stated by `VisibleIsAlpha`) |
| Masks.VisibleIsAlpha | public/libs/earth/1.0.0/earth.js:395-398 | isVisible(x, y) holds exactly when pixel (x, y) lies in the buffer and its alpha byte is non-zero |
| Masks.Mask.Set | public/libs/earth/1.0.0/earth.js:399-406 | the in-place write leaves the buffer equal to `SetPixel` of the old buffer |
| Masks.Mask.IsVisible | public/libs/earth/1.0.0/earth.js:395-398 | the method reads byte (y*width+x)*4+3 of the array and is true exactly when that byte exists and is non-zero |
| Masks.SetThenVisible | public/libs/earth/1.0.0/earth.js:395-404 | after set(x, y, rgba), isVisible(x, y) holds exactly when the alpha is non-zero, and the pixel reads back as rgba |
| Masks.SetPixelElsewhere | public/libs/earth/1.0.0/earth.js:395-404 | a write to one pixel changes neither the visibility nor the colour of any other pixel, when both pixels' columns lie inside the row width |
| Masks.SetOutsideBuffer | public/libs/earth/1.0.0/earth.js:399-404 | a write to a pixel outside the buffer leaves the buffer unchanged |
| Masks.PixelNumberInjective | public/libs/earth/1.0.0/earth.js:396-400 | within a row width, two pixels with the same index y*width+x are the same pixel |
| Masks.Mask.constructor | public/libs/earth/1.0.0/earth.js:390-394 | the mask holds the rendered image of width*height*4 bytes |
| Fields.Round | public/libs/earth/1.0.0/earth.js:417-418 | Math.round: the integer r with r <= x + 0.5 < r + 1 |
| Fields.Lookup | public/libs/earth/1.0.0/earth.js:416-419 | field(x, y) is the entry at the rounded column and row, and the Null sentinel exactly when that column or entry is missing |
| Fields.Field.Sample | public/libs/earth/1.0.0/earth.js:416-419 | field(x, y) on the object returns Null exactly when the rounded column or row is missing, and the stored entry otherwise |
| Fields.IsDefined | public/libs/earth/1.0.0/earth.js:424-426 | isDefined holds exactly when the rounded column and row exist and hold a defined vector |
| Fields.IsInsideBoundary | public/libs/earth/1.0.0/earth.js:433-435 | isInsideBoundary holds exactly when the rounded column and row exist, so a Hole is inside and Null is outside |
| Fields.Sentinels | public/libs/earth/1.0.0/earth.js:424-435 | isDefined is false for Hole and Null; isInsideBoundary is false only for Null; a Hole is exactly a point inside the boundary that is not defined |
| Fields.LookupByPixel | public/libs/earth/1.0.0/earth.js:416-419 | every point in a pixel's rounding cell looks up that pixel's entry |
| Fields.Accepted | public/libs/earth/1.0.0/earth.js:446-449 | the do-while loop stops at the first defined candidate, or at candidate 30 if none of the first 30 is defined |
| Fields.RandomizedIsFirstDefined | public/libs/earth/1.0.0/earth.js:443-453 | randomize puts the particle within the bounds at a defined point, unless all 30 earlier candidates were undefined |
| Fields.Field.Randomize | public/libs/earth/1.0.0/earth.js:443-453 | the loop makes at most 31 draws and returns the point `Randomized` chooses: the first defined candidate, or the last one drawn |
| Fields.Field.Release | public/libs/earth/1.0.0/earth.js:439-441 | after release the columns are empty and every lookup returns Null |
| Fields.Field.constructor | public/libs/earth/1.0.0/earth.js:410-411 | the field holds the given columns and bounds |
| Interpolation.SamplePoint | public/libs/earth/1.0.0/earth.js:502-523 | a point off the globe is a Hole painted transparent; a point is Defined exactly when it inverts and the grid has a vector there, and then its u and v are the distorted vector and its magnitude the grid's; the colour comes from the distinct overlay's scalar if there is one, otherwise from the magnitude, and is transparent without a scalar |
| Interpolation.PaintBlockEffect | public/libs/earth/1.0.0/earth.js:524 | the four set calls give the 2x2 block the colour and leave every other pixel unchanged |
| Interpolation.RowStep | public/libs/earth/1.0.0/earth.js:501-525 | one row of the column loop; its effect is stated by `RowStepEffect` |
| Interpolation.RowStepEffect | public/libs/earth/1.0.0/earth.js:501-525 | an invisible point changes nothing; a visible one adds entries y and y+1 holding the point's sample, keeps every other entry, and paints the point's block |
| Interpolation.ColumnRows | public/libs/earth/1.0.0/earth.js:498-526 | the rows of a column leave the mask with its length; their combined effect is stated by `ColumnRowsPainted` |
| Interpolation.NextColumn | public/libs/earth/1.0.0/earth.js:536-538 | one column followed by x += 2; `SweepStep` proves it keeps the sweep invariant |
| Interpolation.SweepColumns | public/libs/earth/1.0.0/earth.js:535-538 | n columns from a given state; `SweepIsClean` and `SweepCompose` state what they compute |
| Interpolation.ColumnRowsPainted | public/libs/earth/1.0.0/earth.js:498-526 | after n rows, the column has entries for rows y and y+1 of exactly the visible sampled rows y, each holding that point's sample, and exactly those blocks are painted with the point's colour, even though each row reads the mask the earlier rows wrote |
| Interpolation.ColumnIsClean | public/libs/earth/1.0.0/earth.js:498-527 | a whole column equals the column computed from the mask as it was before the column began |
| Interpolation.SweepIsClean | public/libs/earth/1.0.0/earth.js:498-545 | after n columns, columns[x] and columns[x+1] exist for exactly the n sampled x, each the clean column of x, and the mask holds each visible sampled point's colour in its block, all other pixels unchanged; this holds when the bounds lie inside the mask's width, so every sampled column is a column of the mask |
| Interpolation.SweepStep | public/libs/earth/1.0.0/earth.js:536-538 | one more column keeps the sweep invariant of `SweepIsClean` |
| Interpolation.UnsweptVisible | public/libs/earth/1.0.0/earth.js:501-524 | earlier columns never paint over the column the sweep samples next |
| Interpolation.SweepCompose | public/libs/earth/1.0.0/earth.js:492-538 | m columns and then n more are the same as m+n columns, so batches resume where they stopped |
| Interpolation.Resume | public/libs/earth/1.0.0/earth.js:492-538 | a batch that starts after `done` columns and processes p more leaves the state of done+p columns from the start |
| Interpolation.Finished | public/libs/earth/1.0.0/earth.js:536 | when x reaches xMax, every sampled column has been processed |
| Interpolation.Interpolator.constructor | public/libs/earth/1.0.0/earth.js:490-492 | the sweep starts with no columns at x = bounds.x |
| Interpolation.Interpolator.InterpolateColumn | public/libs/earth/1.0.0/earth.js:498-528 | the y loop leaves the mask and column that `ColumnRows` gives for all sampled rows, and stores that column as columns[x] and columns[x+1] |
| Interpolation.Interpolator.VisitRow | public/libs/earth/1.0.0/earth.js:501-525 | one row: a visible point gets two column entries and a painted block; an invisible one changes nothing |
| Interpolation.Interpolator.SetBlock | public/libs/earth/1.0.0/earth.js:524 | the four chained set calls leave the mask equal to `PaintBlock` of the old mask |
| Interpolation.Interpolator.NextColumnStep | public/libs/earth/1.0.0/earth.js:537-538 | interpolateColumn(x) followed by x += 2 is one step of the sweep |
| Interpolation.Interpolator.SweepUntilBudget | public/libs/earth/1.0.0/earth.js:535-545 | the while loop processes consecutive columns below xMax; it yields exactly when the budget runs out after a column, and otherwise runs until x >= xMax |
| Interpolation.Interpolator.BatchInterpolate | public/libs/earth/1.0.0/earth.js:532-547 | with cancellation requested, no column is processed and the partial columns are resolved; otherwise the batch either yields with progress (x-bounds.x)/(xMax-bounds.x) or resolves the columns of the complete sweep, every sampled x processed once and in order across batches |
| Gestures.DistanceSquared | public/libs/earth/1.0.0/earth.js:142-145 | the squared distance is zero exactly when the two points coincide |
| Gestures.NewOp | public/libs/earth/1.0.0/earth.js:125-132 | a new operation is a click at the given mouse and scale, and not yet moving |
| Gestures.Moved | public/libs/earth/1.0.0/earth.js:148-157 | after the click-or-spurious test the operation is live, keeps its start, is a zoom exactly when the scale differs from the start scale or it already was one, emits move, and moves the manipulator with the mouse, or with null for a zoom |
| Gestures.Step | public/libs/earth/1.0.0/earth.js:118-213 | one event: zoomend always ends the operation, the debounce timer always clears the pending end, only zoom emits move, only the globe injection sets the globe, and before a globe exists every gesture and timer event changes nothing |
| Gestures.SlackZoomIsSilent | public/libs/earth/1.0.0/earth.js:141-147 | a click or spurious operation that stays within MIN_MOVE at the start scale is only reclassified (click if the mouse moved, spurious if not); nothing is emitted and the manipulator is not called |
| Gestures.ZoomEventEmits | public/libs/earth/1.0.0/earth.js:138-158 | moveStart is emitted exactly on the change from click or spurious to drag or zoom; a zoom during a live drag or zoom emits exactly one move; a zoom that leaves the operation not live emits nothing |
| Gestures.ScaleChangeIsZoom | public/libs/earth/1.0.0/earth.js:151-156 | a scale different from the start scale makes the operation a zoom, and the manipulator moves with a null mouse |
| Gestures.ZoomEndOutcome | public/libs/earth/1.0.0/earth.js:159-168 | zoomend calls end on the manipulator and clears op; a click emits click with the start mouse and its inverted coordinates, a spurious operation emits nothing, a drag or zoom schedules signalEnd |
| Gestures.DebounceOutcome | public/libs/earth/1.0.0/earth.js:170-175 | the debounced signalEnd emits moveEnd exactly when it was scheduled and no drag or zoom is live when it fires |
| Gestures.LiveRun | public/libs/earth/1.0.0/earth.js:138-158 | during a live drag or zoom, further zoomstart and zoom events keep the operation's start, emit only moves, and a zoom stays a zoom whose manipulator moves carry no mouse position |
| Gestures.OneMoveStartPerOp | public/libs/earth/1.0.0/earth.js:141-150 | within one operation, moveStart is emitted at most once, and never once the operation is live |
| Gestures.ClickGesture | public/libs/earth/1.0.0/earth.js:134-168 | zoomstart, moves within the slack, then zoomend: the manipulator is begun and ended, the state returns to what it was, and click is emitted unless the last move returned exactly to the start |
| Gestures.SlackMoves | public/libs/earth/1.0.0/earth.js:141-147 | a run of moves within the slack only reclassifies the operation by its last move |
| Gestures.StepKeepsBalance | public/libs/earth/1.0.0/earth.js:134-175 | one gesture or timer event keeps the emitted log balanced, and a pending moveEnd or a live move always has an open moveStart |
| Gestures.GestureTracesBalanced | public/libs/earth/1.0.0/earth.js:115-175 | any sequence of gesture and timer events extends a balanced log to a balanced log |
| Gestures.BeforeGlobe | public/libs/earth/1.0.0/earth.js:118-137 | before the globe is injected, gesture and timer events have no effect on what follows |
| Gestures.IdleTracesBalanced | public/libs/earth/1.0.0/earth.js:115-175 | from the idle state, with the globe injected by the call at earth.js:370 and any gestures before and after it, every move and every moveEnd comes after a moveStart that no moveEnd has closed yet |
| Gestures.GlobeThenGestures | public/libs/earth/1.0.0/earth.js:207-213 | injecting the globe emits moveStart then moveEnd, and gestures after it keep the log balanced |
| Gestures.SecondDragInsideWait | public/libs/earth/1.0.0/earth.js:134-175 | two drags whose second starts before the first's debounced signalEnd fires emit moveStart, move, moveStart, move, moveEnd: two moveStarts and one moveEnd |
| Gestures.Run | public/libs/earth/1.0.0/earth.js:134-213 | the events of a sequence handled in order by `Step`; `GestureTracesBalanced`, `IdleTracesBalanced`, `BeforeGlobe` and `ClickGesture` state what sequences of events do |
| Gestures.InputController.constructor | public/libs/earth/1.0.0/earth.js:118-120 | op and globe start null, nothing scheduled, nothing emitted |
| Gestures.InputController.OnZoomStart | public/libs/earth/1.0.0/earth.js:125-137 | the handler does what `Step` does for zoomstart: a new operation at the current mouse and scale if none is live and a globe exists |
| Gestures.InputController.OnZoom | public/libs/earth/1.0.0/earth.js:138-158 | the handler's in-place updates of op and op.type, its calls and its emitted events are those of `Step` for zoom |
| Gestures.InputController.OnZoomEnd | public/libs/earth/1.0.0/earth.js:159-168 | the handler does what `Step` does for zoomend, inverting a click's start mouse with the projection's invert at the time of the zoomend |
| Gestures.InputController.OnDebounce | public/libs/earth/1.0.0/earth.js:170-175 | the debounced signalEnd does what `Step` does when the timer fires |
| Gestures.InputController.SetGlobe | public/libs/earth/1.0.0/earth.js:207-213 | dispatch.globe(g) stores the globe and reorients, as `Step` does for the injection |
| Gestures.InputController.Reorient | public/libs/earth/1.0.0/earth.js:193-205 | reorient emits moveStart then moveEnd when a globe is present and the change did not come from a moveEnd save, and nothing otherwise |
| Particles.AgeRule | public/libs/earth/1.0.0/earth.js:582-607 | evolve sets the age to MAX_PARTICLE_AGE for an escaped particle, to 0 for an over-age particle and keeps it otherwise, then adds exactly one; a non-negative age ends in 1 .. MAX_PARTICLE_AGE + 1 |
| Particles.Prepared | public/libs/earth/1.0.0/earth.js:582-584 | an over-age particle moves to the point `Randomized` chooses (the first defined candidate, by `RandomizedIsFirstDefined`), with age 0 and its trail end kept; any other particle is unchanged |
| Particles.Advanced | public/libs/earth/1.0.0/earth.js:585-607 | the age becomes MAX_PARTICLE_AGE + 1 for an undefined vector and goes up by one otherwise; a bucketed particle had a defined vector and target, keeps x and y and goes to the bucket of its magnitude; a defined particle not bucketed moved to an undefined target |
| Particles.Evolved | public/libs/earth/1.0.0/earth.js:580-607 | a non-negative age ends the step in 1 .. MAX_PARTICLE_AGE + 1 |
| Particles.Bucket | public/libs/earth/1.0.0/earth.js:580-599 | a bucket lists at most as many indices as there are particles, each a valid particle index |
| Particles.EscapedRegenerates | public/libs/earth/1.0.0/earth.js:582-607 | an escaped particle ends the frame at MAX_PARTICLE_AGE + 1 and is randomized with age 0 in the next frame |
| Particles.TrailRule | public/libs/earth/1.0.0/earth.js:585-606 | a particle is bucketed exactly when its vector is defined and so is its target; a bucketed particle keeps x and y and gets xt and yt set to the target, in the bucket of its magnitude; one with an undefined target moves to it and keeps its trail; an escaped one stays put |
| Particles.AgesStayInRange | public/libs/earth/1.0.0/earth.js:576-607 | ages that start in 0 .. MAX_PARTICLE_AGE + 1 stay in 1 .. MAX_PARTICLE_AGE + 1 after evolve |
| Particles.BucketMembers | public/libs/earth/1.0.0/earth.js:580-599 | a bucket holds particle i exactly when evolve routed i to it, in particle order with no repeats |
| Particles.BucketsDisjoint | public/libs/earth/1.0.0/earth.js:599 | no particle is in two buckets |
| Particles.BucketSizes | public/libs/earth/1.0.0/earth.js:580-608 | the bucket sizes add up to the number of particles drawn, which is at most the particle count |
| Particles.BucketedExactly | public/libs/earth/1.0.0/earth.js:599-632 | after evolve, particle j is in some bucket exactly when evolve drew it, and buckets hold only particle indices |
| Particles.Animator.constructor | public/libs/earth/1.0.0/earth.js:566-577 | one empty bucket per colour, and each particle is placed by randomize with its drawn age |
| Particles.Animator.Evolve | public/libs/earth/1.0.0/earth.js:579-609 | after clearing the buckets and visiting particles in order, the particles are `EvolvedAll` of the old ones, and bucket k holds, in order, the indices evolve routed to k |
| Particles.Animator.EvolveOne | public/libs/earth/1.0.0/earth.js:582-607 | one particle's step equals `Evolved`, and its bucket is a valid index |
| Particles.Animator.Advance | public/libs/earth/1.0.0/earth.js:585-607 | the step after reseeding equals `Advanced`, and its bucket is a valid index |
| Particles.Animator.Place | public/libs/earth/1.0.0/earth.js:599-607 | particle i takes its new state and, if drawn, its index is appended to its bucket; nothing else changes |
| Particles.Animator.Draw | public/libs/earth/1.0.0/earth.js:623-632 | every particle in some bucket moves to the end of its trail; every other particle is unchanged |
| Particles.Animator.Frame | public/libs/earth/1.0.0/earth.js:638-646 | if cancelled, the field is released and the particles and buckets untouched; otherwise evolve then draw leaves the particles as `AfterFrame`: drawn particles at their trail ends, the others as evolve left them, and bucket k holds the indices evolve routed to k |
| Progress.Ceil | public/libs/earth/1.0.0/earth.js:70 | Math.ceil: the integer r with r - 1 < x <= r |
| Progress.ShowProgress | public/libs/earth/1.0.0/earth.js:68-75 | the bar is visible exactly for amounts in [0, 1); a visible bar has 22 glyphs, glyph k filled exactly when k < amount * 22; a hidden bar has empty text |
| Progress.FilledGlyphs | public/libs/earth/1.0.0/earth.js:41-71 | a visible bar holds exactly ceil(amount * 22) filled glyphs |
| Progress.ProgressMonotone | public/libs/earth/1.0.0/earth.js:69-71 | more progress never empties a filled glyph |
| Progress.SweepProgress | public/libs/earth/1.0.0/earth.js:69-541 | the progress a yielding batch reports keeps the bar visible exactly while x < xMax, with at least one filled glyph |
| UnitToggles.JsRem | public/libs/earth/1.0.0/earth.js:762-768 | JavaScript's `%`: the result lies in (-size, size), differs from the dividend by a multiple of size and has the dividend's sign; for a non-negative dividend it is the remainder in [0, size), for a dividend in (-size, 0] the dividend itself |
| UnitToggles.Rotated | public/libs/earth/1.0.0/earth.js:767-769 | n calls of next keep an index in (-size, size) in that range, and a non-negative index non-negative |
| UnitToggles.RotatedIsSum | public/libs/earth/1.0.0/earth.js:767-769 | from a non-negative index i, n calls of next give (i + n) mod size; the negative case is `NegativeCountsUp`'s |
| UnitToggles.FullCycle | public/libs/earth/1.0.0/earth.js:767-769 | size calls of next come back to the starting units |
| UnitToggles.NegativeCountsUp | public/libs/earth/1.0.0/earth.js:762-769 | a negative index from a negative stored attribute counts up by one per call of next until it reaches 0 |
| UnitToggles.UnitToggle.constructor | public/libs/earth/1.0.0/earth.js:761-762 | the index is the stored attribute, read as 0 when missing, with JavaScript's `%` by the number of units; a missing or non-negative attribute gives a defined value |
| UnitToggles.UnitToggle.Value | public/libs/earth/1.0.0/earth.js:764-766 | value() is units[index], undefined exactly when the index is negative |
| UnitToggles.UnitToggle.Next | public/libs/earth/1.0.0/earth.js:767-769 | next sets the index to (index + 1) % size with JavaScript's `%`, and stores it on the element |

## Left out

- Canvas drawing: the strokes, fading and compositing of draw, and the overlay and grid-point drawing. `Draw` models only the position update of draw.
- Floating-point and projection geometry: `distort`, `projection.invert`, `scale.gradient`, `velocityScale` and the grid interpolation are opaque parameters. Reals stand in for JavaScript doubles. NaN, infinities and rounding error are not modelled.
- Timing and scheduling: `setTimeout`, `Date.now` and `_.debounce` are not modelled. The budget check is the parameter `overBudget`. The debounce timer is the event `DebounceFires`, which may arrive at any point; the model does not enforce the 1000 ms quiet period.
- Randomness: `_.random` is the parameter `draw` (the k-th candidate point), and each particle's initial age is a parameter `ages(i)`.
- Promise, agent and error plumbing: `d.resolve`/`d.reject`, the try/catch blocks, `report.error`, the `report.progress(1)` after resolving, and animate's guard on a missing globe, field or grids.
- DOM, d3 and configuration wiring: `report.status`, the show-location handler, `configuration.save` of the orientation in signalEnd, and the globe and zoom updates inside reorient.
- Gestures.Step: a zoomend with no live operation, and a zoomstart or zoom before the globe is injected, are modelled as doing nothing. The handler would throw on `op.manipulator` or `globe.manipulator` before changing anything. A globe injected a second time does not change an operation already under way. The rotation of the projection by the manipulator is not modelled.
- Gestures.InputController.OnZoomEnd: the projection's invert is a parameter of the event. How drags and reorients change the projection is not modelled, so the model does not relate one click's invert to the next.
- Gestures.GestureTracesBalanced: covers gesture and timer events only, not the globe injection or reorient. A reorient at any point outside Idle can break balance: while a moveEnd is pending, its moveEnd is followed by the timer's second moveEnd; during a live drag or zoom, its moveStart and moveEnd close the open moveStart, and the next zoom then emits a move with no open moveStart.
- Gestures.IdleTracesBalanced: the proven property is at most one moveEnd per run of moveStarts, not one moveEnd per moveStart. The code emits a second moveStart when a second drag begins before the first drag's debounced moveEnd fires (`SecondDragInsideWait`).
- Particles.Spawned: a new particle's trail end (xt, yt) is set to its position. JavaScript leaves them undefined, but evolve always sets them before draw reads them.
- Particles: buckets hold particle indices rather than references to the particle objects. The page's particle count and bucket count (from the bounds and the colour scale) are parameters.
- UnitToggles.UnitToggle.constructor: requires at least one unit. A stored attribute that is not an integer (a fraction, or text that reads as NaN) is not modelled.
- Interpolation.SweepIsClean: assumes the bounds lie inside the mask's width (0 <= bounds.x and bounds.xMax < width): every sampled column is a column of the mask. The model of the sweep itself has no such requirement.
