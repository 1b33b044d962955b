# Embassy blobs: the soft-blob cluster, modelled in Dafny

The widget shows four soft blobs, each a ring of small physics bodies tied
by springs, that float inside a ring-shaped dish. When an embassy is
highlighted, one blob swells and shows the embassy's image, and the
others shrink toward half their rest size. Moving the pointer over a blob
re-deals the blobs' target sizes. Activating the widget blows up the
current blob and announces the embassy whose position in the list equals
that blob's slot number, which in general is not the highlighted one.

The model covers the sequential bookkeeping around the physics:

- `Cluster.MatterApp` (cluster.dfy) is the controller of
  `src/js/matter/index.js`. It holds these fields and updates them in
  place:
  - the readiness gate `blobsInitialized` / `initialized`;
  - the preload count;
  - the selection state `currentBlob` / `overblob` / `isRunning`;
  - the blobs' target scales.
- `ClusterSteps` (cluster_steps.dfy) states the same steps on values:
  - the gate tick;
  - the `highlight` embassy scan;
  - the `mousemove` pointer scan.

  Lemmas over these scans say what a whole call leaves behind.
- `Scales` (scales.dfy) covers three pieces:
  - the arithmetic of `scaleBlob`;
  - the splice-based re-ordering of the scale palette in
    `randomizeScales`, proved to be a permutation;
  - the rejection loop that draws a slot other than the current one.
- `Dishes.Dish` (dish.dfy) is the dish of `dish.js`, proved against a
  value-level step function `Step`. A radius change is pending while the
  ratio `targetRadius / radius` differs from 1 by more than 0.001. While
  one is pending, each `update` does three things:
  - it eases the radius a tenth of the way toward its target;
  - it drags the centre a tenth of the way toward its target;
  - it re-places every segment.

  Otherwise `update` only sets `targetRadius := radius`
  (`Dishes.StepSettles`).
- `Blobs.Blob` (blob.dfy) is the blob of `blob.js`:
  - its doubled spring ring: slot `2i` ties node `i` to `i+1` and slot
    `2i+1` ties it to `i+2`;
  - `grow` and `shrink`;
  - `getCenter`.
- `SvgRender` (svg.dfy) builds a blob's closed outline out of quadratic
  curves, with `pixelPerfect` rounding.
- `PointerHit` (hit.dfy) is the running-minimum hit test of the
  `mousemove` closure in `app.js`.
- `Geometry` (geometry.dfy) holds plane vectors and the sums and means
  used by both `getCenter` methods.

How the model treats what it cannot see:

- JavaScript numbers are modelled as `real`; NaN and Infinity are not
  modelled.
- Trigonometry, `Math.PI`, vector magnitude and normalisation are passed
  in as function parameters (`cos`, `sin`, `pi`, `magnitude`,
  `normalise`).
- Every use of `Math.random` is a choice the caller supplies:
  - a splice draw is a position among the entries still left;
  - a rejection loop gets a stream of rolls in `[0, 4)` in which two rolls
    differ.
- `index.js` calls blob and renderer methods that `src/js/matter/blob.js`
  and `src/js/matter/svg-render.js` do not define. The controller
  therefore sees each blob as a `BlobView(restScale, destScale, state)`
  and each renderer as a `RenderView(background, blownUp)`:
  - `scaleTo(s)` sets `destScale := s`;
  - `reset()` sets `destScale := restScale`;
  - `setBackgroundImage(i)` records the image;
  - `blowUp()` sets `blownUp`.
- The inputs a controller method takes:
  - `ImageLoaded` stands for each image's `load` event;
  - `isInside` answers arrive as a sequence of booleans;
  - the state each blob reaches in its own `update()` is a parameter of
    `Update`.
- The empty string stands for a falsy slug or image.

Where the model follows the code rather than the documented behaviour:

- `highlight` returns `true` for any non-empty slug once initialized, even
  when no embassy carries it (src/js/matter/index.js:276). Nothing then
  changes.
- `activate` reads `embassies[currentBlob]` (src/js/matter/index.js:290),
  but `currentBlob` is a blob slot (0..3), not an embassy position. The
  model returns `Threw` when that position does not exist:
  - the run has already stopped;
  - the renderer has already been blown up;
  - `destroy` has already run;
  - no event is dispatched.
- The preload counter only counts embassies that have an image
  (src/js/matter/index.js:91-103). The gate waits for
  `preloadedImages === embassies.length` (src/js/matter/index.js:335).
  So a single embassy without an image keeps the widget from ever
  initializing (`ClusterSteps.AllLoadedMeansEveryImage`). `Valid` records
  that an initialized controller has an image for every embassy.
- `dish.update` re-places each segment at
  `position + scale * (position - body)`
  (src/js/matter/dish.js:69-77). This is a point reflection through the
  new centre, and it is modelled as written
  (`Dishes.StepReflectsSegments`).
- `destroy` removes the resize and pointer listeners with capture flag
  `false` (src/js/matter/index.js:228-229), but `addEventListeners` added
  them with `true` (src/js/matter/index.js:178-179). The DOM removes only
  a registration with the same flag, so both listeners stay attached, and
  after `activate` the pointer still re-deals the target sizes. The
  controller's `Destroy` and `Activate` follow the code; see
  "## Findings".
- The outline starts at the unrounded midpoint of the first two nodes and
  ends at its rounding, so it closes only up to a tenth
  (`SvgRender.PathClosesUpToRounding`, `SvgRender.RoundingCanOpenPath`).

## Model

| member | source | states |
|---|---|---|
| `Cluster.MatterApp.constructor` | src/js/matter/index.js:11-52 | Together with `createDish` and `createBlobs` of `init`, it gives a valid controller: a dish of radius `dishSize` and an outer dish of `dishSize + 4`, each a ring of 24 segments about the origin. There are four blobs resting at and aiming for the palette scales, empty renderers, no current blob, `overblob = -1`, both gate flags false, a zero preload count, no events, and running, with both listeners attached in the capture phase. |
| `Cluster.FreshBlobs` | src/js/matter/index.js:149-175 | Blob `k` starts with rest and target scale equal to palette entry `k`. |
| `Cluster.MatterApp.ImageLoaded` | src/js/matter/index.js:97-99 | An image load raises the preload count by one and records that embassy, keeping the count equal to the number of distinct embassies with an image that have loaded. |
| `Cluster.MatterApp.Update` | src/js/matter/index.js:331-371 | The gate takes exactly one `GateTick` with `imagesReady = (preloadedImages == embassies.length)` and `settled` = every blob was in state 1 before its update. Every blob then moves to its new state with its scales kept. Both dishes take one `Dishes.Step`. The controller stays valid. |
| `Cluster.UpdateEach` | src/js/matter/index.js:352-355 | Every blob's `update()` applied in order: the result is `WithStates` of the blobs and the new states. |
| `Cluster.CheckAndUpdateEach` | src/js/matter/index.js:356-365 | The flag it returns is true exactly when every blob was in state 1 before its own update, and the blobs end in their new states. |
| `Cluster.WithStates` | src/js/matter/index.js:353-363 | A blob's `update()` changes only its state: rest and target scales are kept. |
| `ClusterSteps.GateTick` | src/js/matter/index.js:331-350 | After a tick, `initialized` holds exactly when it held before, or the blobs had settled on an earlier tick and the images are ready. `blobsInitialized` holds exactly when it held before or the blobs settled now. One 'initialized' event is appended exactly when the gate opens on this tick. |
| `ClusterSteps.GateRun` | src/js/matter/index.js:331-350 | Over any sequence of ticks neither flag is ever reset, and the events already dispatched stay a prefix. |
| `ClusterSteps.GateTickSound` | src/js/matter/index.js:331-365 | A tick keeps the gate sound: one 'initialized' event once initialized and none before, and never initialized before the blobs are. Neither flag is ever reset. `initialized` opens only on a tick where the blobs had settled earlier and the images are ready. Earlier events are kept as a prefix. |
| `ClusterSteps.GateRunSound` | src/js/matter/index.js:331-350 | Over any sequence of ticks the gate stays sound: at most one 'initialized' event is ever dispatched, and `initialized` is never reset. |
| `ClusterSteps.GateOpensAfterSettling` | src/js/matter/index.js:331-365 | From the start state, `blobsInitialized` is set only after a tick on which every blob had settled. `initialized` is set only on a later tick with the images ready, so never on the first tick. |
| `ClusterSteps.AllLoadedMeansEveryImage` | src/js/matter/index.js:91-103 | A preload count of distinct embassies with an image reaches the number of embassies only when every embassy has an image. |
| `ClusterSteps.WithImage` | src/js/matter/index.js:91-92 | The embassies whose image is preloaded are exactly those with a non-empty image. |
| `Cluster.MatterApp.ScaleBlob` | src/js/matter/index.js:421-434 | The targets become `ScaledTargets(old blobs, index, amount)`. Rest scales and states are kept, so the controller stays valid. |
| `Cluster.ScaleEach` | src/js/matter/index.js:424-433 | The `forEach` that computes `1 - (1 - 1 / relativeScale) / 2` for every other blob equals `ScaledTargets`. |
| `Scales.ScaledTargets` | src/js/matter/index.js:421-434 | Blob `index` aims for `amount`, and every other blob for `restScale * (1 + rest_index / amount) / 2`. Rest scales and states are kept. |
| `Scales.ScaleBlobAlgebra` | src/js/matter/index.js:428-430 | `r * (1 - (1 - 1 / (a / ri)) / 2) == r * (1 + ri / a) / 2` for non-zero `ri` and `a`. |
| `Scales.ScaledTargetsShrinkOthers` | src/js/matter/index.js:421-434 | When `amount` exceeds the scaled blob's positive rest scale, every other blob with a positive rest scale aims strictly between half and all of its rest scale. |
| `Scales.ScaledTargetsForget` | src/js/matter/index.js:424-433 | The outcome of `scaleBlob` depends only on rest scales and states: earlier targets are forgotten. |
| `Scales.Palette` | src/js/matter/index.js:21-23 | The palette has four entries, `dishSize * 0.6 * {1, 0.8, 0.7, 0.5} / 24`. |
| `Scales.HighlightAmount` | src/js/matter/index.js:268 | The highlight scale is 0.65 of a 24th of the dish size, so it is positive for a positive dish size. |
| `Scales.HighlightExceedsPalette` | src/js/matter/index.js:268 | For a positive dish size, the highlight scale `dishSize / 24 * 0.65` exceeds every palette entry, and every entry is positive. |
| `Cluster.MatterApp.SetBlobBackground` | src/js/matter/index.js:436-438 | Only renderer `index` changes, and it shows `image`. |
| `Cluster.MatterApp.Highlight` | src/js/matter/index.js:258-280 | The result is true exactly when the controller is initialized and the slug is non-empty. Then blobs, renderers and current slot are `HighlightScan` over all embassies; otherwise nothing changes. |
| `Cluster.MatterApp.HighlightEmbassy` | src/js/matter/index.js:262-273 | One embassy of the loop is `HighlightStep`. |
| `ClusterSteps.HighlightStep` | src/js/matter/index.js:262-273 | On a slug match the current slot becomes a drawn slot, its blob scaled up and its renderer showing the image. The result keeps four blobs and renderers, a slot in `[-1, 4)`, and the rest scales. |
| `ClusterSteps.HighlightScan` | src/js/matter/index.js:261-274 | The loop over the embassies keeps four blobs and renderers, a slot in `[-1, 4)`, and the rest scales. |
| `ClusterSteps.HighlightOutcome` | src/js/matter/index.js:258-280 | Without a matching embassy nothing changes. Otherwise the current slot lies in `[0, 4)` and is the first roll of the last match that differs from the slot current before that match. The targets are `scaleBlob` on that slot alone, applied to the starting blobs, and that slot's renderer shows the last match's image. |
| `ClusterSteps.HighlightMovesOnSingleMatch` | src/js/matter/index.js:262-272 | With exactly one matching embassy, the current slot always changes. |
| `ClusterSteps.Matches` | src/js/matter/index.js:262 | Flag `k` is set exactly when embassy `k` carries the slug. |
| `ClusterSteps.LastSet` | src/js/matter/index.js:214-222 | The result is the last position below `n` whose flag is set, or -1 exactly when there is none. |
| `Cluster.MatterApp.Hover` | src/js/matter/index.js:245-256 | Once initialized, the current slot becomes the first roll that differs from the old slot, so it lies in `[0, 4)` and differs from the old one. Before initialization it is unchanged. |
| `Scales.FirstOther` | src/js/matter/index.js:248-251 | The result differs from `avoid` and is a roll preceded only by rolls equal to `avoid`. |
| `Scales.FirstOtherIsOtherSlot` | src/js/matter/index.js:263-266 | Rolls in `[0, 4)` of which two differ always leave the avoided slot, and the slot drawn lies in `[0, 4)`. |
| `Scales.ValidRollsEscape` | src/js/matter/index.js:249-251 | Such a roll stream has a roll different from any given slot, so the rejection loop ends. |
| `Scales.RejectionDraw` | src/js/matter/index.js:263-266 | The `while` loop returns `FirstOther` of its rolls. |
| `Cluster.MatterApp.Activate` | src/js/matter/index.js:282-297 | Without a current slot it declines, and nothing changes. Otherwise it stops, blows up that slot's renderer and runs `destroy`, which leaves both listeners attached. It then announces the embassy at the slot's position (`Done`), or throws when there is none (`Threw`), and no event is dispatched in that case. |
| `Cluster.MatterApp.Announce` | src/js/matter/index.js:287-293 | Dispatching 'activated' appends one event and keeps the gate sound. |
| `ClusterSteps.AnnouncedAppend` | src/js/matter/index.js:339-344 | Appending an event raises the 'initialized' count by one exactly when it is 'initialized'. |
| `Cluster.MatterApp.Reset` | src/js/matter/index.js:235-243 | Every blob aims for its rest scale again, and the current slot is kept. |
| `Cluster.Rested` | src/js/matter/index.js:236-238 | After `blob.reset()` every blob's target is its rest scale, with rest scales and states kept. |
| `Cluster.RestedForgets` | src/js/matter/index.js:235-243 | `reset` yields the same blobs whatever targets `highlight` or the pointer had set. |
| `Cluster.MatterApp.Run` | src/js/matter/index.js:299-301 | `isRunning` becomes true. |
| `Cluster.MatterApp.Stop` | src/js/matter/index.js:303-305 | `isRunning` becomes false. |
| `Cluster.MatterApp.Destroy` | src/js/matter/index.js:227-232 | The run stops. The listeners become `Detach(old listeners, false)`, so the two attached in the capture phase stay attached. |
| `Cluster.MatterApp.DestroyMatched` | src/js/matter/index.js:227-232 | `destroy` with removals that pass the flag the listeners were added with: the run stops, and when the two capture-phase listeners were attached, none is left. |
| `ClusterSteps.Attached` | src/js/matter/index.js:176-179 | `addEventListeners` registers a listener for both events, and every registration uses capture `true`. |
| `ClusterSteps.RemoveListener` | src/js/matter/index.js:228-229 | `removeEventListener` removes a registration exactly when both its event and its capture flag match, and keeps every other. |
| `ClusterSteps.Detach` | src/js/matter/index.js:227-230 | After the two removals of `destroy`, a listener remains exactly when it was attached with a capture flag different from the one passed. |
| `ClusterSteps.DestroyKeepsListeners` | src/js/matter/index.js:176-230 | Removing with `false` the listeners added with `true` leaves both attached, the pointer listener included. |
| `ClusterSteps.DetachMatchedClears` | src/js/matter/index.js:176-230 | Removing with `true` detaches both. |
| `ClusterSteps.DetachClearsIff` | src/js/matter/index.js:227-230 | `destroy`'s removals leave nothing attached exactly when every listener was added with the flag they pass. |
| `Cluster.MatterApp.RandomizeScales` | src/js/matter/index.js:379-419 | Every blob aims for its entry of `RandomScales(blobScales, index, ds)`, with rest scales kept. |
| `Scales.BuildScales` | src/js/matter/index.js:380-413 | The list built by the push and splice loops is `RandomScales`. |
| `Scales.FillIndexes` | src/js/matter/index.js:399-401 | The index loop pushes `first, ..., n - 1`. |
| `Scales.SpliceDraws` | src/js/matter/index.js:405-409 | The draw loop returns the values `Picks` takes from the gathered pool. |
| `Scales.PickStep` | src/js/matter/index.js:406-408 | One splice of a position list is one pick from the values at those positions. |
| `Scales.RandomScales` | src/js/matter/index.js:379-419 | The result has one scale per palette entry. |
| `Scales.RandomScalesPermute` | src/js/matter/index.js:383-396 | `randomizeScales(-1)` hands the blobs a permutation of the palette. |
| `Scales.RandomScalesPin` | src/js/matter/index.js:397-418 | `randomizeScales(k)` gives blob `k` the first palette entry and the other blobs a permutation of the remaining entries. |
| `Scales.Picks` | src/js/matter/index.js:388-392 | Each draw takes one value, so there are as many values as draws. |
| `Scales.PicksPermute` | src/js/matter/index.js:388-392 | Drawing once per entry takes every entry exactly once (equal multisets). |
| `Scales.PicksInOrder` | src/js/matter/index.js:388-392 | Draws that are all zero take the entries in order. |
| `Scales.RandomScalesZeroDraws` | src/js/matter/index.js:379-419 | When every random draw is 0, `randomizeScales(-1)` hands out the palette in its own order, and `randomizeScales(k)` hands out the rest of the palette in order with the first entry spliced in at `k`. For `k = 0` that is the palette itself. |
| `Scales.Remove` | src/js/matter/index.js:391 | `splice(i, 1)` keeps the entries before `i` and shifts the later ones down by one. |
| `Scales.Insert` | src/js/matter/index.js:411 | `splice(i, 0, x)` puts `x` at `i`; removing it again gives back the list. |
| `Scales.ScaleAll` | src/js/matter/index.js:415-417 | Blob `k` aims for `scales[k]`, and rest scales and states are kept. |
| `Scales.ScaleAllForget` | src/js/matter/index.js:415-417 | Re-ordering overwrites every target: the outcome depends only on rest scales and states. |
| `Cluster.MatterApp.Mousemove` | src/js/matter/index.js:206-225 | Before initialization nothing changes. After it, blobs and `overblob` are `MouseScan` over all blobs. |
| `ClusterSteps.MouseStep` | src/js/matter/index.js:215-221 | A blob containing the pointer re-orders the targets (rest scales kept) and becomes `overblob`. |
| `ClusterSteps.MouseScan` | src/js/matter/index.js:214-222 | The loop keeps the number of blobs and their rest scales. |
| `ClusterSteps.MouseOverblob` | src/js/matter/index.js:214-222 | With the pointer in no blob nothing changes; otherwise `overblob` ends as the last blob containing the pointer. |
| `ClusterSteps.MouseSkipsOutside` | src/js/matter/index.js:215 | Blobs not containing the pointer change nothing. |
| `ClusterSteps.MouseTargets` | src/js/matter/index.js:206-225 | The final targets are the palette re-ordered with the last blob containing the pointer pinned. The exception: when that blob is the only one containing the pointer and was already `overblob`, the targets are untouched. |
| `ClusterSteps.MouseIdleKeepsTargets` | src/js/matter/index.js:214-221 | A pointer that stays inside only the blob it is already over changes nothing. |
| `Dishes.Dish.constructor` | src/js/matter/dish.js:4-11 | The position and target coincide, the radius and target radius coincide, and there are no segments. |
| `Dishes.Dish.Init` | src/js/matter/dish.js:13-44 | Exactly `num` segments are appended. Segment `i` sits at angle `i * 2pi / num` on the circle of `radius` about `position`, turned by a further `pi / 2`. Every segment has the same chord width `w` and is static. No other field changes. |
| `Dishes.Dish.Update` | src/js/matter/dish.js:46-82 | The new state is `Step` of the old one, and the radii stay positive. |
| `Dishes.Dish.ReplaceBodies` | src/js/matter/dish.js:69-78 | Every segment is re-placed by `Replace` about the new centre, and no other field changes. |
| `Dishes.StepScale` | src/js/matter/dish.js:59-67 | Multiplying the radius by the factor moves it a tenth of the way to the target. The factor is 1 exactly when the target equals the radius. |
| `Dishes.Replace` | src/js/matter/dish.js:69-78 | A re-placed segment's offset from the centre is its old offset times `-scale`. Width and height are multiplied by `scale`, and angle, static flag and friction are kept. |
| `Dishes.Step` | src/js/matter/dish.js:46-82 | One `update` on values: the target position and the number of segments are kept, and once no change is pending the target radius is snapped to the radius. The easing itself is stated by `StepEases`, `StepContracts` and `StepReflectsSegments`. |
| `Dishes.ReplaceAll` | src/js/matter/dish.js:69-78 | Segment `i` is replaced by `Replace` of segment `i`, and the count is kept. |
| `Dishes.EaseAlgebra` | src/js/matter/dish.js:65-67 | `radius * (1 + (target / radius - 1) * 0.1) == radius + 0.1 * (target - radius)`. |
| `Dishes.StepEases` | src/js/matter/dish.js:59-67 | While a change is pending, the radius moves a tenth of the way to its target and lands strictly between the old radius and the target, with no overshoot. It stays positive, the centre moves a tenth of the way to its target, and the targets are kept. |
| `Dishes.StepContracts` | src/js/matter/dish.js:59-67 | The remaining radius gap shrinks to exactly 0.9 of itself on every pending step. |
| `Dishes.StepReflectsSegments` | src/js/matter/dish.js:69-77 | Each segment's offset from the new centre is its old offset multiplied by `-scale`: a point reflection through the new centre. |
| `Dishes.StepSettles` | src/js/matter/dish.js:79-81 | Once no change is pending, `update` snaps the target radius to the radius and keeps position and segments, and every further `update` is a no-op. |
| `Dishes.Dish.GetCenter` | src/js/matter/dish.js:84-96 | The result is the coordinate sum of the segments divided by `num`; for `num` segments all at one point, it is that point. |
| `Dishes.Dish.MoveTo` | src/js/matter/dish.js:98-108 | Only the target position changes. |
| `Dishes.Dish.ResizeTo` | src/js/matter/dish.js:110-118 | Only the target radius changes. |
| `Blobs.Smoothed` | src/js/matter/blob.js:3-7 | The current value is kept exactly when it equals the destination. For a positive `dest * smoothing` the step moves toward the destination. |
| `Blobs.RingPartner` | src/js/matter/blob.js:40-42 | The second endpoint of every spring slot is a node of the ring. |
| `Blobs.BodyACountPrefix` | src/js/matter/blob.js:40-82 | In the first `2k` slots of the doubled ring, each node below `k` is the first endpoint twice and every other node never. |
| `Blobs.EachNodeStartsTwoSprings` | src/js/matter/blob.js:40-82 | Every node is the first endpoint of exactly two springs. |
| `Blobs.ScaleBodies` | src/js/matter/blob.js:110-112 | Every body's radius is multiplied by `k`, and positions are kept. |
| `Blobs.Stretch` | src/js/matter/blob.js:113-116 | Spring `k`'s length is multiplied by `fs[k]`, and everything else is kept. |
| `Blobs.Compress` | src/js/matter/blob.js:123-126 | Spring `k`'s length is divided by `fs[k]`, and everything else is kept. |
| `Blobs.StretchLengthens` | src/js/matter/blob.js:113-116 | Growing keeps endpoints and multiplies every positive length by at least 1.1, so the length strictly increases. |
| `Blobs.CompressShortens` | src/js/matter/blob.js:123-126 | Shrinking keeps endpoints and strictly shortens every positive length while keeping it positive. |
| `Blobs.CompressUndoesStretch` | src/js/matter/blob.js:109-127 | Shrinking by the very factors a grow step drew restores every spring. |
| `Blobs.BodyScalesCancel` | src/js/matter/blob.js:109-127 | The body factors of `grow` (1.1) and `shrink` (1/1.1) cancel exactly. |
| `Blobs.GrowThenShrinkMovesSpring` | src/js/matter/blob.js:109-127 | With independent draws (1.1, then 1.15), a grow followed by a shrink does not restore a spring's length. |
| `Blobs.Blob.constructor` | src/js/matter/blob.js:10-17 | The fields take the arguments, and the body and spring lists are empty. |
| `Blobs.Blob.RingSpring` | src/js/matter/blob.js:44-78 | The spring in slot `s` joins node `s / 2` to its ring partner. Its length is the distance between them, its rest length equals that length, and its grow length is ten times it. |
| `Blobs.Blob.Init` | src/js/matter/blob.js:19-83 | It creates exactly `num` circles. Circle `i` sits at angle `i / num * 2pi` on the circle of `radius` about `position`. It creates the `2 * num` springs of the doubled ring, each with its current length as rest length and ten times it as grow length. |
| `Blobs.Blob.PlaceNodes` | src/js/matter/blob.js:26-38 | The first loop creates the `num` circles at their ring placements. |
| `Blobs.Blob.LinkNodes` | src/js/matter/blob.js:40-82 | The second loop creates spring `2i` from `i` to `i+1` and spring `2i+1` from `i` to `i+2` (mod `num`), and keeps the bodies. |
| `Blobs.Blob.GetCenter` | src/js/matter/blob.js:85-97 | The result is the coordinate sum of the bodies divided by `num`; for `num` bodies all at one point, it is that point. |
| `Blobs.Blob.Grow` | src/js/matter/blob.js:109-117 | Bodies are scaled by 1.1, and spring `k` is stretched by its own draw in `[1.1, 1.2)`. |
| `Blobs.Blob.Shrink` | src/js/matter/blob.js:119-127 | Bodies are scaled by 1/1.1, and spring `k` is divided by its own draw in `[1.1, 1.2)`. |
| `Geometry.Mean` | src/js/matter/blob.js:85-97 | `n` times the centre is the coordinate sum of the points. |
| `Geometry.MeanConstant` | src/js/matter/dish.js:84-96 | The centre of `n` bodies at one point is that point. |
| `SvgRender.RoundDown` | src/js/matter/svg-render.js:72-73 | Over reals, `floor(a * 10) * 0.1` never rounds up and stays within a tenth: `r <= a < r + 0.1`. |
| `SvgRender.PixelPerfect` | src/js/matter/svg-render.js:70-75 | Each coordinate is rounded down by less than a tenth. |
| `SvgRender.RoundDownIsLargestTenth` | src/js/matter/svg-render.js:72-73 | The rounding is the largest multiple of a tenth not above its input. |
| `SvgRender.RoundDownIdempotent` | src/js/matter/svg-render.js:72-73 | Rounding a rounded value changes nothing. |
| `SvgRender.PixelPerfectIdempotent` | src/js/matter/svg-render.js:70-75 | `pixelPerfect` is idempotent. |
| `SvgRender.Projected` | src/js/matter/svg-render.js:50-55 | A projected node lies less than a tenth below `node + size * normalise(node - center)` in each coordinate, and is already rounded. |
| `SvgRender.Projections` | src/js/matter/svg-render.js:24-39 | Node `k` is projected to `pixelPerfect(node + size * normalise(node - center))`. |
| `SvgRender.ProjectNode` | src/js/matter/svg-render.js:50-55 | The three statements repeated for each node compute `Projected`. |
| `SvgRender.Curve` | src/js/matter/svg-render.js:57-60 | Curve `k` is a quadratic curve whose control point is ring point `k mod n`. It ends less than a tenth below the midpoint of points `k mod n` and `(k + 1) mod n`. |
| `SvgRender.Curves` | src/js/matter/svg-render.js:41-63 | For `n >= 2` ring points the path is one `M` to the unrounded midpoint of points 0 and 1, followed by exactly `n` curves. |
| `SvgRender.Draw` | src/js/matter/svg-render.js:23-68 | The command list built by the loop is the outline through the projected nodes. |
| `SvgRender.WrapIsMod` | src/js/matter/svg-render.js:48 | The wrapped index is `i % n` for `i < 2n`. |
| `SvgRender.Controls` | src/js/matter/svg-render.js:59 | Control point `k` is that of command `k + 1`. |
| `SvgRender.ControlsRotateRing` | src/js/matter/svg-render.js:45-62 | The control points are the projected nodes `1, 2, ..., n-1, 0`, so each node is used exactly once. |
| `SvgRender.EndpointsAreRoundedMidpoints` | src/js/matter/svg-render.js:47-60 | Every curve ends at the rounded midpoint of its own control point and the next curve's, wrapping from the last curve to the first. |
| `SvgRender.PathClosesUpToRounding` | src/js/matter/svg-render.js:41-57 | The last curve ends at the rounded start point, less than a tenth below it in each coordinate. |
| `SvgRender.RoundingCanOpenPath` | src/js/matter/svg-render.js:41-57 | Two rounded points a tenth apart have an unrounded midpoint, so the outline need not close exactly. |
| `PointerHit.SelectBlob` | src/js/matter/app.js:88-109 | The result is -1 or a blob. A selected blob is inside its radius, and its distance is below 99999 and strictly below every earlier distance. No later blob is selected when reached. The result is -1 exactly when no blob is selected when reached. |
| `PointerHit.TieKeepsEarlier` | src/js/matter/app.js:98 | Of two blobs at the same distance, the later one can never be selected: the comparison is strict. |
| `PointerHit.NearerMissKeepsSelection` | src/js/matter/app.js:98-103 | A later, nearer blob outside its own radius lowers the running minimum without clearing an earlier selection. |
| `PointerHit.MatterApp.constructor` | src/js/matter/app.js:10-20 | `overblob` starts at -1. |
| `PointerHit.MatterApp.Mousemove` | src/js/matter/app.js:88-109 | `overblob` becomes the scan's result, with all of `SelectBlob`'s guarantees. |

## Findings

| source | as written | input that shows it | evidently intended | confidence | as-written member | corrected member |
|---|---|---|---|---|---|---|
| src/js/matter/index.js:228-229 | `removeEventListener(..., false)` for listeners that src/js/matter/index.js:178-179 added with `true` | `destroy()` after `addEventListeners()`: both registrations have capture `true` and survive (`ClusterSteps.DestroyKeepsListeners`) | `destroy` detaches both listeners | high, not executed | `Cluster.MatterApp.Destroy` | `Cluster.MatterApp.DestroyMatched` (`ClusterSteps.DetachMatchedClears`) |

`Cluster.MatterApp.Activate` calls the as-written `Destroy`, so the model
keeps the page's behaviour after activation: the pointer listener stays
attached.

## Left out

- The Matter.js physics engine is not part of this model. That covers
  `Engine.update`, `World.add` / `addToWorld`, `Bodies.*`,
  `Constraint.create` and `Body.setPosition`. Bodies and springs are plain
  records, and `Body.scale` is modelled only as the scale of a segment's
  or circle's size.
- Floating-point behaviour is not modelled: reals replace doubles, and
  NaN, Infinity and rounding error are out of scope. The model therefore
  requires a positive dish size, since a zero-size wrapper gives NaN, and
  a non-zero `amount` in `scaleBlob`, since 0 gives Infinity.
- Trigonometry, `Math.PI`, `sqrt`, `Vector.magnitude` and
  `Vector.normalise` are function parameters. `calcDishSize`,
  `calcDishOrigin` and `randomPositionInDish` are left out: they are
  window-size geometry, and their results enter as the constructor's
  `origin` and `dishSize`.
- `resize` (src/js/matter/index.js:182-204) is left out: it is sqrt-based
  layout and calls the undefined `blob.resize`. For the same reason
  `dishSize` is a constant.
- Timing is left out: `animate`, the FPS throttle, lodash `throttle`,
  `requestAnimationFrame` and `Date.now`.
- DOM and SVG work is left out: the `init` markup, `setAttribute`, the
  `CustomEvent` polyfill, `offset()`, the SVGRender constructor and the
  `d` attribute string. The outline is kept as its list of commands, not
  as text.
- `addEventListeners` and `destroy` are reduced to the set of registered
  listeners with their capture flags; the handlers themselves are not
  modelled.
- The debug canvas renderer is left out.
- `hover`'s `blob.addMovement` and the `blob.currScale` read by `draw` are
  left out: neither is defined in `src/js/matter/blob.js`. `draw` takes the
  centre and `size * currScale` as parameters.
- `Cluster.MatterApp.Reset`: `svgRender.reset()` is not defined in
  `src/js/matter/svg-render.js`. The model assumes the renderer provides
  it, as it assumes `blob.reset` and `blob.scaleTo` exist, and does not
  model the renderer's reset.
- `svgRender.blowUp()` and `setBackgroundImage()` are modelled only as the
  flags of `RenderView`.
- `Cluster.MatterApp.constructor` fixes the cluster at four blobs.
  `createBlobs` loops to `numBlobs`, but `main.js` passes 4 into the
  `patterns` slot (src/js/main.js:18), so `numBlobs` is undefined there.
  The palette, the re-ordering and the slot draws are all built for four
  blobs. The blob positions on the placement circle and the pattern
  images are left out.
- `Cluster.MatterApp.constructor` folds the dish and blob creation of
  `init` into the constructor, because the controller cannot be used
  before `init`.
- `Cluster.MatterApp.Update` takes each blob's next state as an input,
  since `blob.update()` and `blob.state` are not defined in `blob.js`. The
  blobs start in state 0. `Matter.Engine.update` and the `console.log` of
  each blob's scale are left out.
- `Cluster.MatterApp.ImageLoaded` requires that each embassy's image loads
  at most once, as a browser `load` event does.
- `Dishes.Dish.ResizeTo` requires a positive radius, since a zero radius
  would make the next `update` divide by zero. Every caller passes the
  positive dish size.
- `SvgRender.Draw` requires at least two ring nodes, since the outline
  starts at the midpoint of nodes 0 and 1. Blobs are built with 24 nodes
  (src/js/matter/index.js:150) or 12 (src/js/matter/app.js:57).
- `Blobs.Blob.Init` is modelled for its one call after construction, with
  empty body and spring lists. A second call would append another ring.
- `index.1.js`, `matter.concept.js`, `canvas-render.js`, `main.js` and the
  webpack configuration are not part of this model.
