# New-year particle show — a Dafny model of its animation core

`main.js` drives a one-page greeting: a countdown and blessing lines drawn
as particle text, a 3D heart of particles with photo cards on it, 2D
fireworks on a canvas overlay, and a governor that lowers the quality when
the frame rate drops. This project models the logic underneath the
Three.js, canvas and DOM glue, module by module:

- `common.dfy` (`Common`): shared value types (`Vec3`, `Point2`, `Rgb`,
  `Option`). It also holds `randomBetween` and `randomInt`, with the random
  draw made an explicit roll in [0, 1).
- `quality.dfy` (`Quality`): `detectQuality` has three fixed tiers. The
  start-up rescaling of the population constants is here too.
- `particles.dfy` (`ParticleField`): the particle buffer controller. The
  class `Field` owns four flat `array<real>` buffers of `3 * maxCount`
  entries (positions, targets, velocities, colours), the active count and
  the mode. It has the initialisation, `applyTargetPositions`,
  `triggerParticleExplosion`, `updateParticles` and
  `applyHeartSpreadTargets`. The buffers are written in place, slot by
  slot.
- `raster.dfy` (`TextRaster`): `rasterizeText` after the glyphs are drawn.
  It covers the font-size steps, the stride-grid scan of the RGBA bytes,
  the XOR depth-jitter hash and the fixed-stride thinning to the particle
  budget.
- `heart.dfy` (`HeartGeometry`): `computeHeartMetrics`, the heart curve and
  `generatePhotoAnchors`. The anchors come from candidates, an in-place
  Fisher–Yates shuffle, greedy passes with a shrinking minimum distance,
  and cyclic padding.
- `fireworks.dfy` (`Fireworks`): the firework list. The class
  `FireworkSim` holds the spark list and the spawn clock. It covers
  `updateFireworks` (spawn, then the backward walk that steps sparks and
  splices out burnt-out ones), `spawnFireworkBurst`, `emitFireworkByType`,
  `pushFireParticle`, `pickFireworkType` and `pickFireColor`.
- `governor.dfy` (`Governor`): `updatePerformance`. The class `FpsMonitor`
  holds `app.fps` and the renderer's pixel ratio.

Every `Math.random()` draw is an input: a roll in [0, 1), or a function
from an index to a roll or a record of rolls. Trigonometric values enter
as inputs: an angle is its sine and cosine, a sphere point is a vector.
Clock readings (`now`, `dt`) and the window and device properties are
parameters. JavaScript numbers are modelled as mathematical reals and
integers.

## Model

| member | source | states |
|---|---|---|
| Common.RandomBetween | main.js:1319-1321 | the result lies in [min, max], and strictly below max when min < max |
| Common.RandomInt | main.js:1125-1127 | the result is an integer in [min, maxInclusive] |
| Quality.Score | main.js:1329-1333 | the capability score is never negative (0 cores falls back to 4, a missing ratio to 1) |
| Quality.TierOf | main.js:1335-1361 | the low tier is picked exactly when the score is below 3.8, the high tier exactly when it is at least 6.8 |
| Quality.DetectQuality | main.js:1328-1362 | the sampling stride is 3, 4 or 5 and every scale is in (0, 1] |
| Quality.ProfileMonotone | main.js:1336-1361 | a more capable tier never has a smaller scale or a coarser stride |
| Quality.TierMonotone | main.js:1335-1353 | a higher score never picks a lower tier |
| Quality.DetectQualityMonotone | main.js:1329-1335 | more cores, or a fine instead of a coarse pointer, never lowers the tier |
| Quality.ScaledCountsSound | main.js:69-73 | after start-up scaling the heart points fit in the particle buffer, the buffer never exceeds 5600, and the burst size starts above the governor's floor of 24 |
| ParticleField.LineColorsCycle | main.js:1296-1299 | line colours repeat every three lines and consecutive lines never share a colour |
| ParticleField.GradientEnds | main.js:535-541 | a forced colour blends into colour B; otherwise colour A blends into C exactly when positions are kept (the heart), else into B |
| ParticleField.MixWeight | main.js:555-556 | the blend weight is in [0, 0.9]: 0 for the first point and, for two or more points, 0.9 for the last one |
| ParticleField.LerpChannel | main.js:556 | a weight in [0, 1] keeps the channel between its two ends, and a weight below 1 never reaches the end value |
| ParticleField.LerpColor | main.js:556 | channel-wise: the blend stays between the ends and misses the end colour for weights below 1 |
| ParticleField.PointColorNeverEndColor | main.js:535-559 | no point of an assignment gets the pure end colour of its gradient, unless the forced colour is colour B itself |
| ParticleField.ExplosionSpeed | main.js:792 | the explosion speed lies in [1.2, 2.6] |
| ParticleField.ExplosionVelocityBound | main.js:791-795 | a direction in the unit ball gives a velocity of length at most 2.6 |
| ParticleField.ExplodeVelocity | main.js:835-838 | drag shrinks the x and z velocity towards 0 without reversing its sign; a positive step pulls y below its drag-only value; a zero step is pure drag on all three axes |
| ParticleField.ExplodeDecayGeometric | main.js:833-838 | after n explosion steps the x and z velocity are the initial value times 0.965^n |
| ParticleField.ExplodeRatio | main.js:829-831 | the remaining fraction is non-negative, 0 from the deadline on, and at most 1 inside the window |
| ParticleField.EaseBetween | main.js:849-855 | easing by a factor in [0, 1] keeps a coordinate between its old value and the target, reaches the target at factor 1, and moves it for any positive factor |
| ParticleField.NextPulse | main.js:858-861 | the pulse never drops below 0 and never grows |
| ParticleField.Field.constructor | main.js:228-281 | every slot starts at its spawn point with target equal to position, zero velocity and colour (1, 0.84, 0.65); nothing is active, the mode is idle, the explosion duration is the phrase exit time |
| ParticleField.Field.ApplyTargetPositions | main.js:524-573 | count becomes min(\|points\|, maxCount); active targets equal the points; every slot from count on holds the sentinel (9999, 9999, -9999); positions are respawned exactly for the slots below count that are not kept; active colours follow the gradient; nothing else changes |
| ParticleField.Field.PlaceTargets | main.js:543-560 | the first loop writes target, respawn and colour of the slots below n and leaves every other slot as it was |
| ParticleField.Field.ClearTail | main.js:562-567 | the second loop puts the sentinel target on every slot from n on and leaves the slots below n as they were |
| ParticleField.Field.TriggerParticleExplosion | main.js:781-797 | mode becomes explode with the given duration and deadline; each active slot gets its direction times a speed in [1.2, 2.6]; inactive velocities are unchanged |
| ParticleField.Field.UpdateParticles | main.js:815-870 | without active slots nothing changes; while exploding each active slot takes one drag-and-gravity step, the opacity follows the remaining time, and the mode becomes idle exactly when the deadline has passed; otherwise each active position eases to its target and pulse, size and opacity relax; inactive slots never change |
| ParticleField.Field.StepExplosion | main.js:833-843 | every active slot's velocity takes one explosion step and moves its position; inactive slots are unchanged |
| ParticleField.Field.EaseActive | main.js:851-856 | every active position eases towards its target; inactive positions are unchanged |
| ParticleField.Field.ApplyHeartSpreadTargets | main.js:905-919 | the first min(\|base\|, count) targets become base times spread, every other target (the sentinel tail included) is unchanged |
| TextRaster.FontSize | main.js:583-587 | the font size is never below 44 pixels |
| TextRaster.FontSizeShrinks | main.js:583-587 | a longer layout string never gets a larger font |
| TextRaster.JitterHash | main.js:615 | the hash lies in 0..1023 |
| TextRaster.Xor | main.js:615 | the bitwise exclusive or of n bits is below 2^n |
| TextRaster.XorLaws | main.js:615 | exclusive or is symmetric and a value xor itself is 0 |
| TextRaster.JitterHashPeriodic | main.js:615 | the hash depends only on the coordinates modulo 1024 |
| TextRaster.ToPoint | main.js:613-616 | the depth jitter of a point lies in [-0.8, 0.8] |
| TextRaster.RowCellsSound | main.js:610-612 | the cells of a row scan are in column order, inside the raster, on the column stride and kept |
| TextRaster.GridCellsSound | main.js:609-619 | the sampled cells are in row-major order, inside the raster, on the stride grid and kept |
| TextRaster.RowCellsComplete | main.js:610-612 | every kept cell on the column stride of a row is found by the row scan |
| TextRaster.GridCellsComplete | main.js:609-612 | every kept cell on the stride grid is found by the grid scan |
| TextRaster.SampledCellsExact | main.js:609-619 | a cell is sampled exactly when both coordinates are multiples of the stride inside 1024 x 512 and its alpha byte (y*1024+x)*4+3 exceeds 130; the samples are in row-major order |
| TextRaster.SampleRow | main.js:610-618 | the inner loop emits the points of the row's kept cells, in column order |
| TextRaster.SampleGrid | main.js:608-619 | the nested loops emit the points of all kept grid cells, row by row |
| TextRaster.DownsampleIndex | main.js:623-625 | the picked index floor(i * (n / m)) equals the integer quotient i * n div m |
| TextRaster.DownsampleIndexInRange | main.js:624-625 | every picked index is inside the point list |
| TextRaster.DownsampleIndexStrict | main.js:623-625 | consecutive picks are strictly increasing when there are more points than slots |
| TextRaster.DownsampleIndexIncreasing | main.js:623-625 | picks are strictly increasing over all pairs of slots |
| TextRaster.ReduceSelects | main.js:621-630 | thinning keeps at most m points; a list of at most m points is returned as is; a longer one yields exactly m points taken at strictly increasing in-range indices floor(i * n / m) |
| TextRaster.Downsample | main.js:621-630 | the thinning loop returns the thinned list |
| TextRaster.RasterizeText | main.js:602-631 | the result has at most maxCount points and is the thinned list of the sampled points |
| HeartGeometry.ComputeHeartMetrics | main.js:1239-1248 | the heart height is 60% of the visible height, and the scale makes the band [-17, 13] that bounds the curve span exactly that height |
| HeartGeometry.ScaledHeartFitsHeight | main.js:1239-1248 | scaled by the metrics, any two points of the heart curve are at most the heart height apart vertically, which is at most 60% of the visible height |
| HeartGeometry.HeartCurveBounds | main.js:733-738 | the heart curve lies in [-16, 16] x [-17, 13] |
| HeartGeometry.CandidateInBox | main.js:729-744 | every candidate lies in the scaled heart box at depth at most 18 * 1.12 |
| HeartGeometry.SwapIndex | main.js:747 | the swap partner of position i is in [0, i] |
| HeartGeometry.SwapPermutes | main.js:748-750 | a swap keeps the multiset of candidates |
| HeartGeometry.ShuffledPermutes | main.js:746-751 | the shuffle is a permutation of the candidates |
| HeartGeometry.Shuffle | main.js:746-751 | the in-place loop leaves the array holding the shuffle of its old contents |
| HeartGeometry.IsFar | main.js:760-766 | the inner scan answers true exactly when the candidate is at least minDist from every selected anchor |
| HeartGeometry.GreedySound | main.js:758-770 | a greedy pass selects at most targetCount candidates, pairwise at least minDist apart |
| HeartGeometry.GreedyPass | main.js:757-770 | the pass loop computes the greedy selection |
| HeartGeometry.MorePassesBounded | main.js:754-771 | another pass runs only with a positive height and fewer than ten shrinks, since 0.12 * 0.9^10 < 0.045; each pass multiplies minDist by 0.9 |
| HeartGeometry.RoundsSound | main.js:753-772 | the shrinking passes select at most targetCount anchors, all of them candidates |
| HeartGeometry.Pad | main.js:774-776 | cyclic padding extends the selection to at least targetCount anchors and keeps it as a prefix |
| HeartGeometry.PadFromCandidates | main.js:774-776 | padded anchors are candidates |
| HeartGeometry.PhotoAnchorsSound | main.js:753-778 | over non-empty candidates the result has exactly targetCount anchors, all of them candidates |
| HeartGeometry.GeneratePhotoAnchors | main.js:725-779 | exactly targetCount anchors, each one of the 1500 generated candidates, equal to padding the shrinking greedy passes over the shuffled candidates |
| Fireworks.PaletteIndex | main.js:1120 | indexOf finds the colour at its palette position |
| Fireworks.RollIndex | main.js:1118 | a drawn palette index is below the palette length |
| Fireworks.PickFireColorSound | main.js:1117-1123 | the picked colour is never the excluded one, and it is the drawn colour unless that was excluded, in which case it is the next colour of the palette |
| Fireworks.PickFireworkTypeIntervals | main.js:996-1004 | each type is picked on exactly one interval of the roll and the six intervals tile [0, 1) |
| Fireworks.NewParticle | main.js:1101-1115 | a spark pushed with positive life is well-formed (alive, trail of one point at its start); it starts at full life with the options' colour, size, gravity and drag |
| Fireworks.PushTrail | main.js:949-950 | the trail gains the new point at its end and keeps at most its last six points |
| Fireworks.Step | main.js:938-950 | a step takes `step` from the life, keeps colour, size and per-spark physics, and keeps a trail of one to six points |
| Fireworks.AliveIndexed | main.js:936-977 | each surviving spark is the spark at the matching live index |
| Fireworks.AliveIndicesAscending | main.js:936-977 | the survivors keep their relative order |
| Fireworks.AliveIndicesComplete | main.js:974-976 | a spark survives exactly when its life is still positive |
| Fireworks.SurvivorsExact | main.js:936-977 | the update keeps exactly the sparks whose stepped life is positive, each stepped once, in their original order |
| Fireworks.SurvivorsWellFormed | main.js:936-977 | survivors of well-formed sparks are alive with one to six trail points |
| Fireworks.BurstCount | main.js:1007-1011 | a burst has at least 20 sparks and at most max(20, floor(2.9 * base)) |
| Fireworks.EmissionSound | main.js:1013-1098 | every spark of a burst starts at the centre with a one-point trail and full life in its type's range, in one of two different colours by the type's index pattern; only willow sparks carry their own gravity and drag |
| Fireworks.FreshSparkSurvivesFirstStep | main.js:1022-1095 | a fresh spark survives the first update of any frame shorter than 36 / 60 s |
| Fireworks.BurstTotal | main.js:983-986 | a spawn has 3 or 4 bursts in the heart stage, 2 or 3 before |
| Fireworks.BurstCentre | main.js:989-990 | a burst centre lies in [8%, 92%] of the width and [8%, 58%] of the height |
| Fireworks.BurstsNext | main.js:988-993 | one more burst appends exactly that burst's sparks |
| Fireworks.BurstsSound | main.js:988-993 | every spawned spark is well-formed and each burst adds at least 20 |
| Fireworks.FrameKeepsWellFormed | main.js:930-977 | if every spark in the list is alive with a trail of one to six points, that still holds after a frame, with or without a spawn |
| Fireworks.WalkStep | main.js:936-976 | one step of the backward walk, stepping the spark in place or splicing it out, extends the processed suffix by one |
| Fireworks.FireworkSim.constructor | main.js:90-94 | the list starts empty, the last spawn at 0 and the interval at 520 ms |
| Fireworks.FireworkSim.PushFireParticle | main.js:1101-1115 | the list gains exactly the new spark at its end |
| Fireworks.FireworkSim.EmitFireworkByType | main.js:1006-1099 | the list gains exactly the burst's sparks, in order |
| Fireworks.FireworkSim.SpawnFireworkBurst | main.js:980-994 | the list gains the sparks of all bursts of the spawn, burst by burst |
| Fireworks.FireworkSim.EmitBurst | main.js:989-992 | one iteration of the spawn loop appends the next burst's sparks |
| Fireworks.FireworkSim.UpdateFireworks | main.js:921-978 | a spawn happens exactly when more than `interval` ms passed since the last one and then moves the spawn clock to now; the new list is the survivors of the old list plus the spawn, stepped by dt * 60 |
| Fireworks.FireworkSim.StepAll | main.js:935-977 | the backward walk leaves exactly the survivors of the list |
| Governor.Fps | main.js:1224 | the rate is non-negative and, for a window of at least 1 ms, times the window equals the frame count |
| Governor.NextBurst | main.js:1231 | after a downshift the burst size is at least 24, strictly smaller when it was above 24, and otherwise floor(0.78 * size): within 1 below 78% of it |
| Governor.NextInterval | main.js:1232 | after a downshift the interval is at most 1900 ms, never below min(interval, 1900), longer for every interval from 6 ms up to 1900 ms, and otherwise floor(1.18 * interval): within 1 below 118% of it |
| Governor.NextMonotone | main.js:1231-1232 | both adjustments are monotone |
| Governor.InitialPixelRatio | main.js:164 | the start-up pixel ratio is the device ratio (1 when absent) capped by 2 times the profile's scale |
| Governor.NextPixelRatioAsWritten | main.js:1234 | the downshifted ratio as written is at least 1 and at least 88% of the old one |
| Governor.PixelRatioRaisedByDownshift | main.js:1234-1235 | a device ratio of 0.5 starts the renderer at 0.5, and the downshift as written raises it to 1 |
| Governor.NextPixelRatio | main.js:1234 | the corrected downshift never raises the ratio, never goes below min(ratio, 1), and agrees with the code for ratios of at least 1 |
| Governor.PixelRatioDescends | main.js:1229-1235 | repeated downshifts keep a positive ratio positive and never above its start |
| Governor.FpsMonitor.constructor | main.js:95-100 | all counters start at 0 |
| Governor.FpsMonitor.UpdatePerformance | main.js:1216-1237 | inside a window only the frame count and elapsed time grow; once 1600 ms have passed the counters reset and lastCheck becomes now, and a window slower than 32 fps downshifts (burst size, interval, pixel ratio) while fewer than two have happened; the downshift counter always equals `Downshifts` over the rates of the windows closed so far, so it never exceeds 2 |
| Governor.Downshifts | main.js:1229-1230 | over any run of windows the number of downshifts stays at most 2 and never decreases |
| Governor.DownshiftsSnoc | main.js:1229-1230 | closing one more window adds one downshift exactly when that window is slow and fewer than two have happened |
| Governor.SlowWindowsExhaust | main.js:1229-1230 | enough slow windows use up both downshifts |

## Left out

- Rendering is not part of this model. That covers the Three.js scene, camera, renderer, controls, star field, photo-card meshes, textures and canvas drawing (fade, trail strokes, gradients, `withAlpha`). The only part kept is the renderer's pixel ratio as downshifts set it, an `FpsMonitor` field (a resize resets it; see the `handleResize` line below).
- `handleResize` (main.js:1255-1271) is not part of this model. On every window resize it sets the renderer pixel ratio back to its start-up value (main.js:1260), but `app.fps.downshifted` keeps its count. The lowered ratio that `FpsMonitor` and `PixelRatioDescends` describe therefore holds only until the next resize, and after two downshifts nothing lowers it again. In the heart stage the same handler rebuilds the heart targets, sets the spread back to 1, re-runs `applyTargetPositions(targets, true)` and rebuilds the photo cards and their anchors. The model leaves those calls to the caller.
- DOM, audio, the love-note typing, texture preloading with its timeout race, and the `fetch` of the music file are not part of this model: they are I/O.
- The asynchronous phase script (`startExperience`, `runCountdown`, `runBlessingLines`, `morphToHeart`, `setTextAsParticles`) is not part of this model. It is timer sequencing. Its effects on the modelled state are left to the caller:
  - the mode set to morph or heart;
  - the pulse set to 1 or 0.35;
  - the fireworks interval reset to 680 ms at main.js:503.
  So the 1900 ms interval cap holds only between such resets.
- `buildHeartTargets`, `updateHeartMotion` (the spread easing) and `randomSpherePoint` are not modelled. Their outputs enter as inputs: the points, the spread factor, and the spawn and direction vectors.
- Floating point is not modelled: `Float32Array` rounding, IEEE doubles, NaN and infinities. Reals stand in for all numbers. The 32-bit wrap-around of the jitter hash is modelled only through its low ten bits, which are all the mask keeps.
- The `pow`-based morph factor `1 - 0.87^(dt*60)` is the `ease` parameter of `UpdateParticles`.
- The colour conversion of `THREE.Color` (sRGB to linear) is not modelled. Colours are the configured bytes divided by 255.
- The global `CONFIG.fireworks.burstParticles` is a field of `FireworkSim`, so that the governor can update it. The canvas size (`viewWidth`, `viewHeight`) is a field too, set by the constructor; `resizeFireCanvas` is not modelled.
- Fireworks.FireworkSim: the list invariant (every spark alive with one to six trail points) is proved by the lemma `FrameKeepsWellFormed` about the post-state function, not as a class invariant of the methods.
- Governor.FpsMonitor.UpdatePerformance: it uses the corrected pixel-ratio step `NextPixelRatio`, not the code's `max(1, 0.88 * ratio)`. The difference is listed under Findings.
- ParticleField.Field.UpdateParticles and ParticleField.Field.ApplyTargetPositions: their loops are split into the methods `StepExplosion` and `EaseActive`, and `PlaceTargets` and `ClearTail`. Each of these has its own contract. The order of the writes and their effect are unchanged.

## Findings

| source | as written | input that shows it | evidently intended | confidence | as-written member | corrected member |
|---|---|---|---|---|---|---|
| main.js:1234 | a downshift sets the pixel ratio to `max(1, ratio * 0.88)` | a device pixel ratio of 0.5: the start-up ratio is min(0.5, 2 * 0.86) = 0.5, and the first slow window sets it to 1, quadrupling the pixels rendered, since the ratio scales both axes of the drawing buffer | a downshift lowers the rendering cost, so it should never raise the ratio: `min(ratio, max(1, ratio * 0.88))` | not executed | Governor.PixelRatioRaisedByDownshift | Governor.NextPixelRatio |
