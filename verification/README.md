# Particle background and image carousel, modelled in Dafny

This project models the two pieces of logic behind a portfolio front-end:

- **The animated particle field** (`js/bg.js`). A configuration record `CFG` and four named presets. A pool of particles sized from the viewport area. Particles are spawned at random inside the viewport widened by a margin. Each frame `tick`:
  - clamps the frame time;
  - eases the cursor and scroll parallax;
  - blends the sky rotation speed between "active" and "idle";
  - starts random twinkles;
  - lets particles near the cursor swirl tangentially;
  - drifts, damps and wraps every particle;
  - draws the particles through a twinkle envelope that can cull a faint one.
- **The 3-D image carousel** (`js/main.js`). Images are laid out in one or two rings. The carousel has a drag/keyboard rotation target, a wheel zoom clamped to a range, a sway that does not accumulate, a focus opacity, and the flat grid shown when WebGL is unavailable.

Everything is exact `real`/`int` arithmetic over immutable datatypes.

- `Math.random()` is a stream `rand: nat -> real` of draws in `[0, 1)` (`Numeric.Uniform`).
- `performance.now()` is a parameter. Inside the twinkle loop, where the script reads it once per pick, it is a stream `clock`.
- `sin`, `cos`, `pow` and `hypot` are fields of `Numeric.MathFns`. They are constrained only by the facts in `Numeric.Lawful`: sine and cosine in `[-1, 1]`, `sin² + cos² = 1`, sine non-negative on `[0, PI]` and positive strictly inside it (the decimal `PI` lies just below π), their values at 0, the monotonicity and end points of `pow` on `(0, 1]`, and `hypot² = a² + b²`.
- `x | 0` is ECMAScript ToInt32 (`Numeric.ToInt32`).
- `Math.round` is `floor(x + 0.5)` (`Numeric.Round`).

Modules, one per concern:

| module | file | models |
|---|---|---|
| `Options` | options.dfy | an optional value |
| `Numeric` | numeric.dfy | `clamp01`, `Math.round`, the integer conversion of a bitwise or with zero, easing, the abstract maths functions |
| `Color` | color.dfy | `hexToRgb` and the palette |
| `Config` | config.dfy | `CFG`, `PRESETS`, the merge of `applyPreset` |
| `Particles` | particles.dfy | `autoCount`, `initParticles` |
| `Forces` | forces.dfy | swirl, drift, damping, wrap |
| `Twinkle` | twinkle.dfy | `maybeStartTwinkles` and the twinkle envelope |
| `Rotation` | rotation.dfy | frame-time clamp, idle blend, sky angle |
| `Compositor` | compositor.dfy | parallax, rotation about the centre, the cull and the two sprites |
| `Background` | background.dfy | one frame, re-seeding, `fit`, `applyPreset`, boot |
| `CarouselLayout` | carousel_layout.dfy | rows, ring size, slot assignment, plane geometry |
| `CarouselInput` | carousel_input.dfy | drag, keys, wheel, sway, focus opacity, fallback grid |

Where the code and its design notes disagree, the model follows the code:

- `autoCount` rounds `w·h/2800` *before* clamping to `[220, 1200]`.
- `autoCount` caps the density at 1 through `clamp01`, so a density above 1 never raises the count, although the density control is described as ranging up to 2.
- The preset table is an ordinary object. An inherited name such as `toString` or `__proto__` therefore passes the `if (!p) return` guard. It renames the preset and rebuilds the pool but changes no control. `Config.Lookup` models this as an empty override.

## Model

| member | source | states |
|---|---|---|
| Numeric.Clamp01 | js/bg.js:69 | the result is always in [0, 1]; it is the input itself when that is in range, 0 below and 1 above |
| Numeric.Clamp | js/main.js:74 | `MathUtils.clamp`: inside a non-empty range the value is kept, below it becomes the low end, above it the high end, and the result always lies in the range |
| Numeric.ClampMonotone | js/main.js:74 | clamping never reverses the order of two values |
| Numeric.Lerp | js/bg.js:166-175 | the easing step `v += (target - v)·k` with k in [0, 1] lands between the old value and the target, never farther from the target than before; for k strictly inside (0, 1) and different ends it lands strictly between them; k = 0 keeps the value and k = 1 reaches the target |
| Numeric.LerpBetween | js/bg.js:166-167 | with k in [0, 1] the eased value lies between the smaller and the larger of the old value and the target |
| Numeric.LerpMonotone | js/bg.js:175 | a larger blend factor moves the blended value further from the start toward the target, in whichever direction the target lies |
| Numeric.Round | js/bg.js:87 | `Math.round` gives an integer within one half of its argument |
| Numeric.RoundMonotone | js/bg.js:89 | rounding preserves order |
| Numeric.RoundOfInteger | js/bg.js:89 | rounding an integer gives that integer |
| Numeric.ToInt32 | js/bg.js:98 | a bitwise or with zero gives a signed 32-bit integer congruent modulo 2^32 to the truncation of x, and equals floor(x) for x in [0, 2^31) |
| Numeric.Truncate | js/bg.js:98 | truncation toward zero: the result is no larger in magnitude than x, within one of it, and never of the opposite sign |
| Numeric.DrawIndex | js/bg.js:98-99 | for a draw in [0, 1) and a list of fewer than 2^31 entries, the bitwise or of u·len with zero is floor(u·len) and a valid index |
| Color.MatchHex | js/bg.js:71 | the pattern matches exactly the strings made of an optional `#` and six hex digits in either case, and every captured channel is in [0, 255] |
| Color.HexToRgb | js/bg.js:70-73 | the result is always a valid colour: white for any string the pattern rejects, and otherwise the matched channels |
| Color.HexLiteral | js/bg.js:72 | for `#` and six hex digits, each channel is the base-16 value of its own pair of digits |
| Color.HexRoundTrip | js/bg.js:70-73 | every valid colour written as `#RRGGBB` parses back to itself |
| Color.HashIsOptional | js/bg.js:71 | six characters decode the same with and without a leading `#` |
| Color.CaseInsensitive | js/bg.js:71 | lower-casing a string changes neither whether it matches nor the colour it decodes to |
| Color.PaletteDecodes | js/bg.js:65-66 | every DOMINANT and ACCENTS entry is well formed, so none falls back to white; the dominant and accent colours are disjoint sets |
| Config.Set | js/bg.js:9-39 | writing one control sets that control and leaves every other control and the preset name as they were |
| Config.OwnPreset | js/bg.js:41-62 | every named preset overrides the same twelve controls |
| Config.Lookup | js/bg.js:269 | the four named presets are found; inherited object names give an empty override; every other name is absent |
| Config.MergeSpec | js/bg.js:270 | after `Object.assign` each control the preset names reads the preset's value, every other control keeps its value, and the name is untouched |
| Config.ApplyPreset | js/bg.js:268-270 | an unknown name changes nothing; a known name becomes the preset name, and each control reads the preset's value where it has one and the old value otherwise |
| Config.ApplyPresetByName | js/bg.js:268-270 | the same three outcomes spelled out by name: a named preset, an inherited name, anything else |
| Config.ApplyPresetIdempotent | js/bg.js:268-272 | applying the same preset twice is the same as applying it once |
| Config.LastWriteWins | js/bg.js:268-272 | a direct edit after a preset wins; a preset after a direct edit wins on the preset's keys only |
| Config.GetDetermines | js/bg.js:9-39 | a configuration is determined by its controls and its preset name |
| Config.RenameKeepsControls | js/bg.js:270 | changing the preset name alone leaves every control as it was |
| Config.BootPreset | js/bg.js:327 | the starting preset name is found, and applying it at boot gives the Calm Nebula values on its twelve keys and the starting values elsewhere |
| Particles.BaseCount | js/bg.js:87-88 | the area-based count is a whole number in [220, 1200] |
| Particles.AutoCount | js/bg.js:85-90 | the particle count is always in [0, 1200] |
| Particles.AutoCountAtFullDensity | js/bg.js:85-90 | at density 1 or more the count equals the clamped area count, so it is at least 220 |
| Particles.AutoCountMonotone | js/bg.js:89 | a higher density never gives fewer particles |
| Particles.AutoCountDensityCap | js/bg.js:69 | any density above 1 gives exactly the count of density 1 |
| Particles.AutoCountZeroDensity | js/bg.js:89 | a density of 0 or below gives no particles |
| Particles.AutoCountExample | js/bg.js:85-90 | an 800 × 600 viewport at density 1 gets 220 particles |
| Particles.Scaled | js/bg.js:89 | the density-scaled count lies between 0 and the rounded unscaled count |
| Particles.ScaledMonotone | js/bg.js:89 | a higher density never gives a smaller scaled count |
| Particles.DrawsAt | js/bg.js:96-108 | each of the eleven random draws a particle's spawn consumes lies in [0, 1) |
| Particles.PickIndex | js/bg.js:98-99 | a random palette pick is a valid index into the list |
| Particles.Signed | js/bg.js:105-106 | the random sign keeps the speed's magnitude and is negative exactly when its draw is below one half |
| Particles.SpawnCoordinate | js/bg.js:101-102 | a spawned coordinate lies in [-M, size + M) |
| Particles.SpawnColor | js/bg.js:96-99 | the colour is a dominant one exactly when the first draw is below `dominantWeight`, and otherwise an accent one |
| Particles.Spawn | js/bg.js:100-111 | a new particle has z in [0.2, 1.2), r in [0.6, 2.2), alphaBase in [0.35, 0.7), drift speeds in their ranges with the drawn signs, zero velocity, no twinkle, and a palette colour |
| Particles.InitParticles | js/bg.js:91-112 | the pool has exactly `autoCount` particles, each freshly spawned in range and coloured from the palette, dominant exactly when its draw is below the weight |
| Forces.Wrap | js/bg.js:225-226 | the result lies in [-M, size + M]; an in-range coordinate is kept; below the range becomes size + M; above it becomes -M |
| Forces.WrapIdempotent | js/bg.js:225-226 | wrapping twice is wrapping once |
| Forces.SwirlActivity | js/bg.js:193 | stir activity is in [0, 1]: full right after a cursor move and zero 800 ms later |
| Forces.SwirlActivityDecays | js/bg.js:193 | the stir activity never grows while the cursor stays still |
| Forces.Closeness | js/bg.js:212 | inside the swirl radius `tN` lies in (0, 1], and is 1 exactly at the cursor |
| Forces.ClosenessDecreasing | js/bg.js:212 | particles farther from the cursor are less close |
| Forces.Falloff | js/bg.js:213 | the falloff is in (0, 1] and is 1 at the cursor |
| Forces.FalloffIncreasing | js/bg.js:213 | the falloff grows with closeness |
| Forces.Impulse | js/bg.js:211-216 | the swirl kick `(-dy, dx)·k/dist` is perpendicular to the offset from the cursor and is zero within 0.0001 of the cursor; otherwise it has magnitude exactly k and turns counter-clockwise: its cross product with the offset is `+dist·k` |
| Forces.StrengthBound | js/bg.js:215 | the swirl strength is non-negative and at most `swirlStrength · depth factor` |
| Forces.Swirl | js/bg.js:207-217 | only the velocity changes; outside the radius, with activity at most 0.01, or within 0.0001 of the cursor nothing changes; otherwise the squared size of the velocity change is exactly k² (`KickAt`), its dot product with the cursor offset is 0 and its cross product is `+dist·k`, which together fix the change as the counter-clockwise tangent of size k |
| Forces.SwirlImpulseBound | js/bg.js:210-217 | the velocity change is at most `swirlStrength · (0.6 + 0.4 z)` in magnitude |
| Forces.SwirlFadesWithDistance | js/bg.js:210-216 | of two particles at the same depth, outside the 0.0001 dead zone, the one farther from the cursor never gets a larger kick |
| Forces.SwirlFadesStrictly | js/bg.js:210-216 | with a positive strength, while the swirl still reaches the farther of the two, the farther one gets a strictly smaller kick |
| Forces.KickAtLeast | js/bg.js:210-216 | a particle inside the reach of the swirl is kicked at least as hard as the swirl kicks at any larger distance it still reaches, and strictly harder for a positive strength |
| Forces.StrengthAtFades | js/bg.js:212-215 | the strength k is non-negative and never grows with the distance from the cursor; it strictly falls while strength and activity are positive |
| Forces.StrengthMonotone | js/bg.js:215 | k grows with the falloff, strictly when strength, depth factor and activity are positive |
| Forces.DepthFactor | js/bg.js:215 | the depth factor `0.6 + 0.4 z` is at least 0.6 for every non-negative depth |
| Forces.Drift | js/bg.js:220-226 | only position and velocity change; each velocity component is damped once by `velDamp`; each coordinate ends exactly where the wrap puts the old coordinate plus `0.15 · d · z` plus the old velocity, so inside the wrap box |
| Forces.Glide | js/bg.js:220-226 | one coordinate ends exactly where the wrap puts `v + 0.15 · dv · z + vel`: that value itself when it is in the box, `size + M` below it, `-M` above it; an at-rest in-box coordinate stays put |
| Forces.DriftAtRest | js/bg.js:220-226 | a particle at rest inside the box stays exactly as it is |
| Forces.Advance | js/bg.js:207-226 | a frame's particle update is the swirl followed by the drift: the new velocity is the swirled velocity damped once, the new position the wrap of the position plus drift plus swirled velocity; outside the swirl gate the old velocity is used; nothing but position and velocity changes |
| Forces.DampedIsPower | js/bg.js:222 | n frames of damping multiply the velocity by `velDamp^n` |
| Forces.DriftFrames | js/bg.js:220-226 | over n frames of drift only position and velocity change, and the velocity is damped n times |
| Forces.GeometricDamping | js/bg.js:222 | over n frames without a swirl the velocity is the starting velocity times `velDamp^n` |
| Forces.DampingNeverSpeedsUp | js/bg.js:222 | with `velDamp` in [0, 1] a frame never increases either velocity component in magnitude |
| Forces.DampShrinks | js/bg.js:222 | one damping by a factor in [0, 1] never increases a velocity component's magnitude |
| Twinkle.Expected | js/bg.js:145 | the expected number of starts is zero for an empty pool, a zero rate or a zero frame time, positive when all three are positive, and never negative for a non-negative rate and frame time |
| Twinkle.ExpectedPerSecond | js/bg.js:145 | over a whole second the expectation is the particle count times `twinkleRate` |
| Twinkle.ExpectedAdditive | js/bg.js:145 | the expectation of two frame times added is the sum of their expectations |
| Twinkle.ExpectedGrows | js/bg.js:145 | with a non-negative rate a longer frame never expects fewer starts |
| Twinkle.StartCount | js/bg.js:146-147 | the count is floor(expected), plus one exactly when the draw is below the fractional part; so it is floor(expected) when expected is whole, and within one of expected |
| Twinkle.EmptyPoolStartsNothing | js/bg.js:145-147 | an empty pool starts no twinkle |
| Twinkle.StartTwinkles | js/bg.js:144-151 | the number of picks is the scheduled count; every pick is a valid index drawn from its own random number; only picked particles change, and only in `twinkleUntil`, which becomes the clock at the last pick of that particle plus `twinkleMs` |
| Twinkle.Picks | js/bg.js:149 | the chosen indices are valid and each is its own draw times the length, truncated to an integer by a bitwise or with zero |
| Twinkle.Stamp | js/bg.js:150 | stamping one particle changes only that particle's `twinkleUntil` |
| Twinkle.StampAll | js/bg.js:148-151 | after the loop every particle picked at least once carries the stamp of its last pick, and every other particle is unchanged |
| Twinkle.LastPick | js/bg.js:148-151 | the last pick of a particle is a pick of it with no later pick of the same particle |
| Twinkle.Phase | js/bg.js:247-248 | the clamped twinkle phase is in [0, 1], and is 0 at the very start of a twinkle |
| Twinkle.PhaseAdvances | js/bg.js:247 | the phase never moves backwards as time advances |
| Twinkle.Bell | js/bg.js:248 | the bell is in [0, 1] and is 0 at phase 0 |
| Twinkle.Dip | js/bg.js:249 | the twinkling alpha lies between `alphaBase · (1 - depth)` and `alphaBase`; it is `alphaBase` when the bell is 0 and `alphaBase · (1 - depth)` at the top of the bell |
| Twinkle.Pulse | js/bg.js:250 | the size multiplier lies in [1, 1 + `twinkleSizePulse`]; it is 1 when the bell is 0 and `1 + twinkleSizePulse` at the top of the bell |
| Twinkle.Envelope | js/bg.js:245-251 | without an active twinkle the look is (`alphaBase`, 1); during one, alpha and size lie on the twinkle curve (`OnCurve`) at the height `Bell(Phase(twinkleUntil, now, twinkleMs))`: alpha = `alphaBase · (1 - depth · bell)` and size = `1 + pulse · bell`; both stay in the bounds of Dip and Pulse |
| Twinkle.EnvelopeStartsFlat | js/bg.js:245-251 | a twinkle that has just started does not yet change the look |
| Twinkle.TwinkleDimsAndGrows | js/bg.js:246-250 | strictly inside a twinkle the bell is positive, so a positive depth dims a particle of positive base opacity and a positive pulse grows it |
| Rotation.FrameDt | js/bg.js:160 | the frame time is the elapsed time capped at 50 ms, and is never negative when the clock does not run backwards |
| Rotation.LastActivity | js/bg.js:173 | the last activity is the later of the last cursor move and the last scroll |
| Rotation.IdleFraction | js/bg.js:174 | the idle fraction is in [0, 1]: 0 until the idle delay has passed, 1 once the fade has run its course |
| Rotation.IdleFractionGrows | js/bg.js:174 | the idle fraction grows with idle time |
| Rotation.RotSpeed | js/bg.js:175 | the rotation speed lies between the active and the idle speed |
| Rotation.RotationPhases | js/bg.js:173-175 | with a positive fade the speed is the active speed until the delay, the idle speed from delay + fade on, and between the two in the fade, strictly between them when the two speeds differ |
| Rotation.RotSpeedMovesTowardIdle | js/bg.js:173-175 | as idle time grows the speed moves monotonically from `rotActive` toward `rotIdle` |
| Rotation.SpinStep | js/bg.js:160-176 | a frame records its time; the angle advances by exactly the blended speed `RotSpeed` at the current idle time times the capped frame time, so by at most one frame's budget; with positive speeds and a clock that moved on it strictly increases; while the visitor is active it advances by exactly `rotActive · dt`, and once the idle fade has run its course by exactly `rotIdle · dt` |
| Rotation.RotationNeverReverses | js/bg.js:176 | with non-negative speeds and a clock that never runs backwards, the sky angle never decreases over any run of frames |
| Rotation.BudgetIsProduct | js/bg.js:176 | n frames' budget is n times one frame's |
| Rotation.RotationWithinBudget | js/bg.js:160-176 | after n frames the angle has grown by at most n · 50 ms · the larger speed |
| Compositor.CursorShift | js/bg.js:203-204 | the cursor parallax vanishes at depth 1.8 and when the cursor is centred; for z ≤ 1.8 its size is `abs(px)·(1.8 - z)·8` across and `abs(py)·(1.8 - z)·6` down, and for z < 1.8 each component points the way the cursor does |
| Compositor.ScrollShift | js/bg.js:229-230 | the scroll parallax vanishes at depth 1.4, at zero offset and at zero strength; for z ≤ 1.4 its size is `abs(sOffset·scrollStrength)·(1.4 - z)`, and for z < 1.4 it points the way `sOffset·scrollStrength` does |
| Compositor.DepthScale | js/bg.js:203-204 | a parallax shift vanishes when its amount or its depth factor is zero, and for a positive depth factor and gain it has the sign of its amount |
| Compositor.NearerScrollsMore | js/bg.js:229-230 | a nearer particle moves at least as far with the scroll |
| Compositor.NearerFollowsCursorMore | js/bg.js:203-204 | a nearer particle moves at least as far with the cursor |
| Compositor.DepthScaleMonotone | js/bg.js:229-230 | a deeper parallax factor gives a shift at least as large |
| Compositor.RotateAbout | js/bg.js:237-242 | the sky rotation keeps each point's distance from the centre and turns its offset by the angle: the dot product of old and new offsets is d² cos θ and their cross product d² sin θ, with d² the squared distance (`TurnedBy`); a zero angle keeps the point |
| Compositor.TurnIsUnique | js/bg.js:237-242 | away from the centre those two products fix the turned point: two points turned from the same point by the same sine and cosine coincide, so `TurnedBy` characterises the rotation |
| Compositor.Render | js/bg.js:253-260 | an alpha below 0.02 draws nothing; otherwise the core has that alpha, radius r · sizeMul and the particle's colour, and the glow has 0.18 of the alpha and 3.2 times the radius |
| Compositor.Place | js/bg.js:233-242 | the drawn position is the particle shifted by its cursor and scroll parallax, then turned about the viewport centre by the sky angle (`TurnedBy`): as far from the centre as before, and unmoved at angle 0 |
| Compositor.Draw | js/bg.js:245-260 | a particle is drawn exactly when its enveloped alpha is at least 0.02, and then at its placed position |
| Compositor.RestingParticleShows | js/bg.js:245-253 | a particle that is not twinkling is never culled |
| Compositor.ShallowTwinkleShows | js/bg.js:245-253 | with twinkle depth at most 0.94 no particle is ever culled |
| Background.Tick | js/bg.js:157-264 | a frame keeps the configuration and viewport; records its time; moves the cursor parallax by one `Lerp` step of factor 0.06 toward the cursor and the scroll offset by one `Lerp` step of factor `scrollDamp` toward the page offset, so never farther from either target and, for a factor strictly inside (0, 1), strictly between start and target; turns the sky by exactly one `SpinStep`, so by at most one frame's budget and never backwards; starts exactly `StartCount(Expected(count, twinkleRate, FrameDt))` twinkles, using the 50 ms capped frame time, the k-th on particle `PickIndex(rand(k + 1))`, and stamps `twinkleUntil` only for picked particles, with the clock at the last pick plus `twinkleMs`; moves every particle by exactly one `Advance` (swirl, then drift and wrap), so it keeps the particle count, every body, and positions in the wrap box; draws exactly the particles whose alpha passes the cull, at their placed positions |
| Background.TwinkleBurstCapped | js/bg.js:160-179 | the frame time is capped at 50 ms before the twinkle schedule sees it, so a frame never expects more starts than `count·twinkleRate·0.05` |
| Background.Reseed | js/bg.js:91-112 | rebuilding the pool replaces only the particles, with `autoCount` fresh ones |
| Background.Resize | js/bg.js:116-123 | `fit` adopts the new size and rebuilds the pool for it |
| Background.ApplyPresetScene | js/bg.js:268-272 | an unknown preset changes nothing; a known one merges the configuration and rebuilds the pool under the new density and margin |
| Background.Boot | js/bg.js:325-327 | boot ends with the starting configuration merged with Calm Nebula, at the window size, with the sky unturned |
| Background.BootState | js/bg.js:325-327 | after boot the dominant weight is 0.9 rather than the starting 0.85, the other six controls keep their starting values, and the pool is sized for density 1 |
| CarouselLayout.Rows | js/main.js:71 | there are two rows exactly when there are more than 18 images, otherwise one |
| CarouselLayout.PerRing | js/main.js:72 | `ceil(N / rows)`: the smallest ring size whose rows hold all N images |
| CarouselLayout.SlotOf | js/main.js:89-90 | every image's ring is one of the rows |
| CarouselLayout.SlotRoundTrip | js/main.js:89-90 | the image at an image's slot is that image |
| CarouselLayout.ImageRoundTrip | js/main.js:89-90 | every slot of a ring is the slot of exactly the image computed for it |
| CarouselLayout.SlotsDistinct | js/main.js:89-90 | distinct images get distinct slots |
| CarouselLayout.SlotWithinRing | js/main.js:70-90 | every image's slot index is below the ring size |
| CarouselLayout.PlaneWidth | js/main.js:73-74 | the plane width is in [1.45, 2.6], and is `3.0 - 0.06 · perRing` whenever that is in range |
| CarouselLayout.PlaneWidthShrinks | js/main.js:74 | larger rings never get wider planes |
| CarouselLayout.PlaneHeight | js/main.js:75-76 | planes keep the 0.69 aspect, so their height stays in [1.45 · 0.69, 2.6 · 0.69] |
| CarouselLayout.RingRadius | js/main.js:77-78 | the circumference 2πr equals the planes' total spaced width |
| CarouselLayout.RowGap | js/main.js:79 | with two rows at `RowY`, planes of height h leave a clearance of exactly 0.6 between the bottom edge of the upper row and the top edge of the lower one |
| CarouselLayout.RowY | js/main.js:105 | one row sits at 0; of two rows the first is at +gap/2 and the second at -gap/2 |
| CarouselLayout.RingsSymmetric | js/main.js:105 | the two rows are a gap apart and symmetric about 0 |
| CarouselLayout.SlotAngle | js/main.js:91 | each slot's angle is in [0, 2π) |
| CarouselLayout.SlotAnglesIncrease | js/main.js:91 | angles increase with the slot index |
| CarouselLayout.LayoutOf | js/main.js:70-79 | the layout's rows, ring size, plane size, row gap and radius satisfy all of the above together |
| CarouselLayout.ShippedLayout | js/main.js:70-79 | the 24 shipped images use two rows of 12 with planes 2.28 wide |
| CarouselLayout.PlaneOf | js/main.js:88-108 | each plane sits on its ring's circle of the layout radius, at its row's height, with its angle in [0, 2π) |
| CarouselInput.OnDown | js/main.js:115 | pressing starts a drag at x without moving the target |
| CarouselInput.OnMove | js/main.js:116 | without a press a move changes nothing; during a drag it adds 0.002 · (x - lastX) to the target and remembers x |
| CarouselInput.OnUp | js/main.js:117 | releasing ends the drag and keeps the target |
| CarouselInput.DragTelescopes | js/main.js:114-117 | a run of moves during a drag turns the target by 0.002 · (last x - press x), whatever the path |
| CarouselInput.ReleasedIgnoresMoves | js/main.js:116 | moves without a press change nothing |
| CarouselInput.OnKey | js/main.js:154-158 | ArrowLeft turns by -0.25, ArrowRight by +0.25, every other key leaves the target alone |
| CarouselInput.ArrowsCancel | js/main.js:155-156 | left then right returns the target to where it was |
| CarouselInput.Zoom | js/main.js:127-129 | the camera distance stays in [5.5, 14]; a wheel step moves it by +0.45 for a positive deltaY and -0.45 otherwise whenever that stays in range |
| CarouselInput.ZoomDirection | js/main.js:128 | scrolling down never brings the camera nearer, and scrolling up or not at all never moves it away |
| CarouselInput.Handle | js/main.js:113-158 | only the wheel moves the camera, and the wheel leaves the drag alone |
| CarouselInput.CameraStaysInRange | js/main.js:127-129 | from any in-range distance, every sequence of events keeps the camera in [5.5, 14] |
| CarouselInput.CameraRangeFromStart | js/main.js:59 | starting at distance 9, the camera is always in [5.5, 14] |
| CarouselInput.OnlyWheelZooms | js/main.js:113-158 | a sequence of events without wheel events leaves the camera where it was |
| CarouselInput.SwayY | js/main.js:189-190 | a plane's height stays within 0.06 of its base height |
| CarouselInput.SwayDoesNotAccumulate | js/main.js:186-190 | after any number of frames the height depends only on the last frame's time, never on the frames before it |
| CarouselInput.FocusOpacity | js/main.js:196 | the focus opacity is in [0.42, 1], and is the mapped value whenever that is already in range |
| CarouselInput.FocusOpacityMonotone | js/main.js:196 | the clamp keeps the order of mapped values |
| CarouselInput.FallbackGrid | js/main.js:50-52 | the fallback grid shows the first min(N, 12) images in order, the i-th numbered i + 1 |

## Left out

- `js/camera.js` is not part of this model. It only builds a Three.js wireframe scene.
- The lil-gui panel, its `g` toggle and `?gui=1` (js/bg.js:266-322) are not modelled. The only logic they hold is calling `applyPreset` and `initParticles`, and both are modelled. `Config.Set` stands for one control edit.
- Canvas drawing is not modelled: the vignette gradient, `arc`, `fill`, the compositing mode and the `rgba` string. The model stops at each sprite's colour, alpha, radius and position.
- Event wiring is not modelled: `setMouse`'s normalisation, the scroll handler's fallbacks, `requestAnimationFrame`, and `fit`'s device-pixel-ratio scaling and flooring. The signals the handlers record are the fields of `Background.Signals`. The viewport is given in CSS pixels.
- IEEE-754 floating point is not modelled; all arithmetic is exact. `sin`, `cos`, `pow` and `hypot` are abstract functions constrained only by the facts listed above.
- The `NaN` of `(idle - delay) / idleFadeMs` when `idleFadeMs` is 0 and the idle time equals the delay is not modelled. With a zero fade, `Rotation.IdleFraction` is a step.
- In `js/main.js`, everything inside Three.js is left out: the scene, renderer, textures, `lookAt`, raycasting, the lightbox and its Escape key, and the resize observer.
- `MathUtils.damp` is left out, both for `rot` (js/main.js:183) and for the focus scale and opacity.
- `MathUtils.mapLinear` and the float `%` of the focus distance are left out. `CarouselInput.FocusOpacity` takes the already mapped value.
- Artist and location captions are not modelled.
- Background.Tick: requires fewer than 2^31 particles, so that `(u · len) | 0` is a plain floor. `autoCount` never exceeds 1200.
- Twinkle.StartTwinkles: requires fewer than 2^31 particles, for the same reason.
- Twinkle.StartTwinkles: reads the clock once per pick, as the script calls `performance.now()` inside its loop. The script's promise that a picked particle twinkles until `now + twinkleMs` is exact only for a clock that does not move during the loop, which is the contract's last clause.
- Rotation.RotationWithinBudget: states the bound through `Rotation.Budget`, the sum of per-frame budgets. `Rotation.BudgetIsProduct` turns that sum into n times one frame's budget.
- Forces.SwirlImpulseBound: bounds the velocity change only for non-negative strength, positive falloff and non-negative depth. The script's controls never leave those ranges, but a raw `CFG` could.
