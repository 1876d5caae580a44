# Pixel fireworks: a verified model of the simulation core

This project models the physics core of a pixel-art fireworks web app.
Rockets fly up from a launch point. When a rocket reaches its explosion
height it is replaced by a batch of particles, and each batch falls under
gravity and fades until it is removed. Every position is drawn snapped to
a square grid, while an unsnapped "true" position carries the physics.

The core exists in four renderers, and the model keeps all four apart:

- `Animation` (lib/three/animation.ts): fixed frame step, planar particles
  with two position slots each, and explosion at launch height plus 15.
- `AnimationJs` (lib/three/animation-js.ts): time-scaled step by `delta`,
  three-dimensional particles, and explosion at the absolute depth 15 on z.
- `AnimationWasm` (lib/three/animation-wasm.ts): the same loops, with the
  physics handed to a compiled backend through numbered calls.
- `LegacyCanvas` (components/Canvas.tsx): one mesh per pixel inside a
  group, the decay applied before the move, and the removal check after it.

Beside the renderers the model covers:

- the backend's own buffer kernels and its seeded explosion generator
  (`WasmLib`, `WasmUtils`);
- the two grid snappers, which round half-way cases differently
  (`WasmUtils`, `Utils`);
- the pastel colour map (`ColorUtils`);
- the six firework velocity profiles (`FireworkConfig`);
- the rocket and explosion factory (`FireworkModel`);
- the store of saved firework placements (`FireworkStore`).

State that the source changes in place is modelled in place:

- A rocket or a particle batch is a `class` whose methods update its fields.
- A flat `Float32Array` buffer is an `array<real>`.
- The `rocketsRef`/`particlesRef` lists are `seq` fields that the loops
  splice.

Each loop method is proved against a specification function of the old
state: `FlyAll`, `BurstFlags`, `PlanarStep`, `SpatialStep`, `Fade`,
`KeptFrom`, `WasmFlights` and so on. Lemmas then state what those functions
promise.

Helper modules:

- `Vectors` holds the vector types. It also holds an oracle `Trig` with
  `ValidTrig` that stands for cosine and sine, and the predicate `Unit` for
  one `Math.random()` draw.
- `Buffers` holds the specification functions of the flat-buffer updates
  shared by the loops.
- `Types` holds the mutable item classes, the splice bookkeeping
  (`KeptFrom`/`DroppedFrom`) and the loop invariants shared by the three
  instanced renderers.

Numbers are reals. Randomness, the clock, trigonometry, the compiled
backend's replies and the constants of the unshown `lib/three/constants`
module are parameters.

## Model

| member | source | states |
|---|---|---|
| WasmUtils.Round | wasm-lib/src/utils.rs:7 | the result is the integer within half a unit of `x`, and a half-way value goes to the integer away from zero |
| WasmUtils.SnapToGrid | wasm-lib/src/utils.rs:6-8 | the snapped value is an integer multiple of the cell size |
| WasmUtils.SnapIsRoundedMultiple | wasm-lib/src/utils.rs:6-8 | snapped value divided by the cell size is the rounded quotient |
| WasmUtils.RoundOfInteger | wasm-lib/src/utils.rs:7 | rounding leaves integers unchanged |
| WasmUtils.SnapIdempotent | wasm-lib/src/utils.rs:6-8 | snapping a snapped value changes nothing |
| WasmUtils.SnapWithinHalfCell | wasm-lib/src/utils.rs:6-8 | for a positive cell size the snapped value lies within half a cell of the input |
| WasmUtils.SnapTiesAwayFromZero | wasm-lib/src/utils.rs:6-8 | plus or minus half a cell snaps to plus or minus one cell |
| WasmUtils.RoundMonotone | wasm-lib/src/utils.rs:7 | rounding is monotone |
| WasmUtils.SnapMonotone | wasm-lib/src/utils.rs:6-8 | for a positive cell size snapping is monotone |
| Utils.MathRound | lib/utils.ts:4 | the result is the integer within half a unit of `x`, and a half-way value goes up |
| Utils.SnapToGrid | lib/utils.ts:3-5 | the snapped value is an integer multiple of the cell size |
| Utils.MathRoundOfInteger | lib/utils.ts:4 | rounding leaves integers unchanged |
| Utils.SnapIsRoundedMultiple | lib/utils.ts:3-5 | snapped value divided by the cell size is the rounded quotient |
| Utils.SnapIdempotent | lib/utils.ts:3-5 | snapping a snapped value changes nothing |
| Utils.SnapWithinHalfCell | lib/utils.ts:3-5 | for a positive cell size the snapped value lies within half a cell of the input |
| Utils.SnapTiesTowardsPositive | lib/utils.ts:3-5 | half a cell snaps to one cell, minus half a cell snaps to 0 here but to minus one cell in the backend snapper |
| Utils.RoundsAgreeOffNegativeTies | lib/utils.ts:4 | the host and backend rounders agree on every input except negative half-way values |
| Utils.SnapAgreesWithBackendOffNegativeTies | lib/utils.ts:3-5 | the two snappers agree unless the quotient is a negative half-way value |
| Utils.SnapMonotone | lib/utils.ts:3-5 | for a positive cell size snapping is monotone |
| Utils.GetColorVariation | lib/utils.ts:7-9 | a draw in [0, 1) gives a variation in [0.7, 1.0) |
| ColorUtils.PastelChannel | model/color-utils.ts:4-6 | the channel map is inverted by subtracting 0.4, dividing by 0.6 and scaling by 255; a channel in [0, 255] maps into [0.4, 1.0] |
| ColorUtils.PastelColorInRange | model/color-utils.ts:3-8 | every channel of a pastel colour made from channels in [0, 255] lies in [0.4, 1.0] |
| ColorUtils.PastelChannelsIndependent | model/color-utils.ts:3-8 | each output channel depends only on its own input channel |
| ColorUtils.PastelColorEndpoints | model/color-utils.ts:3-8 | black maps to grey 0.4 and white maps to white |
| ColorUtils.PastelChannelStrictlyIncreasing | model/color-utils.ts:4-6 | a brighter input channel gives a strictly brighter output channel |
| FireworkConfig.BreakLevel | model/firework-config.ts:93 | the multi-break level is 0, 1 or 2, the whole part of three times the draw |
| FireworkConfig.GetDefaultFireworkType | model/firework-config.ts:106-108 | the default type is the first configured one, keyed `peony` |
| FireworkConfig.SixDistinctTypes | model/firework-config.ts:21-102 | there are exactly six types, every type is listed, and no two share a position or a key |
| FireworkConfig.BaseColorsArePastel | model/firework-config.ts:21-102 | every base colour has all three channels in [0.4, 1.0] |
| FireworkConfig.ProfilesArePlanar | model/firework-config.ts:21-102 | every profile's velocity has z equal to 0 |
| FireworkConfig.PeonySpeedRange | model/firework-config.ts:26-33 | for a radius in [0.5, 1.0) the peony speed lies in [0.2, 0.7) |
| FireworkConfig.SpreadSpeedNonnegative | model/firework-config.ts:52-86 | willow and palm speeds are non-negative for a non-negative radius |
| FireworkConfig.WillowDroops | model/firework-config.ts:52-59 | a willow particle never moves up, and its sideways speed is at most 0.3 of its speed |
| FireworkConfig.PalmRises | model/firework-config.ts:79-86 | a palm particle never moves down, and its sideways speed is at most 0.4 of its speed |
| FireworkConfig.RingHasFixedSpeed | model/firework-config.ts:65-73 | every ring particle moves at speed 0.5 whatever its radius and draws |
| FireworkConfig.MultiBreakBands | model/firework-config.ts:92-100 | a multi-break speed is 0.3, 0.55 or 0.8 times the radius |
| FireworkModel.ExplosionHeightIgnoresConfig | model/firework.ts:34-36 | the explosion height is 15 for every firework type |
| FireworkModel.CreateRocket | model/firework.ts:46-72 | the rocket is drawn at its snapped true position with the given z; its true position is the snapped (x, y); vx lies in [-0.05, 0.05), vy lies in [0.5, 0.7) and vz is 0 |
| FireworkModel.ParticleRadius | model/firework.ts:90 | a particle radius lies in [0.5, 1.0) |
| FireworkModel.SlotsOfParticle | model/firework.ts:94-96 | slots 3i and 3i+1 hold particle i's profile velocity and slot 3i+2 holds 0 |
| FireworkModel.BurstVelocitiesAt | model/firework.ts:86-130 | the burst velocity buffer has three slots per particle, each as the slot rule says |
| FireworkModel.BurstVelocitiesGrow | model/firework.ts:94-96 | one more loop pass appends exactly that particle's three slots |
| FireworkModel.WriteBurstSlots | model/firework.ts:94-96 | after pass i the array prefix equals the burst buffer of the first i+1 particles |
| FireworkModel.CreateExplosion | model/firework.ts:74-133 | a fresh array of 3 * 500 velocities equal to the burst buffer, and 500 pixels each built from its own draws |
| FireworkModel.BurstSlotsFollowProfile | model/firework.ts:89-96 | particle i's slots are the configured profile at angle 2πi/500 and its radius, with z slot 0 |
| FireworkModel.BurstPixelFacts | model/firework.ts:99-126 | each pixel sits at the snapped explosion point and its true position snaps to it; initial opacity and opacity are 1; each colour channel is the base channel scaled into [0.7, 1] |
| WasmLib.UpdateParticles | wasm-lib/src/lib.rs:16-39 | alpha is multiplied by 0.96; below 0.05 neither buffer changes; otherwise both buffers become the planar step of their old contents |
| WasmLib.SnapParticlePositions | wasm-lib/src/lib.rs:42-52 | returns 2 * count values, each the backend snap of the matching true-position slot |
| WasmLib.UpdateRocketPositions | wasm-lib/src/lib.rs:55-75 | the first 3 * count position slots gain their velocity and the rest are unchanged; the reply holds snapped x, snapped y and 0 per rocket |
| WasmLib.InitialSeed | wasm-lib/src/lib.rs:102 | the starting seed is a 32-bit value |
| WasmLib.NextSeed | wasm-lib/src/lib.rs:104 | one generator step stays a 32-bit value |
| WasmLib.Draw | wasm-lib/src/lib.rs:105 | a draw lies in [0, 65535/65536], inside [0, 1) |
| WasmLib.Radius | wasm-lib/src/lib.rs:106 | a particle radius lies in [0.5, 1.0) |
| WasmLib.Profile | wasm-lib/src/lib.rs:113-159 | every backend profile has z equal to 0 |
| WasmLib.CalculateVelocity | wasm-lib/src/lib.rs:95-160 | every backend particle velocity has z equal to 0 |
| WasmLib.BackendMatchesConfig | wasm-lib/src/lib.rs:113-159 | given the same draws, the backend profile for each type code equals the host configuration's profile for the matching type |
| WasmLib.UnknownCodeIsPeony | wasm-lib/src/lib.rs:154-158 | a type code above 5 behaves exactly as code 0 (peony) |
| WasmLib.DrawBounds | wasm-lib/src/lib.rs:102-111 | every particle's draws lie in [0, 1), its radius lies in [0.5, 1.0) and its break level is at most 2 |
| WasmLib.SeedsWrapAt32Bits | wasm-lib/src/lib.rs:102 | indices 2^32 apart give the same seed, radius and draws |
| WasmLib.ExplosionVelocitiesAt | wasm-lib/src/lib.rs:84-90 | the buffer has three slots per particle, holding that particle's velocity x, y and 0 |
| WasmLib.CalculateExplosionVelocities | wasm-lib/src/lib.rs:78-93 | returns the explosion buffer of all particles, of length 3 * count |
| Buffers.ParticleStepWrites | wasm-lib/src/lib.rs:32-35 | one particle's step lowers its vy by gravity and moves x by vx and y by the new vy |
| Buffers.ParticleStepKeeps | wasm-lib/src/lib.rs:28-36 | one particle's step changes no other velocity or position slot |
| Buffers.PlanarStepVelocity | wasm-lib/src/lib.rs:28-36 | after the whole pass each stepped particle's vy is lowered by gravity and its vx and vz are kept |
| Buffers.PlanarStepKeepsVxVz | wasm-lib/src/lib.rs:28-36 | the pass never changes an x or z velocity slot |
| Buffers.PlanarStepPosition | wasm-lib/src/lib.rs:28-36 | after the pass each stepped particle's position moved by vx and by the lowered vy |
| Buffers.PlanarStepBeyond | wasm-lib/src/lib.rs:28-36 | slots past the stepped particles are unchanged |
| Buffers.SpatialParticleStepWrites | lib/three/animation-js.ts:81-85 | one particle's time-scaled step lowers vz by gravity times delta and moves each axis by its velocity times delta |
| Buffers.SpatialParticleStepKeeps | lib/three/animation-js.ts:77-94 | one particle's step changes no other slot |
| Buffers.SpatialStepAt | lib/three/animation-js.ts:77-94 | after the whole pass every particle's slots are as the one-particle step says |
| Buffers.SpatialStepBeyond | lib/three/animation-js.ts:77-94 | slots past the stepped particles are unchanged |
| Buffers.SpatialStepAtRest | lib/three/animation-js.ts:77-94 | a pass with delta 0 changes nothing |
| Types.RocketItem.constructor | lib/three/types.ts:4-13 | a rocket entry holds the given positions, velocity, type and launch height, and no backend id yet |
| Types.ParticleItem.constructor | lib/three/types.ts:15-21 | a fresh batch: the velocity buffer holds the burst, every true position and instance is at the explosion point, alpha and opacity are 1, no backend id |
| Types.DroppedFromIsExact | lib/three/animation.ts:21-51 | an index is removed by the reverse walk exactly when its flag is set, and kept plus removed entries make up the suffix |
| Types.KeptFromIsExact | lib/three/animation.ts:21-51 | an entry survives the reverse walk with splice exactly when some unflagged index holds it |
| Types.SpliceStep | lib/three/animation.ts:49 | splicing index j-1 out, or leaving it, keeps the list equal to the untouched prefix followed by the survivors |
| Types.SpliceEnds | lib/three/animation.ts:21 | before the walk the list is the whole prefix; after it, only the survivors are left |
| Types.DroppedFromDescending | lib/three/animation.ts:21-43 | explosions are pushed in strictly descending rocket index, the order of the reverse walk |
| Types.RocketLoopEnd | lib/three/animation.ts:21-51 | at the end of the walk every rocket has flown, the survivors stay in order, and the new batches are appended after the old ones |
| Animation.RenderPosition | lib/three/animation.ts:28-30 | the render position is the snapped true x and y, with z equal to 0 |
| Animation.Fly | lib/three/animation.ts:24-30 | a rocket's true position gains one velocity step and it is drawn at the snapped point |
| Animation.FlyAll | lib/three/animation.ts:21-30 | (definition) every rocket flies by its own velocity |
| Animation.BurstFlags | lib/three/animation.ts:32-34 | (definition) a rocket explodes exactly when its new true y reaches launch height plus 15 |
| Animation.Move | lib/three/animation.ts:24-30 | the rocket's state becomes `Fly` of its old state |
| Animation.FlyAt | lib/three/animation.ts:22-50 | one pass moves rocket i; if it explodes it is spliced out and one fresh batch spawned at its render position is pushed; the batch is the intended instanced one (see Findings) |
| Animation.RocketPass | lib/three/animation.ts:21-51 | one pass carries the loop invariant from i+1 down to i |
| Animation.UpdateRockets | lib/three/animation.ts:16-52 | every rocket flies; exactly the exploding ones are removed, the rest keep their order; old batches stay and new fresh batches come one per explosion in reverse order; the batch is the intended instanced one (see Findings) |
| Animation.SnappedInstancesAt | lib/three/animation.ts:84-89 | instance j is drawn at the snapped (x, y) of particle j with z 0 |
| Animation.SnappedInstancesAppend | lib/three/animation.ts:84-89 | placing one more particle appends its snapped instance |
| Animation.StepParticle | lib/three/animation.ts:76-89 | the buffers take one particle's step, and the placed instances grow by that particle |
| Animation.StepBatch | lib/three/animation.ts:75-92 | the buffers become the planar step and every instance sits at its snapped true position |
| Animation.Fade | lib/three/animation.ts:63-90 | alpha and opacity become alpha times the decay; a batch below the threshold keeps its buffers and instances |
| Animation.FadeNeverBrightens | lib/three/animation.ts:63 | for a decay constant in (0, 1], a frame never raises alpha and never makes it negative |
| Animation.FadeSurvivor | lib/three/animation.ts:75-90 | in a surviving batch each particle falls and moves, and its instance is its new snapped position |
| Animation.FadeBatch | lib/three/animation.ts:59-92 | the batch takes `Fade`, and it is marked for removal exactly when its new alpha is below the threshold |
| Animation.FadeFlags | lib/three/animation.ts:63-66 | (definition) a batch is removed exactly when its decayed alpha is below the threshold |
| Animation.FadeAt | lib/three/animation.ts:59-73 | one pass fades batch i and splices it out exactly when flagged |
| Animation.BatchPass | lib/three/animation.ts:58-93 | one pass carries the loop invariant from i+1 down to i |
| Animation.BatchLoop | lib/three/animation.ts:58-93 | the reverse walk leaves only the survivors, and every batch faded |
| Animation.UpdateParticles | lib/three/animation.ts:54-94 | the list keeps exactly the batches whose decayed alpha is at least the threshold, in order, and every batch faded as `Fade` says |
| Animation.BatchEntry | lib/three/animation.ts:58-64 | (definition) a well-formed stride-2 batch presents velocities, true positions, an alpha and a material that `updateParticles` can step |
| Animation.PushedGroup | lib/three/animation.ts:36-43 | (definition) the entry pushed as written carries no velocities, no true positions, no alpha and no material |
| Animation.FadeEntry | lib/three/animation.ts:63-64 | the opacity store throws exactly when the entry has no material; otherwise alpha is the decayed alpha, or `NaN` when there was none |
| Animation.PushedGroupNotSteppable | lib/three/animation.ts:36-64 | the pushed group is never a batch `updateParticles` can step, and the next frame throws on it |
| Animation.SpawnedBatchSteppable | lib/three/animation.ts:36-64 | the batch spawned for an explosion can be stepped, holds the burst's velocities and fades from 1 to the decay constant |
| AnimationJs.RenderPosition | lib/three/animation-js.ts:29-31 | the render position snaps all three axes |
| AnimationJs.RenderPositionIdempotent | lib/three/animation-js.ts:29-31 | rendering a rendered position changes nothing |
| AnimationJs.AdvanceUnitAndEmptyFrames | lib/three/animation-js.ts:25-27 | delta 1 adds the velocity once and delta 0 leaves the position |
| AnimationJs.AdvanceAdditive | lib/three/animation-js.ts:25-27 | two moves by d1 and d2 equal one move by d1 + d2 |
| AnimationJs.Fly | lib/three/animation-js.ts:25-31 | the true position advances by velocity times delta, and the rocket is drawn at the snapped point |
| AnimationJs.FlyAll | lib/three/animation-js.ts:22-31 | (definition) every rocket flies by its own velocity |
| AnimationJs.BurstFlags | lib/three/animation-js.ts:33-35 | (definition) a rocket explodes exactly when its new true z reaches 15 |
| AnimationJs.Move | lib/three/animation-js.ts:25-31 | the rocket's state becomes `Fly` of its old state |
| AnimationJs.FlyAt | lib/three/animation-js.ts:23-51 | one pass moves rocket i; if it explodes it is spliced out and one fresh three-dimensional batch is pushed |
| AnimationJs.RocketPass | lib/three/animation-js.ts:22-52 | one pass carries the loop invariant from i+1 down to i |
| AnimationJs.UpdateRockets | lib/three/animation-js.ts:16-53 | every rocket flies by delta; exactly the exploding ones are removed in order; one fresh batch per explosion is appended |
| AnimationJs.SnappedInstancesAt | lib/three/animation-js.ts:87-93 | instance j is the rendered point of particle j |
| AnimationJs.SnappedInstancesAppend | lib/three/animation-js.ts:87-93 | placing one more particle appends its rendered point |
| AnimationJs.StepParticle | lib/three/animation-js.ts:78-93 | the buffers take one particle's time-scaled step, and the placed instances grow by that particle |
| AnimationJs.StepBatch | lib/three/animation-js.ts:77-94 | the buffers become the spatial step and every instance is the rendered true position |
| AnimationJs.Fade | lib/three/animation-js.ts:65-94 | alpha and opacity become alpha times the decay factor; a batch below the threshold keeps its buffers and instances |
| AnimationJs.FadeSurvivor | lib/three/animation-js.ts:77-94 | in a surviving batch each slot falls and moves by delta, and its instance is its rendered new position |
| AnimationJs.FadeAtRest | lib/three/animation-js.ts:65 | an empty frame (delta 0) changes neither alpha nor buffers |
| AnimationJs.FadeUnitFrame | lib/three/animation-js.ts:65 | a unit frame decays alpha exactly as the fixed-step renderer does |
| AnimationJs.FadeNeverBrightens | lib/three/animation-js.ts:65 | a frame never raises alpha and never makes it negative |
| AnimationJs.FadeBatch | lib/three/animation-js.ts:61-96 | the batch takes `Fade`, and it is marked for removal exactly when its new alpha is below the threshold |
| AnimationJs.FadeFlags | lib/three/animation-js.ts:65-68 | (definition) a batch is removed exactly when its decayed alpha is below the threshold |
| AnimationJs.FadeAt | lib/three/animation-js.ts:61-75 | one pass fades batch i and splices it out exactly when flagged |
| AnimationJs.BatchPass | lib/three/animation-js.ts:60-97 | one pass carries the loop invariant from i+1 down to i |
| AnimationJs.BatchLoop | lib/three/animation-js.ts:60-97 | the reverse walk leaves only the survivors, and every batch faded |
| AnimationJs.UpdateParticles | lib/three/animation-js.ts:55-98 | the list keeps exactly the batches whose decayed alpha stays at least the threshold, in order, and every batch faded by delta |
| AnimationWasm.Unset | lib/three/animation-wasm.ts:21 | (definition) an entry needs registering exactly when it holds no backend id |
| AnimationWasm.Registered | lib/three/animation-wasm.ts:21-33 | an entry that already has an id keeps it |
| AnimationWasm.AssignedIds | lib/three/animation-wasm.ts:18-33 | (definition) entry n gets its old id, or the id of the next creation call, counting the unregistered entries after it first |
| AnimationWasm.AssignedIdsFresh | lib/three/animation-wasm.ts:18-33 | an entry earlier in the list is registered by a later creation call than any entry after it |
| AnimationWasm.RocketWasmIds | lib/three/types.ts:11-13 | (definition) the held ids are the rockets' optional backend ids |
| AnimationWasm.WasmFly | lib/three/animation-wasm.ts:35-45 | (definition) the rocket records its id; a six-value reply sets the true and render positions, and any other reply leaves them |
| AnimationWasm.WasmFlights | lib/three/animation-wasm.ts:18-45 | (definition) rocket n takes the reply of the update call made for it, counting from the end of the list |
| AnimationWasm.Exploding | lib/three/animation-wasm.ts:47-49 | (definition) a rocket explodes exactly when its new true z reaches 15 |
| AnimationWasm.RocketCallsFor | lib/three/animation-wasm.ts:21-35 | an unregistered rocket makes a creation call with its position and velocity and then one update call; a registered rocket makes only the update call |
| AnimationWasm.RocketCallsShape | lib/three/animation-wasm.ts:18-35 | the walk makes one update per rocket plus one creation per unregistered rocket, and no other calls |
| AnimationWasm.Sync | lib/three/animation-wasm.ts:21-45 | the rocket takes its id and reply, and the backend log grows by exactly this rocket's calls |
| AnimationWasm.FlyAt | lib/three/animation-wasm.ts:19-66 | one pass syncs rocket i; if it explodes it is spliced out and a fresh batch is pushed; the backend served exactly its calls |
| AnimationWasm.RocketsClosed | lib/three/animation-wasm.ts:69-71 | after the walk the log holds every rocket call, followed by a clearing call exactly when the list became empty |
| AnimationWasm.FlyPass | lib/three/animation-wasm.ts:18-67 | one pass carries the loop invariant from i+1 down to i and records rocket i's calls |
| AnimationWasm.RocketPass | lib/three/animation-wasm.ts:18-67 | one pass carries both the list invariant and the log invariant down to i |
| AnimationWasm.RocketLoopRun | lib/three/animation-wasm.ts:18-67 | the reverse walk flies every rocket and leaves the log with every rocket call |
| AnimationWasm.RocketsRun | lib/three/animation-wasm.ts:18-71 | the walk, then a clearing call exactly when rockets existed and none is left |
| AnimationWasm.UpdateRockets | lib/three/animation-wasm.ts:10-72 | every rocket gets its assigned id and the reply of its update call; exactly the rockets whose new z reaches 15 are removed, with one fresh batch each; the backend log is the rocket calls, then the clearing call when the list emptied; an empty list makes no call |
| AnimationWasm.Placed | lib/three/animation-wasm.ts:108-117 | (definition) instance j is placed at reply slots 3j, 3j+1 and 3j+2 |
| AnimationWasm.Place | lib/three/animation-wasm.ts:108-117 | the instance array becomes the placed reply |
| AnimationWasm.WasmFade | lib/three/animation-wasm.ts:93-119 | alpha and opacity become alpha times the decay factor; the buffers stay on the host unchanged; a surviving batch's instances are the placed reply |
| AnimationWasm.BatchCalls | lib/three/animation-wasm.ts:85-106 | an unregistered batch makes a creation call with its buffers and count; a surviving batch makes one update call; a removed one makes none |
| AnimationWasm.FadeBatch | lib/three/animation-wasm.ts:85-119 | the batch records its id and takes `WasmFade`; it is removed exactly when the new alpha is below the threshold; the backend served exactly its calls |
| AnimationWasm.WasmIds | lib/three/types.ts:23-25 | (definition) the held ids are the batches' optional backend ids |
| AnimationWasm.Dimming | lib/three/animation-wasm.ts:93-96 | (definition) a batch is removed exactly when its decayed alpha is below the threshold |
| AnimationWasm.WasmFades | lib/three/animation-wasm.ts:81-119 | (definition) batch n takes the reply of the update call made for it, counting surviving batches after it |
| AnimationWasm.ParticleCallsShape | lib/three/animation-wasm.ts:81-106 | the walk makes one creation per unregistered batch and one update per surviving batch, and no other calls |
| AnimationWasm.FadeOne | lib/three/animation-wasm.ts:82-119 | batch i is synced as its id and reply say, and its removal flag is the scheduled one |
| AnimationWasm.FadeAt | lib/three/animation-wasm.ts:82-119 | one pass syncs batch i and splices it out exactly when flagged |
| AnimationWasm.BatchPass | lib/three/animation-wasm.ts:81-120 | one pass carries the list invariant and the log invariant down to i |
| AnimationWasm.ParticlesClosed | lib/three/animation-wasm.ts:122-124 | after the walk the log holds every batch call, followed by a clearing call exactly when the list became empty |
| AnimationWasm.BatchLoop | lib/three/animation-wasm.ts:81-120 | the reverse walk syncs every batch and leaves only the survivors |
| AnimationWasm.UpdateParticles | lib/three/animation-wasm.ts:74-125 | the survivors are exactly the batches not dimmed below the threshold, in order; each batch got its assigned id and reply; the log is the batch calls, then the clearing call when the list emptied, with creation and update counts advanced accordingly |
| LegacyCanvas.Rocket.constructor | components/Canvas.tsx:393-398 | a rocket entry holds the launch's positions and velocity and the chosen type |
| LegacyCanvas.Group.constructor | components/Canvas.tsx:173-182 | a group holds the velocity buffer, its own copy of the pixels and the given alpha |
| LegacyCanvas.Fly | components/Canvas.tsx:155-167 | the true (x, y) gains one velocity step and the rocket is drawn at the snapped point with z 0 |
| LegacyCanvas.FlyAll | components/Canvas.tsx:136-167 | (definition) every rocket flies by its own velocity |
| LegacyCanvas.BurstFlags | components/Canvas.tsx:169-172 | (definition) a rocket explodes exactly when its new true y reaches the type's explosion height |
| LegacyCanvas.Move | components/Canvas.tsx:155-167 | the rocket's state becomes `Fly` of its old state |
| LegacyCanvas.Explode | components/Canvas.tsx:173-182 | a fresh group built by `createExplosion` at the render point, with alpha 1 |
| LegacyCanvas.FlyAt | components/Canvas.tsx:137-199 | one pass moves rocket i; if it explodes it is spliced out and one fresh group is pushed |
| LegacyCanvas.RocketPass | components/Canvas.tsx:136-200 | one pass carries the loop invariant from i+1 down to i |
| LegacyCanvas.RocketLoopRun | components/Canvas.tsx:136-200 | the reverse walk flies every rocket |
| LegacyCanvas.UpdateRockets | components/Canvas.tsx:130-201 | every rocket flies; exactly the exploding ones are removed, the rest keep their order; one fresh group per explosion is appended |
| LegacyCanvas.LaunchFirework | components/Canvas.tsx:393-398 | one fresh rocket of the chosen type is appended, carrying the launch made at the initial height |
| LegacyCanvas.LaunchedRocket | components/Canvas.tsx:395 | a launched rocket starts at the snapped initial height, is drawn at z 0 and climbs at least 0.5 per frame |
| LegacyCanvas.MovePixel | components/Canvas.tsx:239-259 | (definition) a pixel moves by the given step, is drawn at the snapped point with z 0, and takes the new alpha times its initial opacity (1 when that is zero) |
| LegacyCanvas.ChildrenStepSlot | components/Canvas.tsx:222-262 | after the pixel walk only the vy slot of each pixel with all three slots has lost gravity |
| LegacyCanvas.ChildrenStepPixel | components/Canvas.tsx:222-262 | after the walk each pixel with all three slots is moved, and every other pixel is untouched |
| LegacyCanvas.StepChild | components/Canvas.tsx:223-260 | one callback of the walk performs the one-pixel step |
| LegacyCanvas.StepChildren | components/Canvas.tsx:222-262 | the whole walk performs the step over every pixel |
| LegacyCanvas.Fade | components/Canvas.tsx:214-262 | alpha becomes the decayed alpha, and buffer and pixel counts are kept |
| LegacyCanvas.FadePixel | components/Canvas.tsx:222-262 | a pixel with all three slots falls, moves, snaps and takes the new opacity; a pixel without them is untouched |
| LegacyCanvas.FadeGroup | components/Canvas.tsx:209-265 | the group takes `Fade`, and it is marked for removal exactly when its decayed alpha is below 0.05 |
| LegacyCanvas.FadeFlags | components/Canvas.tsx:214-265 | (definition) a group is removed exactly when its decayed alpha is below 0.05 |
| LegacyCanvas.FadeAt | components/Canvas.tsx:208-274 | one pass fades group i and splices it out exactly when flagged |
| LegacyCanvas.GroupPass | components/Canvas.tsx:208-275 | one pass carries the loop invariant from i+1 down to i |
| LegacyCanvas.GroupLoop | components/Canvas.tsx:208-275 | the reverse walk leaves only the survivors, and every group faded |
| LegacyCanvas.UpdateParticles | components/Canvas.tsx:203-276 | the list keeps exactly the groups whose decayed alpha is at least 0.05, in order, and every group faded as `Fade` says |
| LegacyCanvas.FadeTimesAlpha | components/Canvas.tsx:216-217 | after n frames from alpha 1 the alpha is 0.96 to the power n, which is positive |
| LegacyCanvas.PowDecreasing | components/Canvas.tsx:217 | the alpha never rises from frame to frame and stays positive |
| LegacyCanvas.SeventyThreePowers | components/Canvas.tsx:19-20 | 0.96 to the power 73 is at least 0.05, and 0.96 to the power 74 is below it |
| LegacyCanvas.GroupLifetime | components/Canvas.tsx:214-274 | a fresh group survives exactly 73 frames and is removed in the 74th |
| FireworkStore.Without | store/useFireworkStore.ts:31-35 | removing never lengthens the list |
| FireworkStore.WithoutMembers | store/useFireworkStore.ts:33 | an entry remains exactly when it was saved and its id differs from the removed id |
| FireworkStore.WithoutAppend | store/useFireworkStore.ts:33 | filtering a concatenation is concatenating the filtered halves, so order is kept |
| FireworkStore.WithoutAbsent | store/useFireworkStore.ts:33 | removing an id no entry has changes nothing |
| FireworkStore.WithoutTwice | store/useFireworkStore.ts:31-35 | removing the same id twice is removing it once |
| FireworkStore.AddThenRemove | store/useFireworkStore.ts:20-35 | adding an entry with a new id, then removing that id, restores the list |
| FireworkStore.FireworkId | store/useFireworkStore.ts:22 | the id is `firework-`, the clock reading, a dash and the random number, and each part can be read back |
| FireworkStore.Store.constructor | store/useFireworkStore.ts:19 | the store starts with no saved entries |
| FireworkStore.Store.AddFirework | store/useFireworkStore.ts:20-30 | the new entry is appended at the end with the built id, and the others are kept |
| FireworkStore.Store.RemoveFirework | store/useFireworkStore.ts:31-35 | the list becomes the old list without the entries of that id |
| FireworkStore.Store.ClearAll | store/useFireworkStore.ts:36-38 | the list becomes empty |

## Left out

- Floating point: the backend computes in `f32` and the buffers are
  `Float32Array`s, so each store rounds to single precision. The model uses
  exact reals, and its constants (0.96, 0.05, 0.2) are exact.
- Trigonometry: `Math.cos`/`Math.sin` and Rust's `f32::cos`/`f32::sin` are
  an oracle `Trig`. The model assumes only the bounds and the identity
  cos² + sin² = 1 (`ValidTrig`).
- Randomness and time:
  - every `Math.random()` draw is a parameter in [0, 1);
  - `Date.now()` and the random number inside a saved id are their decimal
    renderings, passed as strings;
  - `Math.pow(ALPHA_DECAY, delta)` is a parameter `decay`, tied to `delta`
    only by `DecayFactor`.
- `lib/three/constants` is not part of this model. The renderers that
  import it take its grid size, gravity, alpha decay and alpha threshold as
  a `Constants` parameter. `GRID_SIZE` of `model/firework-config` is
  likewise the `gridSize` parameter.
- The explosion factories `createExplosionJs` and `createExplosionWasm` are
  not part of this model. The new batch of animation-js.ts and
  animation-wasm.ts is built by `Types.ParticleItem.constructor`:
  - its velocity buffer is the caller's `bursts[i]`;
  - every true position starts at the rocket's render position.
- `Animation.UpdateRockets`: animation.ts:36-43 pushes the `group` that
  `createExplosion` (`FireworkModel.CreateExplosion`) returns, a plain
  group of 500 pixel meshes without `userData.velocities`, `truePos` or
  `alpha` and without a material. This member spawns instead the instanced
  batch that the particle update expects (see Findings), from a velocity
  buffer `bursts[i]` that an instanced explosion factory would draw; no
  such factory is part of this model. `Animation.PushedGroup` models the
  entry as written.
- `Animation.FlyAt`: one pass of `Animation.UpdateRockets`; it spawns the
  intended batch in the same way.
- The compiled backend's entry points `create_rocket`, `update_rocket`,
  `create_particle`, `update_particle`, `clear_rockets` and
  `clear_particles` are not defined in wasm-lib/src/lib.rs. The model treats
  the backend as a scripted value `Backend`:
  - the ids and replies are functions of the call number;
  - a log records each call, so the contracts state which calls are made,
    with which arguments and in which order, but not what the backend does
    with them.
- AnimationWasm.Placed: reading past the end of the backend's reply yields
  `undefined` in the source. The model reads 0 there (`Entry`), and its
  contract says nothing about such instances.
- AnimationWasm.Sync: the `|| 0` on a rocket's missing true z is not
  modelled; the true z is taken to be present.
- Three.js and the renderer:
  - adding to and removing from the scene, and the `dispose()` calls;
  - `material.transparent`, `instanceMatrix.needsUpdate`, and the
    `if (mat)` guard;
  - the instance matrices are modelled by their translations only
    (`setMatrixAt` of a translated dummy object).
- `LegacyCanvas.Decay`: `alpha || 1.0` is modelled for a number that is
  never `undefined`, so only 0 counts as missing.
- `LegacyCanvas.Rocket`: it stores the true position as (x, y) only, as
  `createRocket` builds it. The `z` update of Canvas.tsx:157 acts on a
  missing field and is never read there, so the model leaves it out.
- `Types.RocketItem`: its true position is three-dimensional, and
  `Animation`, `AnimationJs` and `AnimationWasm` read its z as a number.
  The rockets that animation.ts moves come from `createRocket`
  (`FireworkModel.CreateRocket`, launched at
  components/canvas/Canvas.tsx:203-214), which stores the true position as
  (x, y) only. So the `z += vz` of animation.ts:26 yields `NaN`; animation.ts
  never reads it, since line 30 draws every rocket at z = 0. The callers that
  launch rockets for animation-js.ts and animation-wasm.ts are not part of
  this model.
- Rust slice indexing panics out of bounds, and the model never reaches
  that case:
  - `WasmLib.UpdateParticles`, `WasmLib.SnapParticlePositions` and
    `WasmLib.UpdateRocketPositions` require buffers long enough for the
    count;
  - the renderers require each batch to have the stride they use (two
    position slots per particle in animation.ts, three in animation-js.ts).
- `set_panic_hook` and `init` in the backend install a debugging hook and
  compute nothing.
- The animation frame loop, the click handler and the React components
  around `launchFirework` drive the modelled operations and are not
  modelled.
- `FireworkConfig`: the `description` strings (display text) are not
  modelled.
- Concurrency: none; every frame runs to completion.

## Findings

| source | as written | input that shows it | evidently intended | confidence | as-written member | corrected member |
|---|---|---|---|---|---|---|
| lib/three/animation.ts:36-43 | `updateRockets` pushes the `group` of `createExplosion` onto `particlesRef`: a group of pixel meshes with no `userData.velocities`, `truePos` or `alpha` and no material. The next `updateParticles` computes `undefined * ALPHA_DECAY` and then sets `opacity` on an undefined material, which throws | any launched rocket: `createRocket` gives it a vy of at least 0.5, so its true y reaches `launchY + 15` after a few dozen frames, and the frame after its explosion throws | an instanced batch of 500 particles with its velocity buffer, true positions at the render point and alpha 1, which `updateParticles` steps | not executed | Animation.PushedGroupNotSteppable | Animation.SpawnedBatchSteppable |
