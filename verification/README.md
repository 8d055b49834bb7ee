# bevy_water: wave direction, wave evaluator, surface queries and grid mesh

This project models the computational core of `bevy_water`, a water plugin for the Bevy engine. The model is in Dafny, and the properties the source relies on are proved about it.

- **Shared building blocks:**
  - `vectors.dfy` (`Vectors`): `Vec2` and `Vec3` over the reals;
  - `results.dfy` (`Results`): `Result` and `Panic`, which stand for Rust panics;
  - `real_arith.dfy` (`RealArith`): small real-arithmetic lemmas;
  - `row_major.dfy` (`RowMajor`): `Rows`, the row-major flattening that the tile grid and the mesh both use.
- **`wave.dfy`** (`Wave`) is the CPU wave-height evaluator of `src/wave.rs`:
  - `fract`, `mix`, `smoothstep`;
  - the sine hash and bilinear value noise;
  - four-octave fBm;
  - the ridge `wave` layer and the four-layer height sum;
  - the height and point queries.

  `sin` and `cos` are arbitrary functions, held in `Wave.Trig`. So the bound chain holds whatever they return: hash and noise in [0, 1), fBm in [0, 1), one layer in [-1, 0.5), and the weighted sum in [-1, 0.5).
- **`water.dfy`** (`Water`) covers the rest of `src/water.rs`:
  - the `WaveDirection` crossfade: construction, `set_target`, `set_duration`, `update`, the effective blend and both blended directions;
  - `GlobalWaveState`;
  - the `WaterQuality` codes;
  - the tile layout and per-tile offset hash of `setup_water`, including the `i32` wrapping multiply and XOR.
- **`param.dfy`** (`Param`) models the `WaterParam` height, point and normal queries of `src/param.rs`. The quality setting decides which sampler they call.
- **`generate.dfy`** (`Generate`) models `grid_mesh` of `src/generate.rs`:
  - the `pos_uv` table;
  - the vertex loop;
  - the `u16` triangle-strip index loop with degenerate bridges between rows;
  - the panics for sizes above 256 and below 2.

Some computations are parameters of the model or are assumed:

- `normalize_or_zero` and `Vec3::normalize` need a square root. The model passes them in as functions. Where a property needs a fact about them, it assumes only that normalising twice is the same as normalising once (`Water.NormIdempotent`). `Water.DefaultGlobalDirection` keeps the two functions apart. It assumes only that `normalize_or_zero` leaves the unit vector `normalize(1, 2)` unchanged.
- `sample_directional_wave_blended` and the four-argument `get_wave_height_2d` (called at src/param.rs:32-47 and src/water.rs:159) are not modelled. They are the fields of `Wave.Samplers`.
- `mix2d` (imported at src/water.rs:10) is modelled as componentwise `mix`, `Wave.Mix2d`.

The ridge layer (src/wave.rs:77-84) takes its `cos` swell along `x` with wavelength 5 and its `smoothstep(1, 0, |sin|)` ridge along `y` with wavelength 2. The four layers of the height sum scroll as `(p + t) * 0.4`, `(p - t) * 0.3`, `(p + t) * 0.5` and `(p - t) * 0.6`, in that order.

`effective_blend` delays a tile's blend by its offset and clamps it. `update` stops at a raw blend of 1, so `effective_blend` stays at `1 - o` for a tile with offset `o` once its crossfade has finished (`Water.EffectiveBlendLags`). This is a property of `effective_blend` and `effective_direction` only. The material receives the raw blend (src/water.rs:480-482), and `setup_water` starts it at 1 (src/water.rs:363).

## Model

| member | source | states |
|---|---|---|
| Wave.Clamp | src/wave.rs:70 | the result lies in `[lo, hi]`; a value below `lo` gives `lo`, a value above `hi` gives `hi`, and a value already inside is returned unchanged |
| Wave.Fract | src/wave.rs:4-6 | `fract(x)` lies in [0, 1) and `x - fract(x)` is an integer |
| Wave.FractPeriodic | src/wave.rs:4-6 | `fract` has period one: shifting `x` by any integer leaves it unchanged |
| Wave.FractZeroIffInteger | src/wave.rs:4-6 | `fract(x)` is 0 exactly when `x` is an integer |
| Wave.FractVec2 | src/wave.rs:7-12 | both components lie in [0, 1), and `v` minus the result is the lattice point `floor(v)` |
| Wave.Mix | src/wave.rs:14-16 | factor 0 gives `x`, factor 1 gives `y`, and a factor in [0, 1] gives a value between `x` and `y` in either order |
| Wave.MixSame | src/wave.rs:14-16 | mixing a value with itself gives that value for every factor |
| Wave.Mix2d | src/water.rs:112 | componentwise mix: factor 0 gives `a`, factor 1 gives `b`, and equal endpoints give that endpoint |
| Wave.HermiteBounds | src/wave.rs:71 | the cubic `t*t*(3-2t)` maps [0, 1] into [0, 1] |
| Wave.HermiteSymmetric | src/wave.rs:71 | the cubic is point-symmetric: `H(1-t) == 1 - H(t)` |
| Wave.HermiteMonotone | src/wave.rs:71 | the cubic is non-decreasing on [0, 1] |
| Wave.Smoothstep | src/wave.rs:69-72 | the result lies in [0, 1], with 0 on the `edge0` side and 1 on the `edge1` side, for ascending and for descending edges |
| Wave.SmoothstepMonotone | src/wave.rs:69-72 | with ordered edges `smoothstep` is monotone in `x` |
| Wave.SmoothstepReversed | src/wave.rs:69-72 | swapping the edges gives `1 - smoothstep` |
| Wave.RidgeProfile | src/wave.rs:82 | the ridge `smoothstep(1, 0, s)` is 1 on a crest (`s = 0`), 0 from `s = 1` on, and the mirror of `smoothstep(0, 1, s)` in between |
| Wave.Random2d | src/wave.rs:18-22 | the sine hash lies in [0, 1) whatever `sin` returns |
| Wave.Random2di | src/wave.rs:25-27 | the lattice hash lies in [0, 1) and equals `random2d` at lattice points |
| Wave.CubicHermiteCurve2d | src/wave.rs:29-34 | both components lie in [0, 1], and each is 0 at a non-positive input |
| Wave.NoiseBlendIsBilinear | src/wave.rs:50-52 | the corner-mixing expression equals bilinear interpolation: mix along `x` on both edges, then along `y` |
| Wave.NoiseBlendBounds | src/wave.rs:50-52 | with corners in [0, 1) and weights in [0, 1] the blend lies in [0, 1) |
| Wave.VNoise2d | src/wave.rs:36-53 | value noise lies in [0, 1) |
| Wave.VNoiseAtLattice | src/wave.rs:36-53 | at an integer lattice point the noise equals that point's hash |
| Wave.RotateM2 | src/wave.rs:59 | `M2 * p` with the columns `(0.8, 0.6)` and `(-0.6, 0.8)` |
| Wave.RotateM2IsRotation | src/wave.rs:59 | `M2` keeps lengths and maps the unit vectors to its two columns |
| Wave.Fbm | src/wave.rs:59-67 | fBm with weights 1/2, 1/4, 1/8, 1/16 divided by their sum 0.9375 lies in [0, 1) |
| Wave.WaveLayer | src/wave.rs:74-85 | one ridge layer lies in [-1, 0.5): the ridge is in [0, 1] and `fbm / 2 - 1` is in [-1, -0.5) |
| Wave.WaveHeight2d | src/wave.rs:87-94 | the four-layer sum with weights 0.3, 0.3, 0.2, 0.2 (summing to 1) lies in [-1, 0.5) |
| Wave.Displace | src/wave.rs:103 | a wave value in [-1, 0.5) scaled by a non-negative amplitude lies in `[base - amp, base + amp/2)`, and amplitude 0 gives the base height |
| Wave.ScaledBounds | src/wave.rs:103 | a wave value in [-1, 0.5) times `a >= 0` lies in `[-a, a/2)` |
| Wave.WaveHeight | src/wave.rs:102-104 | the height lies within `[base - amp, base + amp/2)` for a non-negative amplitude, and is the base height at amplitude 0 |
| Wave.WaveHeightIgnoresY | src/wave.rs:102-104 | the height depends on `x` and `z` only |
| Wave.WavePoint | src/wave.rs:113-116 | only `y` changes, and it becomes the height at `(x, z)` |
| Wave.WavePointIdempotent | src/wave.rs:113-116 | a point already on the surface stays where it is |
| Water.WithDuration | src/water.rs:51-60 | both directions are the normalised direction, blend 1 (settled), the given duration, offset 0 |
| Water.New | src/water.rs:39-48 | `new` is `with_duration` with the 2-second default |
| Water.Default | src/water.rs:31-35 | the default is settled on the normalised `(1, 2)` with duration 2 and offset 0 |
| Water.NewShowsDirection | src/water.rs:39-60 | a fresh direction's `current_blended` and `effective_direction` are both the normalised input direction |
| Water.IsSettled | src/water.rs:124-126 | the crossfade is complete once the raw blend reaches 1 |
| Water.CurrentBlended | src/water.rs:110-113 | blend <= 0 shows `dirA`, blend >= 0.85 shows `dirB`, and equal directions show that direction |
| Water.EffectiveBlend | src/water.rs:105-107 | the effective blend lies in [0, 1]: 0 until the offset is reached, `blend - offset` in between, then 1 |
| Water.EffectiveBlendExamples | src/water.rs:105-107 | offset 0.2 gives 0 at blend 0.1 and 0.3 at blend 0.5 |
| Water.EffectiveBlendLags | src/water.rs:105-107 | the effective blend never runs ahead of the raw blend, and at raw blend 1 it is exactly `1 - offset` |
| Water.EffectiveDirection | src/water.rs:116-121 | effective blend 0 shows `dirA`, 1 shows `dirB`, and equal directions show that direction |
| Water.SetTarget | src/water.rs:63-75 | a target within the epsilon leaves the state unchanged; otherwise `dirA` becomes the pre-call blended direction, `dirB` the normalised target and blend 0; duration and offset are kept; the blend stays in [0, 1] |
| Water.SetTargetSameIsNoOp | src/water.rs:66-69 | re-targeting the current target never restarts the crossfade |
| Water.SetTargetIdempotent | src/water.rs:63-75 | setting a target twice is the same as setting it once |
| Water.SetTargetIsContinuous | src/water.rs:71-74 | the CPU-side direction does not jump when a new crossfade starts |
| Water.SetDuration | src/water.rs:78-80 | only the duration changes |
| Water.SetTargetSetDurationCommute | src/water.rs:443-446 | the settings sync's `set_target` and `set_duration` commute |
| Water.Advance | src/water.rs:85 | the advanced blend never exceeds 1, and a zero duration jumps to 1 |
| Water.Update | src/water.rs:83-87 | a settled state is unchanged; otherwise only the blend moves, to at most 1 |
| Water.UpdateKeepsValid | src/water.rs:83-87 | with a positive duration and `dt >= 0`, the blend stays in [0, 1] and never decreases |
| Water.UpdateSettles | src/water.rs:83-87 | a step at least as long as the duration reaches blend exactly 1 and settles |
| Water.UpdateNClosedForm | src/water.rs:83-87 | `n` equal steps give blend `min(1, blend + n * dt / duration)` |
| Water.UpdateNSettles | src/water.rs:83-87 | once the total elapsed time covers the remaining crossfade, the direction has settled |
| Water.RetargetCompletes | src/water.rs:63-87 | re-targeting followed by a full duration ends on the normalised target |
| Water.DefaultGlobal | src/water.rs:145-154 | the default global state is settled on the normalised `(1, 2)` |
| Water.GlobalFromTile | src/water.rs:455-459 | the global state copies a tile's directions and raw blend, not its offset |
| Water.CurrentDirection | src/water.rs:164-166 | blend 0 shows `dirA`, blend 1 shows `dirB`, and equal directions show that direction |
| Water.DefaultGlobalDirection | src/water.rs:145-166 | the default state, built with `normalize`, reports through `current_direction`'s `normalize_or_zero` the direction `normalize(1, 2)` |
| Water.BlendedHeight | src/water.rs:158-161 | amplitude 0 gives height 0 |
| Water.QualityCode | src/water.rs:178-187 | the codes lie in 1..4, and a code is at least 3 exactly for the levels that sample both directions |
| Water.QualityCodeOrdered | src/water.rs:178-187 | the codes are injective and increase from Basic to Ultra |
| Water.F32ToI32 | src/water.rs:338 | the cast saturates into `i32` and is exact on integral values in range |
| Water.WrapI32 | src/water.rs:338 | wrapping lands in `i32`, is congruent mod 2^32, and is the identity in range |
| Water.XorBitsSelf | src/water.rs:338 | XOR of a pattern with itself is 0 |
| Water.XorBits | src/water.rs:338 | the XOR of the low `n` bits is below `2^n` |
| Water.XorBitsBit | src/water.rs:338 | each low bit of `XorBits` is the sum modulo 2 of the corresponding bits of its arguments, so it is bitwise XOR |
| Water.TileHash | src/water.rs:337-338 | the hash of two wrapping products is an `i32` |
| Water.TileHashOrigin | src/water.rs:337-339 | the tile at the origin hashes to 0 and gets no delay |
| Water.TileOffset | src/water.rs:339 | the per-tile delay lies in [0, 0.3) |
| Water.TileCorner | src/water.rs:327-332 | tile `i` of `count` has its corner at `256 i - 128 count` |
| Water.TileCornersTile | src/water.rs:327-332 | neighbouring tiles abut, and the row spans `[-128 count, 128 count]` |
| Water.TileCentresSymmetric | src/water.rs:290 | tile centres lie symmetrically about the origin |
| Water.TileCornerFitsI32 | src/water.rs:327-338 | when the grid does not overflow `u32`, the cast of a corner to `i32` is exact |
| Water.TileCenter | src/water.rs:290 | a tile is placed half a tile (128) beyond its corner on both axes |
| Water.NewTile | src/water.rs:286-296 | the tile keeps its offset and sits at the water height, half a tile beyond its corner |
| Water.ExpectedTile | src/water.rs:331-372 | the tile one iteration of the spawn loop creates: corner offset, translated tile and the crossfade with the hashed delay |
| Water.ExpectedTileFacts | src/water.rs:329-372 | each spawned tile has its integer corner and translation, starts settled on the configured direction and duration, and has a delay in [0, 0.3) hashed from its corner |
| Water.TileRow | src/water.rs:330-388 | one row holds `gy` tiles, the tiles of cells `(i, 0) .. (i, gy - 1)` |
| Water.TileGridAt | src/water.rs:329-389 | the grid has `gx * gy` tiles in row-major order |
| Water.SpawnRow | src/water.rs:330-388 | the inner spawn loop yields exactly the row |
| Water.SetupTiles | src/water.rs:306-390 | no grid spawns nothing; a grid whose centre overflows `u32` panics; otherwise the `gx * gy` tiles in spawn order |
| Param.WaveSample | src/param.rs:31-49 | High and Ultra call the blended sampler with both directions, the blend and the quality code; Basic and Medium call the single sampler with `dirA` |
| Param.WaveHeight | src/param.rs:26-52 | amplitude 0 gives the configured height everywhere |
| Param.WaveHeightIsDisplacement | src/param.rs:51 | for a sample in [-1, 0.5) the query is the same displacement as `get_wave_height` and has its bounds |
| Param.WaveHeightIgnoresY | src/param.rs:28 | the height depends on `x` and `z` only |
| Param.SingleSampleIgnoresCrossfade | src/param.rs:40-48 | at Basic and Medium the height ignores `dirB` and the blend |
| Param.WavePoint | src/param.rs:63-66 | only `y` changes, and it becomes the height |
| Param.WavePointIdempotent | src/param.rs:63-66 | a point already on the surface stays where it is |
| Param.NormalPreimage | src/param.rs:81-87 | the unnormalised normal has `y == 1` |
| Param.NormalIsNegatedCross | src/param.rs:86-87 | the unnormalised normal is the negated cross product of the two unit surface steps, so it is perpendicular to both |
| Param.WaveNormal | src/param.rs:81-88 | a flat surface (amplitude 0) has the normal `normalize(0, 1, 0)` |
| Param.FlatNormal | src/param.rs:81-88 | at amplitude 0 the unnormalised normal is `(0, 1, 0)` |
| Generate.PosUv | src/generate.rs:10-16 | `pos == uv * size`; entry 0 is `(0, 0)` and entry `size - 1` is `(size, 1)` |
| Generate.PosUvMonotone | src/generate.rs:9-16 | `uv` grows along the table and stays in [0, 1] |
| Generate.VertexPosition | src/generate.rs:24 | vertex `(i, j)` is `(pos[i] * scale, 0, pos[j] * scale)` |
| Generate.VertexUv | src/generate.rs:25 | vertex `(i, j)` has uv `(uv[i], 1 - uv[j]) * uv_scale` |
| Generate.VertexAt | src/generate.rs:18-30 | each attribute list has `size * size` entries, and entry `i * size + j` is vertex `(i, j)` with normal `(0, 1, 0)` |
| Generate.GridCorners | src/generate.rs:22-30 | the grid spans `[0, size * scale]` on both axes, and the uv square is flipped in `v` |
| Generate.GridVertices | src/generate.rs:18-30 | the nested vertex loops yield exactly the row-major attribute lists |
| Generate.Zigzag | src/generate.rs:42-47 | `k` column steps push `2k` indices between `top` and `btm + size`, starting at `top + size - 1` |
| Generate.RowStrip | src/generate.rs:34-48 | a row pushes `2 size` indices, plus 2 after the first row, all within its two vertex rows; the row's bridge comes first, and it ends on `(row + 1) * size` |
| Generate.RowStartIsPrefixLength | src/generate.rs:34-48 | row `r` starts at index `2 size r + 2 (r - 1)` of the strip |
| Generate.StripIndicesLength | src/generate.rs:32-48 | the strip has exactly `(size * size - 2) * 2` indices, the reserved capacity |
| Generate.StripIndicesBelow | src/generate.rs:34-47 | every index is below `size * size` |
| Generate.StripBridge | src/generate.rs:37-46 | between rows, the strip repeats the previous row's last index and the next row's first index, so the bridge triangles are degenerate |
| Generate.RowOffsetsFit | src/generate.rs:35-46 | no `u16` offset in the index loop overflows when `size <= 256` |
| Generate.RowIndices | src/generate.rs:35-47 | one pass of the row loop in `u16` arithmetic yields that row's strip |
| Generate.GridIndices | src/generate.rs:34-48 | the row loop yields the whole strip |
| Generate.GridMesh | src/generate.rs:4-57 | a size above 256 fails the assertion and sizes 0 and 1 overflow; otherwise the mesh has `size * size` vertices, `(size * size - 2) * 2` strip indices, and every index names a vertex |

## Left out

- Bevy glue is not modelled: plugin and system registration, asset and material plumbing, `Name` formatting, shadows and the easing feature. Of the per-frame systems (src/water.rs:439-485), only the parts that call the modelled methods are modelled: the settings sync (`Water.SetTargetSetDurationCommute`) and the global state copy (`Water.GlobalFromTile`). The query loops and material writes are not. `src/water/material.rs`, `src/image_utils.rs`, `src/lib.rs` and the examples are not part of this model.
- The water tile's plane mesh (`PlaneMeshBuilder` with its quality-dependent subdivisions) is an engine call and is left out.
- The WGSL shaders are not part of this model.
- IEEE-754 `f32` rounding is not modelled. Neither is the precision of `sin`, `cos` and `sqrt`: all values are exact reals, and `sin`, `cos` and normalisation are parameters.
- The directional samplers `sample_directional_wave_blended` and the four-argument `get_wave_height_2d` are parameters, because their source is not part of this model. Properties of the queries hold for any sampler.
- `WaterSettings` is reduced to the fields the modelled code reads.
- Water.Advance: a zero duration with a negative `dt` (an `f32` of `-inf`) is excluded by its precondition instead of modelled.
- Water.Update: has the same precondition as `Advance`.
- Wave.Smoothstep: requires distinct edges, because the engine's division by `edge1 - edge0` is undefined for equal edges. Every call in the source passes distinct constant edges.
- Water.F32ToI32: the cast acts on exact reals, so its saturation never matters for the grids that `SetupTiles` accepts.
- Water.TileHash: states only the `i32` range. The hash value itself is the computed bit pattern, not a specified one.
- Water.BlendedHeight: states only the zero-amplitude case, because the sampler is a parameter.
- Generate.GridMesh: the returned mesh records attribute lists and indices only. The strip topology and the attribute names are implied.
- Water.CurrentBlended: the `smoothstep` imported at src/water.rs:10 is not part of this model, because the one at src/wave.rs:69-72 is private. It is assumed to be that clamped cubic, `Wave.Smoothstep`. `Water.CurrentBlended`, `Water.SetTargetIsContinuous` and `Water.RetargetCompletes` rest on this assumption.
- Wave.Mix2d: the body of `mix2d` is not part of this model. It is assumed to be componentwise `mix`, as glam's `Vec2::lerp` is over the reals. The endpoint facts of `Water.CurrentBlended` rest on this assumption.
- Water.SetupTiles: an overflow of `WATER_SIZE * grid` is modelled as the panic of a build with overflow checks. A release build wraps the product and spawns the tiles anyway, at different coordinates. That behaviour is not modelled.
- Generate.GridMesh: sizes 0 and 1 are modelled as the overflow panics of a build with overflow checks. A release build wraps `size - 1` and `cap - 2` instead, and that behaviour is not modelled.
