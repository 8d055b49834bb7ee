/** The wave-direction crossfade of a water tile, the global wave state used
    by physics queries, the quality levels, and the tile layout computed when
    the water grid is spawned.

    `normalize_or_zero` needs a square root, so every operation that uses it
    takes it as a parameter `norm`. Where a property needs a fact about it,
    the lemma asks only that normalising is idempotent (`NormIdempotent`),
    which holds for the exact real normalisation. */
module Water {
  import opened Vectors
  import opened Results
  import opened RealArith
  import opened RowMajor
  import Wave

  // ---------------------------------------------------------------------
  // Constants

  /** Side length of one water tile in world units. */
  const WaterSize: nat := 256
  /** Half a tile, from a tile's corner to its centre. */
  const WaterHalfSize: real := 128.0

  /** Crossfade length of a freshly created direction, in seconds. */
  const DefaultBlendDuration: real := 2.0
  /** The direction used by the default state. */
  const DefaultDirection: Vec2 := Vec2(1.0, 2.0)
  /** Squared distance under which a new target counts as the current one. */
  const RetargetEpsilon: real := 0.001
  /** Raw blend at which the CPU-side direction reaches the target. */
  const BlendSettleAt: real := 0.85

  ghost predicate NormIdempotent(norm: Vec2 -> Vec2) {
    forall v :: norm(norm(v)) == norm(v)
  }

  function Min(a: real, b: real): (r: real)
    ensures r <= a && r <= b
    ensures r == a || r == b
  {
    if a <= b then a else b
  }

  // ---------------------------------------------------------------------
  // WaveDirection

  /** Two directions crossfaded by `blend` (0 = all `dirA`, 1 = all `dirB`),
      the crossfade length in seconds and a per-tile delay `tileOffset`. */
  datatype WaveDirection = WaveDirection(
    dirA: Vec2,
    dirB: Vec2,
    blend: real,
    blendDuration: real,
    tileOffset: real)

  /** The reachable states keep the raw blend within [0, 1]. */
  predicate Valid(w: WaveDirection) {
    0.0 <= w.blend <= 1.0
  }

  predicate IsSettled(w: WaveDirection) {
    w.blend >= 1.0
  }

  /** A settled direction with a custom crossfade length. */
  function WithDuration(norm: Vec2 -> Vec2, direction: Vec2, blendDuration: real): (w: WaveDirection)
    ensures w.dirA == norm(direction) && w.dirB == norm(direction)
    ensures w.blend == 1.0 && IsSettled(w) && Valid(w)
    ensures w.blendDuration == blendDuration && w.tileOffset == 0.0
  {
    var normalized := norm(direction);
    WaveDirection(normalized, normalized, 1.0, blendDuration, 0.0)
  }

  /** A settled direction with the default two-second crossfade. */
  function New(norm: Vec2 -> Vec2, direction: Vec2): (w: WaveDirection)
    ensures w == WithDuration(norm, direction, DefaultBlendDuration)
    ensures w.blendDuration == 2.0
  {
    WithDuration(norm, direction, DefaultBlendDuration)
  }

  function Default(norm: Vec2 -> Vec2): (w: WaveDirection)
    ensures w.dirA == w.dirB == norm(Vec2(1.0, 2.0))
    ensures IsSettled(w) && w.blendDuration == 2.0 && w.tileOffset == 0.0
  {
    New(norm, DefaultDirection)
  }

  /** A fresh direction already shows its own direction. */
  lemma NewShowsDirection(norm: Vec2 -> Vec2, direction: Vec2, blendDuration: real)
    requires NormIdempotent(norm)
    ensures CurrentBlended(norm, WithDuration(norm, direction, blendDuration)) == norm(direction)
    ensures EffectiveDirection(norm, WithDuration(norm, direction, blendDuration)) == norm(direction)
  {
    var w := WithDuration(norm, direction, blendDuration);
    var d := norm(direction);
    assert w.dirA == d && w.dirB == d;
    NormFixes(norm, direction);
  }

  lemma NormFixes(norm: Vec2 -> Vec2, v: Vec2)
    requires NormIdempotent(norm)
    ensures norm(norm(v)) == norm(v)
  {
  }

  /** The CPU-side direction: `dirA` mixed towards `dirB` by
      `smoothstep(0, 0.85, blend)`, then normalised. */
  function CurrentBlended(norm: Vec2 -> Vec2, w: WaveDirection): (r: Vec2)
    ensures w.blend <= 0.0 ==> r == norm(w.dirA)
    ensures w.blend >= BlendSettleAt ==> r == norm(w.dirB)
    ensures w.dirA == w.dirB ==> r == norm(w.dirA)
  {
    var t := Wave.Smoothstep(0.0, BlendSettleAt, w.blend);
    norm(Wave.Mix2d(w.dirA, w.dirB, t))
  }

  /** The blend delayed by the tile's offset, clamped to [0, 1]. */
  function EffectiveBlend(w: WaveDirection): (r: real)
    ensures 0.0 <= r <= 1.0
    ensures w.blend <= w.tileOffset ==> r == 0.0
    ensures w.tileOffset <= w.blend <= w.tileOffset + 1.0 ==> r == w.blend - w.tileOffset
    ensures w.blend >= w.tileOffset + 1.0 ==> r == 1.0
  {
    Wave.Clamp(w.blend - w.tileOffset, 0.0, 1.0)
  }

  /** With offset 0.2 the tile has not started at blend 0.1 and is 0.3 of
      the way at blend 0.5. */
  lemma EffectiveBlendExamples(w: WaveDirection)
    requires w.tileOffset == 0.2
    ensures w.blend == 0.1 ==> EffectiveBlend(w) == 0.0
    ensures w.blend == 0.5 ==> EffectiveBlend(w) == 0.3
  {
  }

  /** The offset only delays: a tile's effective blend never runs ahead of
      the raw blend, and once the crossfade is complete it stays short of 1
      by exactly its offset. */
  lemma EffectiveBlendLags(w: WaveDirection)
    requires Valid(w) && 0.0 <= w.tileOffset <= 1.0
    ensures EffectiveBlend(w) <= w.blend
    ensures w.blend == 1.0 ==> EffectiveBlend(w) == 1.0 - w.tileOffset
  {
  }

  /** The tile's delayed direction: `dirA` interpolated linearly towards
      `dirB` by the effective blend, then normalised. */
  function EffectiveDirection(norm: Vec2 -> Vec2, w: WaveDirection): (r: Vec2)
    ensures EffectiveBlend(w) == 0.0 ==> r == norm(w.dirA)
    ensures EffectiveBlend(w) == 1.0 ==> r == norm(w.dirB)
    ensures w.dirA == w.dirB ==> r == norm(w.dirA)
  {
    norm(Wave.Mix2d(w.dirA, w.dirB, EffectiveBlend(w)))
  }

  /** Squared distance between the current target and a normalised new one. */
  function TargetDistance(w: WaveDirection, normalized: Vec2): real {
    w.dirB.Sub(normalized).LengthSquared()
  }

  /** Start a crossfade towards `target` from wherever the direction is now,
      unless `target` is already (within the epsilon) the current target. */
  function SetTarget(norm: Vec2 -> Vec2, w: WaveDirection, target: Vec2): (r: WaveDirection)
    ensures TargetDistance(w, norm(target)) < RetargetEpsilon ==> r == w
    ensures TargetDistance(w, norm(target)) >= RetargetEpsilon ==>
      r.dirA == CurrentBlended(norm, w) && r.dirB == norm(target) && r.blend == 0.0
    ensures r.blendDuration == w.blendDuration && r.tileOffset == w.tileOffset
    ensures Valid(w) ==> Valid(r)
  {
    var normalized := norm(target);
    if TargetDistance(w, normalized) < RetargetEpsilon then
      w
    else
      w.(dirA := CurrentBlended(norm, w), dirB := normalized, blend := 0.0)
  }

  /** Re-targeting the direction already targeted changes nothing, so a
      repeated request never restarts the crossfade. */
  lemma SetTargetSameIsNoOp(norm: Vec2 -> Vec2, w: WaveDirection, target: Vec2)
    requires w.dirB == norm(target)
    ensures SetTarget(norm, w, target) == w
  {
    assert w.dirB.Sub(norm(target)) == Vec2(0.0, 0.0);
  }

  /** Setting the same target twice is the same as setting it once. */
  lemma SetTargetIdempotent(norm: Vec2 -> Vec2, w: WaveDirection, target: Vec2)
    ensures SetTarget(norm, SetTarget(norm, w, target), target) == SetTarget(norm, w, target)
  {
    var w1 := SetTarget(norm, w, target);
    if TargetDistance(w, norm(target)) >= RetargetEpsilon {
      SetTargetSameIsNoOp(norm, w1, target);
    }
  }

  /** A new crossfade starts where the old one was: right after re-targeting,
      the CPU-side direction is unchanged, so the surface does not jump. */
  lemma SetTargetIsContinuous(norm: Vec2 -> Vec2, w: WaveDirection, target: Vec2)
    requires NormIdempotent(norm)
    ensures CurrentBlended(norm, SetTarget(norm, w, target)) == CurrentBlended(norm, w)
  {
    var r := SetTarget(norm, w, target);
    if TargetDistance(w, norm(target)) >= RetargetEpsilon {
      var c := CurrentBlended(norm, w);
      assert c == norm(Wave.Mix2d(w.dirA, w.dirB, Wave.Smoothstep(0.0, BlendSettleAt, w.blend)));
      assert CurrentBlended(norm, r) == norm(c);
    }
  }

  function SetDuration(w: WaveDirection, duration: real): (r: WaveDirection)
    ensures r.blendDuration == duration
    ensures r.dirA == w.dirA && r.dirB == w.dirB && r.blend == w.blend && r.tileOffset == w.tileOffset
  {
    w.(blendDuration := duration)
  }

  /** The settings sync calls `set_target` then `set_duration`; the two
      touch disjoint fields, so the order does not matter. */
  lemma SetTargetSetDurationCommute(norm: Vec2 -> Vec2, w: WaveDirection, target: Vec2, duration: real)
    ensures SetDuration(SetTarget(norm, w, target), duration) == SetTarget(norm, SetDuration(w, duration), target)
  {
    assert CurrentBlended(norm, SetDuration(w, duration)) == CurrentBlended(norm, w);
  }

  /** The advanced blend `min(blend + dt / duration, 1)`. With a zero
      duration the engine's `dt / 0` is +inf (dt > 0) or NaN (dt = 0), and
      `f32::min` turns either into 1. */
  function Advance(blend: real, dt: real, duration: real): (r: real)
    requires duration != 0.0 || dt >= 0.0
    ensures r <= 1.0
    ensures duration == 0.0 ==> r == 1.0
  {
    if duration == 0.0 then 1.0 else Min(blend + dt / duration, 1.0)
  }

  /** One frame of the crossfade: a settled direction stays as it is,
      otherwise the blend advances by `dt / duration`, capped at 1. */
  function Update(w: WaveDirection, dt: real): (r: WaveDirection)
    requires w.blendDuration != 0.0 || dt >= 0.0
    ensures r.dirA == w.dirA && r.dirB == w.dirB
    ensures r.blendDuration == w.blendDuration && r.tileOffset == w.tileOffset
    ensures IsSettled(w) ==> r == w
    ensures !IsSettled(w) ==> r.blend <= 1.0
  {
    if w.blend < 1.0 then w.(blend := Advance(w.blend, dt, w.blendDuration)) else w
  }

  /** With a positive duration and a non-negative step the blend stays in
      [0, 1] and never decreases. */
  lemma UpdateKeepsValid(w: WaveDirection, dt: real)
    requires Valid(w) && w.blendDuration > 0.0 && dt >= 0.0
    ensures Valid(Update(w, dt))
    ensures w.blend <= Update(w, dt).blend
  {
    DivLeMono(0.0, dt, w.blendDuration);
  }

  /** A step at least as long as the crossfade completes it. */
  lemma UpdateSettles(w: WaveDirection, dt: real)
    requires Valid(w) && w.blendDuration > 0.0 && dt >= w.blendDuration
    ensures Update(w, dt).blend == 1.0
    ensures IsSettled(Update(w, dt))
  {
    QuotientBounds(dt, w.blendDuration);
  }

  /** `n` frames of length `dt`. */
  function UpdateN(w: WaveDirection, dt: real, n: nat): (r: WaveDirection)
    requires w.blendDuration != 0.0 || dt >= 0.0
    ensures r.blendDuration == w.blendDuration
    decreases n
  {
    if n == 0 then w else Update(UpdateN(w, dt, n - 1), dt)
  }

  /** The total advance of `n` steps of `q`, as a running sum. */
  function StepTotal(q: real, n: nat): (r: real)
    ensures q >= 0.0 ==> r >= 0.0
    decreases n
  {
    if n == 0 then 0.0 else StepTotal(q, n - 1) + q
  }

  lemma {:induction false} StepTotalIsProduct(q: real, n: nat)
    ensures StepTotal(q, n) == n as real * q
    decreases n
  {
    if n > 0 {
      StepTotalIsProduct(q, n - 1);
      assert n as real * q == (n - 1) as real * q + q;
    }
  }

  /** Closed form of `n` equal frames: the blend is
      `min(1, blend + n * (dt / duration))` (with `StepTotalIsProduct`). */
  lemma {:induction false} UpdateNClosedForm(w: WaveDirection, dt: real, n: nat)
    requires Valid(w) && w.blendDuration > 0.0 && dt >= 0.0
    ensures UpdateN(w, dt, n).blend == Min(1.0, w.blend + StepTotal(dt / w.blendDuration, n))
    decreases n
  {
    var q := dt / w.blendDuration;
    DivLeMono(0.0, dt, w.blendDuration);
    if n > 0 {
      UpdateNClosedForm(w, dt, n - 1);
      MinStep(w.blend, StepTotal(q, n - 1), q, UpdateN(w, dt, n - 1).blend);
    }
  }

  /** One more capped step of `q` extends the capped sum by `q`. */
  lemma MinStep(b: real, s: real, q: real, prev: real)
    requires s >= 0.0 && q >= 0.0 && prev == Min(1.0, b + s)
    ensures (if prev < 1.0 then Min(prev + q, 1.0) else prev) == Min(1.0, b + (s + q))
  {
  }

  /** After `n` frames whose total time covers the remaining crossfade the
      direction has settled. */
  lemma UpdateNSettles(w: WaveDirection, dt: real, n: nat)
    requires Valid(w) && w.blendDuration > 0.0 && dt >= 0.0
    requires n as real * dt >= (1.0 - w.blend) * w.blendDuration
    ensures IsSettled(UpdateN(w, dt, n))
  {
    var d := w.blendDuration;
    var q := dt / d;
    assert StepTotal(q, n) >= 1.0 - w.blend by {
      StepTotalIsProduct(q, n);
      assert q * d == dt;
      CoversRemaining(n as real, q, d, dt, 1.0 - w.blend);
    }
    UpdateNClosedForm(w, dt, n);
  }

  /** If `k` steps of `q = dt / d` take at least time `r * d`, they cover `r`. */
  lemma CoversRemaining(k: real, q: real, d: real, dt: real, r: real)
    requires d > 0.0 && q * d == dt && k * dt >= r * d
    ensures k * q >= r
  {
    assert (k * q) * d == k * dt;
    if k * q < r {
      MulLtMono(k * q, r, d);
    }
  }

  /** Re-targeting and then letting a full crossfade elapse ends on the new
      target. */
  lemma RetargetCompletes(norm: Vec2 -> Vec2, w: WaveDirection, target: Vec2, dt: real)
    requires NormIdempotent(norm)
    requires Valid(w) && w.blendDuration > 0.0 && dt >= w.blendDuration
    ensures TargetDistance(w, norm(target)) >= RetargetEpsilon ==>
      CurrentBlended(norm, Update(SetTarget(norm, w, target), dt)) == norm(target)
    ensures TargetDistance(w, norm(target)) < RetargetEpsilon ==>
      CurrentBlended(norm, Update(SetTarget(norm, w, target), dt)) == norm(w.dirB)
  {
    UpdateSettles(SetTarget(norm, w, target), dt);
  }

  // ---------------------------------------------------------------------
  // GlobalWaveState

  /** The direction state the physics queries read, copied from a tile. */
  datatype GlobalWaveState = GlobalWaveState(dirA: Vec2, dirB: Vec2, blend: real)

  /** The default global state, settled on the normalised default direction.
      The engine uses `normalize` here; on the non-zero `(1, 2)` it agrees
      with `normalize_or_zero`. */
  function DefaultGlobal(normalize: Vec2 -> Vec2): (g: GlobalWaveState)
    ensures g.dirA == g.dirB == normalize(DefaultDirection)
    ensures g.blend == 1.0
  {
    var d := normalize(DefaultDirection);
    GlobalWaveState(d, d, 1.0)
  }

  /** The state read from a tile's crossfade, without its tile offset. */
  function GlobalFromTile(w: WaveDirection): (g: GlobalWaveState)
    ensures g.dirA == w.dirA && g.dirB == w.dirB && g.blend == w.blend
  {
    GlobalWaveState(w.dirA, w.dirB, w.blend)
  }

  /** `dirA` interpolated linearly towards `dirB` by the raw blend. */
  function CurrentDirection(norm: Vec2 -> Vec2, g: GlobalWaveState): (r: Vec2)
    ensures g.blend == 0.0 ==> r == norm(g.dirA)
    ensures g.blend == 1.0 ==> r == norm(g.dirB)
    ensures g.dirA == g.dirB ==> r == norm(g.dirA)
  {
    norm(Wave.Mix2d(g.dirA, g.dirB, g.blend))
  }

  /** The default global state, built with `normalize`, points along the
      normalised default direction when read through `normalize_or_zero`
      (`norm`), given only that `norm` leaves that unit vector unchanged. */
  lemma DefaultGlobalDirection(normalize: Vec2 -> Vec2, norm: Vec2 -> Vec2)
    requires norm(normalize(DefaultDirection)) == normalize(DefaultDirection)
    ensures CurrentDirection(norm, DefaultGlobal(normalize)) == normalize(DefaultDirection)
  {
  }

  const U32Max: nat := 0xFFFF_FFFF

  /** The blended height scaled by the amplitude, sampled at the highest
      quality (`u32::MAX`). */
  function BlendedHeight(samplers: Wave.Samplers, g: GlobalWaveState, time: real, p: Vec2, amplitude: real): (h: real)
    ensures amplitude == 0.0 ==> h == 0.0
  {
    samplers.blended(time, p, g.dirA, g.dirB, g.blend, U32Max) * amplitude
  }

  // ---------------------------------------------------------------------
  // WaterQuality

  datatype WaterQuality = Basic | Medium | High | Ultra {
    /** The two top levels sample both directions of the crossfade. */
    predicate UsesBlendedSampler() {
      this == High || this == Ultra
    }
  }

  /** The `u32` code of a quality level passed to the shader. */
  function QualityCode(q: WaterQuality): (r: nat)
    ensures 1 <= r <= 4
    ensures r >= 3 <==> q.UsesBlendedSampler()
  {
    match q
    case Basic => 1
    case Medium => 2
    case High => 3
    case Ultra => 4
  }

  /** The codes follow the declaration order, so distinct levels have
      distinct codes. */
  lemma QualityCodeOrdered(p: WaterQuality, q: WaterQuality)
    ensures QualityCode(p) == QualityCode(q) <==> p == q
    ensures QualityCode(Basic) < QualityCode(Medium) < QualityCode(High) < QualityCode(Ultra)
  {
  }

  // ---------------------------------------------------------------------
  // Tile layout and per-tile offsets

  const I32Min: int := -0x8000_0000
  const I32Max: int := 0x7FFF_FFFF
  const TwoTo32: int := 0x1_0000_0000

  /** `v as i32` for a float `v`: truncation toward zero, saturating at the
      bounds of `i32`. */
  function F32ToI32(v: real): (r: int)
    ensures I32Min <= r <= I32Max
    ensures I32Min as real <= v <= I32Max as real && v.Floor as real == v ==> r == v.Floor
  {
    var t := if v >= 0.0 then v.Floor else -((-v).Floor);
    if t < I32Min then I32Min else if t > I32Max then I32Max else t
  }

  /** An integer reduced into `i32` by two's-complement wrap-around. */
  function WrapI32(n: int): (r: int)
    ensures I32Min <= r <= I32Max
    ensures (r - n) % TwoTo32 == 0
    ensures I32Min <= n <= I32Max ==> r == n
  {
    var m := n % TwoTo32;
    if m > I32Max then m - TwoTo32 else m
  }

  function Pow2(n: nat): (r: nat)
    ensures r >= 1
  {
    if n == 0 then 1 else 2 * Pow2(n - 1)
  }

  /** Bitwise exclusive or of the low `n` bits of `a` and `b`. */
  function XorBits(a: nat, b: nat, n: nat): (r: nat)
    ensures r < Pow2(n)
    decreases n
  {
    if n == 0 then 0 else (a % 2 + b % 2) % 2 + 2 * XorBits(a / 2, b / 2, n - 1)
  }

  /** Bit `k` of `a`. */
  function Bit(a: nat, k: nat): (r: nat)
    ensures r < 2
    decreases k
  {
    if k == 0 then a % 2 else Bit(a / 2, k - 1)
  }

  /** `XorBits` is bitwise exclusive or: each of its low `n` bits is the sum
      modulo 2 of the corresponding bits of `a` and `b`. */
  lemma {:induction false} XorBitsBit(a: nat, b: nat, n: nat, k: nat)
    requires k < n
    ensures Bit(XorBits(a, b, n), k) == (Bit(a, k) + Bit(b, k)) % 2
    decreases n
  {
    var low := (a % 2 + b % 2) % 2;
    var rest := XorBits(a / 2, b / 2, n - 1);
    assert XorBits(a, b, n) == low + 2 * rest;
    assert (low + 2 * rest) % 2 == low && (low + 2 * rest) / 2 == rest;
    if k > 0 {
      XorBitsBit(a / 2, b / 2, n - 1, k - 1);
    }
  }

  /** A pattern XORed with itself clears every bit. */
  lemma {:induction false} XorBitsSelf(a: nat, n: nat)
    ensures XorBits(a, a, n) == 0
    decreases n
  {
    if n > 0 {
      XorBitsSelf(a / 2, n - 1);
    }
  }

  /** `x.wrapping_mul(73856093) ^ y.wrapping_mul(19349663)` on `i32`: the
      products wrap to 32 bits and the XOR acts on their two's-complement
      patterns. */
  function TileHash(x: int, y: int): (h: int)
    ensures I32Min <= h <= I32Max
  {
    var hx := WrapI32(x * 73856093);
    var hy := WrapI32(y * 19349663);
    WrapI32(XorBits(hx % TwoTo32, hy % TwoTo32, 32))
  }

  /** The tile at the origin hashes to zero and so gets no delay. */
  lemma TileHashOrigin()
    ensures TileHash(0, 0) == 0
    ensures TileOffset(TileHash(0, 0)) == 0.0
  {
    XorBitsSelf(0, 32);
  }

  /** `(|hash| % 1000) / 1000 * 0.3`: a delay in [0, 0.3). */
  function TileOffset(h: int): (r: real)
    ensures 0.0 <= r < 0.3
    ensures h % 1000 == 0 ==> r == 0.0
  {
    var m := (if h < 0 then -h else h) % 1000;
    assert h % 1000 == 0 ==> m == 0;
    m as real / 1000.0 * 0.3
  }

  /** The corner coordinate of tile `i` of `count` along one axis:
      `i * 256 - (256 * count) / 2`. */
  function TileCorner(i: nat, count: nat): (r: real)
    ensures r == (256 * i - 128 * count) as real
  {
    (i * 256) as real - (256 * count) as real / 2.0
  }

  /** Neighbouring tiles abut, and the row of `count` tiles spans
      `[-128 * count, 128 * count]`, centred on the origin. */
  lemma TileCornersTile(i: nat, count: nat)
    ensures TileCorner(i + 1, count) == TileCorner(i, count) + WaterSize as real
    ensures TileCorner(0, count) == -(128 * count) as real
    ensures count > 0 ==> TileCorner(count - 1, count) + WaterSize as real == (128 * count) as real
  {
  }

  /** Tile centres (corner plus half a tile) lie symmetrically about the
      origin. */
  lemma TileCentresSymmetric(i: nat, count: nat)
    requires i < count
    ensures TileCenter(Vec2(TileCorner(i, count), 0.0)).x
         == -TileCenter(Vec2(TileCorner(count - 1 - i, count), 0.0)).x
  {
  }

  /** When the grid size does not overflow `u32`, every corner is an
      integer inside `i32`, so the float-to-int cast before hashing is exact. */
  lemma TileCornerFitsI32(i: nat, count: nat)
    requires i < count && 256 * count <= U32Max
    ensures F32ToI32(TileCorner(i, count)) == 256 * i - 128 * count
  {
    var c := 256 * i - 128 * count;
    assert (c as real).Floor == c;
  }

  datatype WaterTile = WaterTile(offset: Vec2)

  /** Where a tile entity is placed: its corner offset shifted by half a
      tile, so that the corner matches the shader's coordinate. */
  function TileCenter(offset: Vec2): (p: Vec2)
    ensures p.Sub(offset) == Vec2(WaterHalfSize, WaterHalfSize)
  {
    offset.AddScalar(WaterHalfSize)
  }

  /** `WaterTile::new`: the tile component and its translation at the water
      height. The entity's display name is not modelled. */
  function NewTile(height: real, offset: Vec2): (r: (WaterTile, Vec3))
    ensures r.0.offset == offset
    ensures r.1.y == height && r.1.x == offset.x + WaterHalfSize && r.1.z == offset.y + WaterHalfSize
  {
    var c := TileCenter(offset);
    (WaterTile(offset), Vec3(c.x, height, c.y))
  }

  /** The settings `setup_water` reads. */
  datatype TileSettings = TileSettings(
    height: real,
    spawnTiles: Option<(nat, nat)>,
    waveDirection: Vec2,
    blendDuration: real)

  /** One spawned tile: its component, translation and crossfade state. */
  datatype SpawnedTile = SpawnedTile(tile: WaterTile, translation: Vec3, waveDir: WaveDirection)

  /** The corner of grid cell `(i, j)` in world units. */
  function CellCorner(gx: nat, gy: nat, i: nat, j: nat): Vec2 {
    Vec2(TileCorner(i, gx), TileCorner(j, gy))
  }

  /** The delay of grid cell `(i, j)`, hashed from its corner cast to `i32`. */
  function CellDelay(gx: nat, gy: nat, i: nat, j: nat): real {
    var c := CellCorner(gx, gy, i, j);
    TileOffset(TileHash(F32ToI32(c.x), F32ToI32(c.y)))
  }

  /** The tile `setup_water` spawns at grid cell `(i, j)`. */
  function ExpectedTile(norm: Vec2 -> Vec2, s: TileSettings, gx: nat, gy: nat, i: nat, j: nat): SpawnedTile
    requires i < gx && j < gy && GridFits(gx, gy)
  {
    var nt := NewTile(s.height, CellCorner(gx, gy, i, j));
    var wave := WithDuration(norm, s.waveDirection, s.blendDuration).(tileOffset := CellDelay(gx, gy, i, j));
    SpawnedTile(nt.0, nt.1, wave)
  }

  /** Each spawned tile sits at its grid corner, is placed half a tile
      further on at the water height, and starts settled on the configured
      direction with a delay in [0, 0.3) hashed from its integer corner. */
  lemma ExpectedTileFacts(norm: Vec2 -> Vec2, s: TileSettings, gx: nat, gy: nat, i: nat, j: nat)
    requires i < gx && j < gy && GridFits(gx, gy)
    ensures var t := ExpectedTile(norm, s, gx, gy, i, j);
      && t.tile.offset == Vec2((256 * i - 128 * gx) as real, (256 * j - 128 * gy) as real)
      && t.translation == Vec3(t.tile.offset.x + WaterHalfSize, s.height, t.tile.offset.y + WaterHalfSize)
      && 0.0 <= t.waveDir.tileOffset < 0.3
      && t.waveDir.tileOffset == TileOffset(TileHash(256 * i - 128 * gx, 256 * j - 128 * gy))
      && t.waveDir == WithDuration(norm, s.waveDirection, s.blendDuration).(tileOffset := t.waveDir.tileOffset)
  {
    TileCornerFitsI32(i, gx);
    TileCornerFitsI32(j, gy);
  }

  /** Whether the grid centre `256 * g` stays within `u32` on both axes. */
  predicate GridFits(gx: nat, gy: nat) {
    256 * gx <= U32Max && 256 * gy <= U32Max
  }

  /** Row `i` of the spawned grid: the tiles at `(i, 0) .. (i, gy - 1)`. */
  function TileRow(norm: Vec2 -> Vec2, s: TileSettings, gx: nat, gy: nat, i: nat): (row: seq<SpawnedTile>)
    requires i < gx && GridFits(gx, gy)
    ensures |row| == gy
    ensures forall j | 0 <= j < gy :: row[j] == ExpectedTile(norm, s, gx, gy, i, j)
  {
    seq(gy, j requires 0 <= j < gy => ExpectedTile(norm, s, gx, gy, i, j))
  }

  /** Row `i` of the spawned grid, or nothing beyond the last row. */
  function TileRowOrEmpty(norm: Vec2 -> Vec2, s: TileSettings, gx: nat, gy: nat, i: nat): seq<SpawnedTile>
    requires GridFits(gx, gy)
  {
    if i < gx then TileRow(norm, s, gx, gy, i) else []
  }

  /** The first `x` rows of the spawned grid, in spawn order. */
  function TileGrid(norm: Vec2 -> Vec2, s: TileSettings, gx: nat, gy: nat, x: nat): seq<SpawnedTile>
    requires GridFits(gx, gy)
  {
    Rows((i: nat) => TileRowOrEmpty(norm, s, gx, gy, i), x)
  }

  /** Cell `(i, j)` of a row-major flattened grid with `gy` columns. */
  function TileAt(tiles: seq<SpawnedTile>, gy: nat, i: nat, j: nat): SpawnedTile
    requires i * gy + j < |tiles|
  {
    tiles[i * gy + j]
  }

  /** The spawned grid holds `gx * gy` tiles and cell `(i, j)` is the tile
      for grid cell `(i, j)`. */
  lemma TileGridAt(norm: Vec2 -> Vec2, s: TileSettings, gx: nat, gy: nat, i: nat, j: nat)
    requires GridFits(gx, gy) && i < gx && j < gy
    ensures |TileGrid(norm, s, gx, gy, gx)| == gx * gy
    ensures i * gy + j < |TileGrid(norm, s, gx, gy, gx)|
    ensures TileAt(TileGrid(norm, s, gx, gy, gx), gy, i, j) == ExpectedTile(norm, s, gx, gy, i, j)
  {
    var row := (r: nat) => TileRowOrEmpty(norm, s, gx, gy, r);
    assert forall r: nat | r < gx :: |row(r)| == gy;
    RowsAt(row, gy, gx, i, j);
  }

  /** The inner loop of `setup_water`: the tiles of one grid row. */
  method SpawnRow(norm: Vec2 -> Vec2, s: TileSettings, gx: nat, gy: nat, x: nat) returns (row: seq<SpawnedTile>)
    requires x < gx && GridFits(gx, gy)
    ensures row == TileRow(norm, s, gx, gy, x)
  {
    var y: nat := 0;
    row := [];
    while y < gy
      invariant y <= gy
      invariant row == TileRow(norm, s, gx, gy, x)[..y]
    {
      PrefixStep(TileRow(norm, s, gx, gy, x), y);
      row := row + [ExpectedTile(norm, s, gx, gy, x, y)];
      y := y + 1;
    }
  }

  /** `setup_water`'s tile loop: `gx * gy` tiles in row-major order, or
      nothing when spawning is switched off. The grid centre `256 * g` is
      computed in `u32` and panics when it overflows. */
  method SetupTiles(norm: Vec2 -> Vec2, s: TileSettings) returns (r: Result<seq<SpawnedTile>, Panic>)
    requires s.spawnTiles.Some? ==> s.spawnTiles.value.0 <= U32Max && s.spawnTiles.value.1 <= U32Max
    ensures s.spawnTiles.None? ==> r == Ok([])
    ensures s.spawnTiles.Some? ==> (r.Err? <==> !GridFits(s.spawnTiles.value.0, s.spawnTiles.value.1))
    ensures r.Err? ==> r.error == ArithmeticOverflow
    ensures r.Ok? && s.spawnTiles.Some? ==>
      var (gx, gy) := s.spawnTiles.value;
      GridFits(gx, gy) && r.value == TileGrid(norm, s, gx, gy, gx) && |r.value| == gx * gy
  {
    if s.spawnTiles.None? {
      return Ok([]);
    }
    var (gx, gy) := s.spawnTiles.value;
    if WaterSize * gx > U32Max || WaterSize * gy > U32Max {
      return Err(ArithmeticOverflow);
    }
    var tiles: seq<SpawnedTile> := [];
    var x: nat := 0;
    while x < gx
      invariant x <= gx
      invariant tiles == TileGrid(norm, s, gx, gy, x)
    {
      var row := SpawnRow(norm, s, gx, gy, x);
      tiles := tiles + row;
      x := x + 1;
    }
    RowsLength((i: nat) => TileRowOrEmpty(norm, s, gx, gy, i), gy, gx);
    return Ok(tiles);
  }
}
