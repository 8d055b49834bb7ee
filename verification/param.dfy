/** Height, surface-point and normal queries that gameplay code runs on the
    CPU against the same waves the shader draws.

    The directional samplers these queries call are not part of this model;
    they are the fields of `Wave.Samplers`, so every property here holds
    whatever they compute. `Vec3::normalize` is likewise a parameter. */
module Param {
  import opened Vectors
  import opened Water
  import Wave

  /** The fields of the water settings the queries read. */
  datatype Settings = Settings(height: real, amplitude: real, quality: WaterQuality)

  /** The query context: settings, the wrapped elapsed time in seconds and
      the global wave state. */
  datatype WaterParam = WaterParam(settings: Settings, time: real, waveState: GlobalWaveState)

  /** The normalised wave value at horizontal position `p`. High and Ultra
      crossfade both directions; Basic and Medium sample `dirA` only. The
      quality code is passed on to the sampler. */
  function WaveSample(samplers: Wave.Samplers, wp: WaterParam, p: Vec2): (w: real)
    ensures wp.settings.quality.UsesBlendedSampler() ==>
      w == samplers.blended(wp.time, p, wp.waveState.dirA, wp.waveState.dirB, wp.waveState.blend,
                            QualityCode(wp.settings.quality))
    ensures !wp.settings.quality.UsesBlendedSampler() ==>
      w == samplers.single(wp.time, p, wp.waveState.dirA, QualityCode(wp.settings.quality))
  {
    var g := wp.waveState;
    var code := QualityCode(wp.settings.quality);
    match wp.settings.quality
    case High => samplers.blended(wp.time, p, g.dirA, g.dirB, g.blend, code)
    case Ultra => samplers.blended(wp.time, p, g.dirA, g.dirB, g.blend, code)
    case _ => samplers.single(wp.time, p, g.dirA, code)
  }

  /** `height + amplitude * wave` at the horizontal position of `position`. */
  function WaveHeight(samplers: Wave.Samplers, wp: WaterParam, position: Vec3): (h: real)
    ensures wp.settings.amplitude == 0.0 ==> h == wp.settings.height
  {
    wp.settings.height + wp.settings.amplitude * WaveSample(samplers, wp, position.Xz())
  }

  /** The query is the CPU height formula `wave * amplitude + base_height`
      applied to the selected sample; so whenever the sample lies in the
      range the CPU evaluator produces, the height obeys the same bounds. */
  lemma WaveHeightIsDisplacement(samplers: Wave.Samplers, wp: WaterParam, position: Vec3)
    requires -1.0 <= WaveSample(samplers, wp, position.Xz()) < 0.5
    ensures WaveHeight(samplers, wp, position)
         == Wave.Displace(WaveSample(samplers, wp, position.Xz()), wp.settings.amplitude, wp.settings.height)
  {
  }

  /** The height depends on `x` and `z` only. */
  lemma WaveHeightIgnoresY(samplers: Wave.Samplers, wp: WaterParam, p: Vec3, q: Vec3)
    requires p.x == q.x && p.z == q.z
    ensures WaveHeight(samplers, wp, p) == WaveHeight(samplers, wp, q)
  {
    assert p.Xz() == q.Xz();
  }

  /** At Basic and Medium quality the crossfade target and the blend play
      no part: two states that share `dirA` give the same height. */
  lemma SingleSampleIgnoresCrossfade(samplers: Wave.Samplers, wp: WaterParam, other: GlobalWaveState, position: Vec3)
    requires !wp.settings.quality.UsesBlendedSampler() && other.dirA == wp.waveState.dirA
    ensures WaveHeight(samplers, wp.(waveState := other), position) == WaveHeight(samplers, wp, position)
  {
  }

  /** `position` moved vertically onto the surface. */
  function WavePoint(samplers: Wave.Samplers, wp: WaterParam, position: Vec3): (r: Vec3)
    ensures r.x == position.x && r.z == position.z
    ensures r.y == WaveHeight(samplers, wp, position)
  {
    position.(y := WaveHeight(samplers, wp, position))
  }

  /** A point already on the surface stays where it is. */
  lemma WavePointIdempotent(samplers: Wave.Samplers, wp: WaterParam, position: Vec3)
    ensures WavePoint(samplers, wp, WavePoint(samplers, wp, position)) == WavePoint(samplers, wp, position)
  {
    WaveHeightIgnoresY(samplers, wp, WavePoint(samplers, wp, position), position);
  }

  /** The surface step one unit along `x` from `position`. */
  function StepX(samplers: Wave.Samplers, wp: WaterParam, position: Vec3): Vec3 {
    Vec3(1.0, WaveHeight(samplers, wp, position.Add(UnitX)) - WaveHeight(samplers, wp, position), 0.0)
  }

  /** The surface step one unit along `z` from `position`. */
  function StepZ(samplers: Wave.Samplers, wp: WaterParam, position: Vec3): Vec3 {
    Vec3(0.0, WaveHeight(samplers, wp, position.Add(UnitZ)) - WaveHeight(samplers, wp, position), 1.0)
  }

  /** The normal before normalisation, from forward differences with step 1:
      `(h - h(pos + X), 1, h - h(pos + Z))`. */
  function NormalPreimage(samplers: Wave.Samplers, wp: WaterParam, position: Vec3): (n: Vec3)
    ensures n.y == 1.0
  {
    var h := WaveHeight(samplers, wp, position);
    var hdx := WaveHeight(samplers, wp, position.Add(UnitX));
    var hdz := WaveHeight(samplers, wp, position.Add(UnitZ));
    Vec3(h - hdx, 1.0, h - hdz)
  }

  /** The forward-difference normal is the negated cross product of the two
      surface steps, so it is perpendicular to both. */
  lemma NormalIsNegatedCross(samplers: Wave.Samplers, wp: WaterParam, position: Vec3)
    ensures NormalPreimage(samplers, wp, position)
         == StepX(samplers, wp, position).Cross(StepZ(samplers, wp, position)).Neg()
    ensures NormalPreimage(samplers, wp, position).Dot(StepX(samplers, wp, position)) == 0.0
    ensures NormalPreimage(samplers, wp, position).Dot(StepZ(samplers, wp, position)) == 0.0
  {
  }

  /** The unit surface normal. */
  function WaveNormal(normalize: Vec3 -> Vec3, samplers: Wave.Samplers, wp: WaterParam, position: Vec3): (r: Vec3)
    ensures wp.settings.amplitude == 0.0 ==> r == normalize(UnitY)
  {
    normalize(NormalPreimage(samplers, wp, position))
  }

  /** On a flat surface the normal points straight up. */
  lemma FlatNormal(samplers: Wave.Samplers, wp: WaterParam, position: Vec3)
    requires wp.settings.amplitude == 0.0
    ensures NormalPreimage(samplers, wp, position) == UnitY
  {
  }
}
