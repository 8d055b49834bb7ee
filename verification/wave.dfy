/** The CPU wave-height evaluator: scalar primitives (`fract`, `mix`,
    `smoothstep`), the sine hash, bilinear value noise, four-octave fBm, the
    single-layer ridge `wave` and the four-layer height sum.

    Trigonometry is not interpreted: `sin` and `cos` are arbitrary functions
    from reals to reals, so every bound proved here holds whatever values they
    return. */
module Wave {
  import opened Vectors
  import opened RealArith

  /** The transcendental functions the evaluator calls. */
  datatype Trig = Trig(sin: real -> real, cos: real -> real)

  /** The directional samplers that the height queries call but that are not
      part of this model: `sample_directional_wave_blended(time, p, dir_a,
      dir_b, blend, quality)` and the four-argument
      `get_wave_height_2d(time, p, dir, quality)`. */
  datatype Samplers = Samplers(
    blended: (real, Vec2, Vec2, Vec2, real, nat) -> real,
    single: (real, Vec2, Vec2, nat) -> real)

  function Abs(x: real): real {
    if x < 0.0 then -x else x
  }

  /** `f32::clamp`: below `lo` gives `lo`, above `hi` gives `hi`. */
  function Clamp(v: real, lo: real, hi: real): (r: real)
    requires lo <= hi
    ensures lo <= r <= hi
    ensures v < lo ==> r == lo
    ensures v > hi ==> r == hi
    ensures lo <= v <= hi ==> r == v
  {
    if v < lo then lo else if v > hi then hi else v
  }

  // ---------------------------------------------------------------------
  // fract

  /** The shader-compatible fractional part `x - floor(x)`. */
  function Fract(x: real): (r: real)
    ensures 0.0 <= r < 1.0
    ensures (x - r).Floor as real == x - r
  {
    x - x.Floor as real
  }

  /** `fract` has period one. */
  lemma FractPeriodic(x: real, n: int)
    ensures Fract(x + n as real) == Fract(x)
  {
    var f := x.Floor;
    assert f as real <= x < f as real + 1.0;
    assert (f + n) as real <= x + n as real < (f + n) as real + 1.0;
    assert (x + n as real).Floor == f + n;
  }

  /** `fract` vanishes exactly on the integers. */
  lemma FractZeroIffInteger(x: real)
    ensures Fract(x) == 0.0 <==> x.Floor as real == x
  {
  }

  /** Componentwise `fract`: both components in [0, 1), and `v` minus the
      result is the lattice point `floor(v)`. */
  function FractVec2(v: Vec2): (r: Vec2)
    ensures 0.0 <= r.x < 1.0 && 0.0 <= r.y < 1.0
    ensures v.Sub(r) == v.Floor() && IsLattice(v.Sub(r))
  {
    Vec2(Fract(v.x), Fract(v.y))
  }

  // ---------------------------------------------------------------------
  // mix

  /** Linear interpolation `x * (1 - a) + y * a`. */
  function Mix(x: real, y: real, a: real): (r: real)
    ensures a == 0.0 ==> r == x
    ensures a == 1.0 ==> r == y
    ensures 0.0 <= a <= 1.0 && x <= y ==> x <= r <= y
    ensures 0.0 <= a <= 1.0 && y <= x ==> y <= r <= x
  {
    MixIsOffset(x, y, a);
    x * (1.0 - a) + y * a
  }

  lemma MixIsOffset(x: real, y: real, a: real)
    ensures x * (1.0 - a) + y * a == x + a * (y - x)
    ensures 0.0 <= a <= 1.0 && x <= y ==> 0.0 <= a * (y - x) <= y - x
    ensures 0.0 <= a <= 1.0 && y <= x ==> y - x <= a * (y - x) <= 0.0
  {
    if 0.0 <= a <= 1.0 && x <= y {
      MulNonneg(a, y - x);
      MulLeMono(a, 1.0, y - x);
    }
    if 0.0 <= a <= 1.0 && y <= x {
      MulNonneg(a, x - y);
      MulLeMono(a, 1.0, x - y);
      assert a * (y - x) == -(a * (x - y));
    }
  }

  /** Mixing a value with itself gives that value, whatever the factor. */
  lemma MixSame(x: real, a: real)
    ensures Mix(x, x, a) == x
  {
  }

  /** Componentwise `mix` of two vectors; glam's `Vec2::lerp` is the same
      function over the reals. */
  function Mix2d(a: Vec2, b: Vec2, t: real): (r: Vec2)
    ensures t == 0.0 ==> r == a
    ensures t == 1.0 ==> r == b
    ensures a == b ==> r == a
  {
    MixSame(a.x, t);
    MixSame(a.y, t);
    Vec2(Mix(a.x, b.x, t), Mix(a.y, b.y, t))
  }

  // ---------------------------------------------------------------------
  // smoothstep

  /** The cubic Hermite polynomial `t * t * (3 - 2 * t)`. */
  function Hermite(t: real): real {
    t * t * (3.0 - 2.0 * t)
  }

  lemma HermiteBounds(t: real)
    requires 0.0 <= t <= 1.0
    ensures 0.0 <= Hermite(t) <= 1.0
  {
    var u := 1.0 - t;
    assert 1.0 - Hermite(t) == u * u * (1.0 + 2.0 * t);
    MulNonneg(u, u);
    MulNonneg(u * u, 1.0 + 2.0 * t);
    MulNonneg(t, t);
    MulNonneg(t * t, 3.0 - 2.0 * t);
  }

  /** The Hermite polynomial is point-symmetric about (1/2, 1/2). */
  lemma HermiteSymmetric(t: real)
    ensures Hermite(1.0 - t) == 1.0 - Hermite(t)
  {
    var u := 1.0 - t;
    assert Hermite(u) == u * u * (1.0 + 2.0 * t);
  }

  lemma HermiteMonotone(s: real, t: real)
    requires 0.0 <= s <= t <= 1.0
    ensures Hermite(s) <= Hermite(t)
  {
    var k := 3.0 * (s + t) - 2.0 * (s * s + s * t + t * t);
    HermiteDifference(s, t);
    assert k >= t - s by {
      MulLeOne(s, s);
      MulLeOne(t, s);
      MulLeOne(t, t);
      SlopeBound(s, t, s * s, s * t, t * t);
    }
    MulNonneg(t - s, k);
  }

  lemma HermiteDifference(s: real, t: real)
    ensures Hermite(t) - Hermite(s) == (t - s) * (3.0 * (s + t) - 2.0 * (s * s + s * t + t * t))
  {
  }

  lemma SlopeBound(s: real, t: real, ss: real, st: real, tt: real)
    requires s <= t && ss <= s && st <= s && tt <= t
    ensures 3.0 * (s + t) - 2.0 * (ss + st + tt) >= t - s
  {
  }

  /** The clamped cubic `smoothstep`. The engine's division by
      `edge1 - edge0` is only defined for distinct edges, which every caller
      passes. */
  function Smoothstep(edge0: real, edge1: real, x: real): (r: real)
    requires edge0 != edge1
    ensures 0.0 <= r <= 1.0
    ensures edge0 < edge1 && x <= edge0 ==> r == 0.0
    ensures edge0 < edge1 && edge1 <= x ==> r == 1.0
    ensures edge1 < edge0 && edge0 <= x ==> r == 0.0
    ensures edge1 < edge0 && x <= edge1 ==> r == 1.0
  {
    var t := Clamp((x - edge0) / (edge1 - edge0), 0.0, 1.0);
    HermiteBounds(t);
    QuotientBounds(x - edge0, edge1 - edge0);
    Hermite(t)
  }

  /** With ordered edges, `smoothstep` is monotone in `x`. */
  lemma SmoothstepMonotone(edge0: real, edge1: real, x: real, y: real)
    requires edge0 < edge1 && x <= y
    ensures Smoothstep(edge0, edge1, x) <= Smoothstep(edge0, edge1, y)
  {
    var w := edge1 - edge0;
    var qx := (x - edge0) / w;
    var qy := (y - edge0) / w;
    DivLeMono(x - edge0, y - edge0, w);
    HermiteMonotone(Clamp(qx, 0.0, 1.0), Clamp(qy, 0.0, 1.0));
  }

  /** Swapping the edges mirrors the curve: `smoothstep(e1, e0, x)` is
      `1 - smoothstep(e0, e1, x)`. The ridge profile `smoothstep(1, 0, s)` of
      `wave` is this reflection. */
  lemma SmoothstepReversed(edge0: real, edge1: real, x: real)
    requires edge0 != edge1
    ensures Smoothstep(edge1, edge0, x) == 1.0 - Smoothstep(edge0, edge1, x)
  {
    var q := (x - edge0) / (edge1 - edge0);
    QuotientReflect(x, edge0, edge1);
    assert Clamp((x - edge1) / (edge0 - edge1), 0.0, 1.0) == 1.0 - Clamp(q, 0.0, 1.0);
    HermiteSymmetric(Clamp(q, 0.0, 1.0));
  }

  // ---------------------------------------------------------------------
  // Hashing and value noise

  const HashKey: Vec2 := Vec2(12.9898, 78.233)
  const HashScale: real := 43758.5453123

  /** The sine hash `fract(sin(dot(v, (12.9898, 78.233))) * 43758.5453123)`. */
  function Random2d(sin: real -> real, v: Vec2): (r: real)
    ensures 0.0 <= r < 1.0
  {
    Fract(sin(v.Dot(HashKey)) * HashScale)
  }

  /** The hash of the lattice point below `v`. */
  function Random2di(sin: real -> real, v: Vec2): (r: real)
    ensures 0.0 <= r < 1.0
    ensures IsLattice(v) ==> r == Random2d(sin, v)
  {
    Random2d(sin, v.Floor())
  }

  predicate IsLattice(v: Vec2) {
    v.x.Floor as real == v.x && v.y.Floor as real == v.y
  }

  /** Componentwise `smoothstep(0, 1, _)`. */
  function CubicHermiteCurve2d(p: Vec2): (r: Vec2)
    ensures 0.0 <= r.x <= 1.0 && 0.0 <= r.y <= 1.0
    ensures p.x <= 0.0 ==> r.x == 0.0
    ensures p.y <= 0.0 ==> r.y == 0.0
  {
    Vec2(Smoothstep(0.0, 1.0, p.x), Smoothstep(0.0, 1.0, p.y))
  }

  /** The engine's corner-mixing expression for value noise. */
  function NoiseBlend(a: real, b: real, c: real, d: real, u: Vec2): real {
    Mix(a, b, u.x) + (c - a) * u.y * (1.0 - u.x) + (d - b) * u.x * u.y
  }

  /** The corner-mixing expression is bilinear interpolation: mix along x on
      the lower and on the upper edge, then mix the two along y. */
  lemma NoiseBlendIsBilinear(a: real, b: real, c: real, d: real, u: Vec2)
    ensures NoiseBlend(a, b, c, d, u) == Mix(Mix(a, b, u.x), Mix(c, d, u.x), u.y)
  {
    var ux, uy := u.x, u.y;
    assert Mix(a, b, ux) == a * (1.0 - ux) + b * ux;
    assert Mix(c, d, ux) == c * (1.0 - ux) + d * ux;
    assert (c - a) * uy * (1.0 - ux) == c * (1.0 - ux) * uy - a * (1.0 - ux) * uy;
    assert (d - b) * ux * uy == d * ux * uy - b * ux * uy;
  }

  /** Bilinear value noise over the integer lattice. */
  function VNoise2d(sin: real -> real, v: Vec2): (r: real)
    ensures 0.0 <= r < 1.0
  {
    var i := v.Floor();
    var f := FractVec2(v);
    var a := Random2di(sin, i);
    var b := Random2di(sin, i.Add(Vec2(1.0, 0.0)));
    var c := Random2di(sin, i.Add(Vec2(0.0, 1.0)));
    var d := Random2di(sin, i.Add(Vec2(1.0, 1.0)));
    var u := CubicHermiteCurve2d(f);
    NoiseBlendIsBilinear(a, b, c, d, u);
    NoiseBlendBounds(a, b, c, d, u);
    NoiseBlend(a, b, c, d, u)
  }

  lemma NoiseBlendBounds(a: real, b: real, c: real, d: real, u: Vec2)
    requires 0.0 <= a < 1.0 && 0.0 <= b < 1.0 && 0.0 <= c < 1.0 && 0.0 <= d < 1.0
    requires 0.0 <= u.x <= 1.0 && 0.0 <= u.y <= 1.0
    ensures 0.0 <= NoiseBlend(a, b, c, d, u) < 1.0
  {
    NoiseBlendIsBilinear(a, b, c, d, u);
    var lo := Mix(a, b, u.x);
    var hi := Mix(c, d, u.x);
    assert 0.0 <= lo < 1.0 && 0.0 <= hi < 1.0;
    var r := Mix(lo, hi, u.y);
    assert 0.0 <= r < 1.0;
  }

  /** At a lattice point the noise is the hash of that point. */
  lemma VNoiseAtLattice(sin: real -> real, v: Vec2)
    requires IsLattice(v)
    ensures VNoise2d(sin, v) == Random2d(sin, v)
  {
    var i := v.Floor();
    assert i == v;
    FractZeroIffInteger(v.x);
    FractZeroIffInteger(v.y);
    var u := CubicHermiteCurve2d(FractVec2(v));
    assert u.x == 0.0 && u.y == 0.0;
  }

  // ---------------------------------------------------------------------
  // fBm

  /** `M2 * p` for `M2 = from_cols((0.8, 0.6), (-0.6, 0.8))`. */
  function RotateM2(p: Vec2): Vec2 {
    Vec2(0.8 * p.x - 0.6 * p.y, 0.6 * p.x + 0.8 * p.y)
  }

  /** `M2` is a rotation: it keeps lengths, and it turns `(1, 0)` to
      `(0.8, 0.6)` and `(0, 1)` to `(-0.6, 0.8)`, its two columns. */
  lemma RotateM2IsRotation(p: Vec2)
    ensures RotateM2(p).LengthSquared() == p.LengthSquared()
    ensures RotateM2(Vec2(1.0, 0.0)) == Vec2(0.8, 0.6)
    ensures RotateM2(Vec2(0.0, 1.0)) == Vec2(-0.6, 0.8)
  {
    var x, y := p.x, p.y;
    assert (0.8 * x - 0.6 * y) * (0.8 * x - 0.6 * y) == 0.64 * (x * x) - 0.96 * (x * y) + 0.36 * (y * y);
    assert (0.6 * x + 0.8 * y) * (0.6 * x + 0.8 * y) == 0.36 * (x * x) + 0.96 * (x * y) + 0.64 * (y * y);
  }

  const FbmWeightSum: real := 0.9375

  /** Four octaves of value noise, each rotated by `M2` and scaled up by
      2.02, 2.03 and 2.01, weighted 1/2, 1/4, 1/8, 1/16 and divided by the
      weight sum. */
  function Fbm(sin: real -> real, p: Vec2): (r: real)
    ensures 0.0 <= r < 1.0
  {
    var p1 := RotateM2(p).Scale(2.02);
    var p2 := RotateM2(p1).Scale(2.03);
    var p3 := RotateM2(p2).Scale(2.01);
    var f := 0.5 * VNoise2d(sin, p)
           + 0.25 * VNoise2d(sin, p1)
           + 0.125 * VNoise2d(sin, p2)
           + 0.0625 * VNoise2d(sin, p3);
    assert 0.5 + 0.25 + 0.125 + 0.0625 == FbmWeightSum;
    f / FbmWeightSum
  }

  // ---------------------------------------------------------------------
  // Waves

  /** One ridge layer: a `cos` swell along x bends a ridge line along y whose
      profile is `smoothstep(1, 0, |sin|)`, plus fBm roughness `fbm / 2 - 1`. */
  function WaveLayer(trig: Trig, gTime: real, p: Vec2): (r: real)
    ensures -1.0 <= r < 0.5
  {
    var time := gTime * 0.5 + 23.0;
    var timeX := time / 1.0;
    var timeY := time / 0.5;
    var waveLenX := 5.0;
    var waveLenY := 2.0;
    var waveX := trig.cos(p.x / waveLenX + timeX);
    var waveY := Smoothstep(1.0, 0.0, Abs(trig.sin(p.y / waveLenY + waveX + timeY)));
    var n := Fbm(trig.sin, p) / 2.0 - 1.0;
    waveY + n
  }

  /** The ridge term of `WaveLayer` is 1 on a crest (`sin` = 0) and 0 where
      `|sin|` reaches 1; in between it is the mirrored `smoothstep`. */
  lemma RidgeProfile(s: real)
    requires 0.0 <= s
    ensures Smoothstep(1.0, 0.0, s) == 1.0 - Smoothstep(0.0, 1.0, s)
    ensures s == 0.0 ==> Smoothstep(1.0, 0.0, s) == 1.0
    ensures s >= 1.0 ==> Smoothstep(1.0, 0.0, s) == 0.0
  {
    SmoothstepReversed(0.0, 1.0, s);
  }

  const LayerWeights: seq<real> := [0.3, 0.3, 0.2, 0.2]

  /** Four `WaveLayer` samples at scales 0.4, 0.3, 0.5, 0.6 scrolling by
      `+t, -t, +t, -t` with `t = time / 2`, weighted 0.3, 0.3, 0.2, 0.2. */
  function WaveHeight2d(trig: Trig, gTime: real, p: Vec2): (r: real)
    ensures -1.0 <= r < 0.5
  {
    var time := gTime / 2.0;
    var d0 := WaveLayer(trig, gTime, p.AddScalar(time).Scale(0.4)) * LayerWeights[0];
    var d1 := d0 + WaveLayer(trig, gTime, p.AddScalar(-time).Scale(0.3)) * LayerWeights[1];
    var d2 := d1 + WaveLayer(trig, gTime, p.AddScalar(time).Scale(0.5)) * LayerWeights[2];
    var d3 := d2 + WaveLayer(trig, gTime, p.AddScalar(-time).Scale(0.6)) * LayerWeights[3];
    assert LayerWeights[0] + LayerWeights[1] + LayerWeights[2] + LayerWeights[3] == 1.0;
    d3
  }

  /** Height of the water surface above the horizontal position of `pos`:
      `height_2d * amplitude + base_height`. */
  function WaveHeight(trig: Trig, time: real, baseHeight: real, amplitude: real, pos: Vec3): (h: real)
    ensures amplitude >= 0.0 ==> baseHeight - amplitude <= h <= baseHeight + amplitude * 0.5
    ensures amplitude > 0.0 ==> h < baseHeight + amplitude * 0.5
    ensures amplitude == 0.0 ==> h == baseHeight
  {
    Displace(WaveHeight2d(trig, time, pos.Xz()), amplitude, baseHeight)
  }

  /** A normalised wave value `w` in [-1, 0.5) scaled by `amplitude` about
      `baseHeight`. */
  function Displace(w: real, amplitude: real, baseHeight: real): (h: real)
    requires -1.0 <= w < 0.5
    ensures amplitude >= 0.0 ==> baseHeight - amplitude <= h <= baseHeight + amplitude * 0.5
    ensures amplitude > 0.0 ==> h < baseHeight + amplitude * 0.5
    ensures amplitude == 0.0 ==> h == baseHeight
  {
    var offset := w * amplitude;
    ScaledBounds(w, amplitude, offset);
    offset + baseHeight
  }

  /** Bounds on the scaled wave offset `p == w * a`. */
  lemma ScaledBounds(w: real, a: real, p: real)
    requires -1.0 <= w < 0.5 && p == w * a
    ensures a >= 0.0 ==> -a <= p <= a * 0.5
    ensures a > 0.0 ==> p < a * 0.5
    ensures a == 0.0 ==> p == 0.0
  {
    if a >= 0.0 {
      MulNonneg(w + 1.0, a);
      assert (w + 1.0) * a == p + a;
      MulNonneg(0.5 - w, a);
      assert (0.5 - w) * a == a * 0.5 - p;
    }
    if a > 0.0 {
      MulPos(0.5 - w, a);
    }
  }

  /** The height ignores the vertical coordinate of the query. */
  lemma WaveHeightIgnoresY(trig: Trig, time: real, baseHeight: real, amplitude: real, p: Vec3, q: Vec3)
    requires p.x == q.x && p.z == q.z
    ensures WaveHeight(trig, time, baseHeight, amplitude, p) == WaveHeight(trig, time, baseHeight, amplitude, q)
  {
    assert p.Xz() == q.Xz();
  }

  /** `pos` moved vertically onto the surface. */
  function WavePoint(trig: Trig, time: real, baseHeight: real, amplitude: real, pos: Vec3): (r: Vec3)
    ensures r.x == pos.x && r.z == pos.z
    ensures r.y == WaveHeight(trig, time, baseHeight, amplitude, pos)
  {
    pos.(y := WaveHeight(trig, time, baseHeight, amplitude, pos))
  }

  /** A point already on the surface stays where it is. */
  lemma WavePointIdempotent(trig: Trig, time: real, baseHeight: real, amplitude: real, pos: Vec3)
    ensures WavePoint(trig, time, baseHeight, amplitude, WavePoint(trig, time, baseHeight, amplitude, pos))
         == WavePoint(trig, time, baseHeight, amplitude, pos)
  {
    var p1 := WavePoint(trig, time, baseHeight, amplitude, pos);
    WaveHeightIgnoresY(trig, time, baseHeight, amplitude, p1, pos);
  }
}
