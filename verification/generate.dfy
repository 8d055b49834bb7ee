/** The square grid mesh: `size * size` vertices on the `y = 0` plane and a
    single triangle strip over them, joined row to row by degenerate
    triangles, with 16-bit indices.

    The engine's mesh type is reduced to its four attribute lists; the strip
    topology is implied. The vertex and index loops are methods that mirror
    the source's loops; each is tied to a reference definition built with
    `RowMajor.Rows`. */
module Generate {
  import opened Vectors
  import opened Results
  import opened RealArith
  import opened RowMajor

  /** `u16`: every arithmetic result stored in one is checked to fit, as a
      debug build traps on overflow. */
  newtype U16 = x: int | 0 <= x < 0x1_0000

  const MaxGridSize: nat := 256
  const SizeMessage: string := "Can't generate grid mesh with size > 256"

  datatype Mesh = Mesh(positions: seq<Vec3>, normals: seq<Vec3>, uvs: seq<Vec2>, indices: seq<U16>)

  // ---------------------------------------------------------------------
  // The position / uv table

  /** Distance in uv between neighbouring vertices, `1 / (size - 1)`. */
  function UvStep(size: nat): real
    requires size >= 2
  {
    1.0 / (size - 1) as real
  }

  /** Entry `n` of the `pos_uv` table as `(pos, uv)`: `uv = uv_step * n` and
      `pos = uv * size`. */
  function PosUv(size: nat, n: nat): (r: (real, real))
    requires size >= 2
    ensures r.0 == r.1 * size as real
    ensures n == 0 ==> r.1 == 0.0 && r.0 == 0.0
    ensures n == size - 1 ==> r.1 == 1.0 && r.0 == size as real
  {
    var uv := UvStep(size) * n as real;
    (uv * size as real, uv)
  }

  /** Along the table `uv` grows with `n` and stays within [0, 1]. */
  lemma PosUvMonotone(size: nat, m: nat, n: nat)
    requires size >= 2 && m <= n < size
    ensures 0.0 <= PosUv(size, m).1 <= PosUv(size, n).1 <= 1.0
  {
    var step := UvStep(size);
    var w := (size - 1) as real;
    assert step >= 0.0 && step * w == 1.0 by {
      InverseCancels(w);
    }
    ScaledOrder(step, w, m as real, n as real);
  }

  /** With `step * w == 1`, `step * a` keeps the order of `0 <= a <= b <= w`
      inside [0, 1]. */
  lemma ScaledOrder(step: real, w: real, a: real, b: real)
    requires step >= 0.0 && 0.0 <= a <= b <= w && step * w == 1.0
    ensures 0.0 <= step * a <= step * b <= 1.0
  {
    MulLeMonoLeft(step, 0.0, a);
    MulLeMonoLeft(step, a, b);
    MulLeMonoLeft(step, b, w);
  }

  // ---------------------------------------------------------------------
  // Vertices

  /** Vertex `(i, j)`: `(pos[i] * scale, 0, pos[j] * scale)`. */
  function VertexPosition(size: nat, scale: real, i: nat, j: nat): Vec3
    requires size >= 2
  {
    Vec3(PosUv(size, i).0 * scale, 0.0, PosUv(size, j).0 * scale)
  }

  /** Texture coordinate of vertex `(i, j)`: `(uv[i], 1 - uv[j]) * uv_scale`. */
  function VertexUv(size: nat, uvScale: real, i: nat, j: nat): Vec2
    requires size >= 2
  {
    Vec2(PosUv(size, i).1 * uvScale, (1.0 - PosUv(size, j).1) * uvScale)
  }

  function PositionRow(size: nat, scale: real, i: nat): (row: seq<Vec3>)
    requires size >= 2
    ensures |row| == size
    ensures forall j | 0 <= j < size :: row[j] == VertexPosition(size, scale, i, j)
  {
    seq(size, j requires 0 <= j < size => VertexPosition(size, scale, i, j))
  }

  function UvRow(size: nat, uvScale: real, i: nat): (row: seq<Vec2>)
    requires size >= 2
    ensures |row| == size
    ensures forall j | 0 <= j < size :: row[j] == VertexUv(size, uvScale, i, j)
  {
    seq(size, j requires 0 <= j < size => VertexUv(size, uvScale, i, j))
  }

  function NormalRow(size: nat): (row: seq<Vec3>)
    ensures |row| == size
    ensures forall j | 0 <= j < size :: row[j] == UnitY
  {
    seq(size, _ => UnitY)
  }

  function GridPositions(size: nat, scale: real): seq<Vec3>
    requires size >= 2
  {
    Rows((i: nat) => PositionRow(size, scale, i), size)
  }

  function GridUvs(size: nat, uvScale: real): seq<Vec2>
    requires size >= 2
  {
    Rows((i: nat) => UvRow(size, uvScale, i), size)
  }

  function GridNormals(size: nat): seq<Vec3> {
    Rows((i: nat) => NormalRow(size), size)
  }

  /** Each attribute list holds `size * size` entries, and entry
      `i * size + j` belongs to vertex `(i, j)`: the outer loop runs over
      `x`, the inner over `z`. */
  lemma VertexAt(size: nat, scale: real, uvScale: real, i: nat, j: nat)
    requires size >= 2 && i < size && j < size
    ensures |GridPositions(size, scale)| == |GridNormals(size)| == |GridUvs(size, uvScale)| == size * size
    ensures i * size + j < size * size
    ensures GridPositions(size, scale)[i * size + j] == VertexPosition(size, scale, i, j)
    ensures GridNormals(size)[i * size + j] == UnitY
    ensures GridUvs(size, uvScale)[i * size + j] == VertexUv(size, uvScale, i, j)
  {
    RowsAt((r: nat) => PositionRow(size, scale, r), size, size, i, j);
    RowsAt((r: nat) => NormalRow(size), size, size, i, j);
    RowsAt((r: nat) => UvRow(size, uvScale, r), size, size, i, j);
  }

  /** The grid spans `[0, size * scale]` on both axes, and the uv square is
      flipped in `v`. */
  lemma GridCorners(size: nat, scale: real, uvScale: real)
    requires size >= 2
    ensures VertexPosition(size, scale, 0, 0) == Vec3(0.0, 0.0, 0.0)
    ensures VertexPosition(size, scale, size - 1, size - 1) == Vec3(size as real * scale, 0.0, size as real * scale)
    ensures VertexUv(size, uvScale, 0, 0) == Vec2(0.0, uvScale)
    ensures VertexUv(size, uvScale, size - 1, size - 1) == Vec2(uvScale, 0.0)
  {
  }

  /** The vertex loops: for each `x` row, for each `z` column, push a
      position, the up normal and a texture coordinate. */
  method GridVertices(size: nat, scale: real, uvScale: real) returns (positions: seq<Vec3>, normals: seq<Vec3>, uvs: seq<Vec2>)
    requires size >= 2
    ensures positions == GridPositions(size, scale)
    ensures normals == GridNormals(size)
    ensures uvs == GridUvs(size, uvScale)
  {
    positions, normals, uvs := [], [], [];
    var i := 0;
    while i < size
      invariant i <= size
      invariant positions == Rows((r: nat) => PositionRow(size, scale, r), i)
      invariant normals == Rows((r: nat) => NormalRow(size), i)
      invariant uvs == Rows((r: nat) => UvRow(size, uvScale, r), i)
    {
      var j := 0;
      var prow: seq<Vec3>, nrow: seq<Vec3>, urow: seq<Vec2> := [], [], [];
      while j < size
        invariant j <= size
        invariant prow == PositionRow(size, scale, i)[..j]
        invariant nrow == NormalRow(size)[..j]
        invariant urow == UvRow(size, uvScale, i)[..j]
      {
        prow := prow + [VertexPosition(size, scale, i, j)];
        nrow := nrow + [UnitY];
        urow := urow + [VertexUv(size, uvScale, i, j)];
        j := j + 1;
      }
      assert prow == PositionRow(size, scale, i);
      assert nrow == NormalRow(size);
      assert urow == UvRow(size, uvScale, i);
      positions, normals, uvs := positions + prow, normals + nrow, uvs + urow;
      i := i + 1;
    }
  }

  // ---------------------------------------------------------------------
  // Indices

  /** The first `k` iterations of the reversed column loop: for
      `idx = size - 1` down to `size - k`, the top vertex `top + idx` then the
      bottom vertex `btm + idx`. */
  function Zigzag(top: nat, btm: nat, size: nat, k: nat): (s: seq<nat>)
    requires k <= size && top <= btm
    ensures |s| == 2 * k
    ensures forall e | e in s :: top <= e < btm + size
    ensures k > 0 ==> s[0] == top + size - 1 && s[2 * k - 1] == btm + size - k
    decreases k
  {
    if k == 0 then [] else Zigzag(top, btm, size, k - 1) + [top + size - k, btm + size - k]
  }

  /** The indices pushed for row `row`: after the first row, the degenerate
      pair `top` and `btm - 1`, then the zigzag over all columns. */
  function RowStrip(size: nat, row: nat): (s: seq<nat>)
    requires size >= 1
    ensures |s| == 2 * size + (if row > 0 then 2 else 0)
    ensures forall e | e in s :: row * size <= e < (row + 2) * size
    ensures row > 0 ==> s[0] == row * size && s[1] == s[2] == row * size + size - 1
    ensures s[|s| - 1] == (row + 1) * size
  {
    var top := row * size;
    var btm := top + size;
    assert (row + 2) * size == btm + size;
    (if row > 0 then [top, btm - 1] else []) + Zigzag(top, btm, size, size)
  }

  /** The strip rows `0 .. x - 1`. */
  function StripPrefix(size: nat, x: nat): seq<nat>
    requires size >= 1
  {
    Rows((r: nat) => RowStrip(size, r), x)
  }

  /** The whole strip: rows `0 .. size - 2`, each joined to its lower
      neighbour. */
  function StripIndices(size: nat): seq<nat>
    requires size >= 2
  {
    StripPrefix(size, size - 1)
  }

  /** Where row `r`'s indices start in the strip. */
  function RowStart(size: nat, r: nat): nat {
    2 * size * r + (if r > 0 then 2 * (r - 1) else 0)
  }

  lemma {:induction false} RowStartIsPrefixLength(size: nat, x: nat)
    requires size >= 1
    ensures |StripPrefix(size, x)| == RowStart(size, x)
    decreases x
  {
    if x > 0 {
      RowStartIsPrefixLength(size, x - 1);
      assert 2 * size * x == 2 * size * (x - 1) + 2 * size;
    }
  }

  /** The strip has `(size * size - 2) * 2` indices, the capacity the
      source reserves. */
  lemma StripIndicesLength(size: nat)
    requires size >= 2
    ensures |StripIndices(size)| == (size * size - 2) * 2
  {
    RowStartIsPrefixLength(size, size - 1);
    assert 2 * size * (size - 1) == 2 * (size * size) - 2 * size;
  }

  lemma {:induction false} RowsBelow(size: nat, x: nat)
    requires size >= 1
    ensures forall e | e in StripPrefix(size, x) :: e < (x + 1) * size
    decreases x
  {
    if x > 0 {
      RowsBelow(size, x - 1);
      var strip := RowStrip(size, x - 1);
      assert StripPrefix(size, x) == StripPrefix(size, x - 1) + strip;
      assert x * size <= (x + 1) * size;
      assert (x - 1 + 2) * size == (x + 1) * size;
    }
  }

  /** Every index names a vertex. */
  lemma StripIndicesBelow(size: nat)
    requires size >= 2
    ensures forall k | 0 <= k < |StripIndices(size)| :: StripIndices(size)[k] < size * size
  {
    RowsBelow(size, size - 1);
    assert forall k | 0 <= k < |StripIndices(size)| :: StripIndices(size)[k] in StripIndices(size);
  }

  /** The bridge between rows `r - 1` and `r`: the previous row ends on
      vertex `r * size`, which the degenerate pair repeats, and the pair's
      second index `r * size + size - 1` is repeated by the first index of
      row `r`. Every triangle using the bridge has two equal corners. */
  lemma StripBridge(size: nat, r: nat)
    requires size >= 2 && 1 <= r <= size - 2
    ensures var s, p := StripIndices(size), RowStart(size, r);
      && 1 <= p && p + 2 < |s|
      && s[p - 1] == r * size && s[p] == r * size
      && s[p + 1] == r * size + size - 1 && s[p + 2] == r * size + size - 1
  {
    var s := StripIndices(size);
    var p := RowStart(size, r);
    var head := StripPrefix(size, r);
    var strip := RowStrip(size, r);
    assert |head| == p && 1 <= p by {
      RowStartIsPrefixLength(size, r);
    }
    assert head + strip <= s by {
      RowsPrefix((q: nat) => RowStrip(size, q), r + 1, size - 1);
      assert StripPrefix(size, r + 1) == head + strip;
    }
    PrefixAt(head, strip, s, 0);
    PrefixAt(head, strip, s, 1);
    PrefixAt(head, strip, s, 2);
    assert head[|head| - 1] == r * size by {
      var prevStrip := RowStrip(size, r - 1);
      assert head == StripPrefix(size, r - 1) + prevStrip;
    }
  }

  lemma PrefixAt<T>(head: seq<T>, strip: seq<T>, s: seq<T>, j: nat)
    requires head + strip <= s && j < |strip|
    ensures |head| + j < |s| && s[|head| + j] == strip[j]
    ensures |head| > 0 ==> s[|head| - 1] == head[|head| - 1]
  {
    assert s[|head| + j] == (head + strip)[|head| + j];
  }

  /** `Widens(s, t)`: the `u16` values `s` are the naturals `t`. */
  predicate Widens(s: seq<U16>, t: seq<nat>) {
    |s| == |t| && forall k | 0 <= k < |s| :: s[k] as int == t[k]
  }

  /** `row * size + size + (size - 1)` fits in `u16` for every row the
      index loop visits when `size <= 256`. */
  lemma RowOffsetsFit(size: nat, row: nat)
    requires 2 <= size <= MaxGridSize && row <= size - 2
    ensures (row + 1) * size + size - 1 <= 0xFFFF
  {
    assert (row + 1) * size <= (size - 1) * size;
    assert (size - 1) * size <= 255 * 256;
  }

  /** One pass of the row loop, in `u16` arithmetic as the source writes
      it: the degenerate pair after the first row, then the reversed column
      loop. */
  method RowIndices(size: U16, rowIdx: U16) returns (row: seq<U16>)
    requires 2 <= size as int <= MaxGridSize && rowIdx as int <= size as int - 2
    ensures Widens(row, RowStrip(size as nat, rowIdx as nat))
  {
    RowOffsetsFit(size as nat, rowIdx as nat);
    var top: U16 := rowIdx * size;
    var btm: U16 := top + size;
    row := [];
    if rowIdx > 0 {
      // Degenerate triangles.
      row := [top, btm - 1];
    }
    ghost var bridge: seq<nat> := if rowIdx > 0 then [top as nat, btm as nat - 1] else [];
    var idx: U16 := size;
    while idx > 0
      invariant idx <= size
      invariant Widens(row, bridge + Zigzag(top as nat, btm as nat, size as nat, (size - idx) as nat))
    {
      idx := idx - 1;
      row := row + [top + idx, btm + idx];
    }
  }

  /** The row loop over rows `0 .. size - 2`. */
  method GridIndices(size: U16) returns (indices: seq<U16>)
    requires 2 <= size as int <= MaxGridSize
    ensures Widens(indices, StripIndices(size as nat))
  {
    indices := [];
    var rowIdx: U16 := 0;
    while rowIdx < size - 1
      invariant rowIdx <= size - 1
      invariant Widens(indices, StripPrefix(size as nat, rowIdx as nat))
    {
      var row := RowIndices(size, rowIdx);
      WidensAppend(indices, row, StripPrefix(size as nat, rowIdx as nat), RowStrip(size as nat, rowIdx as nat));
      indices := indices + row;
      rowIdx := rowIdx + 1;
    }
  }

  lemma WidensAppend(a: seq<U16>, b: seq<U16>, ta: seq<nat>, tb: seq<nat>)
    requires Widens(a, ta) && Widens(b, tb)
    ensures Widens(a + b, ta + tb)
  {
    forall k | 0 <= k < |a + b|
      ensures (a + b)[k] as int == (ta + tb)[k]
    {
      if k >= |a| {
        assert (a + b)[k] == b[k - |a|];
      }
    }
  }

  /** `grid_mesh`: a size above 256 fails the assertion; a size below 2
      underflows (`size - 1` in `u16` for 0, `cap - 2` in `usize` for 1);
      otherwise the mesh has `size * size` vertices and the strip indices,
      all naming vertices. */
  method GridMesh(size: U16, scale: real, uvScale: real) returns (r: Result<Mesh, Panic>)
    ensures size as int > MaxGridSize ==> r == Err(AssertionFailed(SizeMessage))
    ensures size as int <= MaxGridSize && size < 2 ==> r == Err(ArithmeticOverflow)
    ensures 2 <= size as int <= MaxGridSize ==> r.Ok?
    ensures r.Ok? ==>
      && |r.value.positions| == size as int * size as int
      && |r.value.normals| == size as int * size as int
      && |r.value.uvs| == size as int * size as int
      && r.value.positions == GridPositions(size as nat, scale)
      && r.value.normals == GridNormals(size as nat)
      && r.value.uvs == GridUvs(size as nat, uvScale)
      && Widens(r.value.indices, StripIndices(size as nat))
      && |r.value.indices| == (size as int * size as int - 2) * 2
      && forall k | 0 <= k < |r.value.indices| :: r.value.indices[k] as int < size as int * size as int
  {
    if size as int > MaxGridSize {
      return Err(AssertionFailed(SizeMessage));
    }
    if size == 0 {
      // `size - 1` underflows `u16`.
      return Err(ArithmeticOverflow);
    }
    if size == 1 {
      // `cap - 2` underflows `usize`.
      return Err(ArithmeticOverflow);
    }
    var positions, normals, uvs := GridVertices(size as nat, scale, uvScale);
    var indices := GridIndices(size);
    VertexAt(size as nat, scale, uvScale, 0, 0);
    StripIndicesLength(size as nat);
    StripIndicesBelow(size as nat);
    return Ok(Mesh(positions, normals, uvs, indices));
  }
}
