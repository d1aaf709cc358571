/** Index arithmetic of the sampling grid: grid points live on the (N+1)^3 lattice,
    voxels on the N^3 lattice, and both are stored flattened in x-fastest order. */
module Grid {

  /** A lattice position (a grid point or the minimum corner of a voxel). */
  datatype Coord = Coord(x: int, y: int, z: int)

  /** Number of grid points of a grid with n cells per axis. */
  function PointCount(n: int): int { (n + 1) * (n + 1) * (n + 1) }

  /** Number of voxels of a grid with n cells per axis. */
  function VoxelCount(n: int): int { n * n * n }

  predicate InPointRange(c: Coord, n: int) {
    0 <= c.x <= n && 0 <= c.y <= n && 0 <= c.z <= n
  }

  predicate InVoxelRange(c: Coord, n: int) {
    0 <= c.x < n && 0 <= c.y < n && 0 <= c.z < n
  }

  /** A grid point with some coordinate on the lattice boundary. */
  predicate OnBoundary(c: Coord, n: int) {
    c.x == 0 || c.y == 0 || c.z == 0 || c.x == n || c.y == n || c.z == n
  }

  /** Inverse of x-fastest flattening with side s. */
  function Unflatten(i: int, s: int): Coord
    requires s > 0
  {
    Coord(i % s, (i / s) % s, (i / s) / s)
  }

  /** Grid-point coordinates of an index into the energy and point-status arrays. */
  function PointAt(i: int, n: int): Coord
    requires n >= 0
  {
    Unflatten(i, n + 1)
  }

  /** Voxel coordinates of an index into the voxel-status array. */
  function VoxelAt(i: int, n: int): Coord
    requires n > 0
  {
    Unflatten(i, n)
  }

  // Euclidean division is unique.
  lemma DivModUnique(a: int, m: int, q: int, r: int)
    requires m > 0 && 0 <= r < m && a == q * m + r
    ensures a / m == q && a % m == r
  {
    var q' := a / m;
    if q' < q {
      MulGap(q', q, m);
    } else if q' > q {
      MulGap(q, q', m);
    }
  }

  lemma MulGap(a: int, b: int, m: int)
    requires a < b && m > 0
    ensures b * m - a * m >= m
  {
    assert b * m - a * m == (b - a) * m;
    MulMonotone(1, b - a, m);
  }

  lemma MulMonotone(a: int, b: int, c: int)
    requires 0 <= a <= b && c >= 0
    ensures a * c <= b * c
  {
    assert b * c - a * c == (b - a) * c;
    assert (b - a) * c >= 0;
  }

  lemma MulNonNegative(a: int, b: int)
    requires a >= 0 && b >= 0
    ensures a * b >= 0
  {
  }

  /** An x-fastest flattening x + q*s with 0 <= x < s and 0 <= q < k lies in [0, k*s). */
  lemma FlattenStep(x: int, q: int, s: int, k: int)
    requires s > 0 && 0 <= x < s && 0 <= q < k
    ensures 0 <= x + q * s < k * s
  {
    MulMonotone(q, k - 1, s);
    MulNonNegative(q, s);
    assert (k - 1) * s == k * s - s;
  }

  /** Flattening a coordinate inside [0,s)^3 lands in [0, s^3) and unflattens back. */
  lemma FlattenRoundTrip(x: int, y: int, z: int, s: int)
    requires s > 0 && 0 <= x < s && 0 <= y < s && 0 <= z < s
    ensures 0 <= x + y * s + z * s * s < s * s * s
    ensures Unflatten(x + y * s + z * s * s, s) == Coord(x, y, z)
  {
    var q := y + z * s;
    var i := x + y * s + z * s * s;
    assert i == x + q * s by {
      assert q * s == y * s + (z * s) * s;
    }
    FlattenStep(y, z, s, s);
    FlattenStep(x, q, s, s * s);
    DivModUnique(i, s, q, x);
    DivModUnique(q, s, z, y);
  }

  /** Unflattening an index in [0, s^3) gives a coordinate in [0,s)^3 that flattens back. */
  lemma UnflattenRoundTrip(i: int, s: int)
    requires s > 0 && 0 <= i < s * s * s
    ensures var c := Unflatten(i, s);
      0 <= c.x < s && 0 <= c.y < s && 0 <= c.z < s && c.x + c.y * s + c.z * s * s == i
  {
    var c := Unflatten(i, s);
    var q := i / s;
    assert i == q * s + c.x;
    assert q == c.z * s + c.y;
    assert 0 <= q;
    if q >= s * s {
      MulMonotone(s * s, q, s);
      assert false;
    }
    if c.z >= s {
      MulMonotone(s, c.z, s);
      assert false;
    }
    assert c.z * s * s == (c.z * s) * s;
    assert q * s == (c.z * s) * s + c.y * s;
  }

  /** Bijection between grid points and [0, (n+1)^3), matching the arrays allocated by SetGridSize. */
  function GetIndex(x: int, y: int, z: int, n: int): (i: int)
    requires n >= 0
    ensures InPointRange(Coord(x, y, z), n) ==> 0 <= i < PointCount(n) && PointAt(i, n) == Coord(x, y, z)
  {
    var i := x + y * (n + 1) + z * (n + 1) * (n + 1);
    if InPointRange(Coord(x, y, z), n) then FlattenRoundTrip(x, y, z, n + 1); i else i
  }

  /** Bijection between voxels and [0, n^3), matching the voxel-status array allocated by SetGridSize. */
  function GetIndexNoAdd(x: int, y: int, z: int, n: int): (i: int)
    requires n > 0
    ensures InVoxelRange(Coord(x, y, z), n) ==> 0 <= i < VoxelCount(n) && VoxelAt(i, n) == Coord(x, y, z)
  {
    var i := x + y * n + z * n * n;
    if InVoxelRange(Coord(x, y, z), n) then FlattenRoundTrip(x, y, z, n); i else i
  }

  /** GetIndex of grid point c. GetIndex keeps the program's three-integer signature; the rest
      of the model carries points and voxels as Coord values (corners, neighbours, the trace,
      the open list), and indexes them through this and VoxelIndex. They add no second
      definition: each is the one call. */
  function PointIndex(c: Coord, n: int): int
    requires n >= 0
  {
    GetIndex(c.x, c.y, c.z, n)
  }

  /** GetIndexNoAdd of voxel c, for the Coord-valued voxels of the other modules. */
  function VoxelIndex(c: Coord, n: int): int
    requires n > 0
  {
    GetIndexNoAdd(c.x, c.y, c.z, n)
  }

  /** Every index of the point arrays is the index of exactly the grid point it decodes to. */
  lemma PointAtRoundTrip(i: int, n: int)
    requires n >= 0 && 0 <= i < PointCount(n)
    ensures InPointRange(PointAt(i, n), n) && PointIndex(PointAt(i, n), n) == i
  {
    UnflattenRoundTrip(i, n + 1);
  }

  /** Every index of the voxel-status array is the index of exactly the voxel it decodes to. */
  lemma VoxelAtRoundTrip(i: int, n: int)
    requires n > 0 && 0 <= i < VoxelCount(n)
    ensures InVoxelRange(VoxelAt(i, n), n) && VoxelIndex(VoxelAt(i, n), n) == i
  {
    UnflattenRoundTrip(i, n);
  }

  /** GetIndex is injective on [0,n]^3. */
  lemma GetIndexInjective(a: Coord, b: Coord, n: int)
    requires n >= 0 && InPointRange(a, n) && InPointRange(b, n)
    ensures PointIndex(a, n) == PointIndex(b, n) <==> a == b
  {
    assert PointAt(PointIndex(a, n), n) == a;
    assert PointAt(PointIndex(b, n), n) == b;
  }

  /** GetIndexNoAdd is injective on [0,n)^3. */
  lemma GetIndexNoAddInjective(a: Coord, b: Coord, n: int)
    requires n > 0 && InVoxelRange(a, n) && InVoxelRange(b, n)
    ensures VoxelIndex(a, n) == VoxelIndex(b, n) <==> a == b
  {
    assert VoxelAt(VoxelIndex(a, n), n) == a;
    assert VoxelAt(VoxelIndex(b, n), n) == b;
  }

  /** The integer clamp FMath::Clamp used for the grid resolution and the blob count. */
  function Clamp(v: int, lo: int, hi: int): (r: int)
    requires lo <= hi
    ensures lo <= r <= hi
    ensures lo <= v <= hi ==> r == v
    ensures v < lo ==> r == lo
    ensures v > hi ==> r == hi
  {
    if v < lo then lo else if v > hi then hi else v
  }
}
