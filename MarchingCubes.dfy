/** The marching-cubes classification of one voxel: the corner order, the 8-bit case code,
    the face-neighbour mask, and the lookup tables (whose contents live outside this model
    and are taken as a parameter satisfying WellFormed). */
module MarchingCubes {
  import opened Grid

  /** The energy field of the current blob configuration, sampled at lattice coordinates. */
  type Field = (int, int, int) -> real

  /** The lookup tables: for each of the 256 case codes, the -1-terminated list of cube edges
      whose crossing vertices form its triangles, and the 6-bit mask of faces through which the
      surface may continue (bit 0 = +x, 1 = -x, 2 = +y, 3 = -y, 4 = +z, 5 = -z). */
  datatype CubeTables = CubeTables(triangles: seq<seq<int>>, neighbors: seq<bv8>)

  /** Number of entries of a triangle list before its -1 terminator. */
  function EdgeCount(list: seq<int>): (r: nat)
    ensures r <= |list|
    ensures forall k :: 0 <= k < r ==> list[k] != -1
    ensures r < |list| ==> list[r] == -1
  {
    if list == [] then 0
    else if list[0] == -1 then 0
    else 1 + EdgeCount(list[1..])
  }

  /** The edges a case code emits, in table order (the entries before -1): edge ids, one per
      entry before the terminator. */
  function CaseEdges(t: CubeTables, c: int): (es: seq<int>)
    requires WellFormed(t) && 0 <= c < 256
    ensures |es| == EdgeCount(t.triangles[c]) < |t.triangles[c]|
    ensures forall k :: 0 <= k < |es| ==> IsEdge(es[k]) && es[k] == t.triangles[c][k]
  {
    t.triangles[c][..EdgeCount(t.triangles[c])]
  }

  predicate IsEdge(e: int) { 0 <= e < 12 }

  /** Bit k of a case code, the test nCase & (1 << k): corner k is above the level. */
  predicate CornerBit(c: int, k: int)
    requires 0 <= k < 8
    decreases k
  {
    if k == 0 then c % 2 == 1 else CornerBit(c / 2, k - 1)
  }

  /** Bit f of a neighbour mask, the test of AMetaballs::AddNeighborsToList: the surface may continue
      through face f. */
  predicate MaskBit(m: bv8, f: int)
    requires 0 <= f < 6
  {
    match f
    case 0 => m & 0x01 != 0
    case 1 => m & 0x02 != 0
    case 2 => m & 0x04 != 0
    case 3 => m & 0x08 != 0
    case 4 => m & 0x10 != 0
    case _ => m & 0x20 != 0
  }

  /** Offset of corner k from the voxel's minimum corner, in the order ComputeGridVoxel samples them. */
  function CornerOffset(k: int): Coord
    requires 0 <= k < 8
  {
    [Coord(0, 0, 0), Coord(1, 0, 0), Coord(1, 0, 1), Coord(0, 0, 1),
     Coord(0, 1, 0), Coord(1, 1, 0), Coord(1, 1, 1), Coord(0, 1, 1)][k]
  }

  function Corner(v: Coord, k: int): Coord
    requires 0 <= k < 8
  {
    var d := CornerOffset(k);
    Coord(v.x + d.x, v.y + d.y, v.z + d.z)
  }

  /** The indices, in the energy and point-status arrays, of voxel v's corners 0 .. k-1;
      CornerPoints(v, n, 8) holds all eight. */
  function CornerPoints(v: Coord, n: int, k: int): (r: set<int>)
    requires n >= 0 && 0 <= k <= 8
    ensures forall j :: 0 <= j < k ==> PointIndex(Corner(v, j), n) in r
  {
    if k == 0 then {} else CornerPoints(v, n, k - 1) + {PointIndex(Corner(v, k - 1), n)}
  }

  /** Face f of a voxel contains corner k. */
  predicate OnFace(k: int, f: int)
    requires 0 <= k < 8 && 0 <= f < 6
  {
    var d := CornerOffset(k);
    match f
    case 0 => d.x == 1
    case 1 => d.x == 0
    case 2 => d.y == 1
    case 3 => d.y == 0
    case 4 => d.z == 1
    case _ => d.z == 0
  }

  /** The face neighbour offered by bit f of the mask, as AddNeighborsToList computes it. */
  function Neighbor(v: Coord, f: int): Coord
    requires 0 <= f < 6
  {
    match f
    case 0 => Coord(v.x + 1, v.y, v.z)
    case 1 => Coord(v.x - 1, v.y, v.z)
    case 2 => Coord(v.x, v.y + 1, v.z)
    case 3 => Coord(v.x, v.y - 1, v.z)
    case 4 => Coord(v.x, v.y, v.z + 1)
    case _ => Coord(v.x, v.y, v.z - 1)
  }

  /** The assumptions on the tables built by CMarchingCubes::BuildTables: one list per case,
      each -1-terminated with edge ids 0..11 before the terminator, one neighbour mask per case,
      and a face bit set only when some corner on that face is above the level. */
  ghost predicate WellFormed(t: CubeTables) {
    && |t.triangles| == 256
    && (forall c :: 0 <= c < 256 ==> EdgeCount(t.triangles[c]) < |t.triangles[c]|)
    && (forall c, k :: 0 <= c < 256 && 0 <= k < EdgeCount(t.triangles[c]) ==> IsEdge(t.triangles[c][k]))
    && |t.neighbors| == 256
    && (forall c, f :: 0 <= c < 256 && 0 <= f < 6 && MaskBit(t.neighbors[c], f) ==> FaceAbove(c, f, 0))
  }

  /** Some corner k' >= k on face f is above the level in case c. */
  predicate FaceAbove(c: int, f: int, k: int)
    requires 0 <= f < 6 && 0 <= k <= 8
    decreases 8 - k
  {
    k < 8 && ((OnFace(k, f) && CornerBit(c, k)) || FaceAbove(c, f, k + 1))
  }

  /** A corner that makes FaceAbove hold. */
  lemma {:induction false} FaceAboveWitness(c: int, f: int, k: int) returns (j: int)
    requires 0 <= f < 6 && 0 <= k <= 8 && FaceAbove(c, f, k)
    ensures k <= j < 8 && OnFace(j, f) && CornerBit(c, j)
    decreases 8 - k
  {
    if OnFace(k, f) && CornerBit(c, k) {
      j := k;
    } else {
      j := FaceAboveWitness(c, f, k + 1);
    }
  }

  /** The neighbour mask of a case code. */
  function NeighborMask(t: CubeTables, c: int): bv8
    requires |t.neighbors| == 256 && 0 <= c < 256
  {
    t.neighbors[c]
  }

  /** The energy ComputeGridPointEnergy yields for a grid point: exactly 0 on the lattice
      boundary, the field's value inside. */
  function Sample(field: Field, n: int, p: Coord): real {
    if OnBoundary(p, n) then 0.0 else field(p.x, p.y, p.z)
  }

  function Bit(on: bool): int { if on then 1 else 0 }

  /** 2^(8-k): one more than the largest code the corners k..7 can form. */
  function Span(k: int): int
    requires 0 <= k <= 8
  {
    match k
    case 0 => 256
    case 1 => 128
    case 2 => 64
    case 3 => 32
    case 4 => 16
    case 5 => 8
    case 6 => 4
    case 7 => 2
    case _ => 1
  }

  /** The bits the corners k..7 of voxel v contribute to its case code, shifted down by k:
      bit j of the result is set when corner k + j is above the level. The grid size n is part
      of the measure only so that a literal k does not unfold all eight corners at once. */
  function CaseBitsFrom(field: Field, n: int, level: real, v: Coord, k: int): (c: int)
    requires 0 <= k <= 8
    ensures 0 <= c < Span(k)
    decreases 8 - k, n
  {
    if k == 8 then 0
    else Bit(Sample(field, n, Corner(v, k)) > level) + 2 * CaseBitsFrom(field, n, level, v, k + 1)
  }

  /** The case code of voxel v under the given field: bit k set when corner k is above the level. */
  function VoxelCase(field: Field, n: int, level: real, v: Coord): (c: int)
    ensures 0 <= c < 256
  {
    CaseBitsFrom(field, n, level, v, 0)
  }

  /** The case code is the sum ComputeGridVoxel forms, corner k contributing 1 << k when its
      energy b[k] is above the level. */
  lemma CaseCodeSum(field: Field, n: int, level: real, v: Coord, b: seq<real>)
    requires |b| == 8 && forall k :: 0 <= k < 8 ==> b[k] == Sample(field, n, Corner(v, k))
    ensures VoxelCase(field, n, level, v) ==
      0x01 * Bit(b[0] > level) + 0x02 * Bit(b[1] > level) + 0x04 * Bit(b[2] > level) + 0x08 * Bit(b[3] > level) +
      0x10 * Bit(b[4] > level) + 0x20 * Bit(b[5] > level) + 0x40 * Bit(b[6] > level) + 0x80 * Bit(b[7] > level)
  {
    var c7 := CaseBitsFrom(field, n, level, v, 7);
    assert c7 == Bit(b[7] > level) by { assert CaseBitsFrom(field, n, level, v, 8) == 0; }
    var c6 := CaseBitsFrom(field, n, level, v, 6);
    assert c6 == Bit(b[6] > level) + 2 * c7;
    var c5 := CaseBitsFrom(field, n, level, v, 5);
    assert c5 == Bit(b[5] > level) + 2 * c6;
    var c4 := CaseBitsFrom(field, n, level, v, 4);
    assert c4 == Bit(b[4] > level) + 2 * c5;
    var c3 := CaseBitsFrom(field, n, level, v, 3);
    assert c3 == Bit(b[3] > level) + 2 * c4;
    var c2 := CaseBitsFrom(field, n, level, v, 2);
    assert c2 == Bit(b[2] > level) + 2 * c3;
    var c1 := CaseBitsFrom(field, n, level, v, 1);
    assert c1 == Bit(b[1] > level) + 2 * c2;
    assert VoxelCase(field, n, level, v) == Bit(b[0] > level) + 2 * c1;
  }

  /** Corner k's bit is the low bit of CaseBitsFrom(k), and the rest is CaseBitsFrom(k + 1). */
  lemma CaseBitsSplit(field: Field, n: int, level: real, v: Coord, k: int)
    requires 0 <= k < 8
    ensures var c := CaseBitsFrom(field, n, level, v, k);
      && c % 2 == Bit(Sample(field, n, Corner(v, k)) > level)
      && c / 2 == CaseBitsFrom(field, n, level, v, k + 1)
  {
  }

  /** Bit k of the case code is set exactly when corner k is above the level. */
  lemma CaseBit(field: Field, n: int, level: real, v: Coord, k: int)
    requires 0 <= k < 8
    ensures CornerBit(VoxelCase(field, n, level, v), k) <==> Sample(field, n, Corner(v, k)) > level
  {
    var c := CaseBitsFrom(field, n, level, v, 0);
    assert VoxelCase(field, n, level, v) == c;
    CaseBitsFromBit(field, n, level, v, 0, k);
    assert CornerBit(c, k - 0) == CornerBit(c, k);
  }

  /** Bit k - j of CaseBitsFrom(j) is corner k's bit. */
  lemma {:induction false} CaseBitsFromBit(field: Field, n: int, level: real, v: Coord, j: int, k: int)
    requires 0 <= j <= k < 8
    ensures CornerBit(CaseBitsFrom(field, n, level, v, j), k - j) <==> Sample(field, n, Corner(v, k)) > level
    decreases k - j
  {
    CaseBitsSplit(field, n, level, v, j);
    if j < k {
      CaseBitsFromBit(field, n, level, v, j + 1, k);
    }
  }

  /** A corner above a positive level is not on the lattice boundary. */
  lemma AboveLevelIsInterior(field: Field, n: int, level: real, v: Coord, k: int)
    requires level > 0.0 && 0 <= k < 8
    requires CornerBit(VoxelCase(field, n, level, v), k)
    ensures !OnBoundary(Corner(v, k), n)
  {
    CaseBit(field, n, level, v, k);
  }

  lemma NeighborsInRange(t: CubeTables, field: Field, n: int, level: real, v: Coord)
    requires WellFormed(t) && level > 0.0 && InVoxelRange(v, n)
    ensures forall f :: 0 <= f < 6 && MaskBit(NeighborMask(t, VoxelCase(field, n, level, v)), f) ==>
      InVoxelRange(Neighbor(v, f), n)
  {
    var c := VoxelCase(field, n, level, v);
    forall f | 0 <= f < 6 && MaskBit(NeighborMask(t, c), f)
      ensures InVoxelRange(Neighbor(v, f), n)
    {
      var k := FaceAboveWitness(c, f, 0);
      AboveLevelIsInterior(field, n, level, v, k);
      CornerOnFace(v, k, f, n);
    }
  }

  lemma CornerOnFace(v: Coord, k: int, f: int, n: int)
    requires InVoxelRange(v, n) && 0 <= k < 8 && 0 <= f < 6 && OnFace(k, f)
    requires !OnBoundary(Corner(v, k), n)
    ensures InVoxelRange(Neighbor(v, f), n)
  {
  }

  /** A fully inside voxel (case 255) has all its corners off the boundary, so the voxel below
      it is in range: the seed walk in Render never leaves the grid. */
  lemma FullVoxelHasVoxelBelow(field: Field, n: int, level: real, v: Coord)
    requires level > 0.0 && InVoxelRange(v, n)
    requires VoxelCase(field, n, level, v) == 0xFF
    ensures 1 <= v.z && InVoxelRange(Coord(v.x, v.y, v.z - 1), n)
  {
    AboveLevelIsInterior(field, n, level, v, 0);
  }

  /** Voxels (x, y, lo + 1) .. (x, y, hi) all have case 255: the part of a column the seed walk
      in Render passes through on its way down. */
  ghost predicate FullColumn(field: Field, n: int, level: real, x: int, y: int, lo: int, hi: int)
  {
    forall k :: lo < k <= hi ==> VoxelCase(field, n, level, Coord(x, y, k)) == 0xFF
  }

  /** A full column extends one voxel down over a voxel of case 255. */
  lemma FullColumnGrows(field: Field, n: int, level: real, x: int, y: int, lo: int, hi: int)
    requires FullColumn(field, n, level, x, y, lo, hi)
    requires VoxelCase(field, n, level, Coord(x, y, lo)) == 0xFF
    ensures FullColumn(field, n, level, x, y, lo - 1, hi)
  {
  }
}
