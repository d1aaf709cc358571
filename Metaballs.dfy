/** The metaball actor's extraction state and its passes: the memoised grid-point energies,
    the voxel triangulation, the open-voxel worklist, and Render's seed walk and flood. */
module Metaballs {
  import opened Grid
  import opened MarchingCubes
  import opened Emission
  import opened OpenList
  import opened Bookkeeping

  class MetaballActor {
    const tables: CubeTables
    const level: real
    const limits: Limits

    var gridSize: int
    var gridStep: int
    var numBalls: int
    /** The blobs' energy at grid coordinates, fixed for the duration of one pass. */
    var field: Field

    var gridEnergy: array<real>
    var gridPointStatus: array<bool>
    var gridVoxelStatus: array<VoxelStatus>

    var openVoxels: array<int>
    var numOpenVoxels: int
    var maxOpenVoxels: int

    var vertices: seq<MeshVertex>
    var triangles: seq<int>
    var normals: seq<Normal>
    var uvs: seq<TexCoord>
    var numVertices: int
    var numIndices: int

    /** The energy the current field gives each grid point, by index. */
    ghost var expected: seq<real>
    /** Grid points whose energy was taken from the field in this pass, and how many calls. */
    ghost var evaluated: set<int>
    ghost var evaluations: nat
    /** Voxels triangulated in this pass, and how many triangulations were run. */
    ghost var triangulated: set<int>
    ghost var triangulations: nat
    /** The voxels triangulated in this pass, in the order ComputeGridVoxel ran on them, and
        what each of those calls appended to the mesh. */
    ghost var trace: seq<Coord>
    ghost var pieces: seq<Emission>
    /** The blobs' voxels, where this pass's seed walks start. */
    ghost var seedVoxels: seq<Coord>

    /** The three grid arrays have the sizes SetGridSize allocates for the resolution. */
    ghost predicate GridValid()
      reads this`gridSize, this`gridEnergy, this`gridPointStatus, this`gridVoxelStatus
    {
      GridShape(gridSize, gridEnergy.Length, gridPointStatus.Length, gridVoxelStatus.Length)
    }

    /** The open-voxel buffer holds maxOpenVoxels triples, numOpenVoxels of them in use. */
    ghost predicate BufferValid()
      reads this`openVoxels, this`numOpenVoxels, this`maxOpenVoxels
    {
      BufferShape(maxOpenVoxels, numOpenVoxels, openVoxels.Length)
    }

    ghost predicate MeshValid()
      reads this`vertices, this`triangles, this`normals, this`uvs, this`numVertices, this`numIndices
    {
      MeshShape(vertices, triangles, normals, uvs, numVertices, numIndices)
    }

    ghost predicate Valid()
      reads this`numBalls, this`gridSize, this`gridEnergy, this`gridPointStatus, this`gridVoxelStatus
      reads this`openVoxels, this`numOpenVoxels, this`maxOpenVoxels
      reads this`vertices, this`triangles, this`normals, this`uvs, this`numVertices, this`numIndices
    {
      && WellFormed(tables) && level > 0.0 && LimitsValid(limits)
      && 0 <= numBalls <= limits.maxMetaballs
      && GridValid() && BufferValid() && MeshValid()
    }

    /** The voxels waiting in the open-voxel buffer, from the bottom of the stack up. */
    function OpenVoxels(): seq<Coord>
      reads this`openVoxels, this`numOpenVoxels, openVoxels
      requires 0 <= numOpenVoxels && 3 * numOpenVoxels <= openVoxels.Length
    {
      Triples(openVoxels[..], numOpenVoxels)
    }

    ghost function Pending(): Worklist
      reads this`openVoxels, this`numOpenVoxels, openVoxels, this`gridVoxelStatus, gridVoxelStatus
      requires 0 <= numOpenVoxels && 3 * numOpenVoxels <= openVoxels.Length
    {
      Worklist(OpenVoxels(), gridVoxelStatus[..])
    }

    /** The energy the current field gives each grid point, by index (exactly 0 on the boundary). */
    ghost predicate ExpectedAgrees()
      reads this`gridSize, this`field, this`expected
    {
      && gridSize >= 0 && |expected| == PointCount(gridSize)
      && forall i {:trigger Sample(field, gridSize, PointAt(i, gridSize))} :: 0 <= i < |expected| ==>
           expected[i] == Sample(field, gridSize, PointAt(i, gridSize))
    }

    ghost predicate CacheAgrees()
      reads this`expected, this`gridEnergy, this`gridPointStatus, gridEnergy, gridPointStatus
    {
      CacheMatches(expected, gridEnergy[..], gridPointStatus[..])
    }

    ghost predicate EvaluationsCounted()
      reads this`evaluated, this`evaluations, this`gridPointStatus, gridPointStatus
    {
      CountedOnce(evaluated, evaluations, gridPointStatus[..])
    }

    ghost predicate TriangulationsCounted()
      reads this`triangulated, this`triangulations, this`gridVoxelStatus, gridVoxelStatus
    {
      TriangulatedOnce(triangulated, triangulations, gridVoxelStatus[..])
    }

    /** The actor is valid, the cache agrees with the field, nothing was evaluated or
        triangulated twice, and the mesh is the one the traced voxels produce. */
    ghost predicate Bookkept()
      reads this`numBalls, this`gridSize, this`gridEnergy, this`gridPointStatus, this`gridVoxelStatus
      reads this`openVoxels, this`numOpenVoxels, this`maxOpenVoxels
      reads this`vertices, this`triangles, this`normals, this`uvs, this`numVertices, this`numIndices
      reads this`field, this`expected, this`evaluated, this`evaluations, this`triangulated, this`triangulations, this`trace, this`pieces
      reads gridEnergy, gridPointStatus, gridVoxelStatus
    {
      && Valid() && ExpectedAgrees() && CacheAgrees() && EvaluationsCounted() && TriangulationsCounted()
      && MeshTraced(tables, field, gridSize, level, trace, pieces, vertices, triangles, triangulated, triangulations)
    }

    /** What holds between the steps of a pass: the bookkeeping, the buffer and the statuses
        agree, every computed voxel (other than a fully inside one) has had its flagged
        neighbours reached, and nothing was reached that is not connected to a seed. */
    ghost predicate PassInvariant()
      reads this`numBalls, this`gridSize, this`gridEnergy, this`gridPointStatus, this`gridVoxelStatus
      reads this`openVoxels, this`numOpenVoxels, this`maxOpenVoxels
      reads this`vertices, this`triangles, this`normals, this`uvs, this`numVertices, this`numIndices
      reads this`field, this`expected, this`evaluated, this`evaluations, this`triangulated, this`triangulations, this`trace, this`pieces, this`seedVoxels
      reads gridEnergy, gridPointStatus, gridVoxelStatus, openVoxels
    {
      && Bookkept()
      && WorklistValid(Pending(), gridSize)
      && Closed(tables, field, gridSize, level, gridVoxelStatus[..])
      && Rooted()
    }

    /** Every voxel traced in this pass, and every voxel waiting in the list, is connected to a
        seed voxel through the surface. */
    ghost predicate Rooted()
      requires WellFormed(tables) && BufferValid()
      reads this`gridSize, this`field, this`seedVoxels, this`trace, this`openVoxels, this`numOpenVoxels, this`maxOpenVoxels, openVoxels
    {
      Reached(tables, field, gridSize, level, seedVoxels, trace, OpenVoxels())
    }

    /** The actor's setup in PostInitializeComponents: the level, an empty mesh, an empty
        open-voxel buffer of the default capacity, and arrays for the initial grid resolution. */
    constructor (tables: CubeTables, level: real, limits: Limits, gridStep: int, numBalls: int)
      requires WellFormed(tables) && level > 0.0 && LimitsValid(limits)
      requires gridStep >= 1 && 0 <= numBalls <= limits.maxMetaballs
      ensures Valid()
      ensures this.tables == tables && this.level == level && this.limits == limits
      ensures this.gridStep == gridStep && gridSize == gridStep && this.numBalls == numBalls
      ensures maxOpenVoxels == limits.maxOpenVoxels && numOpenVoxels == 0
      ensures vertices == [] && triangles == [] && normals == [] && uvs == []
    {
      this.tables := tables;
      this.level := level;
      this.limits := limits;
      this.gridStep := gridStep;
      this.numBalls := numBalls;
      field := (x: int, y: int, z: int) => 0.0;
      gridSize := 0;
      maxOpenVoxels := limits.maxOpenVoxels;
      openVoxels := new int[limits.maxOpenVoxels * 3];
      numOpenVoxels := 0;
      gridEnergy := new real[0];
      gridPointStatus := new bool[0];
      gridVoxelStatus := new VoxelStatus[0];
      vertices, triangles, normals, uvs := [], [], [], [];
      numVertices, numIndices := 0, 0;
      evaluated, evaluations, triangulated, triangulations := {}, 0, {}, 0;
      expected := [];
      new;
      SetGridSize(gridStep);
    }

    /** Records the resolution and allocates the energy and point-status arrays for the
        (n+1)^3 grid points and the voxel-status array for the n^3 voxels. The open-voxel
        buffer is kept as it is. */
    method SetGridSize(nSize: int)
      requires nSize >= 1
      modifies this`gridSize, this`gridEnergy, this`gridPointStatus, this`gridVoxelStatus
      ensures GridValid() && gridSize == nSize
      ensures fresh(gridEnergy) && fresh(gridPointStatus) && fresh(gridVoxelStatus)
    {
      gridSize := nSize;
      gridEnergy := new real[(nSize + 1) * (nSize + 1) * (nSize + 1)];
      gridPointStatus := new bool[(nSize + 1) * (nSize + 1) * (nSize + 1)];
      gridVoxelStatus := new VoxelStatus[nSize * nSize * nSize];
    }

    /** The blob count, clamped to [0, MAX_METABALLS]. */
    method SetNumBalls(value: int)
      requires Valid()
      modifies this`numBalls
      ensures Valid() && numBalls == Clamp(value, 0, limits.maxMetaballs)
    {
      numBalls := Clamp(value, 0, limits.maxMetaballs);
    }

    /** The grid resolution, clamped to [MIN_GRID_STEPS, MAX_GRID_STEPS], with the grid arrays
        reallocated for it. */
    method SetGridSteps(value: int)
      requires Valid()
      modifies this`gridStep, this`gridSize, this`gridEnergy, this`gridPointStatus, this`gridVoxelStatus
      ensures Valid()
      ensures gridStep == Clamp(value, limits.minGridSteps, limits.maxGridSteps) && gridSize == gridStep
      ensures fresh(gridEnergy) && fresh(gridPointStatus) && fresh(gridVoxelStatus)
      ensures openVoxels == old(openVoxels) && maxOpenVoxels == old(maxOpenVoxels)
    {
      gridStep := Clamp(value, limits.minGridSteps, limits.maxGridSteps);
      SetGridSize(gridStep);
    }

    predicate IsGridPointComputed(x: int, y: int, z: int)
      reads this`gridSize, this`gridPointStatus, gridPointStatus
      requires gridSize >= 1 && gridPointStatus.Length == PointCount(gridSize) && InPointRange(Coord(x, y, z), gridSize)
    {
      gridPointStatus[GetIndex(x, y, z, gridSize)]
    }

    predicate IsGridVoxelComputed(x: int, y: int, z: int)
      reads this`gridSize, this`gridVoxelStatus, gridVoxelStatus
      requires gridSize >= 1 && gridVoxelStatus.Length == VoxelCount(gridSize) && InVoxelRange(Coord(x, y, z), gridSize)
    {
      gridVoxelStatus[GetIndexNoAdd(x, y, z, gridSize)] == Computed
    }

    predicate IsGridVoxelInList(x: int, y: int, z: int)
      reads this`gridSize, this`gridVoxelStatus, gridVoxelStatus
      requires gridSize >= 1 && gridVoxelStatus.Length == VoxelCount(gridSize) && InVoxelRange(Coord(x, y, z), gridSize)
    {
      gridVoxelStatus[GetIndexNoAdd(x, y, z, gridSize)] == InList
    }

    method SetGridPointComputed(x: int, y: int, z: int)
      requires GridValid() && InPointRange(Coord(x, y, z), gridSize)
      modifies gridPointStatus
      ensures gridPointStatus[..] == old(gridPointStatus[..])[PointIndex(Coord(x, y, z), gridSize) := true]
    {
      gridPointStatus[GetIndex(x, y, z, gridSize)] := true;
    }

    method SetGridVoxelComputed(x: int, y: int, z: int)
      requires gridSize >= 1 && gridVoxelStatus.Length == VoxelCount(gridSize) && InVoxelRange(Coord(x, y, z), gridSize)
      modifies gridVoxelStatus
      ensures gridVoxelStatus[..] == old(gridVoxelStatus[..])[VoxelIndex(Coord(x, y, z), gridSize) := Computed]
    {
      gridVoxelStatus[GetIndexNoAdd(x, y, z, gridSize)] := Computed;
    }

    method SetGridVoxelInList(x: int, y: int, z: int)
      requires gridSize >= 1 && gridVoxelStatus.Length == VoxelCount(gridSize) && InVoxelRange(Coord(x, y, z), gridSize)
      modifies gridVoxelStatus
      ensures gridVoxelStatus[..] == old(gridVoxelStatus[..])[VoxelIndex(Coord(x, y, z), gridSize) := InList]
    {
      gridVoxelStatus[GetIndexNoAdd(x, y, z, gridSize)] := InList;
    }

    /** The energy of grid point (x, y, z), memoised: a computed point returns its cached value
        and changes nothing; a boundary point is pinned to 0 without calling the field; any other
        point calls the field once and caches the result. */
    method ComputeGridPointEnergy(x: int, y: int, z: int) returns (e: real)
      requires GridValid() && ExpectedAgrees() && CacheAgrees() && EvaluationsCounted() && InPointRange(Coord(x, y, z), gridSize)
      modifies gridEnergy, gridPointStatus, this`evaluated, this`evaluations
      ensures CacheAgrees() && EvaluationsCounted()
      ensures e == Sample(field, gridSize, Coord(x, y, z))
      ensures OnBoundary(Coord(x, y, z), gridSize) ==> e == 0.0
      ensures var i := PointIndex(Coord(x, y, z), gridSize);
        && gridEnergy[..] == old(gridEnergy[..])[i := e]
        && gridPointStatus[..] == old(gridPointStatus[..])[i := true]
        && evaluated == old(evaluated) + (if old(gridPointStatus[i]) || OnBoundary(Coord(x, y, z), gridSize) then {} else {i})
        && (old(gridPointStatus[i]) ==> e == old(gridEnergy[i]) && unchanged(gridEnergy, gridPointStatus))
    {
      var index := GetIndex(x, y, z, gridSize);
      assert expected[index] == Sample(field, gridSize, PointAt(index, gridSize));
      if IsGridPointComputed(x, y, z) {
        return gridEnergy[index];
      }
      assert index !in evaluated;
      if x == 0 || y == 0 || z == 0 || x == gridSize || y == gridSize || z == gridSize {
        gridEnergy[index] := 0.0;
        SetGridPointComputed(x, y, z);
        return 0.0;
      }
      gridEnergy[index] := field(x, y, z);
      evaluated := evaluated + {index};
      evaluations := evaluations + 1;
      SetGridPointComputed(x, y, z);
      return gridEnergy[index];
    }

    /** The first half of ComputeGridVoxel: the energies of the voxel's eight corners, sampled
        through the memoised ComputeGridPointEnergy in the corner order of the tables, and the
        case code they give, bit k set when corner k is above the level (AMetaballs::ComputeGridVoxel
        ORs in distinct bits, which adds them). */
    method ClassifyVoxel(x: int, y: int, z: int) returns (c: int)
      requires GridValid() && ExpectedAgrees() && CacheAgrees() && EvaluationsCounted() && InVoxelRange(Coord(x, y, z), gridSize)
      modifies gridEnergy, gridPointStatus, this`evaluated, this`evaluations
      ensures CacheAgrees() && EvaluationsCounted()
      ensures c == VoxelCase(field, gridSize, level, Coord(x, y, z))
      ensures gridEnergy[..] == CornersSampled(old(gridEnergy[..]), field, gridSize, Coord(x, y, z), 8)
      ensures gridPointStatus[..] == CornersComputed(old(gridPointStatus[..]), gridSize, Coord(x, y, z), 8)
      ensures old(evaluated) <= evaluated && evaluated - old(evaluated) <= CornerPoints(Coord(x, y, z), gridSize, 8)
    {
      var v := Coord(x, y, z);
      var b := SampleCorners(v);
      CaseCodeSum(field, gridSize, level, v, b);
      c := 0;
      c := c + 0x01 * Bit(b[0] > level);
      c := c + 0x02 * Bit(b[1] > level);
      c := c + 0x04 * Bit(b[2] > level);
      c := c + 0x08 * Bit(b[3] > level);
      c := c + 0x10 * Bit(b[4] > level);
      c := c + 0x20 * Bit(b[5] > level);
      c := c + 0x40 * Bit(b[6] > level);
      c := c + 0x80 * Bit(b[7] > level);
    }

    /** The eight ComputeGridPointEnergy calls at the head of ComputeGridVoxel, b[0] .. b[7] in
        the corner order of the tables, taken here one corner per turn of a loop. */
    method SampleCorners(v: Coord) returns (b: seq<real>)
      requires GridValid() && ExpectedAgrees() && CacheAgrees() && EvaluationsCounted() && InVoxelRange(v, gridSize)
      modifies gridEnergy, gridPointStatus, this`evaluated, this`evaluations
      ensures CacheAgrees() && EvaluationsCounted()
      ensures |b| == 8 && forall j :: 0 <= j < 8 ==> b[j] == Sample(field, gridSize, Corner(v, j))
      ensures gridEnergy[..] == CornersSampled(old(gridEnergy[..]), field, gridSize, v, 8)
      ensures gridPointStatus[..] == CornersComputed(old(gridPointStatus[..]), gridSize, v, 8)
      ensures old(evaluated) <= evaluated && evaluated - old(evaluated) <= CornerPoints(v, gridSize, 8)
    {
      b := [];
      for k := 0 to 8
        invariant CacheAgrees() && EvaluationsCounted()
        invariant |b| == k && forall j :: 0 <= j < k ==> b[j] == Sample(field, gridSize, Corner(v, j))
        invariant gridEnergy[..] == CornersSampled(old(gridEnergy[..]), field, gridSize, v, k)
        invariant gridPointStatus[..] == CornersComputed(old(gridPointStatus[..]), gridSize, v, k)
        invariant old(evaluated) <= evaluated && evaluated - old(evaluated) <= CornerPoints(v, gridSize, k)
      {
        var e := SampleCorner(v, k, old(gridEnergy[..]), old(gridPointStatus[..]), old(evaluated));
        b := b + [e];
      }
    }

    /** One turn of SampleCorners' loop: corner k of voxel v through ComputeGridPointEnergy, taking
        the state after corners 0 .. k-1 to the state after corners 0 .. k. */
    method SampleCorner(v: Coord, k: int, ghost energy0: seq<real>, ghost status0: seq<bool>, ghost evaluated0: set<int>)
      returns (e: real)
      requires GridValid() && ExpectedAgrees() && CacheAgrees() && EvaluationsCounted()
      requires InVoxelRange(v, gridSize) && 0 <= k < 8
      requires gridEnergy[..] == CornersSampled(energy0, field, gridSize, v, k)
      requires gridPointStatus[..] == CornersComputed(status0, gridSize, v, k)
      requires evaluated0 <= evaluated && evaluated - evaluated0 <= CornerPoints(v, gridSize, k)
      modifies gridEnergy, gridPointStatus, this`evaluated, this`evaluations
      ensures CacheAgrees() && EvaluationsCounted()
      ensures e == Sample(field, gridSize, Corner(v, k))
      ensures gridEnergy[..] == CornersSampled(energy0, field, gridSize, v, k + 1)
      ensures gridPointStatus[..] == CornersComputed(status0, gridSize, v, k + 1)
      ensures evaluated0 <= evaluated && evaluated - evaluated0 <= CornerPoints(v, gridSize, k + 1)
    {
      var p := Corner(v, k);
      e := ComputeGridPointEnergy(p.x, p.y, p.z);
    }

    /** One entry e of the edge walk of ComputeGridVoxel, with edges `rest` still to come: the
        edge gets a vertex (with its normal and UV) if its slot is still empty, then its vertex
        index is appended to the triangle list. */
    method EmitEdge(v: Coord, e: int, edgeIndices: array<int>, ghost rest: seq<int>)
      requires MeshValid() && IsEdge(e) && AllEdges(rest) && edgeIndices.Length == 12
      requires forall k :: 0 <= k < 12 && edgeIndices[k] != Sentinel ==> 0 <= edgeIndices[k] < numVertices
      modifies this`vertices, this`triangles, this`normals, this`uvs, this`numVertices, this`numIndices, edgeIndices
      ensures MeshValid()
      ensures forall k :: 0 <= k < 12 && edgeIndices[k] != Sentinel ==> 0 <= edgeIndices[k] < numVertices
      ensures var before := Emit(v, [e] + rest, old(edgeIndices[..]), old(numVertices));
        var after := Emit(v, rest, edgeIndices[..], numVertices);
        old(vertices) + before.vertices == vertices + after.vertices && old(triangles) + before.indices == triangles + after.indices
    {
      assert ([e] + rest)[0] == e && ([e] + rest)[1..] == rest;
      if edgeIndices[e] == Sentinel {
        ghost var slots := edgeIndices[..];
        assert 0 <= numVertices % ShortRange <= numVertices;
        edgeIndices[e] := numVertices % ShortRange;
        assert edgeIndices[..] == slots[e := numVertices % ShortRange];
        var vertex := MeshVertex(v, e);
        MeshShapeAddVertex(vertices, triangles, normals, uvs, numVertices, numIndices, vertex);
        normals := normals + [FieldNormal(vertex)];
        uvs := uvs + [FromNormal(FieldNormal(vertex))];
        vertices := vertices + [vertex];
        numVertices := numVertices + 1;
      }
      assert 0 <= edgeIndices[e] < numVertices;
      MeshShapeAddIndex(vertices, triangles, normals, uvs, numVertices, numIndices, edgeIndices[e]);
      triangles := triangles + [edgeIndices[e]];
      numIndices := numIndices + 1;
    }

    /** The edge walk of ComputeGridVoxel for voxel v in case c: one triangle index per entry of
        the case's -1-terminated edge list, and one vertex (with its normal and UV) per edge not
        yet seen in this voxel, its index kept in a 16-bit slot that wraps at 65536. */
    method EmitCase(v: Coord, c: int)
      requires MeshValid() && WellFormed(tables) && 0 <= c < 256
      modifies this`vertices, this`triangles, this`normals, this`uvs, this`numVertices, this`numIndices
      ensures MeshValid()
      ensures var em := Emit(v, CaseEdges(tables, c), FreshSlots(), old(numVertices));
        vertices == old(vertices) + em.vertices && triangles == old(triangles) + em.indices
      ensures |triangles| == old(|triangles|) + EdgeCount(tables.triangles[c])
    {
      var list := tables.triangles[c];
      ghost var es := CaseEdges(tables, c);
      ghost var vertices0, triangles0 := vertices, triangles;
      ghost var total := Emit(v, es, FreshSlots(), numVertices);
      var edgeIndices := new int[12](_ => Sentinel);
      assert edgeIndices[..] == FreshSlots();
      var i := 0;
      while true
        invariant 0 <= i <= |es| && es == list[..EdgeCount(list)] && |es| < |list| && AllEdges(es)
        invariant MeshValid()
        invariant forall e :: 0 <= e < 12 && edgeIndices[e] != Sentinel ==> 0 <= edgeIndices[e] < numVertices
        invariant var rest := Emit(v, es[i..], edgeIndices[..], numVertices);
          vertices0 + total.vertices == vertices + rest.vertices && triangles0 + total.indices == triangles + rest.indices
        modifies this`vertices, this`triangles, this`normals, this`uvs, this`numVertices, this`numIndices, edgeIndices
        decreases |es| - i
      {
        var nEdge := list[i];
        if nEdge == -1 {
          break;
        }
        assert es[i..] == [nEdge] + es[i + 1..];
        EmitEdge(v, nEdge, edgeIndices, es[i + 1..]);
        i := i + 1;
      }
      assert es[i..] == [];
      EmitBounds(v, es, FreshSlots(), |vertices0|);
    }

    /** Triangulates voxel (x, y, z): samples its eight corners, forms the case code, walks the
        case's edge list appending one triangle index per entry and one vertex (with its normal
        and UV) per edge not seen before in this voxel, and marks the voxel computed. The vertex
        index is kept in a 16-bit slot, so it wraps once 65536 vertices exist. */
    method ComputeGridVoxel(x: int, y: int, z: int) returns (c: int)
      requires Valid() && ExpectedAgrees() && CacheAgrees() && EvaluationsCounted() && InVoxelRange(Coord(x, y, z), gridSize)
      modifies this`vertices, this`triangles, this`normals, this`uvs, this`numVertices, this`numIndices
      modifies this`evaluated, this`evaluations, this`triangulated, this`triangulations, this`trace, this`pieces
      modifies gridEnergy, gridPointStatus, gridVoxelStatus
      ensures Valid() && CacheAgrees() && EvaluationsCounted()
      ensures c == VoxelCase(field, gridSize, level, Coord(x, y, z))
      ensures var em := Emit(Coord(x, y, z), CaseEdges(tables, c), FreshSlots(), old(numVertices));
        vertices == old(vertices) + em.vertices && triangles == old(triangles) + em.indices && pieces == old(pieces) + [em]
      ensures |triangles| == old(|triangles|) + EdgeCount(tables.triangles[c])
      ensures gridVoxelStatus[..] == old(gridVoxelStatus[..])[VoxelIndex(Coord(x, y, z), gridSize) := Computed]
      ensures triangulated == old(triangulated) + {VoxelIndex(Coord(x, y, z), gridSize)}
      ensures triangulations == old(triangulations) + 1 && trace == old(trace) + [Coord(x, y, z)]
      ensures gridEnergy[..] == CornersSampled(old(gridEnergy[..]), field, gridSize, Coord(x, y, z), 8)
      ensures gridPointStatus[..] == CornersComputed(old(gridPointStatus[..]), gridSize, Coord(x, y, z), 8)
      ensures old(evaluated) <= evaluated && evaluated - old(evaluated) <= CornerPoints(Coord(x, y, z), gridSize, 8)
    {
      c := ClassifyVoxel(x, y, z);
      TriangulateCase(Coord(x, y, z), c);
    }

    /** The second half of ComputeGridVoxel: the edge walk for case c, then the voxel is marked
        computed and counted as triangulated. */
    method TriangulateCase(v: Coord, c: int)
      requires Valid() && InVoxelRange(v, gridSize) && 0 <= c < 256
      modifies this`vertices, this`triangles, this`normals, this`uvs, this`numVertices, this`numIndices
      modifies this`triangulated, this`triangulations, this`trace, this`pieces, gridVoxelStatus
      ensures Valid()
      ensures var em := Emit(v, CaseEdges(tables, c), FreshSlots(), old(numVertices));
        vertices == old(vertices) + em.vertices && triangles == old(triangles) + em.indices && pieces == old(pieces) + [em]
      ensures |triangles| == old(|triangles|) + EdgeCount(tables.triangles[c])
      ensures gridVoxelStatus[..] == old(gridVoxelStatus[..])[VoxelIndex(v, gridSize) := Computed]
      ensures triangulated == old(triangulated) + {VoxelIndex(v, gridSize)}
      ensures triangulations == old(triangulations) + 1 && trace == old(trace) + [v]
    {
      ghost var em := Emit(v, CaseEdges(tables, c), FreshSlots(), numVertices);
      EmitCase(v, c);
      MarkTriangulated(v, em);
    }

    /** The end of ComputeGridVoxel: the voxel is marked computed, and the triangulation is
        counted and traced with what its edge walk appended, em. */
    method MarkTriangulated(v: Coord, ghost em: Emission)
      requires GridValid() && InVoxelRange(v, gridSize)
      modifies this`triangulated, this`triangulations, this`trace, this`pieces, gridVoxelStatus
      ensures gridVoxelStatus[..] == old(gridVoxelStatus[..])[VoxelIndex(v, gridSize) := Computed]
      ensures triangulated == old(triangulated) + {VoxelIndex(v, gridSize)}
      ensures triangulations == old(triangulations) + 1 && trace == old(trace) + [v] && pieces == old(pieces) + [em]
    {
      SetGridVoxelComputed(v.x, v.y, v.z);
      triangulated := triangulated + {VoxelIndex(v, gridSize)};
      triangulations := triangulations + 1;
      trace := trace + [v];
      pieces := pieces + [em];
    }

    /** The growth step of AddNeighbor: a full buffer is replaced by one of twice the capacity
        holding the same triples. */
    method GrowOpenVoxels()
      requires BufferValid() && numOpenVoxels == maxOpenVoxels
      modifies this`openVoxels, this`maxOpenVoxels
      ensures BufferValid() && maxOpenVoxels == 2 * old(maxOpenVoxels) && numOpenVoxels < maxOpenVoxels
      ensures fresh(openVoxels) && OpenVoxels() == old(OpenVoxels())
    {
      maxOpenVoxels := maxOpenVoxels * 2;
      var grown := new int[maxOpenVoxels * 3];
      forall k | 0 <= k < numOpenVoxels * 3 {
        grown[k] := openVoxels[k];
      }
      openVoxels := grown;
    }

    /** The push of AddNeighbor: the voxel's coordinates are written after the triples in use,
        the buffer first doubling when it is full. */
    method PushOpenVoxel(x: int, y: int, z: int)
      requires BufferValid()
      modifies this`openVoxels, this`numOpenVoxels, this`maxOpenVoxels, openVoxels
      ensures BufferValid() && OpenVoxels() == old(OpenVoxels()) + [Coord(x, y, z)]
      ensures maxOpenVoxels == if old(numOpenVoxels) == old(maxOpenVoxels) then 2 * old(maxOpenVoxels) else old(maxOpenVoxels)
      ensures openVoxels == old(openVoxels) || fresh(openVoxels)
    {
      if maxOpenVoxels == numOpenVoxels {
        GrowOpenVoxels();
      }
      ghost var buf := openVoxels[..];
      openVoxels[numOpenVoxels * 3] := x;
      openVoxels[numOpenVoxels * 3 + 1] := y;
      openVoxels[numOpenVoxels * 3 + 2] := z;
      TriplesPush(buf, openVoxels[..], numOpenVoxels, Coord(x, y, z));
      numOpenVoxels := numOpenVoxels + 1;
    }

    /** A call of ComputeGridVoxel inside Render, on a voxel not yet computed: the bookkeeping is
        kept, the voxel becomes computed, and every other computed voxel stays closed (all of them
        when the voxel is fully inside). */
    method Visit(x: int, y: int, z: int) returns (c: int)
      requires Bookkept() && InVoxelRange(Coord(x, y, z), gridSize)
      requires Closed(tables, field, gridSize, level, gridVoxelStatus[..])
      requires gridVoxelStatus[VoxelIndex(Coord(x, y, z), gridSize)] != Computed
      modifies this`vertices, this`triangles, this`normals, this`uvs, this`numVertices, this`numIndices
      modifies this`evaluated, this`evaluations, this`triangulated, this`triangulations, this`trace, this`pieces
      modifies gridEnergy, gridPointStatus, gridVoxelStatus
      ensures c == VoxelCase(field, gridSize, level, Coord(x, y, z))
      ensures Bookkept() && trace == old(trace) + [Coord(x, y, z)]
      ensures gridVoxelStatus[..] == old(gridVoxelStatus[..])[VoxelIndex(Coord(x, y, z), gridSize) := Computed]
      ensures Advances(old(gridVoxelStatus[..]), gridVoxelStatus[..])
      ensures ClosedExcept(tables, field, gridSize, level, gridVoxelStatus[..], VoxelIndex(Coord(x, y, z), gridSize))
      ensures c == 0xFF ==> Closed(tables, field, gridSize, level, gridVoxelStatus[..])
      ensures triangulations == old(triangulations) + 1
    {
      ghost var s, n, iv := gridVoxelStatus[..], gridSize, VoxelIndex(Coord(x, y, z), gridSize);
      ghost var tr, trs := triangulated, triangulations;
      TriangulateOne(tr, trs, s, iv);
      MeshTracedStep(tables, field, n, level, trace, pieces, vertices, triangles, tr, trs, Coord(x, y, z));
      ghost var fd, ex := field, expected;
      c := ComputeGridVoxel(x, y, z);
      assert gridSize == n && field == fd && expected == ex;
      assert gridVoxelStatus[..] == s[iv := Computed];
      assert triangulated == tr + {iv} && triangulations == trs + 1;
      assert TriangulationsCounted();
      MarkComputedKeepsClosed(tables, fd, n, level, s, Coord(x, y, z));
    }

    /** Offers voxel (x, y, z) to the open list: nothing happens when it is computed or already
        in the list; otherwise its coordinates are pushed (the buffer doubling, contents kept,
        when it is full) and it is marked as in the list. */
    method AddNeighbor(x: int, y: int, z: int)
      requires BufferValid() && WorklistValid(Pending(), gridSize) && InVoxelRange(Coord(x, y, z), gridSize)
      modifies this`openVoxels, this`numOpenVoxels, this`maxOpenVoxels, openVoxels, gridVoxelStatus
      ensures BufferValid() && WorklistValid(Pending(), gridSize)
      ensures Pending() == Offer(old(Pending()), Coord(x, y, z), gridSize)
      ensures maxOpenVoxels == if old(numOpenVoxels) == old(maxOpenVoxels) && old(gridVoxelStatus[VoxelIndex(Coord(x, y, z), gridSize)]) == Unvisited
        then 2 * old(maxOpenVoxels) else old(maxOpenVoxels)
      ensures openVoxels == old(openVoxels) || fresh(openVoxels)
    {
      ghost var w, n := Pending(), gridSize;
      var v := Coord(x, y, z);
      if IsGridVoxelComputed(x, y, z) || IsGridVoxelInList(x, y, z) {
        return;
      }
      OfferPreservesValid(w, v, n);
      ghost var pushed := Offer(w, v, n);
      PushOpenVoxel(x, y, z);
      SetGridVoxelInList(x, y, z);
      assert Pending() == pushed;
    }

    /** The open list and statuses are those of offering, to worklist w, the neighbours that
        the faces before f select under mask m, and every neighbour m selects is in range. */
    ghost predicate OfferedThrough(w: Worklist, m: bv8, v: Coord, f: int)
      reads this`gridSize, this`gridVoxelStatus, this`openVoxels, this`numOpenVoxels, this`maxOpenVoxels
      reads openVoxels, gridVoxelStatus
    {
      && BufferValid() && WorklistValid(Pending(), gridSize)
      && 0 <= f <= 6 && |w.status| == VoxelCount(gridSize) && AllInRange(OfferedUpTo(m, v, f), gridSize)
      && (forall g :: 0 <= g < 6 && MaskBit(m, g) ==> InVoxelRange(Neighbor(v, g), gridSize))
      && Pending() == OfferAll(w, OfferedUpTo(m, v, f), gridSize)
    }

    /** One of the six tests of AddNeighborsToList: the neighbour across face f is offered when
        bit f of the mask is set. */
    method AddFaceNeighbor(ghost w: Worklist, m: bv8, v: Coord, f: int)
      requires OfferedThrough(w, m, v, f) && f < 6
      modifies this`openVoxels, this`numOpenVoxels, this`maxOpenVoxels, openVoxels, gridVoxelStatus
      ensures OfferedThrough(w, m, v, f + 1)
      ensures maxOpenVoxels >= old(maxOpenVoxels)
      ensures openVoxels == old(openVoxels) || fresh(openVoxels)
    {
      OfferFace(w, m, v, f, gridSize);
      if MaskBit(m, f) {
        var nb := Neighbor(v, f);
        AddNeighbor(nb.x, nb.y, nb.z);
      }
    }

    /** Offers, in face order +x, -x, +y, -y, +z, -z, the neighbours whose bit is set in the
        neighbour mask of case nCase. */
    method AddNeighborsToList(nCase: int, x: int, y: int, z: int)
      requires BufferValid() && WorklistValid(Pending(), gridSize)
      requires |tables.neighbors| == 256 && 0 <= nCase < 256
      requires forall f :: 0 <= f < 6 && MaskBit(NeighborMask(tables, nCase), f) ==> InVoxelRange(Neighbor(Coord(x, y, z), f), gridSize)
      modifies this`openVoxels, this`numOpenVoxels, this`maxOpenVoxels, openVoxels, gridVoxelStatus
      ensures BufferValid() && WorklistValid(Pending(), gridSize)
      ensures AllInRange(Offered(NeighborMask(tables, nCase), Coord(x, y, z)), gridSize)
      ensures Pending() == OfferAll(old(Pending()), Offered(NeighborMask(tables, nCase), Coord(x, y, z)), gridSize)
      ensures maxOpenVoxels >= old(maxOpenVoxels)
      ensures openVoxels == old(openVoxels) || fresh(openVoxels)
    {
      ghost var w := Pending();
      var v := Coord(x, y, z);
      var m := tables.neighbors[nCase];
      assert OfferedUpTo(m, v, 0) == [];
      AddFaceNeighbor(w, m, v, 0);
      AddFaceNeighbor(w, m, v, 1);
      AddFaceNeighbor(w, m, v, 2);
      AddFaceNeighbor(w, m, v, 3);
      AddFaceNeighbor(w, m, v, 4);
      AddFaceNeighbor(w, m, v, 5);
    }

    /** One step of the seed walk: the voxel, not yet computed, is triangulated; the open list
        stays empty. */
    method WalkStep(x: int, y: int, z: int, ghost z0: int) returns (c: int)
      requires PassInvariant() && numOpenVoxels == 0 && InVoxelRange(Coord(x, y, z), gridSize)
      requires gridVoxelStatus[VoxelIndex(Coord(x, y, z), gridSize)] != Computed
      requires FullColumn(field, gridSize, level, x, y, z, z0)
      requires OnSeedColumn(field, gridSize, level, seedVoxels, Coord(x, y, z))
      modifies this`vertices, this`triangles, this`normals, this`uvs, this`numVertices, this`numIndices
      modifies this`evaluated, this`evaluations, this`triangulated, this`triangulations, this`trace, this`pieces
      modifies gridEnergy, gridPointStatus, gridVoxelStatus
      ensures Bookkept() && WorklistValid(Pending(), gridSize) && Rooted() && trace == old(trace) + [Coord(x, y, z)]
      ensures c == VoxelCase(field, gridSize, level, Coord(x, y, z))
      ensures gridVoxelStatus[VoxelIndex(Coord(x, y, z), gridSize)] == Computed
      ensures Advances(old(gridVoxelStatus[..]), gridVoxelStatus[..])
      ensures ClosedExcept(tables, field, gridSize, level, gridVoxelStatus[..], VoxelIndex(Coord(x, y, z), gridSize))
      ensures c == 0xFF ==> PassInvariant() && 1 <= z && InVoxelRange(Coord(x, y, z - 1), gridSize)
      ensures c == 0xFF ==> FullColumn(field, gridSize, level, x, y, z - 1, z0)
    {
      ghost var w, n := Pending(), gridSize;
      EmptyListNoInList(w, n);
      ReachedTrace(tables, field, n, level, seedVoxels, trace, OpenVoxels(), Coord(x, y, z));
      c := Visit(x, y, z);
      MarkComputedKeepsValid(w, VoxelIndex(Coord(x, y, z), n), n);
      assert Pending() == Worklist(w.entries, w.status[VoxelIndex(Coord(x, y, z), n) := Computed]);
      if c == 0xFF {
        FullVoxelHasVoxelBelow(field, n, level, Coord(x, y, z));
        FullColumnGrows(field, n, level, x, y, z, z0);
      }
    }

    /** Between two steps of the seed walk down from (x, y, z0): voxel (x, y, z) is next,
        the voxels above it were fully inside and are computed, and the statuses have only
        advanced since s0. */
    ghost predicate Walking(x: int, y: int, z: int, z0: int, s0: seq<VoxelStatus>)
      reads this`numBalls, this`gridSize, this`gridEnergy, this`gridPointStatus, this`gridVoxelStatus
      reads this`openVoxels, this`numOpenVoxels, this`maxOpenVoxels
      reads this`vertices, this`triangles, this`normals, this`uvs, this`numVertices, this`numIndices
      reads this`field, this`expected, this`evaluated, this`evaluations, this`triangulated, this`triangulations, this`trace, this`pieces, this`seedVoxels
      reads gridEnergy, gridPointStatus, gridVoxelStatus, openVoxels
    {
      && PassInvariant() && numOpenVoxels == 0
      && 0 <= z <= z0 && InVoxelRange(Coord(x, y, z), gridSize) && InVoxelRange(Coord(x, y, z0), gridSize)
      && (z < z0 ==> gridVoxelStatus[VoxelIndex(Coord(x, y, z0), gridSize)] == Computed)
      && Advances(s0, gridVoxelStatus[..])
      && FullColumn(field, gridSize, level, x, y, z, z0)
    }

    /** One step of the seed walk at a voxel not yet computed: the voxel is triangulated, and
        the walk can go on one voxel lower exactly when the voxel is fully inside. */
    method SeedStep(x: int, y: int, z: int, ghost z0: int, ghost s0: seq<VoxelStatus>, ghost i: int) returns (c: int)
      requires Walking(x, y, z, z0, s0) && !IsGridVoxelComputed(x, y, z)
      requires 0 <= i < |seedVoxels| && seedVoxels[i] == Coord(x, y, z0)
      modifies this`vertices, this`triangles, this`normals, this`uvs, this`numVertices, this`numIndices
      modifies this`evaluated, this`evaluations, this`triangulated, this`triangulations, this`trace, this`pieces
      modifies gridEnergy, gridPointStatus, gridVoxelStatus
      ensures c == VoxelCase(field, gridSize, level, Coord(x, y, z)) && trace == old(trace) + [Coord(x, y, z)]
      ensures c == 0xFF ==> Walking(x, y, z - 1, z0, s0)
      ensures c < 0xFF ==> Bookkept() && WorklistValid(Pending(), gridSize) && numOpenVoxels == 0
      ensures c < 0xFF ==> Rooted() && Coord(x, y, z) in trace
      ensures c < 0xFF ==> 0 <= z <= z0 && InVoxelRange(Coord(x, y, z), gridSize)
      ensures c < 0xFF ==> FullColumn(field, gridSize, level, x, y, z, z0)
      ensures c < 0xFF ==> gridVoxelStatus[VoxelIndex(Coord(x, y, z0), gridSize)] == Computed
      ensures c < 0xFF ==> Advances(s0, gridVoxelStatus[..])
      ensures c < 0xFF ==> ClosedExcept(tables, field, gridSize, level, gridVoxelStatus[..], VoxelIndex(Coord(x, y, z), gridSize))
    {
      ghost var s, n, iz0 := gridVoxelStatus[..], gridSize, VoxelIndex(Coord(x, y, z0), gridSize);
      assert OnSeedColumn(field, n, level, seedVoxels, Coord(x, y, z)) by {
        assert seedVoxels[i].z == z0;
      }
      c := WalkStep(x, y, z, z0);
    }

    /** The seed walk of Render from voxel (x, y, z0): while the voxel is not yet computed it is
        triangulated, and the walk moves one voxel down as long as the voxel is fully inside
        (case 255). It stops either at a voxel already computed (found) or at the first voxel of
        another case, which is then the one voxel whose neighbours are still to be offered. */
    method SeedWalk(x: int, y: int, z0: int, ghost i: int) returns (c: int, z: int, found: bool)
      requires PassInvariant() && numOpenVoxels == 0 && InVoxelRange(Coord(x, y, z0), gridSize)
      requires 0 <= i < |seedVoxels| && seedVoxels[i] == Coord(x, y, z0)
      modifies this`vertices, this`triangles, this`normals, this`uvs, this`numVertices, this`numIndices
      modifies this`evaluated, this`evaluations, this`triangulated, this`triangulations, this`trace, this`pieces
      modifies gridEnergy, gridPointStatus, gridVoxelStatus
      ensures Bookkept() && WorklistValid(Pending(), gridSize) && numOpenVoxels == 0 && Rooted()
      ensures 0 <= z <= z0 && InVoxelRange(Coord(x, y, z), gridSize)
      ensures gridVoxelStatus[VoxelIndex(Coord(x, y, z0), gridSize)] == Computed
      ensures Advances(old(gridVoxelStatus[..]), gridVoxelStatus[..])
      ensures FullColumn(field, gridSize, level, x, y, z, z0)
      ensures Walked(trace, old(trace), x, y, if found then z + 1 else z, z0)
      ensures found ==> gridVoxelStatus[VoxelIndex(Coord(x, y, z), gridSize)] == Computed
      ensures found ==> Closed(tables, field, gridSize, level, gridVoxelStatus[..])
      ensures !found ==> c == VoxelCase(field, gridSize, level, Coord(x, y, z)) && c < 0xFF && Coord(x, y, z) in trace
      ensures !found ==> ClosedExcept(tables, field, gridSize, level, gridVoxelStatus[..], VoxelIndex(Coord(x, y, z), gridSize))
    {
      ghost var s0, t0 := gridVoxelStatus[..], trace;
      c, z := 0, z0;
      while true
        invariant PassInvariant()
        invariant numOpenVoxels == 0 && Walked(trace, t0, x, y, z + 1, z0)
        invariant 0 <= z <= z0 && InVoxelRange(Coord(x, y, z), gridSize) && InVoxelRange(Coord(x, y, z0), gridSize)
        invariant (z < z0 ==> gridVoxelStatus[VoxelIndex(Coord(x, y, z0), gridSize)] == Computed)
        invariant Advances(s0, gridVoxelStatus[..])
        invariant FullColumn(field, gridSize, level, x, y, z, z0)
        decreases z
      {
        if IsGridVoxelComputed(x, y, z) {
          found := true;
          break;
        }
        ghost var tr := trace;
        c := SeedStep(x, y, z, z0, s0, i);
        ColumnStep(tr, t0, x, y, z, z0);
        if c < 0xFF {
          found := false;
          break;
        }
        z := z - 1;
      }
    }

    /** The AddNeighborsToList call of Render for a voxel of case c, whose flagged neighbours
        are in range because the case was computed from the field. */
    method OfferNeighbors(c: int, x: int, y: int, z: int)
      requires BufferValid() && WorklistValid(Pending(), gridSize) && WellFormed(tables) && level > 0.0
      requires InVoxelRange(Coord(x, y, z), gridSize) && c == VoxelCase(field, gridSize, level, Coord(x, y, z))
      modifies this`openVoxels, this`numOpenVoxels, this`maxOpenVoxels, openVoxels, gridVoxelStatus
      ensures BufferValid() && WorklistValid(Pending(), gridSize)
      ensures AllInRange(Offered(NeighborMask(tables, c), Coord(x, y, z)), gridSize)
      ensures Pending() == OfferAll(old(Pending()), Offered(NeighborMask(tables, c), Coord(x, y, z)), gridSize)
      ensures openVoxels == old(openVoxels) || fresh(openVoxels)
    {
      NeighborsInRange(tables, field, gridSize, level, Coord(x, y, z));
      AddNeighborsToList(c, x, y, z);
    }

    /** Offering the neighbours of the voxel just triangulated (case c) closes it, so the pass
        invariant holds again. */
    method CloseVoxel(c: int, x: int, y: int, z: int)
      requires Bookkept() && WorklistValid(Pending(), gridSize) && InVoxelRange(Coord(x, y, z), gridSize)
      requires c == VoxelCase(field, gridSize, level, Coord(x, y, z))
      requires ClosedExcept(tables, field, gridSize, level, gridVoxelStatus[..], VoxelIndex(Coord(x, y, z), gridSize))
      requires Rooted() && Coord(x, y, z) in trace
      modifies this`openVoxels, this`numOpenVoxels, this`maxOpenVoxels, openVoxels, gridVoxelStatus
      ensures PassInvariant()
      ensures Advances(old(gridVoxelStatus[..]), gridVoxelStatus[..])
      ensures openVoxels == old(openVoxels) || fresh(openVoxels)
    {
      ghost var w, tr, trs := Pending(), triangulated, triangulations;
      CloseNeighbours(tables, field, gridSize, level, w, Coord(x, y, z), tr, trs);
      ReachedOffer(tables, field, gridSize, level, seedVoxels, trace, w, Coord(x, y, z));
      OfferNeighbors(c, x, y, z);
    }

    /** The pop at the head of Render's drain loop: the count drops by one and the voxel whose
        triple was on top is read back. */
    method PopOpenVoxel() returns (x: int, y: int, z: int)
      requires BufferValid() && numOpenVoxels > 0
      modifies this`numOpenVoxels
      ensures BufferValid() && numOpenVoxels == old(numOpenVoxels) - 1
      ensures old(OpenVoxels()) == OpenVoxels() + [Coord(x, y, z)]
    {
      numOpenVoxels := numOpenVoxels - 1;
      x := openVoxels[numOpenVoxels * 3];
      y := openVoxels[numOpenVoxels * 3 + 1];
      z := openVoxels[numOpenVoxels * 3 + 2];
    }

    /** PopOpenVoxel in a connected pass: the popped voxel was reached, so tracing it keeps
        the pass connected to its seeds. */
    method PopReached() returns (x: int, y: int, z: int)
      requires BufferValid() && numOpenVoxels > 0 && WellFormed(tables) && Rooted()
      modifies this`numOpenVoxels
      ensures BufferValid() && numOpenVoxels == old(numOpenVoxels) - 1
      ensures old(OpenVoxels()) == OpenVoxels() + [Coord(x, y, z)]
      ensures Reached(tables, field, gridSize, level, seedVoxels, trace + [Coord(x, y, z)], OpenVoxels())
    {
      ghost var entries := OpenVoxels();
      assert Reached(tables, field, gridSize, level, seedVoxels, trace, entries);
      x, y, z := PopOpenVoxel();
      ReachedPop(tables, field, gridSize, level, seedVoxels, trace, OpenVoxels(), Coord(x, y, z));
    }

    /** One turn of Render's drain loop: the voxel on top of the open list is popped,
        triangulated, and its flagged neighbours are offered. */
    method DrainStep()
      requires PassInvariant() && numOpenVoxels > 0
      modifies this`vertices, this`triangles, this`normals, this`uvs, this`numVertices, this`numIndices
      modifies this`evaluated, this`evaluations, this`triangulated, this`triangulations, this`trace, this`pieces
      modifies this`openVoxels, this`numOpenVoxels, this`maxOpenVoxels, openVoxels
      modifies gridEnergy, gridPointStatus, gridVoxelStatus
      ensures PassInvariant()
      ensures Advances(old(gridVoxelStatus[..]), gridVoxelStatus[..])
      ensures triangulations == old(triangulations) + 1 && triangulations <= VoxelCount(gridSize)
      ensures openVoxels == old(openVoxels) || fresh(openVoxels)
    {
      var x, y, z, c := VisitTop();
      CloseVoxel(c, x, y, z);
      TriangulationsBounded(triangulated, triangulations, gridVoxelStatus[..]);
    }

    /** The first half of DrainStep: the voxel on top of the open list is popped and
        triangulated, and is left as the one voxel whose neighbours are still to be offered. */
    method VisitTop() returns (x: int, y: int, z: int, c: int)
      requires PassInvariant() && numOpenVoxels > 0
      modifies this`vertices, this`triangles, this`normals, this`uvs, this`numVertices, this`numIndices
      modifies this`evaluated, this`evaluations, this`triangulated, this`triangulations, this`trace, this`pieces
      modifies this`numOpenVoxels, gridEnergy, gridPointStatus, gridVoxelStatus
      ensures Bookkept() && WorklistValid(Pending(), gridSize) && InVoxelRange(Coord(x, y, z), gridSize)
      ensures Rooted() && Coord(x, y, z) in trace
      ensures c == VoxelCase(field, gridSize, level, Coord(x, y, z))
      ensures ClosedExcept(tables, field, gridSize, level, gridVoxelStatus[..], VoxelIndex(Coord(x, y, z), gridSize))
      ensures Advances(old(gridVoxelStatus[..]), gridVoxelStatus[..])
      ensures triangulations == old(triangulations) + 1
    {
      ghost var w := Pending();
      x, y, z := PopReached();
      c := VisitPopped(x, y, z, w);
    }

    /** The Visit of DrainStep, on voxel (x, y, z) just popped from the top of worklist w: the
        worklist left is w without its top, and the voxel computed. */
    method VisitPopped(x: int, y: int, z: int, ghost w: Worklist) returns (c: int)
      requires Bookkept() && Closed(tables, field, gridSize, level, gridVoxelStatus[..])
      requires WorklistValid(w, gridSize) && |w.entries| > 0 && w.entries[|w.entries| - 1] == Coord(x, y, z)
      requires w == Worklist(OpenVoxels() + [Coord(x, y, z)], gridVoxelStatus[..])
      requires Reached(tables, field, gridSize, level, seedVoxels, trace + [Coord(x, y, z)], OpenVoxels())
      modifies this`vertices, this`triangles, this`normals, this`uvs, this`numVertices, this`numIndices
      modifies this`evaluated, this`evaluations, this`triangulated, this`triangulations, this`trace, this`pieces
      modifies gridEnergy, gridPointStatus, gridVoxelStatus
      ensures Bookkept() && WorklistValid(Pending(), gridSize) && InVoxelRange(Coord(x, y, z), gridSize)
      ensures Rooted() && Coord(x, y, z) in trace
      ensures c == VoxelCase(field, gridSize, level, Coord(x, y, z))
      ensures ClosedExcept(tables, field, gridSize, level, gridVoxelStatus[..], VoxelIndex(Coord(x, y, z), gridSize))
      ensures Advances(old(gridVoxelStatus[..]), gridVoxelStatus[..])
      ensures triangulations == old(triangulations) + 1
    {
      ghost var n := gridSize;
      assert w.entries[..|w.entries| - 1] == OpenVoxels();
      c := Visit(x, y, z);
      PopPreservesValid(w, n);
      assert Pending() == Worklist(w.entries[..|w.entries| - 1], w.status[VoxelIndex(Coord(x, y, z), n) := Computed]);
    }

    /** Render's drain loop: voxels are popped and triangulated, and their neighbours offered,
        until the open list is empty. Every voxel is triangulated at most once, so the loop
        runs at most once per voxel. */
    method DrainOpenVoxels()
      requires PassInvariant()
      modifies this`vertices, this`triangles, this`normals, this`uvs, this`numVertices, this`numIndices
      modifies this`evaluated, this`evaluations, this`triangulated, this`triangulations, this`trace, this`pieces
      modifies this`openVoxels, this`numOpenVoxels, this`maxOpenVoxels, openVoxels
      modifies gridEnergy, gridPointStatus, gridVoxelStatus
      ensures PassInvariant() && numOpenVoxels == 0
      ensures Advances(old(gridVoxelStatus[..]), gridVoxelStatus[..])
      ensures openVoxels == old(openVoxels) || fresh(openVoxels)
    {
      ghost var s0 := gridVoxelStatus[..];
      TriangulationsBounded(triangulated, triangulations, gridVoxelStatus[..]);
      while numOpenVoxels != 0
        invariant PassInvariant() && triangulations <= VoxelCount(gridSize)
        invariant Advances(s0, gridVoxelStatus[..])
        invariant openVoxels == old(openVoxels) || fresh(openVoxels)
        decreases VoxelCount(gridSize) - triangulations
      {
        DrainStep();
      }
    }

    /** The body of Render's loop for one blob, whose voxel is (x, y, z0): the seed walk, then,
        unless it ran into a computed voxel, the neighbours of the voxel it stopped at are offered
        and the list is drained. */
    method TraceBall(x: int, y: int, z0: int, ghost i: int)
      requires PassInvariant() && numOpenVoxels == 0 && InVoxelRange(Coord(x, y, z0), gridSize)
      requires 0 <= i < |seedVoxels| && seedVoxels[i] == Coord(x, y, z0)
      modifies this`vertices, this`triangles, this`normals, this`uvs, this`numVertices, this`numIndices
      modifies this`evaluated, this`evaluations, this`triangulated, this`triangulations, this`trace, this`pieces
      modifies this`openVoxels, this`numOpenVoxels, this`maxOpenVoxels, openVoxels
      modifies gridEnergy, gridPointStatus, gridVoxelStatus
      ensures PassInvariant() && numOpenVoxels == 0
      ensures gridVoxelStatus[VoxelIndex(Coord(x, y, z0), gridSize)] == Computed
      ensures Advances(old(gridVoxelStatus[..]), gridVoxelStatus[..])
      ensures openVoxels == old(openVoxels) || fresh(openVoxels)
    {
      ghost var s0 := gridVoxelStatus[..];
      var c, z, found := SeedWalk(x, y, z0, i);
      if !found {
        ghost var s1 := gridVoxelStatus[..];
        FloodFrom(c, x, y, z);
      }
    }

    /** The rest of Render's loop body once the seed walk stopped at voxel (x, y, z) of case c:
        its neighbours are offered, then the open list is drained. */
    method FloodFrom(c: int, x: int, y: int, z: int)
      requires Bookkept() && WorklistValid(Pending(), gridSize) && numOpenVoxels == 0
      requires Rooted() && Coord(x, y, z) in trace
      requires InVoxelRange(Coord(x, y, z), gridSize) && c == VoxelCase(field, gridSize, level, Coord(x, y, z))
      requires ClosedExcept(tables, field, gridSize, level, gridVoxelStatus[..], VoxelIndex(Coord(x, y, z), gridSize))
      modifies this`vertices, this`triangles, this`normals, this`uvs, this`numVertices, this`numIndices
      modifies this`evaluated, this`evaluations, this`triangulated, this`triangulations, this`trace, this`pieces
      modifies this`openVoxels, this`numOpenVoxels, this`maxOpenVoxels, openVoxels
      modifies gridEnergy, gridPointStatus, gridVoxelStatus
      ensures PassInvariant() && numOpenVoxels == 0
      ensures Advances(old(gridVoxelStatus[..]), gridVoxelStatus[..])
      ensures openVoxels == old(openVoxels) || fresh(openVoxels)
    {
      ghost var s0 := gridVoxelStatus[..];
      CloseVoxel(c, x, y, z);
      ghost var s1 := gridVoxelStatus[..];
      DrainOpenVoxels();
    }

    /** The mesh arrays of Render are emptied and their counters zeroed. */
    method ClearMesh()
      modifies this`vertices, this`triangles, this`normals, this`uvs, this`numVertices, this`numIndices
      ensures MeshValid() && vertices == [] && triangles == [] && normals == [] && uvs == []
    {
      vertices, triangles, normals, uvs := [], [], [], [];
      numIndices, numVertices := 0, 0;
    }

    /** The two memsets of Render: every grid point is not computed and every voxel unvisited. */
    method ClearStatusGrids()
      modifies gridPointStatus, gridVoxelStatus
      ensures forall i :: 0 <= i < gridPointStatus.Length ==> !gridPointStatus[i]
      ensures forall i :: 0 <= i < gridVoxelStatus.Length ==> gridVoxelStatus[i] == Unvisited
    {
      forall i | 0 <= i < gridPointStatus.Length {
        gridPointStatus[i] := false;
      }
      forall i | 0 <= i < gridVoxelStatus.Length {
        gridVoxelStatus[i] := Unvisited;
      }
    }

    /** The blobs of the pass about to start: their energy is f and their voxels are seeds; no
        grid point has been evaluated and no voxel triangulated yet, so the trace is empty. */
    method SetBlobs(f: Field, seeds: seq<Coord>)
      requires gridSize >= 0
      modifies this`field, this`expected, this`evaluated, this`evaluations, this`triangulated, this`triangulations, this`trace, this`pieces
      modifies this`seedVoxels
      ensures field == f && ExpectedAgrees() && seedVoxels == seeds
      ensures evaluated == {} && evaluations == 0 && triangulated == {} && triangulations == 0 && trace == [] && pieces == []
    {
      field := f;
      seedVoxels := seeds;
      expected := FieldSamples(f, gridSize);
      evaluated, evaluations, triangulated, triangulations := {}, 0, {}, 0;
      trace, pieces := [], [];
    }

    /** The reset at the head of Render: the mesh is cleared and both status grids are cleared.
        The field f is the blobs' energy for this pass and seeds their voxels; the cached
        energies are kept but count for nothing until their points are computed again. */
    method BeginPass(f: Field, seeds: seq<Coord>)
      requires Valid() && numOpenVoxels == 0
      modifies this`vertices, this`triangles, this`normals, this`uvs, this`numVertices, this`numIndices
      modifies this`field, this`expected, this`evaluated, this`evaluations, this`triangulated, this`triangulations, this`trace, this`pieces
      modifies this`seedVoxels, gridPointStatus, gridVoxelStatus
      ensures PassInvariant() && numOpenVoxels == 0 && field == f && seedVoxels == seeds
      ensures vertices == [] && triangles == [] && normals == [] && uvs == []
      ensures forall i :: 0 <= i < gridPointStatus.Length ==> !gridPointStatus[i]
      ensures forall i :: 0 <= i < gridVoxelStatus.Length ==> gridVoxelStatus[i] == Unvisited
      ensures evaluations == 0 && triangulations == 0 && trace == [] && pieces == []
    {
      ClearMesh();
      SetBlobs(f, seeds);
      ClearStatusGrids();
      PassStarts();
    }

    /** The state BeginPass leaves, an empty mesh, empty bookkeeping, an empty buffer and
        cleared status grids, is one a pass can start from. */
    lemma PassStarts()
      requires Valid() && numOpenVoxels == 0 && ExpectedAgrees()
      requires vertices == [] && triangles == [] && trace == [] && pieces == []
      requires evaluated == {} && evaluations == 0 && triangulated == {} && triangulations == 0
      requires forall i :: 0 <= i < gridPointStatus.Length ==> !gridPointStatus[i]
      requires forall i :: 0 <= i < gridVoxelStatus.Length ==> gridVoxelStatus[i] == Unvisited
      ensures PassInvariant()
    {
      ClearedWorklist(tables, field, gridSize, level, gridVoxelStatus[..]);
      assert Pending() == Worklist([], gridVoxelStatus[..]);
    }

    /** The loop of Render over the blobs, whose voxels are seeds: each blob's seed walk runs
        and, unless it met a computed voxel, the surface is flooded from where it stopped.
        Afterwards every seed voxel is computed and nothing is left in the list. */
    method TraceBalls(seeds: seq<Coord>)
      requires PassInvariant() && numOpenVoxels == 0 && seeds == seedVoxels
      requires forall i :: 0 <= i < |seeds| ==> InVoxelRange(seeds[i], gridSize)
      modifies this`vertices, this`triangles, this`normals, this`uvs, this`numVertices, this`numIndices
      modifies this`evaluated, this`evaluations, this`triangulated, this`triangulations, this`trace, this`pieces
      modifies this`openVoxels, this`numOpenVoxels, this`maxOpenVoxels, openVoxels
      modifies gridEnergy, gridPointStatus, gridVoxelStatus
      ensures PassInvariant() && numOpenVoxels == 0
      ensures AllComputed(gridVoxelStatus[..], seeds, |seeds|, gridSize)
      ensures Advances(old(gridVoxelStatus[..]), gridVoxelStatus[..])
      ensures openVoxels == old(openVoxels) || fresh(openVoxels)
    {
      ghost var s0 := gridVoxelStatus[..];
      for i := 0 to |seeds|
        invariant PassInvariant() && numOpenVoxels == 0
        invariant AllComputed(gridVoxelStatus[..], seeds, i, gridSize)
        invariant Advances(s0, gridVoxelStatus[..])
        invariant openVoxels == old(openVoxels) || fresh(openVoxels)
      {
        ghost var s := gridVoxelStatus[..];
        TraceBall(seeds[i].x, seeds[i].y, seeds[i].z, i);
        AllComputedStep(s, gridVoxelStatus[..], seeds, i, gridSize);
      }
    }

    /** At the end of a pass, with the list drained: the flood is complete (every flagged
        neighbour of a computed voxel other than a fully inside one is computed), and each voxel
        was triangulated and each grid point's field value taken at most once. */
    lemma PassComplete()
      requires PassInvariant() && numOpenVoxels == 0
      ensures forall i :: 0 <= i < gridVoxelStatus.Length ==> gridVoxelStatus[i] != InList
      ensures forall i :: (0 <= i < gridVoxelStatus.Length && gridVoxelStatus[i] == Computed
          && VoxelCase(field, gridSize, level, VoxelAt(i, gridSize)) != 0xFF) ==>
        var v := VoxelAt(i, gridSize);
        forall g :: 0 <= g < 6 && MaskBit(NeighborMask(tables, VoxelCase(field, gridSize, level, v)), g) ==>
          InVoxelRange(Neighbor(v, g), gridSize) && gridVoxelStatus[VoxelIndex(Neighbor(v, g), gridSize)] == Computed
      ensures triangulations <= VoxelCount(gridSize) && evaluations <= PointCount(gridSize)
      ensures TraceIndices(trace, gridSize) == set i | 0 <= i < gridVoxelStatus.Length && gridVoxelStatus[i] == Computed
      ensures |trace| == triangulations && forall j, l :: 0 <= j < l < |trace| ==> trace[j] != trace[l]
      ensures Emission(triangles, vertices) == MeshOf(tables, field, gridSize, level, trace)
      ensures forall j :: 0 <= j < |trace| ==>
        (OnSeedColumn(field, gridSize, level, seedVoxels, trace[j])
         || exists l :: 0 <= l < j && trace[j] in Flagged(tables, field, gridSize, level, trace[l]))
    {
      TracedPass(tables, field, gridSize, level, trace, pieces, vertices, triangles, triangulated, triangulations);
      EmptyListNoInList(Pending(), gridSize);
      ClosedAndDrainedIsComplete(tables, field, gridSize, level, gridVoxelStatus[..]);
      TriangulationsBounded(triangulated, triangulations, gridVoxelStatus[..]);
      EvaluationsBounded(evaluated, evaluations, gridPointStatus[..]);
    }

    /** One extraction pass for the blobs' field f, whose voxels are seeds (one per blob): the
        reset, then the seed walk and flood for each blob. Afterwards every seed voxel is
        computed, nothing is left in the list, and the flood is complete. */
    method Render(f: Field, seeds: seq<Coord>)
      requires Valid() && numOpenVoxels == 0 && |seeds| == numBalls
      requires forall i :: 0 <= i < |seeds| ==> InVoxelRange(seeds[i], gridSize)
      modifies this`vertices, this`triangles, this`normals, this`uvs, this`numVertices, this`numIndices
      modifies this`field, this`expected, this`evaluated, this`evaluations, this`triangulated, this`triangulations, this`trace, this`pieces
      modifies this`seedVoxels, this`openVoxels, this`numOpenVoxels, this`maxOpenVoxels, openVoxels
      modifies gridEnergy, gridPointStatus, gridVoxelStatus
      ensures PassInvariant() && numOpenVoxels == 0 && field == f && seedVoxels == seeds
      ensures AllComputed(gridVoxelStatus[..], seeds, |seeds|, gridSize)
      ensures forall i :: 0 <= i < gridVoxelStatus.Length ==> gridVoxelStatus[i] != InList
      ensures forall i :: (0 <= i < gridVoxelStatus.Length && gridVoxelStatus[i] == Computed
          && VoxelCase(f, gridSize, level, VoxelAt(i, gridSize)) != 0xFF) ==>
        var v := VoxelAt(i, gridSize);
        forall g :: 0 <= g < 6 && MaskBit(NeighborMask(tables, VoxelCase(f, gridSize, level, v)), g) ==>
          InVoxelRange(Neighbor(v, g), gridSize) && gridVoxelStatus[VoxelIndex(Neighbor(v, g), gridSize)] == Computed
      ensures triangulations <= VoxelCount(gridSize) && evaluations <= PointCount(gridSize)
      ensures TraceIndices(trace, gridSize) == set i | 0 <= i < gridVoxelStatus.Length && gridVoxelStatus[i] == Computed
      ensures |trace| == triangulations && forall j, l :: 0 <= j < l < |trace| ==> trace[j] != trace[l]
      ensures Emission(triangles, vertices) == MeshOf(tables, f, gridSize, level, trace)
      ensures forall j :: 0 <= j < |trace| ==>
        (OnSeedColumn(f, gridSize, level, seeds, trace[j])
         || exists l :: 0 <= l < j && trace[j] in Flagged(tables, f, gridSize, level, trace[l]))
      ensures openVoxels == old(openVoxels) || fresh(openVoxels)
    {
      BeginPass(f, seeds);
      TraceBalls(seeds);
      PassComplete();
    }
  }
}
