/** The invariants of the actor's state, stated on plain values: the shapes of the grid
    arrays, the open-voxel buffer and the mesh; the energy cache and the evaluation and
    triangulation counts; and the lemmas that carry them across one step. They sit in a module
    of their own, apart from the actor, so that each is one proof obligation where the actor's
    methods assume or re-establish it. */
module Bookkeeping {
  import opened Grid
  import opened MarchingCubes
  import opened Emission
  import opened OpenList

  /** The header constants MAX_OPEN_VOXELS, MIN_GRID_STEPS, MAX_GRID_STEPS and MAX_METABALLS. */
  datatype Limits = Limits(maxOpenVoxels: int, minGridSteps: int, maxGridSteps: int, maxMetaballs: int)

  predicate LimitsValid(l: Limits) {
    1 <= l.maxOpenVoxels && 1 <= l.minGridSteps <= l.maxGridSteps && 0 <= l.maxMetaballs
  }

  /** The first m (x, y, z) triples of the open-voxel buffer. */
  function Triples(buf: seq<int>, m: int): (s: seq<Coord>)
    requires 0 <= m && 3 * m <= |buf|
    ensures |s| == m && forall k :: 0 <= k < m ==> s[k] == Coord(buf[3 * k], buf[3 * k + 1], buf[3 * k + 2])
  {
    seq(m, k requires 0 <= k < m => Coord(buf[3 * k], buf[3 * k + 1], buf[3 * k + 2]))
  }

  /** A set of indices below L has at most L elements. */
  lemma {:induction false} SubsetOfRange(s: set<int>, L: nat)
    requires forall i :: i in s ==> 0 <= i < L
    ensures |s| <= L
  {
    if L > 0 {
      SubsetOfRange(s - {L - 1}, L - 1);
    } else {
      assert forall i :: i in s <==> i in {};
      assert s == {};
    }
  }

  /** The grid arrays have the sizes SetGridSize allocates for resolution n. */
  ghost predicate GridShape(n: int, energyLength: int, pointLength: int, voxelLength: int) {
    n >= 1 && energyLength == PointCount(n) && pointLength == PointCount(n) && voxelLength == VoxelCount(n)
  }

  /** The open-voxel buffer holds max triples, num of them in use. */
  ghost predicate BufferShape(max: int, num: int, length: int) {
    1 <= max && 0 <= num <= max && length == 3 * max
  }

  /** The counters match the mesh arrays, each vertex carries its own normal and UV, and every
      triangle index names an existing vertex. */
  ghost predicate MeshShape(vertices: seq<MeshVertex>, triangles: seq<int>, normals: seq<Normal>, uvs: seq<TexCoord>,
                            numVertices: int, numIndices: int) {
    && numVertices == |vertices| && numIndices == |triangles|
    && |normals| == |vertices| && |uvs| == |vertices|
    && (forall k :: 0 <= k < |vertices| ==> normals[k] == FieldNormal(vertices[k]) && uvs[k] == FromNormal(normals[k]))
    && (forall k :: 0 <= k < |triangles| ==> 0 <= triangles[k] < |vertices|)
  }

  /** A grid point marked computed holds the energy of the current field. */
  ghost predicate CacheMatches(expected: seq<real>, energy: seq<real>, computed: seq<bool>) {
    && |energy| == |computed| == |expected|
    && forall i :: 0 <= i < |computed| && computed[i] ==> energy[i] == expected[i]
  }

  /** The field was called at most once per grid point (calls == |evaluated|), and only for
      points now computed. */
  ghost predicate CountedOnce(evaluated: set<int>, calls: nat, computed: seq<bool>) {
    && calls == |evaluated|
    && forall i :: i in evaluated ==> 0 <= i < |computed| && computed[i]
  }

  /** Each voxel was triangulated at most once, and exactly the computed voxels were. */
  ghost predicate TriangulatedOnce(triangulated: set<int>, calls: nat, status: seq<VoxelStatus>) {
    && calls == |triangulated|
    && forall i :: i in triangulated <==> 0 <= i < |status| && status[i] == Computed
  }

  lemma MeshShapeAddVertex(vertices: seq<MeshVertex>, triangles: seq<int>, normals: seq<Normal>, uvs: seq<TexCoord>,
                           numVertices: int, numIndices: int, x: MeshVertex)
    requires MeshShape(vertices, triangles, normals, uvs, numVertices, numIndices)
    ensures MeshShape(vertices + [x], triangles, normals + [FieldNormal(x)], uvs + [FromNormal(FieldNormal(x))], numVertices + 1, numIndices)
  {
  }

  lemma MeshShapeAddIndex(vertices: seq<MeshVertex>, triangles: seq<int>, normals: seq<Normal>, uvs: seq<TexCoord>,
                          numVertices: int, numIndices: int, t: int)
    requires MeshShape(vertices, triangles, normals, uvs, numVertices, numIndices) && 0 <= t < |vertices|
    ensures MeshShape(vertices, triangles + [t], normals, uvs, numVertices, numIndices + 1)
  {
  }

  /** Triangulating one more voxel, not yet computed, keeps the count equal to the set size. */
  lemma TriangulateOne(triangulated: set<int>, calls: nat, status: seq<VoxelStatus>, i: int)
    requires TriangulatedOnce(triangulated, calls, status) && 0 <= i < |status| && status[i] != Computed
    ensures TriangulatedOnce(triangulated + {i}, calls + 1, status[i := Computed])
  {
    assert i !in triangulated;
  }

  /** Statuses that keep the same computed voxels keep the triangulation count consistent. */
  lemma TriangulatedSameComputed(triangulated: set<int>, calls: nat, status: seq<VoxelStatus>, status': seq<VoxelStatus>)
    requires TriangulatedOnce(triangulated, calls, status) && |status'| == |status|
    requires forall i :: 0 <= i < |status| ==> (status'[i] == Computed <==> status[i] == Computed)
    ensures TriangulatedOnce(triangulated, calls, status')
  {
  }

  /** At most one triangulation per voxel: the count is bounded by the number of voxels. */
  lemma TriangulationsBounded(triangulated: set<int>, calls: nat, status: seq<VoxelStatus>)
    requires TriangulatedOnce(triangulated, calls, status)
    ensures calls <= |status|
  {
    SubsetOfRange(triangulated, |status|);
  }

  /** At most one field call per grid point: the count is bounded by the number of points. */
  lemma EvaluationsBounded(evaluated: set<int>, calls: nat, computed: seq<bool>)
    requires CountedOnce(evaluated, calls, computed)
    ensures calls <= |computed|
  {
    SubsetOfRange(evaluated, |computed|);
  }

  /** Marking a voxel that is not in the list computed keeps the list and statuses consistent. */
  lemma MarkComputedKeepsValid(w: Worklist, i: int, n: int)
    requires WorklistValid(w, n) && 0 <= i < |w.status| && w.status[i] != InList
    ensures WorklistValid(Worklist(w.entries, w.status[i := Computed]), n)
  {
    forall k | 0 <= k < |w.entries|
      ensures w.status[i := Computed][VoxelIndex(w.entries[k], n)] == InList
    {
      assert w.status[VoxelIndex(w.entries[k], n)] == InList;
    }
  }

  /** Offering leaves the set of computed voxels as it was. */
  lemma OfferAllKeepsComputed(w: Worklist, cs: seq<Coord>, n: int)
    requires n > 0 && |w.status| == VoxelCount(n) && AllInRange(cs, n)
    ensures var r := OfferAll(w, cs, n);
      && Advances(w.status, r.status)
      && forall i :: 0 <= i < |w.status| ==> (r.status[i] == Computed <==> w.status[i] == Computed)
  {
    OfferAllMonotone(w, cs, n);
  }

  /** Offering the flagged neighbours of the one voxel left open, with its case computed from
      the field, closes the status array without changing which voxels are computed. */
  lemma CloseNeighbours(t: CubeTables, field: Field, n: int, level: real, w: Worklist, v: Coord,
                        triangulated: set<int>, calls: nat)
    requires WellFormed(t) && level > 0.0 && n > 0 && |w.status| == VoxelCount(n) && InVoxelRange(v, n)
    requires ClosedExcept(t, field, n, level, w.status, VoxelIndex(v, n))
    requires TriangulatedOnce(triangulated, calls, w.status)
    ensures var cs := Offered(NeighborMask(t, VoxelCase(field, n, level, v)), v);
      && AllInRange(cs, n)
      && Closed(t, field, n, level, OfferAll(w, cs, n).status)
      && Advances(w.status, OfferAll(w, cs, n).status)
      && TriangulatedOnce(triangulated, calls, OfferAll(w, cs, n).status)
  {
    var cs := Offered(NeighborMask(t, VoxelCase(field, n, level, v)), v);
    NeighborsInRange(t, field, n, level, v);
    OfferClosesVoxel(t, field, n, level, w, v);
    OfferAllKeepsComputed(w, cs, n);
    TriangulatedSameComputed(triangulated, calls, w.status, OfferAll(w, cs, n).status);
  }

  /** Writing a voxel's three coordinates after the first m triples pushes it onto the list. */
  lemma TriplesPush(buf: seq<int>, buf': seq<int>, m: int, c: Coord)
    requires 0 <= m && 3 * m <= |buf| && 3 * m + 3 <= |buf'|
    requires forall k :: 0 <= k < 3 * m ==> buf'[k] == buf[k]
    requires buf'[3 * m] == c.x && buf'[3 * m + 1] == c.y && buf'[3 * m + 2] == c.z
    ensures Triples(buf', m + 1) == Triples(buf, m) + [c]
  {
    var r, l := Triples(buf', m + 1), Triples(buf, m) + [c];
    forall k | 0 <= k < m + 1 ensures r[k] == l[k] {
      if k < m {
        assert 3 * k + 2 < 3 * m;
      }
    }
  }

  /** The energy field f gives each grid point of a grid with n cells per axis, by index. */
  ghost function FieldSamples(f: Field, n: int): (e: seq<real>)
    requires n >= 0
    ensures |e| == PointCount(n) && forall i :: 0 <= i < |e| ==> e[i] == Sample(f, n, PointAt(i, n))
  {
    seq(PointCount(n), i => Sample(f, n, PointAt(i, n)))
  }

  /** The energy array after ComputeGridPointEnergy has run on corners 0 .. k-1 of voxel v:
      each corner's entry holds its field sample, every other entry is as in energy. */
  ghost function CornersSampled(energy: seq<real>, f: Field, n: int, v: Coord, k: int): (r: seq<real>)
    requires n >= 0 && 0 <= k <= 8
    ensures |r| == |energy|
  {
    if k == 0 then energy
    else
      var s, i := CornersSampled(energy, f, n, v, k - 1), PointIndex(Corner(v, k - 1), n);
      if 0 <= i < |s| then s[i := Sample(f, n, Corner(v, k - 1))] else s
  }

  /** The point-status array after ComputeGridPointEnergy has run on corners 0 .. k-1 of voxel v. */
  ghost function CornersComputed(status: seq<bool>, n: int, v: Coord, k: int): (r: seq<bool>)
    requires n >= 0 && 0 <= k <= 8
    ensures |r| == |status|
  {
    if k == 0 then status
    else
      var s, i := CornersComputed(status, n, v, k - 1), PointIndex(Corner(v, k - 1), n);
      if 0 <= i < |s| then s[i := true] else s
  }

  /** Running ComputeGridPointEnergy on corners 0 .. k-1 leaves every other grid point's energy and
      status alone and leaves each of those corners computed. */
  lemma {:induction false} CornersTouched(energy: seq<real>, status: seq<bool>, f: Field, n: int, v: Coord, k: int)
    requires n >= 0 && 0 <= k <= 8 && |energy| == |status|
    ensures var es, cs := CornersSampled(energy, f, n, v, k), CornersComputed(status, n, v, k);
      && (forall i :: 0 <= i < |status| && i !in CornerPoints(v, n, k) ==> es[i] == energy[i] && cs[i] == status[i])
      && (forall j :: 0 <= j < k && 0 <= PointIndex(Corner(v, j), n) < |status| ==> cs[PointIndex(Corner(v, j), n)])
  {
    if k > 0 {
      CornersTouched(energy, status, f, n, v, k - 1);
    }
  }

  /** The indices of the voxels of trace. */
  function TraceIndices(trace: seq<Coord>, n: int): (r: set<int>)
    requires n > 0
    decreases |trace|
  {
    if trace == [] then {} else TraceIndices(trace[..|trace| - 1], n) + {VoxelIndex(trace[|trace| - 1], n)}
  }

  /** TraceIndices holds the index of every traced voxel, and no more indices than voxels. */
  lemma {:induction false} TraceIndicesSpec(trace: seq<Coord>, n: int)
    requires n > 0
    ensures |TraceIndices(trace, n)| <= |trace|
    ensures forall k :: 0 <= k < |trace| ==> VoxelIndex(trace[k], n) in TraceIndices(trace, n)
    decreases |trace|
  {
    if trace != [] {
      var prev := trace[..|trace| - 1];
      TraceIndicesSpec(prev, n);
      forall k | 0 <= k < |prev| ensures VoxelIndex(trace[k], n) in TraceIndices(trace, n) {
        assert trace[k] == prev[k];
      }
    }
  }

  /** Every index in TraceIndices is the index of a traced voxel. */
  lemma {:induction false} TraceIndicesOnly(trace: seq<Coord>, n: int, i: int)
    requires n > 0 && i in TraceIndices(trace, n)
    ensures exists k :: 0 <= k < |trace| && VoxelIndex(trace[k], n) == i
    decreases |trace|
  {
    var prev := trace[..|trace| - 1];
    if i in TraceIndices(prev, n) {
      TraceIndicesOnly(prev, n, i);
      var k :| 0 <= k < |prev| && VoxelIndex(prev[k], n) == i;
      assert trace[k] == prev[k];
    } else {
      assert VoxelIndex(trace[|trace| - 1], n) == i;
    }
  }

  /** Distinct voxels in range have distinct indices, so TraceIndices has one per voxel. */
  lemma {:induction false} TraceCount(trace: seq<Coord>, n: int)
    requires n > 0 && AllInRange(trace, n)
    requires forall j, l :: 0 <= j < l < |trace| ==> trace[j] != trace[l]
    ensures |TraceIndices(trace, n)| == |trace|
    decreases |trace|
  {
    if trace != [] {
      var prev, v := trace[..|trace| - 1], trace[|trace| - 1];
      TraceCount(prev, n);
      forall k | 0 <= k < |prev| ensures VoxelIndex(prev[k], n) != VoxelIndex(v, n) {
        assert prev[k] == trace[k];
        GetIndexNoAddInjective(prev[k], v, n);
      }
      if VoxelIndex(v, n) in TraceIndices(prev, n) {
        TraceIndicesOnly(prev, n, VoxelIndex(v, n));
      }
    }
  }

  /** A subset is no larger than its superset, and as large only when it is the whole of it. */
  lemma {:induction false} SubsetSize(a: set<int>, b: set<int>)
    requires a <= b
    ensures |a| <= |b| && (|a| == |b| ==> a == b)
    decreases |a|
  {
    if y :| y in a {
      SubsetSize(a - {y}, b - {y});
      assert a == (a - {y}) + {y} && b == (b - {y}) + {y};
    } else {
      assert forall x :: x !in a;
      assert a == {};
    }
  }

  /** Distinct voxels in range, each with its index in s, as many as s has elements: their
      indices are exactly s. */
  lemma TraceCovers(trace: seq<Coord>, n: int, s: set<int>)
    requires n > 0 && |trace| == |s|
    requires forall k :: 0 <= k < |trace| ==> InVoxelRange(trace[k], n) && VoxelIndex(trace[k], n) in s
    requires forall j, l :: 0 <= j < l < |trace| ==> trace[j] != trace[l]
    ensures TraceIndices(trace, n) == s
  {
    TraceIndicesSpec(trace, n);
    TraceCount(trace, n);
    forall i | i in TraceIndices(trace, n) ensures i in s {
      TraceIndicesOnly(trace, n, i);
    }
    SubsetSize(TraceIndices(trace, n), s);
  }

  /** The triangle indices and vertices a pass appends when it triangulates the voxels of trace
      in order, from an empty mesh: each voxel's case edges go through the edge walk with a
      fresh slot table, numbering new vertices after those already emitted. */
  ghost function MeshOf(t: CubeTables, f: Field, n: int, level: real, trace: seq<Coord>): (m: Emission)
    requires WellFormed(t)
    decreases |trace|
  {
    if trace == [] then Emission([], [])
    else
      var prev, v := MeshOf(t, f, n, level, trace[..|trace| - 1]), trace[|trace| - 1];
      var em := VoxelEmission(t, f, n, level, v, |prev.vertices|);
      Emission(prev.indices + em.indices, prev.vertices + em.vertices)
  }

  /** What ComputeGridVoxel appends for voxel v when `count` vertices exist: the edge walk of
      v's case from a fresh slot table. One index per edge entry, each naming an existing or a
      new vertex, and every new vertex on voxel v. */
  function VoxelEmission(t: CubeTables, f: Field, n: int, level: real, v: Coord, count: int): (em: Emission)
    requires WellFormed(t) && count >= 0
    ensures |em.indices| == EdgeCount(t.triangles[VoxelCase(f, n, level, v)])
    ensures forall k :: 0 <= k < |em.indices| ==> 0 <= em.indices[k] < count + |em.vertices|
    ensures forall j :: 0 <= j < |em.vertices| ==> em.vertices[j].voxel == v
  {
    var es := CaseEdges(t, VoxelCase(f, n, level, v));
    EmitBounds(v, es, FreshSlots(), count);
    Emit(v, es, FreshSlots(), count)
  }

  /** Every triangle index of mesh m names one of its vertices, and every vertex lies on a
      voxel of trace. */
  ghost predicate MeshBounded(m: Emission, trace: seq<Coord>) {
    && (forall k :: 0 <= k < |m.indices| ==> 0 <= m.indices[k] < |m.vertices|)
    && (forall j :: 0 <= j < |m.vertices| ==> m.vertices[j].voxel in trace)
  }

  /** The traced mesh is bounded: its indices name its vertices and its vertices lie on traced
      voxels (this holds even when the 16-bit vertex slots wrap). */
  lemma {:induction false} MeshOfBounds(t: CubeTables, f: Field, n: int, level: real, trace: seq<Coord>)
    requires WellFormed(t)
    ensures MeshBounded(MeshOf(t, f, n, level, trace), trace)
    decreases |trace|
  {
    if trace != [] {
      var prefix, v := trace[..|trace| - 1], trace[|trace| - 1];
      assert prefix + [v] == trace;
      MeshOfBounds(t, f, n, level, prefix);
      var prev := MeshOf(t, f, n, level, prefix);
      var em := VoxelEmission(t, f, n, level, v, |prev.vertices|);
      assert MeshOf(t, f, n, level, trace) == Emission(prev.indices + em.indices, prev.vertices + em.vertices);
      AppendBounds(prev, em, prefix, v);
    }
  }

  /** Appending one voxel's emission em, whose indices name vertices of prev or of em and whose
      vertices lie on voxel v, keeps the mesh bounded by prefix + [v]. */
  lemma AppendBounds(prev: Emission, em: Emission, prefix: seq<Coord>, v: Coord)
    requires MeshBounded(prev, prefix)
    requires forall k :: 0 <= k < |em.indices| ==> 0 <= em.indices[k] < |prev.vertices| + |em.vertices|
    requires forall j :: 0 <= j < |em.vertices| ==> em.vertices[j].voxel == v
    ensures MeshBounded(Emission(prev.indices + em.indices, prev.vertices + em.vertices), prefix + [v])
  {
    var m := Emission(prev.indices + em.indices, prev.vertices + em.vertices);
    forall k | 0 <= k < |m.indices| ensures 0 <= m.indices[k] < |m.vertices| {
      if k >= |prev.indices| {
        assert m.indices[k] == em.indices[k - |prev.indices|];
      }
    }
    forall j | 0 <= j < |m.vertices| ensures m.vertices[j].voxel in prefix + [v] {
      if j < |prev.vertices| {
        assert m.vertices[j] == prev.vertices[j];
      } else {
        assert m.vertices[j] == em.vertices[j - |prev.vertices|];
      }
    }
  }

  /** The concatenation, in order, of the pieces a pass emitted. */
  function Concat(pieces: seq<Emission>): (m: Emission)
    decreases |pieces|
  {
    if pieces == [] then Emission([], [])
    else
      var prev, last := Concat(pieces[..|pieces| - 1]), pieces[|pieces| - 1];
      Emission(prev.indices + last.indices, prev.vertices + last.vertices)
  }

  /** Each piece is what the edge walk of its voxel's case appends after the pieces before it. */
  ghost predicate PiecesFit(t: CubeTables, f: Field, n: int, level: real, trace: seq<Coord>, pieces: seq<Emission>)
    requires WellFormed(t)
  {
    && |trace| == |pieces|
    && forall k {:trigger trace[k]} :: 0 <= k < |pieces| ==>
         pieces[k] == VoxelEmission(t, f, n, level, trace[k], |Concat(pieces[..k]).vertices|)
  }

  /** Appending a voxel with its emission after the pieces so far keeps the pieces fitting. */
  lemma PiecesFitStep(t: CubeTables, f: Field, n: int, level: real, trace: seq<Coord>, pieces: seq<Emission>, v: Coord)
    requires WellFormed(t) && PiecesFit(t, f, n, level, trace, pieces)
    ensures PiecesFit(t, f, n, level, trace + [v], pieces + [VoxelEmission(t, f, n, level, v, |Concat(pieces).vertices|)])
  {
    var trace', pieces' := trace + [v], pieces + [VoxelEmission(t, f, n, level, v, |Concat(pieces).vertices|)];
    forall k | 0 <= k < |pieces'|
      ensures pieces'[k] == VoxelEmission(t, f, n, level, trace'[k], |Concat(pieces'[..k]).vertices|)
    {
      if k < |pieces| {
        assert pieces'[..k] == pieces[..k] && trace'[k] == trace[k];
      } else {
        assert pieces'[..k] == pieces;
      }
    }
  }

  /** The mesh and the triangulation counts of a pass agree with its trace: one traced voxel and
      one emitted piece per triangulation, the voxels distinct, in range and triangulated, each
      piece what the edge walk of its voxel's case produces after the pieces before it, and the
      mesh the pieces in order. */
  ghost predicate MeshTraced(t: CubeTables, f: Field, n: int, level: real, trace: seq<Coord>, pieces: seq<Emission>,
                             vertices: seq<MeshVertex>, triangles: seq<int>, triangulated: set<int>, calls: nat)
    requires WellFormed(t)
  {
    && n > 0 && |trace| == calls
    && (forall k :: 0 <= k < |trace| ==> InVoxelRange(trace[k], n) && VoxelIndex(trace[k], n) in triangulated)
    && (forall j, l :: 0 <= j < l < |trace| ==> trace[j] != trace[l])
    && PiecesFit(t, f, n, level, trace, pieces)
    && Concat(pieces) == Emission(triangles, vertices)
  }

  /** Triangulating voxel v, not triangulated before, the edge walk appending its emission,
      extends the trace by v and the pieces by that emission. */
  lemma MeshTracedStep(t: CubeTables, f: Field, n: int, level: real, trace: seq<Coord>, pieces: seq<Emission>,
                       vertices: seq<MeshVertex>, triangles: seq<int>, triangulated: set<int>, calls: nat, v: Coord)
    requires WellFormed(t) && MeshTraced(t, f, n, level, trace, pieces, vertices, triangles, triangulated, calls)
    requires InVoxelRange(v, n) && VoxelIndex(v, n) !in triangulated
    ensures var em := Emit(v, CaseEdges(t, VoxelCase(f, n, level, v)), FreshSlots(), |vertices|);
      MeshTraced(t, f, n, level, trace + [v], pieces + [em], vertices + em.vertices, triangles + em.indices,
        triangulated + {VoxelIndex(v, n)}, calls + 1)
  {
    PiecesFitStep(t, f, n, level, trace, pieces, v);
    assert (pieces + [VoxelEmission(t, f, n, level, v, |vertices|)])[..|pieces|] == pieces;
  }

  /** The pieces of a trace, each the emission of its voxel after the pieces before it, make up
      exactly the mesh MeshOf gives for the trace. */
  lemma {:induction false} PiecesMesh(t: CubeTables, f: Field, n: int, level: real, trace: seq<Coord>, pieces: seq<Emission>)
    requires WellFormed(t) && PiecesFit(t, f, n, level, trace, pieces)
    ensures MeshOf(t, f, n, level, trace) == Concat(pieces)
    decreases |trace|
  {
    if trace != [] {
      var m := |trace| - 1;
      forall k | 0 <= k < m
        ensures pieces[..m][k] == VoxelEmission(t, f, n, level, trace[..m][k], |Concat(pieces[..m][..k]).vertices|)
      {
        assert pieces[..m][..k] == pieces[..k] && trace[..m][k] == trace[k];
      }
      PiecesMesh(t, f, n, level, trace[..m], pieces[..m]);
    }
  }

  /** At the end of a pass whose counts agree, the traced voxels are exactly the triangulated
      ones, each once, and the mesh is MeshOf of the trace. */
  lemma TracedPass(t: CubeTables, f: Field, n: int, level: real, trace: seq<Coord>, pieces: seq<Emission>,
                   vertices: seq<MeshVertex>, triangles: seq<int>, triangulated: set<int>, calls: nat)
    requires WellFormed(t) && MeshTraced(t, f, n, level, trace, pieces, vertices, triangles, triangulated, calls)
    requires calls == |triangulated|
    ensures TraceIndices(trace, n) == triangulated
    ensures MeshOf(t, f, n, level, trace) == Emission(triangles, vertices)
  {
    TraceCovers(trace, n, triangulated);
    PiecesMesh(t, f, n, level, trace, pieces);
  }

  /** The neighbours AddNeighborsToList offers after ComputeGridVoxel has run on voxel u: those
      whose bit is set in the neighbour mask of u's case, in face order. */
  function Flagged(t: CubeTables, f: Field, n: int, level: real, u: Coord): seq<Coord>
    requires WellFormed(t)
  {
    Offered(NeighborMask(t, VoxelCase(f, n, level, u)), u)
  }

  /** Voxel v is on the walk down from one of the seed voxels: below it (or the seed itself) in
      its column, with every voxel from the seed down to just above v fully inside. */
  ghost predicate OnSeedColumn(f: Field, n: int, level: real, seeds: seq<Coord>, v: Coord) {
    exists k :: 0 <= k < |seeds| && v.x == seeds[k].x && v.y == seeds[k].y && v.z <= seeds[k].z
      && FullColumn(f, n, level, v.x, v.y, v.z, seeds[k].z)
  }

  /** The voxels the seed walk triangulates going down column (x, y) from hi to lo, in the
      order it visits them. */
  function Column(x: int, y: int, lo: int, hi: int): (s: seq<Coord>)
    ensures |s| == (if lo <= hi then hi - lo + 1 else 0)
    decreases hi - lo
  {
    if lo > hi then [] else Column(x, y, lo + 1, hi) + [Coord(x, y, lo)]
  }

  /** The k-th voxel the walk down column (x, y) from hi triangulates is k below hi. */
  lemma {:induction false} ColumnAt(x: int, y: int, lo: int, hi: int, k: int)
    requires 0 <= k < |Column(x, y, lo, hi)|
    ensures Column(x, y, lo, hi)[k] == Coord(x, y, hi - k)
    decreases hi - lo
  {
    if k < hi - lo {
      ColumnAt(x, y, lo + 1, hi, k);
    }
  }

  /** trace is t0 followed by the walk down column (x, y) from hi to lo. */
  ghost predicate Walked(trace: seq<Coord>, t0: seq<Coord>, x: int, y: int, lo: int, hi: int) {
    trace == t0 + Column(x, y, lo, hi)
  }

  /** One more step of the walk extends the walked column by the voxel below it. */
  lemma ColumnStep(trace: seq<Coord>, t0: seq<Coord>, x: int, y: int, z: int, z0: int)
    requires z <= z0 && Walked(trace, t0, x, y, z + 1, z0)
    ensures Walked(trace + [Coord(x, y, z)], t0, x, y, z, z0)
  {
    assert Column(x, y, z, z0) == Column(x, y, z + 1, z0) + [Coord(x, y, z)];
  }

  /** Voxel v is a flagged neighbour of one of the first m voxels of trace. */
  ghost predicate FlaggedBy(t: CubeTables, f: Field, n: int, level: real, trace: seq<Coord>, m: int, v: Coord)
    requires WellFormed(t) && 0 <= m <= |trace|
  {
    exists l :: 0 <= l < m && v in Flagged(t, f, n, level, trace[l])
  }

  /** Everything the pass has reached is connected to a seed through the surface: each traced
      voxel is on a seed's walk or a flagged neighbour of a voxel traced before it, and each
      voxel waiting in the list is a flagged neighbour of a traced voxel. */
  ghost predicate Reached(t: CubeTables, f: Field, n: int, level: real, seeds: seq<Coord>, trace: seq<Coord>, entries: seq<Coord>)
    requires WellFormed(t)
  {
    && (forall j :: 0 <= j < |trace| ==> OnSeedColumn(f, n, level, seeds, trace[j]) || FlaggedBy(t, f, n, level, trace, j, trace[j]))
    && (forall k :: 0 <= k < |entries| ==> FlaggedBy(t, f, n, level, trace, |trace|, entries[k]))
  }

  /** A flagged neighbour of the first m traced voxels stays one when the trace grows. */
  lemma FlaggedByExtend(t: CubeTables, f: Field, n: int, level: real, trace: seq<Coord>, m: int, v: Coord, u: Coord)
    requires WellFormed(t) && 0 <= m <= |trace| && FlaggedBy(t, f, n, level, trace, m, u)
    ensures FlaggedBy(t, f, n, level, trace + [v], m, u) && FlaggedBy(t, f, n, level, trace + [v], |trace| + 1, u)
  {
    var l :| 0 <= l < m && u in Flagged(t, f, n, level, trace[l]);
    assert (trace + [v])[l] == trace[l];
  }

  /** Tracing a voxel on a seed's walk, or a flagged neighbour of a traced voxel, keeps the
      trace and the list reached. */
  lemma {:induction false} ReachedTrace(t: CubeTables, f: Field, n: int, level: real, seeds: seq<Coord>, trace: seq<Coord>,
                                        entries: seq<Coord>, v: Coord)
    requires WellFormed(t) && Reached(t, f, n, level, seeds, trace, entries)
    requires OnSeedColumn(f, n, level, seeds, v) || FlaggedBy(t, f, n, level, trace, |trace|, v)
    ensures Reached(t, f, n, level, seeds, trace + [v], entries)
  {
    var trace' := trace + [v];
    forall j | 0 <= j < |trace'|
      ensures OnSeedColumn(f, n, level, seeds, trace'[j]) || FlaggedBy(t, f, n, level, trace', j, trace'[j])
    {
      if j < |trace| {
        assert trace'[j] == trace[j];
        if !OnSeedColumn(f, n, level, seeds, trace[j]) {
          FlaggedByExtend(t, f, n, level, trace, j, v, trace[j]);
        }
      } else if !OnSeedColumn(f, n, level, seeds, v) {
        FlaggedByExtend(t, f, n, level, trace, |trace|, v, v);
      }
    }
    forall k | 0 <= k < |entries| ensures FlaggedBy(t, f, n, level, trace', |trace'|, entries[k]) {
      FlaggedByExtend(t, f, n, level, trace, |trace|, v, entries[k]);
    }
  }

  /** Popping the top of the list and tracing it: the popped voxel is a flagged neighbour of a
      traced voxel, so the longer trace and the shorter list stay reached. */
  lemma ReachedPop(t: CubeTables, f: Field, n: int, level: real, seeds: seq<Coord>, trace: seq<Coord>, rest: seq<Coord>, top: Coord)
    requires WellFormed(t) && Reached(t, f, n, level, seeds, trace, rest + [top])
    ensures Reached(t, f, n, level, seeds, trace + [top], rest)
  {
    var entries := rest + [top];
    forall k | 0 <= k < |rest| ensures FlaggedBy(t, f, n, level, trace, |trace|, rest[k]) {
      assert entries[k] == rest[k];
    }
    assert entries[|rest|] == top;
    ReachedTrace(t, f, n, level, seeds, trace, rest, top);
  }

  /** Offering the flagged neighbours of a traced voxel u keeps the list reached: what OfferAll
      pushes is among them. */
  lemma ReachedOffer(t: CubeTables, f: Field, n: int, level: real, seeds: seq<Coord>, trace: seq<Coord>, w: Worklist, u: Coord)
    requires WellFormed(t) && Reached(t, f, n, level, seeds, trace, w.entries) && u in trace
    requires n > 0 && |w.status| == VoxelCount(n) && AllInRange(Flagged(t, f, n, level, u), n)
    ensures Reached(t, f, n, level, seeds, trace, OfferAll(w, Flagged(t, f, n, level, u), n).entries)
  {
    var cs := Flagged(t, f, n, level, u);
    var r := OfferAll(w, cs, n);
    OfferAllMonotone(w, cs, n);
    OfferAllPushes(w, cs, n);
    var l :| 0 <= l < |trace| && trace[l] == u;
    forall k | 0 <= k < |r.entries| ensures FlaggedBy(t, f, n, level, trace, |trace|, r.entries[k]) {
      if k < |w.entries| {
        assert r.entries[k] == r.entries[..|w.entries|][k] == w.entries[k];
      } else {
        assert r.entries[k] == r.entries[|w.entries|..][k - |w.entries|];
        assert r.entries[k] in cs;
      }
    }
  }

}
