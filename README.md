# Metaballs: adaptive marching cubes over a memoised grid

This project models the surface extractor of the Metaballs actor (`AMetaballs`, an Unreal
Engine plugin) and proves what it promises. Once per frame `Render` clears the mesh buffers
and the two status grids. For each blob it then takes a seed voxel, walks down in z while the
voxel lies wholly inside the surface (case 255), and floods outwards from there. The flood uses
a LIFO buffer of open voxels. `ComputeGridVoxel` triangulates one voxel:

- it samples the voxel's eight corners through the memoised `ComputeGridPointEnergy`;
- it forms the 8-bit case code;
- it walks the case's `-1`-terminated edge list, and a 12-slot table of 16-bit vertex indices
  gives each edge one vertex;
- it marks the voxel computed.

`AddNeighborsToList` and `AddNeighbor` push the face neighbours that the case's 6-bit
neighbour mask selects. A voxel already computed or already in the list is skipped, and the
buffer doubles when it is full.

The repository holds two copies of the same algorithm. The plugin copy is
`Plugin/MetaballsPlugin/Source/MetaballsPlugin/Private/Metaballs.cpp`; the Unreal Engine 5 copy is
`MetaballsPlugin_UE5/Source/MetaballsPlugin/Private/Metaballs.cpp`. The UE5 copy differs
only cosmetically: it sizes arrays with `FMath::Pow` and writes `FVector` arithmetic
differently. The table cites the plugin copy; "UE5" in the third column gives the lines of the
same code in the UE5 copy.

Modules:

- **Grid** (`Grid.dfy`): the two flattenings `GetIndex` (grid points on the (N+1)^3
  lattice) and `GetIndexNoAdd` (voxels on the N^3 lattice), their inverses, and `FMath::Clamp`.
- **MarchingCubes** (`MarchingCubes.dfy`): the corner order, the case code, and the neighbour
  mask. The lookup tables are a `CubeTables` value that must satisfy `WellFormed`: edge ids
  0..11, lists terminated by -1, and a face's mask bit set only when a corner on that face is
  above the level.
- **Emission** (`Emission.dfy`): the edge walk of `ComputeGridVoxel` as a function on values.
- **OpenList** (`OpenList.dfy`): the tri-state voxel status and the worklist of the flood, as
  values.
- **Bookkeeping** (`Bookkeeping.dfy`): the invariants of the actor's state, stated on plain
  values. They are kept out of the class so that the solver sees each one as a single
  obligation. The module also holds the ghost accounting: which grid points were evaluated,
  which voxels were triangulated and in what order, and the mesh that order produces.
- **Metaballs** (`Metaballs.dfy`): the class `MetaballActor`. It owns the energy array, the
  point-status and voxel-status arrays, the open-voxel buffer (a raw `int` array with a count
  and a capacity) and the mesh sequences. Its methods update them in place, as the C++ does.

Energies come from an oracle, `Field`: the blobs' energy at a lattice coordinate, fixed for
one pass. A boundary grid point is pinned to 0 (`Sample`). A vertex is the crossing on a
given edge of a given voxel (`MeshVertex`). Its normal and UV are values determined by that
vertex (`FieldNormal`, `FromNormal`).

The class's ghost fields account for each pass:

- `evaluated` and `evaluations`: the grid points whose energy came from the oracle, and how
  many oracle calls there were;
- `triangulated` and `triangulations`: the voxels `ComputeGridVoxel` ran on, and how many
  calls there were;
- `trace` and `pieces`: those voxels in order, and what each call appended;
- `seedVoxels`: the blobs' voxels, where the seed walks start.

A count equal to the size of its set means "at most once per pass". `MeshOf(trace)` is the
mesh those voxels produce, as an independent definition. At the end of a pass the mesh equals
it. `Reached` says the flood stays connected. Every traced voxel lies on the column below a
seed voxel, walked down through case-255 voxels, or it is a mask-flagged neighbour of a voxel
traced before it. Every voxel waiting in the list is a flagged neighbour of a traced voxel.

## Model

| member | source | states |
|---|---|---|
| Grid.GetIndex | Plugin/MetaballsPlugin/Source/MetaballsPlugin/Private/Metaballs.cpp:28-37 | On [0,N]^3 the index lies in [0,(N+1)^3), the size of the arrays SetGridSize allocates (700-702), and decodes back to the point (UE5 27-36, 681-683) |
| Grid.GetIndexNoAdd | Plugin/MetaballsPlugin/Source/MetaballsPlugin/Private/Metaballs.cpp:39-48 | On [0,N)^3 the index lies in [0,N^3), the size of the voxel-status array, and decodes back to the voxel (UE5 38-47) |
| Grid.PointAtRoundTrip | Plugin/MetaballsPlugin/Source/MetaballsPlugin/Private/Metaballs.cpp:28-37 | Every index of the point arrays is GetIndex of exactly one in-range grid point (UE5 27-36) |
| Grid.VoxelAtRoundTrip | Plugin/MetaballsPlugin/Source/MetaballsPlugin/Private/Metaballs.cpp:39-48 | Every index of the voxel-status array is GetIndexNoAdd of exactly one in-range voxel (UE5 38-47) |
| Grid.GetIndexInjective | Plugin/MetaballsPlugin/Source/MetaballsPlugin/Private/Metaballs.cpp:28-37 | GetIndex is injective on [0,N]^3: two grid points share an index iff they are equal (UE5 27-36) |
| Grid.GetIndexNoAddInjective | Plugin/MetaballsPlugin/Source/MetaballsPlugin/Private/Metaballs.cpp:39-48 | GetIndexNoAdd is injective on [0,N)^3, in both directions (UE5 38-47) |
| Grid.Clamp | Plugin/MetaballsPlugin/Source/MetaballsPlugin/Private/Metaballs.cpp:793-796 | FMath::Clamp on int: the result lies in [lo, hi], equals v inside the range and the nearer bound outside it (UE5 752-755) |
| MarchingCubes.EdgeCount | Plugin/MetaballsPlugin/Source/MetaballsPlugin/Private/Metaballs.cpp:632-636 | The position of the first -1 of a triangle list: every entry before it is not -1, and it is the end of the list or a -1 (UE5 610-614) |
| MarchingCubes.CaseEdges | Plugin/MetaballsPlugin/Source/MetaballsPlugin/Private/Metaballs.cpp:634-636 | The edges the walk visits for case c: the entries of m_CubeTriangles[c] before the -1, each an edge id 0..11 (UE5 612-614) |
| MarchingCubes.CornerPoints | Plugin/MetaballsPlugin/Source/MetaballsPlugin/Private/Metaballs.cpp:602-609 | A set holding the grid-point indices of corners 0..k-1 of the voxel, the points its sampling may touch (UE5 581-588) |
| MarchingCubes.VoxelCase | Plugin/MetaballsPlugin/Source/MetaballsPlugin/Private/Metaballs.cpp:611-619 | The case code of a voxel lies in 0..255 (UE5 590-598) |
| MarchingCubes.CaseCodeSum | Plugin/MetaballsPlugin/Source/MetaballsPlugin/Private/Metaballs.cpp:611-619 | With b[k] the energy of corner k, the eight ORs of distinct bits sum to VoxelCase (UE5 590-598) |
| MarchingCubes.CaseBit | Plugin/MetaballsPlugin/Source/MetaballsPlugin/Private/Metaballs.cpp:612-619 | Bit k of the case code is set iff corner k's energy exceeds the level, in both directions (UE5 591-598) |
| MarchingCubes.AboveLevelIsInterior | Plugin/MetaballsPlugin/Source/MetaballsPlugin/Private/Metaballs.cpp:576-582 | With level > 0 (m_fLevel = 100 at 117), a corner above the level is not on the grid boundary (UE5 554-560, 110) |
| MarchingCubes.NeighborsInRange | Plugin/MetaballsPlugin/Source/MetaballsPlugin/Private/Metaballs.cpp:489-510 | For well-formed tables, every face neighbour the mask of an in-range voxel's case selects is in range, so AddNeighbor never indexes outside the grid (UE5 464-487) |
| MarchingCubes.FullVoxelHasVoxelBelow | Plugin/MetaballsPlugin/Source/MetaballsPlugin/Private/Metaballs.cpp:435-438 | A voxel of case 255 has z >= 1, so the voxel below it, where the seed walk goes next, is in range (UE5 411-414) |
| MarchingCubes.FullColumnGrows | Plugin/MetaballsPlugin/Source/MetaballsPlugin/Private/Metaballs.cpp:426-439 | The column of case-255 voxels the seed walk has passed through grows by one at each z-- (UE5 402-415) |
| Emission.FreshSlots | Plugin/MetaballsPlugin/Source/MetaballsPlugin/Private/Metaballs.cpp:628-630 | Definition: EdgeIndices right after its memset to 0xFF, twelve slots each holding the sentinel 0xFFFF. EmitFresh and EmitCase are proved against it (UE5 607-608) |
| Emission.EmitBounds | Plugin/MetaballsPlugin/Source/MetaballsPlugin/Private/Metaballs.cpp:632-668 | The walk appends one index per list entry and at most one vertex per entry; every index is below the new vertex count, and every new vertex lies on the voxel and on an edge of the list (UE5 610-649) |
| Emission.EmitReferences | Plugin/MetaballsPlugin/Source/MetaballsPlugin/Private/Metaballs.cpp:638-663 | While the vertex count stays below 0xFFFF, index k names the vertex of edge es[k] of this voxel in the mesh after the walk (UE5 616-644) |
| Emission.FirstOccurrencesSpec | Plugin/MetaballsPlugin/Source/MetaballsPlugin/Private/Metaballs.cpp:638-661 | The edges given a vertex are exactly the distinct edges of the list not already in the table, each once (UE5 616-642) |
| Emission.EmitVertices | Plugin/MetaballsPlugin/Source/MetaballsPlugin/Private/Metaballs.cpp:638-661 | Below the 16-bit bound, the new vertices are the list's distinct edges not already in the table, one per edge, in first-occurrence order (UE5 616-642) |
| Emission.EmitFresh | Plugin/MetaballsPlugin/Source/MetaballsPlugin/Private/Metaballs.cpp:627-668 | From a fresh table with at most 0xFFFF - 12 vertices: one vertex per distinct edge, one index per entry, and index k names edge es[k]'s vertex (UE5 606-649) |
| Emission.EmitWrapsAtShortRange | Plugin/MetaballsPlugin/Source/MetaballsPlugin/Private/Metaballs.cpp:640 | As written: with 65536 vertices, the stored slot value wraps to 0 and the appended index names vertex 0, not the new one (UE5 621) |
| Emission.EmitDuplicatesAtSentinel | Plugin/MetaballsPlugin/Source/MetaballsPlugin/Private/Metaballs.cpp:638-640 | As written: with 65535 vertices, the stored index equals the sentinel, so an edge met twice in one voxel gets two vertices (UE5 616-621) |
| OpenList.Offered | Plugin/MetaballsPlugin/Source/MetaballsPlugin/Private/Metaballs.cpp:493-509 | The neighbours AddNeighborsToList offers are exactly those across faces whose mask bit is set (bit 0 +x, 1 -x, 2 +y, 3 -y, 4 +z, 5 -z) (UE5 470-486) |
| OpenList.OfferFace | Plugin/MetaballsPlugin/Source/MetaballsPlugin/Private/Metaballs.cpp:493-509 | The six tests in order: face f's neighbour is offered after faces 0..f-1 iff bit f is set (UE5 470-486) |
| OpenList.OfferPreservesValid | Plugin/MetaballsPlugin/Source/MetaballsPlugin/Private/Metaballs.cpp:513-538 | A guarded push keeps the worklist valid: listed voxels are in range, marked in-list and distinct, and every in-list voxel is listed (UE5 490-516) |
| OpenList.OfferAllPreservesValid | Plugin/MetaballsPlugin/Source/MetaballsPlugin/Private/Metaballs.cpp:489-510 | Offering a sequence of neighbours keeps the worklist valid (UE5 464-487) |
| OpenList.OfferAllMonotone | Plugin/MetaballsPlugin/Source/MetaballsPlugin/Private/Metaballs.cpp:513-538 | Offering only appends to the list and never changes a computed or in-list status; an unvisited voxel becomes at most in-list (UE5 490-516) |
| OpenList.OfferAllCovers | Plugin/MetaballsPlugin/Source/MetaballsPlugin/Private/Metaballs.cpp:513-538 | After offering, every offered voxel is computed or in the list (UE5 490-516) |
| OpenList.OfferAllPushes | Plugin/MetaballsPlugin/Source/MetaballsPlugin/Private/Metaballs.cpp:517-537 | The voxels appended are exactly the offered voxels that were unvisited (UE5 496-515) |
| OpenList.PopPreservesValid | Plugin/MetaballsPlugin/Source/MetaballsPlugin/Private/Metaballs.cpp:446-453 | Taking the top voxel and marking it computed leaves a valid worklist of the rest (UE5 422-429) |
| OpenList.EmptyListNoInList | Plugin/MetaballsPlugin/Source/MetaballsPlugin/Private/Metaballs.cpp:446 | Once the count reaches 0, no voxel is marked in-list (UE5 422) |
| OpenList.MarkComputedKeepsClosed | Plugin/MetaballsPlugin/Source/MetaballsPlugin/Private/Metaballs.cpp:670 | Marking a voxel computed only advances the statuses and keeps the flood's invariant except at that voxel (and fully, for case 255) (UE5 651) |
| OpenList.OfferClosesVoxel | Plugin/MetaballsPlugin/Source/MetaballsPlugin/Private/Metaballs.cpp:444 | After AddNeighborsToList on the voxel just computed, the selected neighbours of every computed voxel not of case 255 are reached (UE5 420) |
| OpenList.OfferedReached | Plugin/MetaballsPlugin/Source/MetaballsPlugin/Private/Metaballs.cpp:489-510 | After AddNeighborsToList, every neighbour the mask selects is computed or in the list (UE5 464-487) |
| OpenList.AllComputedStep | Plugin/MetaballsPlugin/Source/MetaballsPlugin/Private/Metaballs.cpp:417-458 | Seeds already computed stay computed, and the blob just traced joins them (UE5 393-434) |
| OpenList.ClearedWorklist | Plugin/MetaballsPlugin/Source/MetaballsPlugin/Private/Metaballs.cpp:413-415 | After the memsets, the empty list is valid and the flood invariant holds trivially (UE5 390-391) |
| OpenList.ClosedAndDrainedIsComplete | Plugin/MetaballsPlugin/Source/MetaballsPlugin/Private/Metaballs.cpp:446-456 | When the drain loop ends, every flagged neighbour of every computed voxel other than case 255 is computed: the flood is complete (UE5 422-432) |
| Bookkeeping.Triples | Plugin/MetaballsPlugin/Source/MetaballsPlugin/Private/Metaballs.cpp:531-533 | Definition: the first m triples of the int buffer, read as voxel coordinates. The open-list methods are specified through it (UE5 509-511) |
| Bookkeeping.TriplesPush | Plugin/MetaballsPlugin/Source/MetaballsPlugin/Private/Metaballs.cpp:531-533 | Writing x, y, z at slot m appends that voxel to the first m triples (UE5 509-511) |
| Bookkeeping.TriangulateOne | Plugin/MetaballsPlugin/Source/MetaballsPlugin/Private/Metaballs.cpp:670 | Triangulating a voxel not yet computed keeps "each computed voxel triangulated exactly once" (UE5 651) |
| Bookkeeping.TriangulationsBounded | Plugin/MetaballsPlugin/Source/MetaballsPlugin/Private/Metaballs.cpp:417-458 | A pass triangulates at most N^3 voxels (UE5 393-434) |
| Bookkeeping.EvaluationsBounded | Plugin/MetaballsPlugin/Source/MetaballsPlugin/Private/Metaballs.cpp:584-590 | A pass calls the energy oracle at most (N+1)^3 times (UE5 562-567) |
| Bookkeeping.MarkComputedKeepsValid | Plugin/MetaballsPlugin/Source/MetaballsPlugin/Private/Metaballs.cpp:670 | Marking a voxel that is not in the list computed keeps the worklist valid (UE5 651) |
| Bookkeeping.OfferAllKeepsComputed | Plugin/MetaballsPlugin/Source/MetaballsPlugin/Private/Metaballs.cpp:513-518 | Offering never computes or un-computes a voxel (UE5 490-497) |
| Bookkeeping.CloseNeighbours | Plugin/MetaballsPlugin/Source/MetaballsPlugin/Private/Metaballs.cpp:455 | AddNeighborsToList after ComputeGridVoxel restores the flood invariant without touching the triangulation count (UE5 431) |
| Bookkeeping.FieldSamples | Plugin/MetaballsPlugin/Source/MetaballsPlugin/Private/Metaballs.cpp:576-588 | Definition: the energy each grid point should hold, 0 on the boundary and the oracle's value inside. CacheMatches and ComputeGridPointEnergy are proved against it (UE5 554-565) |
| Bookkeeping.CornersTouched | Plugin/MetaballsPlugin/Source/MetaballsPlugin/Private/Metaballs.cpp:602-609 | Sampling corners 0..k-1 changes no energy or status outside those corners' points and leaves each of them computed (UE5 581-588) |
| Bookkeeping.TraceIndicesSpec | Plugin/MetaballsPlugin/Source/MetaballsPlugin/Private/Metaballs.cpp:670 | Every traced voxel's index is among the trace's indices, of which there are at most one per entry (UE5 651) |
| Bookkeeping.TraceIndicesOnly | Plugin/MetaballsPlugin/Source/MetaballsPlugin/Private/Metaballs.cpp:670 | Every index among the trace's indices is that of some traced voxel (UE5 651) |
| Bookkeeping.TraceCount | Plugin/MetaballsPlugin/Source/MetaballsPlugin/Private/Metaballs.cpp:670 | A trace of distinct in-range voxels has exactly one index per entry (UE5 651) |
| Bookkeeping.TraceCovers | Plugin/MetaballsPlugin/Source/MetaballsPlugin/Private/Metaballs.cpp:417-458 | A trace of distinct voxels, all in the set s and as many as s has, has exactly the indices of s (UE5 393-434) |
| Bookkeeping.VoxelEmission | Plugin/MetaballsPlugin/Source/MetaballsPlugin/Private/Metaballs.cpp:627-668 | What ComputeGridVoxel appends for a voxel: one index per entry of its case's list, each naming an earlier or a new vertex, every new vertex on that voxel (UE5 606-649) |
| Bookkeeping.MeshOfBounds | Plugin/MetaballsPlugin/Source/MetaballsPlugin/Private/Metaballs.cpp:394-461 | The mesh of a trace has every triangle index naming one of its vertices, and every vertex on a traced voxel, even when the 16-bit slots wrap (UE5 371-437) |
| Bookkeeping.PiecesFitStep | Plugin/MetaballsPlugin/Source/MetaballsPlugin/Private/Metaballs.cpp:632-668 | Appending a voxel's emission, numbered after the vertices so far, extends the record of what each call appended (UE5 610-649) |
| Bookkeeping.MeshTracedStep | Plugin/MetaballsPlugin/Source/MetaballsPlugin/Private/Metaballs.cpp:596-674 | One ComputeGridVoxel call on a voxel not yet triangulated keeps the mesh equal to the concatenation of the recorded emissions, with the trace extended by that voxel (UE5 573-655) |
| Bookkeeping.PiecesMesh | Plugin/MetaballsPlugin/Source/MetaballsPlugin/Private/Metaballs.cpp:417-458 | The concatenation of the recorded emissions is MeshOf of the trace (UE5 393-434) |
| Bookkeeping.TracedPass | Plugin/MetaballsPlugin/Source/MetaballsPlugin/Private/Metaballs.cpp:417-458 | At the end of a pass, the trace's indices are exactly the triangulated voxels and the mesh is MeshOf of the trace (UE5 393-434) |
| Bookkeeping.ReachedTrace | Plugin/MetaballsPlugin/Source/MetaballsPlugin/Private/Metaballs.cpp:426-438 | Tracing a voxel on a seed's column, or a flagged neighbour of a traced voxel, keeps the trace and the list connected to the seeds (UE5 402-414) |
| Bookkeeping.ReachedPop | Plugin/MetaballsPlugin/Source/MetaballsPlugin/Private/Metaballs.cpp:448-453 | Popping the top of the list and triangulating it keeps the pass connected: that voxel was a flagged neighbour of a traced one (UE5 424-429) |
| Bookkeeping.ReachedOffer | Plugin/MetaballsPlugin/Source/MetaballsPlugin/Private/Metaballs.cpp:489-538 | AddNeighborsToList on a traced voxel pushes only voxels its mask flags, so the list stays connected to the seeds (UE5 464-516) |
| Metaballs.MetaballActor.constructor | Plugin/MetaballsPlugin/Source/MetaballsPlugin/Private/Metaballs.cpp:111-148 | PostInitializeComponents: an empty mesh, an empty open-voxel buffer of capacity MAX_OPEN_VOXELS, and grid arrays for the initial resolution (UE5 104-136) |
| Metaballs.MetaballActor.SetGridSize | Plugin/MetaballsPlugin/Source/MetaballsPlugin/Private/Metaballs.cpp:686-703 | Records N and allocates fresh arrays of (N+1)^3 energies, (N+1)^3 point statuses and N^3 voxel statuses (UE5 667-684) |
| Metaballs.MetaballActor.SetNumBalls | Plugin/MetaballsPlugin/Source/MetaballsPlugin/Private/Metaballs.cpp:793-796 | The blob count becomes the value clamped to [0, MAX_METABALLS] (UE5 752-755) |
| Metaballs.MetaballActor.SetGridSteps | Plugin/MetaballsPlugin/Source/MetaballsPlugin/Private/Metaballs.cpp:812-817 | The resolution becomes the value clamped to [MIN_GRID_STEPS, MAX_GRID_STEPS], the grid arrays are reallocated, and the open-voxel buffer is kept (UE5 762-766) |
| Metaballs.MetaballActor.SetGridPointComputed | Plugin/MetaballsPlugin/Source/MetaballsPlugin/Private/Metaballs.cpp:720-723 | Status 1 at GetIndex of the point, nothing else changed (UE5 701-704) |
| Metaballs.MetaballActor.SetGridVoxelComputed | Plugin/MetaballsPlugin/Source/MetaballsPlugin/Private/Metaballs.cpp:725-728 | Status 1 (computed) at GetIndexNoAdd of the voxel, nothing else changed (UE5 706-709) |
| Metaballs.MetaballActor.SetGridVoxelInList | Plugin/MetaballsPlugin/Source/MetaballsPlugin/Private/Metaballs.cpp:730-733 | Status 2 (in list) at GetIndexNoAdd of the voxel, nothing else changed (UE5 711-714) |
| Metaballs.MetaballActor.ComputeGridPointEnergy | Plugin/MetaballsPlugin/Source/MetaballsPlugin/Private/Metaballs.cpp:565-593 | Returns the field's value at the point, 0 on the boundary. A computed point returns its cached value and changes nothing. Otherwise the point is stored and marked computed, and only an interior point calls the oracle (UE5 541-570) |
| Metaballs.MetaballActor.ClassifyVoxel | Plugin/MetaballsPlugin/Source/MetaballsPlugin/Private/Metaballs.cpp:600-619 | The case code of the voxel; afterwards exactly its eight corner points are computed and hold their energies, and no other entry or evaluation changed (UE5 579-598) |
| Metaballs.MetaballActor.SampleCorners | Plugin/MetaballsPlugin/Source/MetaballsPlugin/Private/Metaballs.cpp:602-609 | b[k] is the energy of corner k in table order, and only the eight corner points are touched (UE5 581-588) |
| Metaballs.MetaballActor.SampleCorner | Plugin/MetaballsPlugin/Source/MetaballsPlugin/Private/Metaballs.cpp:602-609 | One corner's energy; the cache then holds corners 0..k and nothing else changed (UE5 581-588) |
| Metaballs.MetaballActor.EmitEdge | Plugin/MetaballsPlugin/Source/MetaballsPlugin/Private/Metaballs.cpp:634-667 | One turn of the edge loop: the appended vertices and indices plus those of the rest of the walk equal those of the whole walk from the state before the turn (UE5 612-648) |
| Metaballs.MetaballActor.EmitCase | Plugin/MetaballsPlugin/Source/MetaballsPlugin/Private/Metaballs.cpp:627-668 | The edge loop appends exactly the emission of the case's list from a fresh table: one index per entry before -1 (UE5 606-649) |
| Metaballs.MetaballActor.ComputeGridVoxel | Plugin/MetaballsPlugin/Source/MetaballsPlugin/Private/Metaballs.cpp:596-674 | Returns the case code. It appends the edge walk's vertices and indices and marks the voxel computed. It changes only the eight corner points of the cache, and records one triangulation of this voxel (UE5 573-655) |
| Metaballs.MetaballActor.TriangulateCase | Plugin/MetaballsPlugin/Source/MetaballsPlugin/Private/Metaballs.cpp:627-670 | The edge walk for case c followed by marking the voxel computed, counted and traced once (UE5 606-651) |
| Metaballs.MetaballActor.MarkTriangulated | Plugin/MetaballsPlugin/Source/MetaballsPlugin/Private/Metaballs.cpp:670 | The voxel's status becomes computed, and the call is recorded once in the trace (UE5 651) |
| Metaballs.MetaballActor.GrowOpenVoxels | Plugin/MetaballsPlugin/Source/MetaballsPlugin/Private/Metaballs.cpp:521-529 | A full buffer doubles in capacity into a fresh array holding the same voxels (UE5 500-507) |
| Metaballs.MetaballActor.PushOpenVoxel | Plugin/MetaballsPlugin/Source/MetaballsPlugin/Private/Metaballs.cpp:521-537 | The voxel is appended to the open list; the capacity doubles exactly when the buffer was full (UE5 500-515) |
| Metaballs.MetaballActor.Visit | Plugin/MetaballsPlugin/Source/MetaballsPlugin/Private/Metaballs.cpp:596-674 | ComputeGridVoxel within a pass on a voxel not yet computed: the bookkeeping, the mesh-trace agreement and the flood invariant (except at this voxel) are kept (UE5 573-655) |
| Metaballs.MetaballActor.AddNeighbor | Plugin/MetaballsPlugin/Source/MetaballsPlugin/Private/Metaballs.cpp:513-538 | The open list and statuses become exactly the guarded push of the voxel: skipped if computed or in list, otherwise pushed and marked in-list, doubling a full buffer (UE5 490-516) |
| Metaballs.MetaballActor.AddFaceNeighbor | Plugin/MetaballsPlugin/Source/MetaballsPlugin/Private/Metaballs.cpp:493-494 | One of the six mask tests: the state becomes that of offering the neighbours of faces 0..f (UE5 470-471) |
| Metaballs.MetaballActor.AddNeighborsToList | Plugin/MetaballsPlugin/Source/MetaballsPlugin/Private/Metaballs.cpp:489-510 | The open list and statuses become exactly those of offering, in face order, the neighbours the mask selects (UE5 464-487) |
| Metaballs.MetaballActor.WalkStep | Plugin/MetaballsPlugin/Source/MetaballsPlugin/Private/Metaballs.cpp:428-438 | One step of the seed walk on a voxel of a seed's column: the voxel is triangulated and traced, the pass stays connected to its seeds, and on case 255 the voxel below is in range and the walk may continue (UE5 404-414) |
| Metaballs.MetaballActor.SeedStep | Plugin/MetaballsPlugin/Source/MetaballsPlugin/Private/Metaballs.cpp:428-438 | One step of the seed walk on a voxel not yet computed: it returns the voxel's case and appends exactly that voxel to the trace; it continues below exactly on case 255, else stops with the voxel traced, the pass connected to its seeds and the flood invariant kept except at this voxel (UE5 404-414) |
| Metaballs.MetaballActor.SeedWalk | Plugin/MetaballsPlugin/Source/MetaballsPlugin/Private/Metaballs.cpp:423-442 | The downward walk from seed voxel i stays in range and terminates; it stops at a computed voxel (found) or at the first voxel of case other than 255, having passed only case-255 voxels; the trace afterwards is the old trace followed by the column from z0 down to the stopping voxel, that voxel excluded when found, and a found voxel is computed (UE5 399-418) |
| Bookkeeping.Column | Plugin/MetaballsPlugin/Source/MetaballsPlugin/Private/Metaballs.cpp:426-438 | The voxels of the walk down column (x, y) from hi to lo number hi - lo + 1, or none when lo > hi (UE5 402-414) |
| Bookkeeping.ColumnAt | Plugin/MetaballsPlugin/Source/MetaballsPlugin/Private/Metaballs.cpp:426-438 | The k-th voxel of the walk down column (x, y) from hi is (x, y, hi - k): the walk visits the column top-down one voxel at a time (UE5 402-414) |
| Bookkeeping.ColumnStep | Plugin/MetaballsPlugin/Source/MetaballsPlugin/Private/Metaballs.cpp:438 | Appending the voxel at z to a trace that holds the walk from z0 down to z + 1 gives the walk from z0 down to z, so each z-- extends the walked column by exactly one voxel (UE5 414) |
| Metaballs.MetaballActor.OfferNeighbors | Plugin/MetaballsPlugin/Source/MetaballsPlugin/Private/Metaballs.cpp:444 | AddNeighborsToList for a computed voxel's case: its selected neighbours are in range and offered (UE5 420) |
| Metaballs.MetaballActor.CloseVoxel | Plugin/MetaballsPlugin/Source/MetaballsPlugin/Private/Metaballs.cpp:455 | AddNeighborsToList on a traced voxel after ComputeGridVoxel restores the pass invariant, connection to the seeds included (UE5 431) |
| Metaballs.MetaballActor.PopOpenVoxel | Plugin/MetaballsPlugin/Source/MetaballsPlugin/Private/Metaballs.cpp:448-451 | Decrementing the count yields the top voxel and leaves the rest of the list (UE5 424-427) |
| Metaballs.MetaballActor.PopReached | Plugin/MetaballsPlugin/Source/MetaballsPlugin/Private/Metaballs.cpp:448-451 | The pop in a connected pass: the popped voxel, once traced, leaves the trace and the shorter list connected to the seeds (UE5 424-427) |
| Metaballs.MetaballActor.DrainStep | Plugin/MetaballsPlugin/Source/MetaballsPlugin/Private/Metaballs.cpp:447-456 | One turn of the drain loop keeps the pass invariant and triangulates one more voxel (UE5 423-432) |
| Metaballs.MetaballActor.VisitTop | Plugin/MetaballsPlugin/Source/MetaballsPlugin/Private/Metaballs.cpp:448-453 | The pop and ComputeGridVoxel of one drain turn: the voxel is computed, traced and connected, its case returned, and the flood invariant kept except at it (UE5 424-429) |
| Metaballs.MetaballActor.VisitPopped | Plugin/MetaballsPlugin/Source/MetaballsPlugin/Private/Metaballs.cpp:448-453 | ComputeGridVoxel on the voxel just popped: the rest of the list stays valid, the voxel is computed and traced, and the pass stays connected to its seeds (UE5 424-429) |
| Metaballs.MetaballActor.DrainOpenVoxels | Plugin/MetaballsPlugin/Source/MetaballsPlugin/Private/Metaballs.cpp:446-456 | The drain loop terminates with the list empty and the pass invariant kept (UE5 422-432) |
| Metaballs.MetaballActor.TraceBall | Plugin/MetaballsPlugin/Source/MetaballsPlugin/Private/Metaballs.cpp:419-457 | One blob: seed walk from its voxel, then, unless it met a computed voxel, a flood; the seed voxel ends computed, the list empty and the pass connected to its seeds (UE5 395-433) |
| Metaballs.MetaballActor.FloodFrom | Plugin/MetaballsPlugin/Source/MetaballsPlugin/Private/Metaballs.cpp:444-456 | From the voxel where the walk stopped: its neighbours are offered and the list is drained (UE5 420-432) |
| Metaballs.MetaballActor.ClearMesh | Plugin/MetaballsPlugin/Source/MetaballsPlugin/Private/Metaballs.cpp:399-408 | The mesh arrays and both counters are emptied (UE5 377-386) |
| Metaballs.MetaballActor.ClearStatusGrids | Plugin/MetaballsPlugin/Source/MetaballsPlugin/Private/Metaballs.cpp:413-415 | Every grid point is not computed and every voxel unvisited (UE5 390-391) |
| Metaballs.MetaballActor.SetBlobs | Plugin/MetaballsPlugin/Source/MetaballsPlugin/Private/Metaballs.cpp:540-562 | The blobs of this pass: their energy field (what ComputeEnergy evaluates) and their voxels, with the expected grid energies recomputed and the ghost accounting reset (UE5 518-538) |
| Metaballs.MetaballActor.BeginPass | Plugin/MetaballsPlugin/Source/MetaballsPlugin/Private/Metaballs.cpp:399-415 | The reset at the head of Render: empty mesh, cleared statuses, nothing counted, the blobs' field and voxels recorded, and the pass invariant holds (UE5 377-391) |
| Metaballs.MetaballActor.PassStarts | Plugin/MetaballsPlugin/Source/MetaballsPlugin/Private/Metaballs.cpp:399-415 | The state the reset leaves is one a pass can start from (UE5 377-391) |
| Metaballs.MetaballActor.TraceBalls | Plugin/MetaballsPlugin/Source/MetaballsPlugin/Private/Metaballs.cpp:417-458 | The loop over the blobs keeps the pass invariant, connection to the seeds included, and every seed voxel ends computed (UE5 393-434) |
| Metaballs.MetaballActor.PassComplete | Plugin/MetaballsPlugin/Source/MetaballsPlugin/Private/Metaballs.cpp:446-458 | At the end of a pass: no voxel in the list, the flood complete, at most N^3 triangulations and (N+1)^3 oracle calls, each computed voxel triangulated exactly once, the mesh equal to MeshOf of the trace, and every traced voxel on a seed's column or a flagged neighbour of an earlier one (UE5 422-434) |
| Metaballs.MetaballActor.Render | Plugin/MetaballsPlugin/Source/MetaballsPlugin/Private/Metaballs.cpp:394-461 | One pass for field f and seed voxels seeds. Every seed voxel ends computed, the list is empty and the flood complete. Each voxel is triangulated at most once, and the traced voxels are exactly the computed ones. Each traced voxel lies on a seed's case-255 column or is a mask-flagged neighbour of a voxel traced before it, so nothing unconnected to a seed is computed. The mesh is MeshOf of the trace, built from empty (UE5 371-437) |

## Left out

- Floating point. `ComputeEnergy` (the inverse-square sum with its 1e-4 clamp) is replaced by the `Field` oracle. `ComputeNormal`, the interpolation `t`, the vertex positions, the X/Z axis swap, `m_Scale` and `m_fVoxelSize` are replaced by the abstract `MeshVertex`, `Normal` and `TexCoord`. `ConvertGridPointToWorldCoordinate` and `ConvertWorldCoordinateToGridPoint` are left out too.
- The contents of `m_CubeEdges` and `m_CubeVertices` are not modelled; they only feed the interpolation. `m_CubeTriangles` and `m_CubeNeighbors` are the `CubeTables` parameter under `WellFormed`, because `CMarchingCubes.h` (its tables and `BuildTables`) is not part of this model.
- Metaballs.MetaballActor.Render: requires every seed voxel in range. The C++ converts each blob's position with `ConvertWorldCoordinateToGridPoint` (Plugin/MetaballsPlugin/Source/MetaballsPlugin/Private/Metaballs.cpp:681-684), which yields N, not a voxel index, for a blob at world coordinate 1. `SetBallTransform` (780-791) can place a blob there. That case is not modelled.
- Metaballs.MetaballActor.Render: requires `numOpenVoxels == 0` and one seed per blob (`|seeds| == numBalls`). Every pass ends with the list drained, so the count is 0 between passes, and the constructor starts it at 0.
- Metaballs.MetaballActor.constructor: requires `LimitsValid`, i.e. MAX_OPEN_VOXELS >= 1 and 1 <= MIN_GRID_STEPS <= MAX_GRID_STEPS. With a capacity of 0 the doubling in `AddNeighbor` never grows the buffer. The header constants are the `Limits` parameter; their values are not part of this model.
- Metaballs.MetaballActor.SetGridSize: requires a resolution of at least 1. Its callers pass clamped values, and N = 0 would divide by zero in `m_fVoxelSize`.
- C `int` overflow of the index and capacity arithmetic (`GetIndex`, `m_nMaxOpenVoxels *= 2`, `m_nNumVertices`) is not modelled; integers are unbounded. The UE5 copy's `FMath::Pow` sizes are taken as the exact cubes.
- The 16-bit `EdgeIndices` slots are modelled as written: the stored vertex index is the count modulo 65536. The model keeps that wrap rather than requiring fewer than 0xFFFF vertices, so `Render`'s mesh is exactly what the C++ builds. The clean per-voxel properties (`EmitReferences`, `EmitVertices`, `EmitFresh`) are proved below that bound; see Findings.
- Metaballs.MetaballActor.ComputeGridVoxel: states the oracle calls as a subset of the eight corner points (those not yet computed and not on the boundary), not as that exact set; the same holds for `ClassifyVoxel` and `SampleCorners`.
- Metaballs.MetaballActor.SampleCorners: the eight calls `b[0]` .. `b[7]` are written as a loop over the corner order rather than as eight statements.
- Blob motion (`Update`), random initialisation (`InitBalls`), `Tick`, `BeginPlay`, the constructor's components and `PostEditChangeProperty` are engine plumbing or floating-point kinematics. The blobs enter only through the field and seeds given to `Render`.
- `ClearAllMeshSections`, `CreateMeshSection`, `m_tangents` and `m_vertexColors` upload to the renderer and are not modelled.
- `SetScale`, `SetAutoLimitX/Y/Z`, `CheckLimit`, `SetBallTransform`, `SetRandomSeed` and `SetAutoMode` set floats or flags that the extractor does not read.
- `new`/`delete` are replaced by Dafny arrays; this includes the scalar `delete` on arrays at Plugin/MetaballsPlugin/Source/MetaballsPlugin/Private/Metaballs.cpp:688-695.
- The status queries `IsGridPointComputed`, `IsGridVoxelComputed` and `IsGridVoxelInList` (705-718) are predicates on the arrays, used in the methods' conditions; they have no contract of their own.

## Findings

| source | as written | input that shows it | evidently intended | confidence | as-written member | corrected member |
|---|---|---|---|---|---|---|
| Plugin/MetaballsPlugin/Source/MetaballsPlugin/Private/Metaballs.cpp:628 | `EdgeIndices` is `unsigned short`, so `EdgeIndices[nEdge] = m_nNumVertices` (640; UE5 607, 621) stores the count modulo 65536. 0xFFFF doubles as "no vertex yet", and the appended index (663; UE5 644) is the truncated value | 65536 vertices already emitted: the new vertex is appended, but the index names vertex 0. At 65535 vertices, the stored value equals the sentinel, so an edge repeated in the voxel gets a second vertex | every appended index names the vertex of its edge in this voxel | not executed; high (the types make it certain once a frame passes 65535 vertices) | Emission.EmitWrapsAtShortRange, Emission.EmitDuplicatesAtSentinel | Emission.EmitFresh |
