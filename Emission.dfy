/** What ComputeGridVoxel appends to the mesh for one voxel: it walks the case's edge list,
    giving each edge a vertex the first time the edge appears (recorded in a 12-slot table of
    16-bit vertex indices with 0xFFFF meaning "none yet") and appending one triangle index per
    list entry. Vertices are abstract: the crossing point on a given edge of a given voxel. */
module Emission {
  import opened Grid
  import opened MarchingCubes

  /** The "no vertex yet" value of an EdgeIndices slot (the table is memset to 0xFF). */
  const Sentinel: int := 0xFFFF

  /** unsigned short holds values modulo 2^16. */
  const ShortRange: int := 0x1_0000

  /** The vertex where the isosurface crosses edge `edge` of voxel `voxel`. */
  datatype MeshVertex = MeshVertex(voxel: Coord, edge: int)

  /** The normal ComputeNormal computes at a vertex, and the UV derived from that normal. */
  datatype Normal = FieldNormal(at: MeshVertex)
  datatype TexCoord = FromNormal(normal: Normal)

  /** Triangle indices and new vertices appended for one voxel. */
  datatype Emission = Emission(indices: seq<int>, vertices: seq<MeshVertex>)

  predicate AllEdges(es: seq<int>) {
    forall k :: 0 <= k < |es| ==> IsEdge(es[k])
  }

  /** The EdgeIndices table right after the memset: every slot holds the sentinel. */
  function FreshSlots(): (s: seq<int>)
    ensures |s| == 12 && forall e :: 0 <= e < 12 ==> s[e] == Sentinel
  {
    seq(12, _ => Sentinel)
  }

  /** The ComputeGridVoxel edge loop over the remaining edges es, from slot table `slots` with
      `count` vertices emitted so far. A new vertex's index is stored into its slot truncated to
      16 bits, as the unsigned short EdgeIndices array of AMetaballs::ComputeGridVoxel holds it. */
  function Emit(v: Coord, es: seq<int>, slots: seq<int>, count: int): Emission
    requires AllEdges(es) && |slots| == 12
    decreases |es|
  {
    if es == [] then Emission([], [])
    else
      var e := es[0];
      if slots[e] == Sentinel then
        var stored := count % ShortRange;
        var rest := Emit(v, es[1..], slots[e := stored], count + 1);
        Emission([stored] + rest.indices, [MeshVertex(v, e)] + rest.vertices)
      else
        var rest := Emit(v, es[1..], slots, count);
        Emission([slots[e]] + rest.indices, rest.vertices)
  }

  /** Number of slots still holding the sentinel. */
  function SentinelCount(s: seq<int>): (r: nat)
    ensures r <= |s|
  {
    if s == [] then 0 else (if s[0] == Sentinel then 1 else 0) + SentinelCount(s[1..])
  }

  lemma {:induction false} SentinelCountUpdate(s: seq<int>, i: int, x: int)
    requires 0 <= i < |s| && s[i] == Sentinel && x != Sentinel
    ensures SentinelCount(s[i := x]) == SentinelCount(s) - 1
  {
    if i > 0 {
      SentinelCountUpdate(s[1..], i - 1, x);
      assert s[i := x][1..] == s[1..][i - 1 := x];
    }
  }

  lemma {:induction false} SentinelCountPositive(s: seq<int>, i: int)
    requires 0 <= i < |s| && s[i] == Sentinel
    ensures SentinelCount(s) >= 1
  {
    if i > 0 {
      SentinelCountPositive(s[1..], i - 1);
    }
  }

  /** Whatever the vertex count, one triangle index is appended per edge entry, every appended
      index names a vertex that exists once the voxel is done, and every new vertex lies on an
      edge of the list of this voxel. Holds even when the 16-bit slots wrap. */
  lemma {:induction false} EmitBounds(v: Coord, es: seq<int>, slots: seq<int>, count: int)
    requires AllEdges(es) && |slots| == 12 && count >= 0
    requires forall e :: 0 <= e < 12 && slots[e] != Sentinel ==> 0 <= slots[e] < count
    ensures var r := Emit(v, es, slots, count);
      && |r.indices| == |es|
      && |r.vertices| <= |es|
      && (forall k :: 0 <= k < |es| ==> 0 <= r.indices[k] < count + |r.vertices|)
      && (forall j :: 0 <= j < |r.vertices| ==> r.vertices[j].voxel == v && r.vertices[j].edge in es)
    decreases |es|
  {
    if es != [] {
      var e := es[0];
      if slots[e] == Sentinel {
        EmitBounds(v, es[1..], slots[e := count % ShortRange], count + 1);
      } else {
        EmitBounds(v, es[1..], slots, count);
      }
    }
  }

  /** Slots already filled point into `mesh` at the vertex for their own edge of voxel v. */
  ghost predicate SlotsPointInto(v: Coord, slots: seq<int>, mesh: seq<MeshVertex>)
    requires |slots| == 12
  {
    forall e :: 0 <= e < 12 && slots[e] != Sentinel ==> 0 <= slots[e] < |mesh| && mesh[slots[e]] == MeshVertex(v, e)
  }

  /** Below the 16-bit limit every appended triangle index names the vertex on its own edge of
      this voxel, among the vertices emitted before (`mesh`) and the new ones. */
  lemma {:induction false} EmitReferences(v: Coord, es: seq<int>, slots: seq<int>, mesh: seq<MeshVertex>)
    requires AllEdges(es) && |slots| == 12
    requires |mesh| + SentinelCount(slots) <= Sentinel
    requires SlotsPointInto(v, slots, mesh)
    ensures var r := Emit(v, es, slots, |mesh|); var after := mesh + r.vertices;
      && |r.indices| == |es|
      && (forall k :: 0 <= k < |es| ==> 0 <= r.indices[k] < |after| && after[r.indices[k]] == MeshVertex(v, es[k]))
    decreases |es|
  {
    if es != [] {
      var e := es[0];
      var count := |mesh|;
      if slots[e] == Sentinel {
        SentinelCountPositive(slots, e);
        assert count % ShortRange == count;
        SentinelCountUpdate(slots, e, count);
        var mesh' := mesh + [MeshVertex(v, e)];
        EmitReferences(v, es[1..], slots[e := count], mesh');
        var rest := Emit(v, es[1..], slots[e := count], count + 1);
        assert mesh + ([MeshVertex(v, e)] + rest.vertices) == mesh' + rest.vertices;
      } else {
        EmitReferences(v, es[1..], slots, mesh);
      }
    }
  }

  /** The edges of es not in `seen`, each at its first occurrence, in list order. */
  function FirstOccurrences(es: seq<int>, seen: set<int>): seq<int>
    decreases |es|
  {
    if es == [] then []
    else if es[0] in seen then FirstOccurrences(es[1..], seen)
    else [es[0]] + FirstOccurrences(es[1..], seen + {es[0]})
  }

  /** The vertices on the given edges of voxel v. */
  function OnEdges(v: Coord, ds: seq<int>): (r: seq<MeshVertex>)
    ensures |r| == |ds| && forall k :: 0 <= k < |ds| ==> r[k] == MeshVertex(v, ds[k])
  {
    if ds == [] then [] else [MeshVertex(v, ds[0])] + OnEdges(v, ds[1..])
  }

  /** The edges whose slot already holds a vertex index. */
  function Filled(slots: seq<int>): set<int>
    requires |slots| == 12
  {
    set e | 0 <= e < 12 && slots[e] != Sentinel
  }

  /** FirstOccurrences lists every edge of es outside `seen` exactly once, and nothing else. */
  lemma {:induction false} FirstOccurrencesSpec(es: seq<int>, seen: set<int>)
    ensures var d := FirstOccurrences(es, seen);
      && (forall e :: e in d <==> e in es && e !in seen)
      && (forall j, l :: 0 <= j < l < |d| ==> d[j] != d[l])
    decreases |es|
  {
    if es != [] {
      var e := es[0];
      if e in seen {
        FirstOccurrencesSpec(es[1..], seen);
        assert forall x :: x in es <==> x == e || x in es[1..];
      } else {
        FirstOccurrencesSpec(es[1..], seen + {e});
        var d' := FirstOccurrences(es[1..], seen + {e});
        assert forall x :: x in es <==> x == e || x in es[1..];
        assert e !in d';
        var d := [e] + d';
        forall j, l | 0 <= j < l < |d| ensures d[j] != d[l] {
          if j == 0 {
            assert d[l] == d'[l - 1];
          } else {
            assert d[j] == d'[j - 1] && d[l] == d'[l - 1];
          }
        }
      }
    }
  }

  /** Below the 16-bit limit, the vertices emitted for a voxel are exactly those on the edges of
      its list that had no vertex yet, once each, in order of first occurrence. */
  lemma {:induction false} EmitVertices(v: Coord, es: seq<int>, slots: seq<int>, count: int)
    requires AllEdges(es) && |slots| == 12 && 0 <= count
    requires count + SentinelCount(slots) <= Sentinel
    ensures Emit(v, es, slots, count).vertices == OnEdges(v, FirstOccurrences(es, Filled(slots)))
    decreases |es|
  {
    if es != [] {
      var e := es[0];
      if slots[e] == Sentinel {
        SentinelCountPositive(slots, e);
        assert count % ShortRange == count;
        SentinelCountUpdate(slots, e, count);
        EmitVertices(v, es[1..], slots[e := count], count + 1);
        assert Filled(slots[e := count]) == Filled(slots) + {e};
        assert e !in Filled(slots);
      } else {
        EmitVertices(v, es[1..], slots, count);
        assert e in Filled(slots);
      }
    }
  }

  lemma {:induction false} AllSentinels(s: seq<int>)
    requires forall k :: 0 <= k < |s| ==> s[k] == Sentinel
    ensures SentinelCount(s) == |s|
  {
    if s != [] {
      AllSentinels(s[1..]);
    }
  }

  lemma FreshSlotsEmpty()
    ensures SentinelCount(FreshSlots()) == 12 && Filled(FreshSlots()) == {}
  {
    AllSentinels(FreshSlots());
    assert forall e :: e !in Filled(FreshSlots());
  }

  /** One voxel's emission from a fresh slot table, below the 16-bit limit: one triangle index
      per list entry, naming the vertex on that entry's edge; one new vertex per distinct edge
      of the list, in order of first occurrence. */
  lemma EmitFresh(v: Coord, es: seq<int>, mesh: seq<MeshVertex>)
    requires AllEdges(es) && |mesh| + 12 <= Sentinel
    ensures var r := Emit(v, es, FreshSlots(), |mesh|); var after := mesh + r.vertices;
      && r.vertices == OnEdges(v, FirstOccurrences(es, {}))
      && |r.indices| == |es|
      && (forall k :: 0 <= k < |es| ==> 0 <= r.indices[k] < |after| && after[r.indices[k]] == MeshVertex(v, es[k]))
  {
    FreshSlotsEmpty();
    EmitVertices(v, es, FreshSlots(), |mesh|);
    EmitReferences(v, es, FreshSlots(), mesh);
  }

  /** Once 65536 vertices exist, the index stored for a new vertex wraps to 0: the triangle
      index appended names vertex 0 while the vertex itself is appended at 65536. */
  lemma EmitWrapsAtShortRange(v: Coord, e: int)
    requires IsEdge(e)
    ensures Emit(v, [e], FreshSlots(), ShortRange) == Emission([0], [MeshVertex(v, e)])
  {
  }

  /** With exactly 0xFFFF vertices, the stored index equals the sentinel, so a repeated edge is
      given a second vertex instead of reusing the first. */
  lemma EmitDuplicatesAtSentinel(v: Coord, e: int)
    requires IsEdge(e)
    ensures Emit(v, [e, e], FreshSlots(), Sentinel).vertices == [MeshVertex(v, e), MeshVertex(v, e)]
  {
    var s1 := FreshSlots()[e := Sentinel % ShortRange];
    assert s1[e] == Sentinel;
    assert [e, e][1..] == [e];
    assert [e][1..] == [];
    assert Emit(v, [e], s1, ShortRange).vertices == [MeshVertex(v, e)];
    assert Emit(v, [e, e], FreshSlots(), Sentinel).vertices == [MeshVertex(v, e)] + Emit(v, [e], s1, Sentinel + 1).vertices;
  }
}
