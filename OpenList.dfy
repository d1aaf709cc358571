/** The tri-state voxel status and the open-voxel worklist of the flood fill, as values: the
    list of voxels waiting to be triangulated and the status of every voxel of the grid.
    AddNeighbor pushes a voxel unless it is computed or already in the list; AddNeighborsToList
    offers, in face order, the neighbours whose bit is set in the case's neighbour mask. */
module OpenList {
  import opened Grid
  import opened MarchingCubes

  /** The values 0, 1 and 2 of the voxel-status array. */
  datatype VoxelStatus = Unvisited | Computed | InList

  /** The pending voxels, in push order (the last one is popped first), and all voxel statuses. */
  datatype Worklist = Worklist(entries: seq<Coord>, status: seq<VoxelStatus>)

  /** The list holds in-range voxels, each once, and they are exactly the voxels whose status
      is InList. */
  ghost predicate WorklistValid(w: Worklist, n: int) {
    && n > 0 && |w.status| == VoxelCount(n)
    && (forall k :: 0 <= k < |w.entries| ==>
          InVoxelRange(w.entries[k], n) && w.status[VoxelIndex(w.entries[k], n)] == InList)
    && (forall j, k :: 0 <= j < k < |w.entries| ==> w.entries[j] != w.entries[k])
    && (forall i :: 0 <= i < |w.status| && w.status[i] == InList ==>
          exists k :: 0 <= k < |w.entries| && VoxelIndex(w.entries[k], n) == i)
  }

  /** AddNeighbor on voxel c: skipped when computed or in the list, pushed and marked otherwise. */
  function Offer(w: Worklist, c: Coord, n: int): (r: Worklist)
    requires n > 0 && |w.status| == VoxelCount(n) && InVoxelRange(c, n)
    ensures |r.status| == |w.status|
  {
    var i := VoxelIndex(c, n);
    if w.status[i] == Computed || w.status[i] == InList then w
    else Worklist(w.entries + [c], w.status[i := InList])
  }

  predicate AllInRange(cs: seq<Coord>, n: int) {
    forall k :: 0 <= k < |cs| ==> InVoxelRange(cs[k], n)
  }

  /** Offer each voxel of cs in turn. */
  function OfferAll(w: Worklist, cs: seq<Coord>, n: int): (r: Worklist)
    requires n > 0 && |w.status| == VoxelCount(n) && AllInRange(cs, n)
    ensures |r.status| == |w.status|
    decreases |cs|
  {
    if cs == [] then w else OfferAll(Offer(w, cs[0], n), cs[1..], n)
  }

  /** The neighbours offered for faces 0..f-1 of voxel v under mask m, in face order. */
  function OfferedUpTo(m: bv8, v: Coord, f: int): seq<Coord>
    requires 0 <= f <= 6
    decreases f
  {
    if f == 0 then []
    else OfferedUpTo(m, v, f - 1) + (if MaskBit(m, f - 1) then [Neighbor(v, f - 1)] else [])
  }

  /** The faces 0..f-1 offer exactly the neighbours whose mask bit is set. */
  lemma {:induction false} OfferedUpToMembers(m: bv8, v: Coord, f: int)
    requires 0 <= f <= 6
    ensures forall c :: c in OfferedUpTo(m, v, f) <==> exists g :: 0 <= g < f && MaskBit(m, g) && c == Neighbor(v, g)
    decreases f
  {
    if f > 0 {
      OfferedUpToMembers(m, v, f - 1);
      var before := OfferedUpTo(m, v, f - 1);
      var here := if MaskBit(m, f - 1) then [Neighbor(v, f - 1)] else [];
      assert forall c :: c in before + here <==> c in before || c in here;
    }
  }

  /** The neighbours AddNeighborsToList offers for voxel v with neighbour mask m: one per set
      bit, in face order. */
  function Offered(m: bv8, v: Coord): (cs: seq<Coord>)
    ensures forall c :: c in cs <==> exists f :: 0 <= f < 6 && MaskBit(m, f) && c == Neighbor(v, f)
  {
    OfferedUpToMembers(m, v, 6);
    OfferedUpTo(m, v, 6)
  }

  /** Offering one more voxel after a sequence is offering the extended sequence. */
  lemma {:induction false} OfferAllSnoc(w: Worklist, cs: seq<Coord>, c: Coord, n: int)
    requires n > 0 && |w.status| == VoxelCount(n) && AllInRange(cs, n) && InVoxelRange(c, n)
    ensures AllInRange(cs + [c], n)
    ensures OfferAll(w, cs + [c], n) == Offer(OfferAll(w, cs, n), c, n)
    decreases |cs|
  {
    if cs != [] {
      assert (cs + [c])[1..] == cs[1..] + [c];
      OfferAllSnoc(Offer(w, cs[0], n), cs[1..], c, n);
    }
  }

  /** Face f of AddNeighborsToList: the list offered so far grows by the face's neighbour when
      its bit is set. */
  lemma OfferFace(w: Worklist, m: bv8, v: Coord, f: int, n: int)
    requires n > 0 && |w.status| == VoxelCount(n) && 0 <= f < 6
    requires AllInRange(OfferedUpTo(m, v, f), n)
    requires MaskBit(m, f) ==> InVoxelRange(Neighbor(v, f), n)
    ensures AllInRange(OfferedUpTo(m, v, f + 1), n)
    ensures OfferAll(w, OfferedUpTo(m, v, f + 1), n) ==
      if MaskBit(m, f) then Offer(OfferAll(w, OfferedUpTo(m, v, f), n), Neighbor(v, f), n)
      else OfferAll(w, OfferedUpTo(m, v, f), n)
  {
    if MaskBit(m, f) {
      assert OfferedUpTo(m, v, f + 1) == OfferedUpTo(m, v, f) + [Neighbor(v, f)];
      OfferAllSnoc(w, OfferedUpTo(m, v, f), Neighbor(v, f), n);
    } else {
      assert OfferedUpTo(m, v, f + 1) == OfferedUpTo(m, v, f) + [];
      assert OfferedUpTo(m, v, f) + [] == OfferedUpTo(m, v, f);
    }
  }

  /** Offering keeps the list and the statuses consistent. */
  lemma OfferPreservesValid(w: Worklist, c: Coord, n: int)
    requires WorklistValid(w, n) && InVoxelRange(c, n)
    ensures WorklistValid(Offer(w, c, n), n)
  {
    var i := VoxelIndex(c, n);
    if w.status[i] == Unvisited {
      var r := Offer(w, c, n);
      assert c !in w.entries;
      forall k | 0 <= k < |r.entries|
        ensures InVoxelRange(r.entries[k], n) && r.status[VoxelIndex(r.entries[k], n)] == InList
      {
        if k < |w.entries| {
          var d := w.entries[k];
          GetIndexNoAddInjective(d, c, n);
        }
      }
      forall j | 0 <= j < |r.status| && r.status[j] == InList
        ensures exists k :: 0 <= k < |r.entries| && VoxelIndex(r.entries[k], n) == j
      {
        if j == i {
          assert r.entries[|w.entries|] == c;
        } else {
          var k :| 0 <= k < |w.entries| && VoxelIndex(w.entries[k], n) == j;
          assert r.entries[k] == w.entries[k];
        }
      }
    }
  }

  /** OfferAll keeps the list and the statuses consistent. */
  lemma {:induction false} OfferAllPreservesValid(w: Worklist, cs: seq<Coord>, n: int)
    requires WorklistValid(w, n) && AllInRange(cs, n)
    ensures WorklistValid(OfferAll(w, cs, n), n)
    decreases |cs|
  {
    if cs != [] {
      OfferPreservesValid(w, cs[0], n);
      OfferAllPreservesValid(Offer(w, cs[0], n), cs[1..], n);
    }
  }

  /** Offering only moves a status from Unvisited to InList, and only appends to the list:
      computed voxels and voxels already in the list are left alone. */
  lemma {:induction false} OfferAllMonotone(w: Worklist, cs: seq<Coord>, n: int)
    requires n > 0 && |w.status| == VoxelCount(n) && AllInRange(cs, n)
    ensures var r := OfferAll(w, cs, n);
      && |w.entries| <= |r.entries| && r.entries[..|w.entries|] == w.entries
      && (forall i :: 0 <= i < |w.status| && w.status[i] != Unvisited ==> r.status[i] == w.status[i])
      && (forall i :: 0 <= i < |w.status| && w.status[i] == Unvisited ==> r.status[i] in {Unvisited, InList})
    decreases |cs|
  {
    if cs != [] {
      var w' := Offer(w, cs[0], n);
      OfferAllMonotone(w', cs[1..], n);
      var r := OfferAll(w', cs[1..], n);
      assert r.entries[..|w'.entries|][..|w.entries|] == r.entries[..|w.entries|];
    }
  }

  /** Every voxel offered is afterwards computed or in the list. */
  lemma {:induction false} OfferAllCovers(w: Worklist, cs: seq<Coord>, n: int)
    requires n > 0 && |w.status| == VoxelCount(n) && AllInRange(cs, n)
    ensures var r := OfferAll(w, cs, n);
      forall k :: 0 <= k < |cs| ==> r.status[VoxelIndex(cs[k], n)] != Unvisited
    decreases |cs|
  {
    if cs != [] {
      var w' := Offer(w, cs[0], n);
      OfferAllCovers(w', cs[1..], n);
      OfferAllMonotone(w', cs[1..], n);
      var r := OfferAll(w', cs[1..], n);
      forall k | 0 <= k < |cs| ensures r.status[VoxelIndex(cs[k], n)] != Unvisited {
        if k > 0 {
          assert cs[k] == cs[1..][k - 1];
        }
      }
    }
  }

  /** The voxels pushed by OfferAll are exactly the offered voxels that were unvisited. */
  lemma {:induction false} OfferAllPushes(w: Worklist, cs: seq<Coord>, n: int)
    requires n > 0 && |w.status| == VoxelCount(n) && AllInRange(cs, n)
    ensures var r := OfferAll(w, cs, n);
      |w.entries| <= |r.entries| &&
      forall c :: c in r.entries[|w.entries|..] <==> c in cs && w.status[VoxelIndex(c, n)] == Unvisited
    decreases |cs|
  {
    if cs != [] {
      var c0 := cs[0];
      var i0 := VoxelIndex(c0, n);
      var w' := Offer(w, c0, n);
      var r := OfferAll(w', cs[1..], n);
      OfferAllPushes(w', cs[1..], n);
      OfferAllMonotone(w', cs[1..], n);
      var pushed := r.entries[|w.entries|..];
      var later := r.entries[|w'.entries|..];
      if w.status[i0] == Unvisited {
        assert pushed == [c0] + later;
        forall c ensures c in pushed <==> c in cs && w.status[VoxelIndex(c, n)] == Unvisited {
          if c == c0 {
            assert c in pushed && c in cs;
          } else {
            assert c in cs <==> c in cs[1..];
            if c in cs[1..] {
              GetIndexNoAddInjective(c, c0, n);
              assert w'.status[VoxelIndex(c, n)] == w.status[VoxelIndex(c, n)];
            }
          }
        }
      } else {
        assert w' == w;
        forall c ensures c in pushed <==> c in cs && w.status[VoxelIndex(c, n)] == Unvisited {
          assert c in cs <==> c == c0 || c in cs[1..];
        }
      }
    }
  }

  /** Popping the last entry and marking it computed keeps the list and the statuses consistent. */
  lemma PopPreservesValid(w: Worklist, n: int)
    requires WorklistValid(w, n) && |w.entries| > 0
    ensures var last := w.entries[|w.entries| - 1];
      WorklistValid(Worklist(w.entries[..|w.entries| - 1], w.status[VoxelIndex(last, n) := Computed]), n)
  {
    var m := |w.entries| - 1;
    var last := w.entries[m];
    var il := VoxelIndex(last, n);
    var r := Worklist(w.entries[..m], w.status[il := Computed]);
    forall k | 0 <= k < |r.entries|
      ensures InVoxelRange(r.entries[k], n) && r.status[VoxelIndex(r.entries[k], n)] == InList
    {
      GetIndexNoAddInjective(w.entries[k], last, n);
    }
    forall j | 0 <= j < |r.status| && r.status[j] == InList
      ensures exists k :: 0 <= k < |r.entries| && VoxelIndex(r.entries[k], n) == j
    {
      var k :| 0 <= k < |w.entries| && VoxelIndex(w.entries[k], n) == j;
      assert k != m;
      assert r.entries[k] == w.entries[k];
    }
  }

  /** With nothing pending, no voxel is in the list. */
  lemma EmptyListNoInList(w: Worklist, n: int)
    requires WorklistValid(w, n) && w.entries == []
    ensures forall i :: 0 <= i < |w.status| ==> w.status[i] != InList
  {
  }

  /** Every neighbour that the neighbour mask of voxel v's case selects is in range and has been
      reached (computed or in the list). */
  ghost predicate VoxelClosed(t: CubeTables, field: Field, n: int, level: real, s: seq<VoxelStatus>, v: Coord)
    requires n > 0 && |s| == VoxelCount(n) && |t.neighbors| == 256
  {
    var m := NeighborMask(t, VoxelCase(field, n, level, v));
    forall f :: 0 <= f < 6 && MaskBit(m, f) ==>
      InVoxelRange(Neighbor(v, f), n) && s[VoxelIndex(Neighbor(v, f), n)] != Unvisited
  }

  /** The flood's invariant: every computed voxel other than `skip` whose case is not 255 is
      closed. (Voxels of case 255 met by the downward seed walk offer no neighbours.) The
      quantifier fires only on an explicit VoxelClosed term, so that closing one voxel does not
      chain through its neighbours across the whole grid. */
  ghost predicate ClosedExcept(t: CubeTables, field: Field, n: int, level: real, s: seq<VoxelStatus>, skip: int)
    requires n > 0 && |s| == VoxelCount(n) && |t.neighbors| == 256
  {
    forall i {:trigger VoxelClosed(t, field, n, level, s, VoxelAt(i, n))} ::
      0 <= i < |s| && i != skip && s[i] == Computed && VoxelCase(field, n, level, VoxelAt(i, n)) != 0xFF ==>
      VoxelClosed(t, field, n, level, s, VoxelAt(i, n))
  }

  ghost predicate Closed(t: CubeTables, field: Field, n: int, level: real, s: seq<VoxelStatus>)
    requires n > 0 && |s| == VoxelCount(n) && |t.neighbors| == 256
  {
    ClosedExcept(t, field, n, level, s, -1)
  }

  /** Statuses only move forward: a reached voxel stays reached, a computed voxel stays computed. */
  ghost predicate Advances(s: seq<VoxelStatus>, s': seq<VoxelStatus>) {
    && |s| == |s'|
    && (forall i :: 0 <= i < |s| && s[i] != Unvisited ==> s'[i] != Unvisited)
    && (forall i :: 0 <= i < |s| && s[i] == Computed ==> s'[i] == Computed)
  }

  /** Marking one more voxel computed leaves every other computed voxel closed; if the new one
      has case 255 the status array is closed outright. */
  lemma MarkComputedKeepsClosed(t: CubeTables, field: Field, n: int, level: real, s: seq<VoxelStatus>, v: Coord)
    requires n > 0 && |s| == VoxelCount(n) && |t.neighbors| == 256 && InVoxelRange(v, n)
    requires Closed(t, field, n, level, s)
    ensures var s' := s[VoxelIndex(v, n) := Computed];
      && Advances(s, s')
      && ClosedExcept(t, field, n, level, s', VoxelIndex(v, n))
      && (VoxelCase(field, n, level, v) == 0xFF ==> Closed(t, field, n, level, s'))
  {
    var iv := VoxelIndex(v, n);
    var s' := s[iv := Computed];
    forall i | 0 <= i < |s'| && i != iv && s'[i] == Computed && VoxelCase(field, n, level, VoxelAt(i, n)) != 0xFF
      ensures VoxelClosed(t, field, n, level, s', VoxelAt(i, n))
    {
      assert VoxelClosed(t, field, n, level, s, VoxelAt(i, n));
    }
    if VoxelCase(field, n, level, v) == 0xFF {
      assert VoxelAt(iv, n) == v;
    }
  }

  /** Offering the flagged neighbours of the one unclosed voxel closes the status array. */
  lemma OfferClosesVoxel(t: CubeTables, field: Field, n: int, level: real, w: Worklist, v: Coord)
    requires n > 0 && |w.status| == VoxelCount(n) && |t.neighbors| == 256 && InVoxelRange(v, n)
    requires ClosedExcept(t, field, n, level, w.status, VoxelIndex(v, n))
    requires forall f :: 0 <= f < 6 && MaskBit(NeighborMask(t, VoxelCase(field, n, level, v)), f) ==>
      InVoxelRange(Neighbor(v, f), n)
    ensures var cs := Offered(NeighborMask(t, VoxelCase(field, n, level, v)), v);
      AllInRange(cs, n) && Closed(t, field, n, level, OfferAll(w, cs, n).status)
  {
    var m := NeighborMask(t, VoxelCase(field, n, level, v));
    var cs := Offered(m, v);
    OfferedInRange(m, v, n);
    var r := OfferAll(w, cs, n);
    OfferAllMonotone(w, cs, n);
    OfferedReached(w, m, v, n);
    assert VoxelClosed(t, field, n, level, r.status, v);
    var iv := VoxelIndex(v, n);
    assert VoxelAt(iv, n) == v;
    forall i | 0 <= i < |r.status| && i != iv && r.status[i] == Computed && VoxelCase(field, n, level, VoxelAt(i, n)) != 0xFF
      ensures VoxelClosed(t, field, n, level, r.status, VoxelAt(i, n))
    {
      assert VoxelClosed(t, field, n, level, w.status, VoxelAt(i, n));
    }
  }

  /** After offering, every flagged neighbour of v has been reached. */
  lemma OfferedReached(w: Worklist, m: bv8, v: Coord, n: int)
    requires n > 0 && |w.status| == VoxelCount(n)
    requires forall f :: 0 <= f < 6 && MaskBit(m, f) ==> InVoxelRange(Neighbor(v, f), n)
    ensures AllInRange(Offered(m, v), n)
    ensures var r := OfferAll(w, Offered(m, v), n);
      forall f :: 0 <= f < 6 && MaskBit(m, f) ==> r.status[VoxelIndex(Neighbor(v, f), n)] != Unvisited
  {
    var cs := Offered(m, v);
    OfferedInRange(m, v, n);
    OfferAllCovers(w, cs, n);
    forall f | 0 <= f < 6 && MaskBit(m, f)
      ensures OfferAll(w, cs, n).status[VoxelIndex(Neighbor(v, f), n)] != Unvisited
    {
      var nb := Neighbor(v, f);
      assert nb in cs;
      var k :| 0 <= k < |cs| && cs[k] == nb;
    }
  }

  /** The offered neighbours are in range when every flagged face's neighbour is. */
  lemma OfferedInRange(m: bv8, v: Coord, n: int)
    requires forall f :: 0 <= f < 6 && MaskBit(m, f) ==> InVoxelRange(Neighbor(v, f), n)
    ensures AllInRange(Offered(m, v), n)
  {
    var cs := Offered(m, v);
    forall k | 0 <= k < |cs| ensures InVoxelRange(cs[k], n) {
      assert cs[k] in cs;
    }
  }

  /** The first k voxels of vs are in range and computed. */
  ghost predicate AllComputed(s: seq<VoxelStatus>, vs: seq<Coord>, k: int, n: int)
    requires n > 0 && |s| == VoxelCount(n) && 0 <= k <= |vs|
  {
    forall j :: 0 <= j < k ==> InVoxelRange(vs[j], n) && s[VoxelIndex(vs[j], n)] == Computed
  }

  /** Computed voxels stay computed as the statuses advance, and voxel k, now computed, joins them. */
  lemma AllComputedStep(s: seq<VoxelStatus>, s': seq<VoxelStatus>, vs: seq<Coord>, k: int, n: int)
    requires n > 0 && |s| == VoxelCount(n) && 0 <= k < |vs| && AllComputed(s, vs, k, n) && Advances(s, s')
    requires InVoxelRange(vs[k], n) && s'[VoxelIndex(vs[k], n)] == Computed
    ensures AllComputed(s', vs, k + 1, n)
  {
    forall j | 0 <= j < k + 1
      ensures InVoxelRange(vs[j], n) && s'[VoxelIndex(vs[j], n)] == Computed
    {
      if j < k {
        assert s[VoxelIndex(vs[j], n)] == Computed;
      }
    }
  }

  /** With every voxel unvisited, the empty list is consistent and the flood is trivially closed. */
  lemma ClearedWorklist(t: CubeTables, field: Field, n: int, level: real, s: seq<VoxelStatus>)
    requires n > 0 && |s| == VoxelCount(n) && |t.neighbors| == 256
    requires forall i :: 0 <= i < |s| ==> s[i] == Unvisited
    ensures WorklistValid(Worklist([], s), n) && Closed(t, field, n, level, s)
  {
  }

  /** Once nothing is in the list, a closed status array is a complete flood: every flagged
      neighbour of every computed voxel of case other than 255 is computed. */
  lemma ClosedAndDrainedIsComplete(t: CubeTables, field: Field, n: int, level: real, s: seq<VoxelStatus>)
    requires n > 0 && |s| == VoxelCount(n) && |t.neighbors| == 256
    requires Closed(t, field, n, level, s)
    requires forall i :: 0 <= i < |s| ==> s[i] != InList
    ensures forall i :: 0 <= i < |s| && s[i] == Computed && VoxelCase(field, n, level, VoxelAt(i, n)) != 0xFF ==>
      var v := VoxelAt(i, n);
      forall f :: 0 <= f < 6 && MaskBit(NeighborMask(t, VoxelCase(field, n, level, v)), f) ==>
        InVoxelRange(Neighbor(v, f), n) && s[VoxelIndex(Neighbor(v, f), n)] == Computed
  {
    forall i | 0 <= i < |s| && s[i] == Computed && VoxelCase(field, n, level, VoxelAt(i, n)) != 0xFF
      ensures var v := VoxelAt(i, n);
        forall f :: 0 <= f < 6 && MaskBit(NeighborMask(t, VoxelCase(field, n, level, v)), f) ==>
          InVoxelRange(Neighbor(v, f), n) && s[VoxelIndex(Neighbor(v, f), n)] == Computed
    {
      assert VoxelClosed(t, field, n, level, s, VoxelAt(i, n));
    }
  }
}
