/** The voxel map of the PR2 planner: a resolution^3 grid over an axis-aligned box whose
    TSDF cube marks occupied voxels with 0 and free ones with any other value, and the
    obstacle distance field computed from it by a Dijkstra sweep over the 26-connected
    free voxels. */
module VoxelGrids {
  import opened Common
  import opened Cubes
  import Index

  /** A Vector3i voxel coordinate (or a neighbour offset). */
  datatype Voxel = Voxel(x: int, y: int, z: int)
  {
    function Plus(o: Voxel): Voxel
    {
      Voxel(x + o.x, y + o.y, z + o.z)
    }
  }

  /** A Vector3d. */
  datatype Point = Point(x: real, y: real, z: real)

  /** The nine steps of one z layer, in the constructor's order: the centre column, the
      four axis steps, the four diagonals. */
  function Layer(z: int): (l: seq<Voxel>)
    ensures |l| == 9
  {
    [Voxel(0, 0, z), Voxel(1, 0, z), Voxel(-1, 0, z), Voxel(0, 1, z), Voxel(0, -1, z),
     Voxel(1, 1, z), Voxel(1, -1, z), Voxel(-1, 1, z), Voxel(-1, -1, z)]
  }

  /** The neighbour offsets in the constructor's order: the z = -1 layer, the z = 0
      layer without its centre, the z = 1 layer. */
  const Offsets: seq<Voxel> := Layer(-1) + Layer(0)[1..] + Layer(1)

  /** w differs from v by at most one step along every axis and is not v. */
  predicate Adjacent(v: Voxel, w: Voxel)
  {
    w != v && -1 <= w.x - v.x <= 1 && -1 <= w.y - v.y <= 1 && -1 <= w.z - v.z <= 1
  }

  /** The position of (x, y) in a layer. */
  function PlanarIndex(x: int, y: int): nat
  {
    if x == 0 && y == 0 then 0
    else if y == 0 then (if x == 1 then 1 else 2)
    else if x == 0 then (if y == 1 then 3 else 4)
    else if x == 1 then (if y == 1 then 5 else 6)
    else (if y == 1 then 7 else 8)
  }

  /** A layer holds every step of its plane with components in {-1, 0, 1}, each once,
      at the position PlanarIndex gives. */
  lemma LayerIndex(z: int, p: nat)
    requires p < 9
    ensures var s := Layer(z)[p];
      && s.z == z && -1 <= s.x <= 1 && -1 <= s.y <= 1 && PlanarIndex(s.x, s.y) == p
      && (p == 0 <==> s.x == 0 && s.y == 0)
  {
  }

  /** Where Offsets[i] comes from. */
  lemma OffsetLayer(i: nat)
    requires i < 26
    ensures |Offsets| == 26
    ensures i < 9 ==> Offsets[i] == Layer(-1)[i]
    ensures 9 <= i < 17 ==> Offsets[i] == Layer(0)[i - 8]
    ensures 17 <= i ==> Offsets[i] == Layer(1)[i - 17]
  {
  }

  /** The position of a non-zero step in Offsets. */
  function OffsetIndex(o: Voxel): (i: nat)
    requires Adjacent(Voxel(0, 0, 0), o)
    ensures i < |Offsets| && Offsets[i] == o
  {
    var p := PlanarIndex(o.x, o.y);
    var i := if o.z == -1 then p else if o.z == 0 then p + 8 else p + 17;
    assert Layer(o.z)[p] == o by {
      LayerIndex(o.z, p);
    }
    OffsetLayer(i);
    i
  }

  /** Every offset is a non-zero step with every component in {-1, 0, 1}, and OffsetIndex
      finds it again at its own position. */
  lemma OffsetAdjacent(i: nat)
    requires i < |Offsets|
    ensures Adjacent(Voxel(0, 0, 0), Offsets[i]) && OffsetIndex(Offsets[i]) == i
  {
    OffsetLayer(i);
    if i < 9 {
      LayerIndex(-1, i);
    } else if i < 17 {
      LayerIndex(0, i - 8);
    } else {
      LayerIndex(1, i - 17);
    }
  }

  /** The offsets are 26 different non-zero steps with every component in {-1, 0, 1}. */
  lemma OffsetsShape()
    ensures |Offsets| == 26
    ensures forall i :: 0 <= i < |Offsets| ==> Adjacent(Voxel(0, 0, 0), Offsets[i])
    ensures forall i, j :: 0 <= i < j < |Offsets| ==> Offsets[i] != Offsets[j]
  {
    OffsetLayer(0);
    forall i | 0 <= i < |Offsets|
      ensures Adjacent(Voxel(0, 0, 0), Offsets[i])
    {
      OffsetAdjacent(i);
    }
    forall i, j | 0 <= i < j < |Offsets|
      ensures Offsets[i] != Offsets[j]
    {
      OffsetAdjacent(i);
      OffsetAdjacent(j);
    }
  }

  /** Every adjacent voxel is reached by some offset, so the offsets enumerate the whole
      26-neighbourhood. */
  lemma OffsetsComplete(v: Voxel, w: Voxel)
    requires Adjacent(v, w)
    ensures exists i :: 0 <= i < |Offsets| && w == v.Plus(Offsets[i])
  {
    var i := OffsetIndex(Voxel(w.x - v.x, w.y - v.y, w.z - v.z));
    assert w == v.Plus(Offsets[i]);
  }

  /** The offset_dists the constructor stores: dz, dx and dy for the axis steps and the
      Euclidean lengths of the diagonal steps, which enter as given values. */
  function OffsetDists(dx: real, dy: real, dz: real, normXZ: real, normYZ: real, normXY: real, normXYZ: real): (ds: seq<real>)
    ensures |ds| == |Offsets|
  {
    [dz, normXZ, normXZ, normYZ, normYZ, normXYZ, normXYZ, normXYZ, normXYZ,
     dx, dx, dy, dy, normXY, normXY, normXY, normXY,
     dz, normXZ, normXZ, normYZ, normYZ, normXYZ, normXYZ, normXYZ, normXYZ]
  }

  /** The step lengths of the offsets are never negative when the voxel sizes and the
      norms are not. */
  lemma OffsetDistsNonnegative(dx: real, dy: real, dz: real, normXZ: real, normYZ: real, normXY: real, normXYZ: real)
    requires dx >= 0.0 && dy >= 0.0 && dz >= 0.0
    requires normXZ >= 0.0 && normYZ >= 0.0 && normXY >= 0.0 && normXYZ >= 0.0
    ensures forall i :: 0 <= i < |Offsets| ==> OffsetDists(dx, dy, dz, normXZ, normYZ, normXY, normXYZ)[i] >= 0.0
  {
  }

  /** The length of the step from v to its neighbour w, looked up in the step lengths ds
      (offset_dists) at the position of w - v in Offsets. */
  function Step(ds: seq<real>, v: Voxel, w: Voxel): real
    requires |ds| == |Offsets| && Adjacent(v, w)
  {
    ds[OffsetIndex(Voxel(w.x - v.x, w.y - v.y, w.z - v.z))]
  }

  /** Step as a weight on every pair of voxels, 0 between voxels that are not adjacent:
      the edge lengths of the graph the sweep of get_ODF runs on. */
  function StepLengths(ds: seq<real>): (Voxel, Voxel) -> real
  {
    (v: Voxel, w: Voxel) => if |ds| == |Offsets| && Adjacent(v, w) then Step(ds, v, w) else 0.0
  }

  /** step gives the step lengths ds between adjacent voxels. */
  ghost predicate Measures(step: (Voxel, Voxel) -> real, ds: seq<real>)
  {
    |ds| == |Offsets| && forall v, w {:trigger Step(ds, v, w)} :: Adjacent(v, w) ==> step(v, w) == Step(ds, v, w)
  }

  /** StepLengths(ds) measures ds, and no edge is negative when no step length is. */
  lemma StepLengthsMeasure(ds: seq<real>)
    requires |ds| == |Offsets| && forall i :: 0 <= i < |ds| ==> ds[i] >= 0.0
    ensures Measures(StepLengths(ds), ds)
    ensures forall v, w :: StepLengths(ds)(v, w) >= 0.0
  {
  }

  /** The value of cube c at voxel v (INFINITY, never read, outside the cube). */
  ghost function CellAt(c: Cube, v: Voxel): ExtReal
    reads c, c.cells
  {
    if c.Valid() && c.InRange(v.x, v.y, v.z) then c.Get(v.x, v.y, v.z) else Inf
  }

  /** Cube::set on a voxel: writes exactly that voxel. */
  method SetCell(c: Cube, v: Voxel, val: ExtReal)
    requires c.Valid() && c.InRange(v.x, v.y, v.z)
    modifies c.cells
    ensures CellAt(c, v) == val
    ensures forall w :: w != v ==> CellAt(c, w) == old(CellAt(c, w))
  {
    c.Set(v.x, v.y, v.z, val);
  }

  /** A queue entry of least distance. VoxelDist's operator< compares distances the other
      way round, so the top of boost's max-heap is such an entry. */
  lemma MinKey(pq: map<Voxel, ExtReal>) returns (k: Voxel)
    requires |pq| > 0
    ensures k in pq && forall w :: w in pq ==> pq[k].AtMost(pq[w])
    decreases |pq|
  {
    var x :| x in pq;
    var rest := pq - {x};
    assert rest.Keys == pq.Keys - {x};
    if |rest| == 0 {
      k := x;
      forall w | w in pq
        ensures pq[k].AtMost(pq[w])
      {
        assert w !in rest.Keys;
      }
    } else {
      var m := MinKey(rest);
      k := if pq[x].Below(rest[m]) then x else m;
      forall w | w in pq
        ensures pq[k].AtMost(pq[w])
      {
        if w != x {
          assert w in rest && pq[w] == rest[w];
          BelowOrder(pq[w], pq[x], rest[m]);
        } else {
          BelowOrder(pq[x], pq[x], pq[x]);
        }
      }
    }
  }

  // ---------------------------------------------------------------------------
  // The sweep of get_ODF over values. free lists the free voxels, dist holds the ODF on
  // them, pq is the heap as a map from queued voxel to key, popped the voxels already
  // taken off it, step the length of a step between adjacent voxels and obj the voxel of the object.

  /** The state between two iterations of the sweep. */
  ghost predicate Sweep(step: (Voxel, Voxel) -> real, free: seq<Voxel>, dist: map<Voxel, ExtReal>,
                        pq: map<Voxel, ExtReal>, popped: set<Voxel>, obj: Voxel)
  {
    && (forall v, w :: step(v, w) >= 0.0)
    // every free voxel is either queued or popped, and has a distance
    && (forall w :: w in free ==> w in dist && dist[w].Nonnegative() && (w in pq <==> w !in popped))
    && (forall w :: w in pq ==> w in free)
    && (forall p :: p in popped ==> p in free)
    // a key never exceeds the field and never undercuts a popped value
    && (forall w :: w in pq ==> pq[w].Nonnegative() && pq[w].AtMost(dist[w]))
    && (forall p, q :: p in popped && q in pq ==> dist[p].AtMost(pq[q]))
    // every free step out of a popped voxel satisfies the triangle inequality
    && (forall p, w :: p in popped && w in free && Adjacent(p, w) ==> dist[w].AtMost(dist[p].Plus(step(p, w))))
    // the object's voxel is queued at 0 with everything else at INFINITY, until popped
    && (obj in free && obj in pq ==> pq[obj] == Fin(0.0) && forall w :: w in pq && w != obj ==> pq[w] == Inf)
    && (obj in free && obj !in pq ==> dist[obj] == Fin(0.0))
  }

  /** The state while the neighbours of curr, just popped at distance d, are relaxed:
      as Sweep, except that the steps out of curr are still being settled. */
  ghost predicate Relaxing(step: (Voxel, Voxel) -> real, free: seq<Voxel>, dist: map<Voxel, ExtReal>,
                           pq: map<Voxel, ExtReal>, popped: set<Voxel>, obj: Voxel, curr: Voxel, d: ExtReal)
  {
    && (forall v, w :: step(v, w) >= 0.0)
    && (forall w :: w in free ==> w in dist && dist[w].Nonnegative() && (w in pq <==> w !in popped))
    && (forall w :: w in pq ==> w in free)
    && (forall p :: p in popped ==> p in free)
    && (forall w :: w in pq ==> pq[w].Nonnegative() && pq[w].AtMost(dist[w]))
    && curr in popped && d.Nonnegative() && dist[curr] == d
    && (forall p :: p in popped ==> dist[p].AtMost(d))
    && (forall q :: q in pq ==> d.AtMost(pq[q]))
    && (forall p, w :: p in popped && p != curr && w in free && Adjacent(p, w) ==>
          dist[w].AtMost(dist[p].Plus(step(p, w))))
    && (obj in free ==> obj !in pq && dist[obj] == Fin(0.0))
  }

  /** The queue as get_ODF first fills it: every free voxel, the object's at 0 and the
      others at INFINITY. */
  ghost predicate Queued(free: seq<Voxel>, pq: map<Voxel, ExtReal>, obj: Voxel)
  {
    (forall w :: w in pq <==> w in free) && forall w :: w in pq ==> pq[w] == (if w == obj then Fin(0.0) else Inf)
  }

  /** The sweep starts with every free voxel queued at INFINITY, but the object's at 0. */
  lemma SweepStarts(step: (Voxel, Voxel) -> real, free: seq<Voxel>, pq: map<Voxel, ExtReal>, obj: Voxel)
    requires forall v, w :: step(v, w) >= 0.0
    requires Queued(free, pq, obj)
    ensures Sweep(step, free, map w | w in free :: Inf, pq, {}, obj)
  {
  }

  /** Popping an entry of least key d and setting its distance to d leaves the sweep ready
      to relax its neighbours. When the object's voxel is queued it is the one popped,
      since every other key is INFINITY. */
  lemma PopKeeps(step: (Voxel, Voxel) -> real, free: seq<Voxel>, dist: map<Voxel, ExtReal>,
                 pq: map<Voxel, ExtReal>, popped: set<Voxel>, obj: Voxel, curr: Voxel)
    requires Sweep(step, free, dist, pq, popped, obj)
    requires curr in pq && forall w :: w in pq ==> pq[curr].AtMost(pq[w])
    ensures Relaxing(step, free, dist[curr := pq[curr]], pq - {curr}, popped + {curr}, obj, curr, pq[curr])
  {
    var d := pq[curr];
    var dist', pq', popped' := dist[curr := d], pq - {curr}, popped + {curr};
    forall p, w | p in popped' && p != curr && w in free && Adjacent(p, w)
      ensures dist'[w].AtMost(dist'[p].Plus(step(p, w)))
    {
      if w == curr {
        BelowOrder(dist[p].Plus(step(p, w)), dist[w], d);
      }
    }
    if obj in free && obj in pq {
      assert pq[curr].AtMost(pq[obj]);
      assert curr == obj;
    }
  }

  /** A relaxed neighbour is still queued: every popped voxel is at most d away, and the
      relaxed value is at least d. */
  lemma OnlyQueuedRelaxed(step: (Voxel, Voxel) -> real, free: seq<Voxel>, dist: map<Voxel, ExtReal>, pq: map<Voxel, ExtReal>,
                          popped: set<Voxel>, obj: Voxel, curr: Voxel, d: ExtReal, n: Voxel, x: ExtReal)
    requires Relaxing(step, free, dist, pq, popped, obj, curr, d)
    requires n in free && d.AtMost(x) && x.Below(dist[n])
    ensures n in pq
  {
  }

  /** Lowering a queued voxel to x, at least d, keeps the relaxation state. */
  lemma LowerKeeps(step: (Voxel, Voxel) -> real, free: seq<Voxel>, dist: map<Voxel, ExtReal>, pq: map<Voxel, ExtReal>,
                   popped: set<Voxel>, obj: Voxel, curr: Voxel, d: ExtReal, n: Voxel, x: ExtReal)
    requires Relaxing(step, free, dist, pq, popped, obj, curr, d)
    requires n in pq && d.AtMost(x) && x.Below(dist[n])
    ensures Relaxing(step, free, dist[n := x], pq[n := x], popped, obj, curr, d)
  {
    var dist' := dist[n := x];
    forall p, w | p in popped && p != curr && w in free && Adjacent(p, w)
      ensures dist'[w].AtMost(dist'[p].Plus(step(p, w)))
    {
      if w == n {
        BelowOrder(dist[p].Plus(step(p, w)), x, dist[n]);
      }
    }
  }

  /** Once every free neighbour w of curr is at most d plus the step to it, the sweep is
      back between iterations. */
  lemma RelaxedAll(step: (Voxel, Voxel) -> real, free: seq<Voxel>, dist: map<Voxel, ExtReal>, pq: map<Voxel, ExtReal>,
                   popped: set<Voxel>, obj: Voxel, curr: Voxel, d: ExtReal)
    requires Relaxing(step, free, dist, pq, popped, obj, curr, d)
    requires forall w :: w in free && Adjacent(curr, w) ==> dist[w].AtMost(d.Plus(step(curr, w)))
    ensures Sweep(step, free, dist, pq, popped, obj)
  {
  }

  /** With the queue empty the sweep is over: every free voxel has a distance, the
      object's is 0, and every free step satisfies the triangle inequality. */
  lemma SweepDone(step: (Voxel, Voxel) -> real, free: seq<Voxel>, dist: map<Voxel, ExtReal>, popped: set<Voxel>, obj: Voxel)
    requires Sweep(step, free, dist, map[], popped, obj)
    ensures forall w :: w in free ==> w in dist && dist[w].Nonnegative()
    ensures obj in free ==> dist[obj] == Fin(0.0)
    ensures forall v, w :: v in free && w in free && Adjacent(v, w) ==> dist[w].AtMost(dist[v].Plus(step(v, w)))
  {
    forall v, w | v in free && w in free && Adjacent(v, w)
      ensures dist[w].AtMost(dist[v].Plus(step(v, w)))
    {
      assert v in popped;
    }
  }

  /** The ODF in a cube: dist on the free voxels, INFINITY elsewhere. */
  ghost predicate Mirrors(odf: Cube, r: nat, free: seq<Voxel>, dist: map<Voxel, ExtReal>)
    reads odf, odf.cells
  {
    && odf.Valid() && odf.xSize == r && odf.ySize == r && odf.zSize == r
    && forall w: Voxel :: odf.InRange(w.x, w.y, w.z) ==> CellAt(odf, w) == (if w in free && w in dist then dist[w] else Inf)
  }

  /** ODF.set(v, val) on a free voxel v: the cube follows dist[v := val]. */
  method SetMirrored(odf: Cube, ghost r: nat, ghost free: seq<Voxel>, ghost dist: map<Voxel, ExtReal>, v: Voxel, val: ExtReal)
    requires Mirrors(odf, r, free, dist) && v in free && odf.InRange(v.x, v.y, v.z)
    modifies odf.cells
    ensures Mirrors(odf, r, free, dist[v := val])
  {
    SetCell(odf, v, val);
  }

  /** Queues every free voxel: the object's voxel at 0, the others at INFINITY. */
  method QueueFree(free: seq<Voxel>, obj: Voxel) returns (pq: map<Voxel, ExtReal>)
    ensures Queued(free, pq, obj)
  {
    pq := map[];
    for n := 0 to |free|
      invariant forall w :: w in pq <==> w in free[..n]
      invariant forall w :: w in pq ==> pq[w] == (if w == obj then Fin(0.0) else Inf)
    {
      pq := pq[free[n] := if free[n] == obj then Fin(0.0) else Inf];
    }
    assert free[..|free|] == free;
  }

  /** pq.top(): an entry of least key. */
  method Top(pq: map<Voxel, ExtReal>) returns (curr: Voxel, d: ExtReal)
    requires |pq| > 0
    ensures curr in pq && d == pq[curr] && forall w :: w in pq ==> d.AtMost(pq[w])
  {
    ghost var least := MinKey(pq);
    curr :| curr in pq && forall w :: w in pq ==> pq[curr].AtMost(pq[w]);
    d := pq[curr];
  }

  /** pq.pop() and ODF.set(curr.voxel, curr.dist) for the top entry curr: it leaves the
      queue and its key d becomes its distance. */
  method PopLeast(odf: Cube, ghost r: nat, ghost step: (Voxel, Voxel) -> real, ghost free: seq<Voxel>, ghost dist: map<Voxel, ExtReal>,
                  pq: map<Voxel, ExtReal>, ghost popped: set<Voxel>, ghost obj: Voxel, curr: Voxel, d: ExtReal)
    returns (rest: map<Voxel, ExtReal>)
    requires Sweep(step, free, dist, pq, popped, obj) && Mirrors(odf, r, free, dist)
    requires forall w: Voxel :: w in free ==> odf.InRange(w.x, w.y, w.z)
    requires curr in pq && d == pq[curr] && forall w :: w in pq ==> d.AtMost(pq[w])
    modifies odf.cells
    ensures rest == pq - {curr} && |rest| < |pq|
    ensures Mirrors(odf, r, free, dist[curr := d])
    ensures Relaxing(step, free, dist[curr := d], rest, popped + {curr}, obj, curr, d)
  {
    rest := pq - {curr};
    assert rest.Keys == pq.Keys - {curr};
    SetMirrored(odf, r, free, dist, curr, d);
    PopKeeps(step, free, dist, pq, popped, obj, curr);
  }

  /** Lowering n to x, the relaxed value of the i-th neighbour, keeps every distance at
      most its value before the relaxation and settles neighbours 0 to i. */
  lemma LowerProgress(free: seq<Voxel>, dist0: map<Voxel, ExtReal>, dist: map<Voxel, ExtReal>, n: Voxel, x: ExtReal,
                      neighbors: seq<Voxel>, dists: seq<real>, d: ExtReal, i: nat)
    requires forall w :: w in free ==> w in dist && w in dist0 && dist[w].AtMost(dist0[w])
    requires i < |neighbors| == |dists| && neighbors[i] == n && n in free
    requires x == d.Plus(dists[i]) && x.Below(dist[n])
    requires forall j :: 0 <= j < i ==> neighbors[j] in free && dist[neighbors[j]].AtMost(d.Plus(dists[j]))
    ensures forall w :: w in free ==> dist[n := x][w].AtMost(dist0[w])
    ensures forall j :: 0 <= j <= i ==> dist[n := x][neighbors[j]].AtMost(d.Plus(dists[j]))
  {
    BelowOrder(dist0[n], x, dist[n]);
    forall j | 0 <= j < i && neighbors[j] == n
      ensures x.AtMost(d.Plus(dists[j]))
    {
      BelowOrder(d.Plus(dists[j]), x, dist[n]);
    }
  }

  /** Relaxes the i-th neighbour n of curr: when d plus the step to n is below ODF(n),
      both ODF(n) and its key drop to it. */
  method RelaxOne(odf: Cube, ghost r: nat, ghost step: (Voxel, Voxel) -> real, ghost free: seq<Voxel>, ghost dist0: map<Voxel, ExtReal>,
                  ghost dist: map<Voxel, ExtReal>, pq: map<Voxel, ExtReal>, ghost popped: set<Voxel>, ghost obj: Voxel,
                  ghost curr: Voxel, d: ExtReal, neighbors: seq<Voxel>, dists: seq<real>, i: nat)
    returns (pq': map<Voxel, ExtReal>, ghost dist': map<Voxel, ExtReal>)
    requires Relaxing(step, free, dist, pq, popped, obj, curr, d) && Mirrors(odf, r, free, dist)
    requires forall w: Voxel :: w in free ==> odf.InRange(w.x, w.y, w.z)
    requires i < |neighbors| == |dists| && neighbors[i] in free && dists[i] >= 0.0
    requires forall w :: w in free ==> w in dist0 && dist[w].AtMost(dist0[w])
    requires forall j :: 0 <= j < i ==> neighbors[j] in free && dist[neighbors[j]].AtMost(d.Plus(dists[j]))
    modifies odf.cells
    ensures Relaxing(step, free, dist', pq', popped, obj, curr, d) && Mirrors(odf, r, free, dist')
    ensures forall w :: w in pq' <==> w in pq
    ensures forall w :: w in free ==> dist'[w].AtMost(dist0[w])
    ensures forall j :: 0 <= j <= i ==> neighbors[j] in free
    ensures forall j :: 0 <= j <= i ==> dist'[neighbors[j]].AtMost(d.Plus(dists[j]))
  {
    var n := neighbors[i];
    var x := d.Plus(dists[i]);
    assert odf.Get(n.x, n.y, n.z) == CellAt(odf, n) == dist[n];
    if x.Below(odf.Get(n.x, n.y, n.z)) {
      PlusNotBelow(d, dists[i]);
      OnlyQueuedRelaxed(step, free, dist, pq, popped, obj, curr, d, n, x);
      LowerKeeps(step, free, dist, pq, popped, obj, curr, d, n, x);
      SetMirrored(odf, r, free, dist, n, x);
      LowerProgress(free, dist0, dist, n, x, neighbors, dists, d, i);
      pq', dist' := pq[n := x], dist[n := x];
    } else {
      pq', dist' := pq, dist;
    }
  }

  /** Relaxes every free neighbour of curr, given with the step lengths dists. Values
      only ever go down, and only queued voxels are relaxed. */
  method RelaxNeighbors(odf: Cube, ghost r: nat, ghost step: (Voxel, Voxel) -> real, ghost free: seq<Voxel>, ghost dist: map<Voxel, ExtReal>,
                        pq: map<Voxel, ExtReal>, ghost popped: set<Voxel>, ghost obj: Voxel, curr: Voxel, d: ExtReal,
                        neighbors: seq<Voxel>, dists: seq<real>)
    returns (pq': map<Voxel, ExtReal>, ghost dist': map<Voxel, ExtReal>)
    requires Relaxing(step, free, dist, pq, popped, obj, curr, d) && Mirrors(odf, r, free, dist)
    requires forall w: Voxel :: w in free ==> odf.InRange(w.x, w.y, w.z)
    requires |neighbors| == |dists|
    requires forall j :: 0 <= j < |neighbors| ==>
               neighbors[j] in free && Adjacent(curr, neighbors[j]) && dists[j] == step(curr, neighbors[j])
    requires forall w :: w in free && Adjacent(curr, w) ==> w in neighbors
    modifies odf.cells
    ensures Sweep(step, free, dist', pq', popped, obj) && Mirrors(odf, r, free, dist')
    ensures pq'.Keys == pq.Keys
    ensures forall w :: w in free ==> dist'[w].AtMost(dist[w])
  {
    pq', dist' := pq, dist;
    for i := 0 to |neighbors|
      invariant forall w :: w in pq' <==> w in pq
      invariant Relaxing(step, free, dist', pq', popped, obj, curr, d) && Mirrors(odf, r, free, dist')
      invariant forall w :: w in free ==> dist'[w].AtMost(dist[w])
      invariant forall j :: 0 <= j < i ==> dist'[neighbors[j]].AtMost(d.Plus(dists[j]))
    {
      pq', dist' := RelaxOne(odf, r, step, free, dist, dist', pq', popped, obj, curr, d, neighbors, dists, i);
    }
    assert pq'.Keys == pq.Keys;
    forall w | w in free && Adjacent(curr, w)
      ensures dist'[w].AtMost(d.Plus(step(curr, w)))
    {
      var j :| 0 <= j < |neighbors| && neighbors[j] == w;
    }
    RelaxedAll(step, free, dist', pq', popped, obj, curr, d);
  }

  /** The occupancy mark of the TSDF. */
  const Occupied: ExtReal := Fin(0.0)

  class VoxelGrid {
    const resolution: nat
    const bottomCorner: Point
    const topCorner: Point
    const dx: real
    const dy: real
    const dz: real
    const radius: real
    const TSDF: Cube
    const offsets: seq<Voxel>
    const offsetDists: seq<real>

    ghost predicate Valid()
      reads this, TSDF
    {
      && TSDF.Valid() && TSDF.xSize == resolution && TSDF.ySize == resolution && TSDF.zSize == resolution
      && offsets == Offsets && |offsetDists| == |Offsets|
      && forall i :: 0 <= i < |offsetDists| ==> offsetDists[i] >= 0.0
    }

    /** The box of the given heights around center, split into res voxels per axis; every
        voxel starts free (TSDF 1). The four norms are the lengths of the diagonal steps,
        computed by the source with a square root. */
    constructor(center: Point, x: real, y: real, z: real, res: nat,
                normXZ: real, normYZ: real, normXY: real, normXYZ: real)
      requires res > 0 && x >= 0.0 && y >= 0.0 && z >= 0.0
      requires normXZ >= 0.0 && normYZ >= 0.0 && normXY >= 0.0 && normXYZ >= 0.0
      ensures Valid() && fresh(TSDF) && fresh(TSDF.cells) && resolution == res
      ensures bottomCorner == Point(center.x - x / 2.0, center.y - y / 2.0, center.z - z / 2.0)
      ensures topCorner == Point(center.x + x / 2.0, center.y + y / 2.0, center.z + z / 2.0)
      ensures dx == x / res as real && dy == y / res as real && dz == z / res as real
      ensures radius <= dx / 10.0 && radius <= dy / 10.0 && radius <= dz / 10.0
      ensures radius == dx / 10.0 || radius == dy / 10.0 || radius == dz / 10.0
      ensures forall v :: IsValidVoxel(v) ==> Tsdf(v) == Fin(1.0)
    {
      resolution := res;
      bottomCorner := Point(center.x - x / 2.0, center.y - y / 2.0, center.z - z / 2.0);
      topCorner := Point(center.x + x / 2.0, center.y + y / 2.0, center.z + z / 2.0);
      var sx, sy, sz := x / res as real, y / res as real, z / res as real;
      dx, dy, dz := sx, sy, sz;
      var d := if sy < sz then sy else sz;
      radius := (if sx < d then sx else d) / 10.0;
      var cube := new Cube(res, res, res);
      cube.SetAll(Fin(1.0));
      TSDF := cube;
      offsets := Offsets;
      offsetDists := OffsetDists(sx, sy, sz, normXZ, normYZ, normXY, normXYZ);
      OffsetDistsNonnegative(sx, sy, sz, normXZ, normYZ, normXY, normXYZ);
    }

    /** is_valid_voxel: every coordinate in [0, resolution). */
    predicate IsValidVoxel(v: Voxel)
      reads this
    {
      0 <= v.x < resolution && 0 <= v.y < resolution && 0 <= v.z < resolution
    }

    /** voxel_index */
    function VoxelIndex(v: Voxel): int
      reads this
    {
      v.z + v.y * resolution + v.x * resolution * resolution
    }

    /** voxel_index is the cell index of the TSDF cube, so it is in range exactly for the
        valid voxels. */
    lemma VoxelIndexIsCellIndex(v: Voxel)
      requires Valid() && IsValidVoxel(v)
      ensures VoxelIndex(v) == CellIndex(v.x, v.y, v.z, resolution, resolution)
      ensures 0 <= VoxelIndex(v) < TSDF.cells.Length
    {
      var r := resolution;
      assert v.x * r * r == v.x * (r * r);
      CellIndexBound(v.x, v.y, v.z, r, r, r);
    }

    /** The TSDF value of a valid voxel (INFINITY, never read, elsewhere). */
    ghost function Tsdf(v: Voxel): ExtReal
      reads this, TSDF, TSDF.cells
    {
      if Valid() && IsValidVoxel(v) then TSDF.Get(v.x, v.y, v.z) else Inf
    }

    /** A valid voxel the TSDF does not mark occupied. */
    ghost predicate Free(v: Voxel)
      reads this, TSDF, TSDF.cells
    {
      IsValidVoxel(v) && Tsdf(v) != Occupied
    }

    // -------------------------------------------------------------------------
    // get_voxel_neighbors_and_dists

    /** The positions i < n in Offsets whose neighbour v + Offsets[i] is free, in order. */
    ghost function NeighborOffsets(v: Voxel, n: nat): (idx: seq<nat>)
      requires Valid() && n <= |Offsets|
      reads this, TSDF, TSDF.cells
      ensures forall j :: 0 <= j < |idx| ==> idx[j] < n && Free(v.Plus(Offsets[idx[j]]))
      ensures forall j, k :: 0 <= j < k < |idx| ==> idx[j] < idx[k]
      ensures |idx| <= n
    {
      if n == 0 then []
      else NeighborOffsets(v, n - 1) + (if Free(v.Plus(Offsets[n - 1])) then [n - 1] else [])
    }

    /** Every free voxel among the first n offsets is listed. */
    lemma {:induction false} NeighborOffsetsComplete(v: Voxel, n: nat, i: nat)
      requires Valid() && n <= |Offsets| && i < n && Free(v.Plus(Offsets[i]))
      ensures i in NeighborOffsets(v, n)
      decreases n
    {
      if i < n - 1 {
        NeighborOffsetsComplete(v, n - 1, i);
      }
    }

    /** The free neighbours of voxel, in offset order, with the step length to each. */
    method GetVoxelNeighborsAndDists(voxel: Voxel) returns (neighbors: seq<Voxel>, dists: seq<real>)
      requires Valid()
      ensures var idx := NeighborOffsets(voxel, |Offsets|);
        && |neighbors| == |dists| == |idx|
        && forall j :: 0 <= j < |idx| ==> neighbors[j] == voxel.Plus(Offsets[idx[j]]) && dists[j] == offsetDists[idx[j]]
      ensures forall j :: 0 <= j < |neighbors| ==>
                Adjacent(voxel, neighbors[j]) && Free(neighbors[j]) && dists[j] == Step(offsetDists, voxel, neighbors[j])
      ensures forall w :: Adjacent(voxel, w) && Free(w) ==> w in neighbors
    {
      neighbors, dists := [], [];
      for i := 0 to |offsets|
        invariant var idx := NeighborOffsets(voxel, i);
          && |neighbors| == |dists| == |idx|
          && forall j :: 0 <= j < |idx| ==> neighbors[j] == voxel.Plus(Offsets[idx[j]]) && dists[j] == offsetDists[idx[j]]
      {
        var neighbor := voxel.Plus(offsets[i]);
        if 0 <= neighbor.x < resolution && 0 <= neighbor.y < resolution && 0 <= neighbor.z < resolution {
          if TSDF.Get(neighbor.x, neighbor.y, neighbor.z) != Fin(0.0) {
            neighbors := neighbors + [neighbor];
            dists := dists + [offsetDists[i]];
          }
        }
      }
      forall j | 0 <= j < |neighbors|
        ensures Adjacent(voxel, neighbors[j]) && Free(neighbors[j]) && dists[j] == Step(offsetDists, voxel, neighbors[j])
      {
        NeighborIsAdjacent(voxel, j);
      }
      forall w | Adjacent(voxel, w) && Free(w)
        ensures w in neighbors
      {
        var j := AdjacentIsNeighbor(voxel, w);
      }
    }

    /** Every neighbour listed is a free voxel adjacent to voxel. */
    lemma NeighborIsAdjacent(voxel: Voxel, j: nat)
      requires Valid() && j < |NeighborOffsets(voxel, |Offsets|)|
      ensures var i := NeighborOffsets(voxel, |Offsets|)[j]; var w := voxel.Plus(Offsets[i]);
        Adjacent(voxel, w) && Free(w) && offsetDists[i] == Step(offsetDists, voxel, w)
    {
      OffsetAdjacent(NeighborOffsets(voxel, |Offsets|)[j]);
    }

    /** Every free voxel adjacent to voxel is listed. */
    lemma AdjacentIsNeighbor(voxel: Voxel, w: Voxel) returns (j: nat)
      requires Valid() && Adjacent(voxel, w) && Free(w)
      ensures j < |NeighborOffsets(voxel, |Offsets|)| && w == voxel.Plus(Offsets[NeighborOffsets(voxel, |Offsets|)[j]])
    {
      var idx := NeighborOffsets(voxel, |Offsets|);
      OffsetLayer(0);
      var i := OffsetIndex(Voxel(w.x - voxel.x, w.y - voxel.y, w.z - voxel.z));
      NeighborOffsetsComplete(voxel, |Offsets|, i);
      j :| 0 <= j < |idx| && idx[j] == i;
    }

    // -------------------------------------------------------------------------
    // update_TSDF

    /** w is voxel v itself or one of its 26 neighbours. */
    static predicate Touches(v: Voxel, w: Voxel)
    {
      w == v || Adjacent(v, w)
    }

    /** Some of the first n observed voxels touches w. */
    static ghost predicate NearAny(voxels: seq<Option<Voxel>>, n: nat, w: Voxel)
      requires n <= |voxels|
    {
      exists i :: 0 <= i < n && voxels[i].Some? && Touches(voxels[i].value, w)
    }

    /** TSDF->set on a voxel: writes exactly that voxel. */
    method SetTsdf(v: Voxel, val: ExtReal)
      requires Valid() && IsValidVoxel(v)
      modifies TSDF.cells
      ensures Tsdf(v) == val
      ensures forall w :: IsValidVoxel(w) && w != v ==> Tsdf(w) == old(Tsdf(w))
    {
      TSDF.Set(v.x, v.y, v.z, val);
    }

    /** Marks voxel and every in-bounds neighbour occupied; nothing else changes, and
        only the occupancy mark is ever written. */
    method MarkOccupied(voxel: Voxel)
      requires Valid() && IsValidVoxel(voxel)
      modifies TSDF.cells
      ensures forall w :: IsValidVoxel(w) && Touches(voxel, w) ==> Tsdf(w) == Occupied
      ensures forall w :: IsValidVoxel(w) && !Touches(voxel, w) ==> Tsdf(w) == old(Tsdf(w))
      ensures forall w :: IsValidVoxel(w) ==> Tsdf(w) == old(Tsdf(w)) || Tsdf(w) == Occupied
    {
      SetTsdf(voxel, Occupied);
      var neighbors, dists := GetVoxelNeighborsAndDists(voxel);
      for i := 0 to |neighbors|
        invariant forall w :: IsValidVoxel(w) && Touches(voxel, w) && w !in neighbors[i..] ==> Tsdf(w) == Occupied
        invariant forall w :: IsValidVoxel(w) && !Touches(voxel, w) ==> Tsdf(w) == old(Tsdf(w))
        invariant forall w :: IsValidVoxel(w) ==> Tsdf(w) == old(Tsdf(w)) || Tsdf(w) == Occupied
      {
        SetTsdf(neighbors[i], Occupied);
        assert forall w :: w in neighbors[i + 1..] ==> w in neighbors[i..];
      }
    }

    /** Marks the voxel of every valid point of the cloud, and its in-bounds neighbours,
        occupied. A point is given by its voxel, or None when it is not a valid point. */
    method UpdateTSDF(voxels: seq<Option<Voxel>>)
      requires Valid()
      requires forall i :: 0 <= i < |voxels| && voxels[i].Some? ==> IsValidVoxel(voxels[i].value)
      modifies TSDF.cells
      ensures forall i, w :: 0 <= i < |voxels| && voxels[i].Some? && IsValidVoxel(w) && Touches(voxels[i].value, w) ==>
                Tsdf(w) == Occupied
      ensures forall w :: IsValidVoxel(w) ==> Tsdf(w) == old(Tsdf(w)) || Tsdf(w) == Occupied
      ensures forall w :: IsValidVoxel(w) && old(Tsdf(w)) == Occupied ==> Tsdf(w) == Occupied
      ensures forall w :: IsValidVoxel(w) && !NearAny(voxels, |voxels|, w) ==> Tsdf(w) == old(Tsdf(w))
    {
      for n := 0 to |voxels|
        invariant forall i, w :: 0 <= i < n && voxels[i].Some? && IsValidVoxel(w) && Touches(voxels[i].value, w) ==>
                    Tsdf(w) == Occupied
        invariant forall w :: IsValidVoxel(w) ==> Tsdf(w) == old(Tsdf(w)) || Tsdf(w) == Occupied
        invariant forall w :: IsValidVoxel(w) && !NearAny(voxels, n, w) ==> Tsdf(w) == old(Tsdf(w))
      {
        if voxels[n].Some? {
          MarkOccupied(voxels[n].value);
        }
      }
    }

    // -------------------------------------------------------------------------
    // get_obstacles

    /** The voxel stored at flat position n of the TSDF. */
    function VoxelAt(n: int): Voxel
      reads this
    {
      if resolution == 0 then Voxel(0, 0, 0)
      else var q := n / resolution; Voxel(q / resolution, q % resolution, n % resolution)
    }

    /** VoxelAt undoes the flattening of a valid voxel. */
    lemma VoxelAtIndex(v: Voxel)
      requires Valid() && IsValidVoxel(v)
      ensures VoxelAt(VoxelIndex(v)) == v
    {
      var r := resolution;
      VoxelIndexIsCellIndex(v);
      CellIndexFlat(v.x, v.y, v.z, r, r);
      Index.DivModUnique(Index.Flat(v.x, v.y, r), v.z, r);
      Index.DivModUnique(v.x, v.y, r);
    }

    /** Every flat position holds a valid voxel whose index it is. */
    lemma VoxelAtValid(n: int)
      requires Valid() && 0 <= n < TSDF.cells.Length
      ensures IsValidVoxel(VoxelAt(n)) && VoxelIndex(VoxelAt(n)) == n
    {
      var r := resolution;
      assert r * r * r == (r * r) * r;
      Index.Split(n, r * r, r);
      Index.Split(n / r, r, r);
      var v := VoxelAt(n);
      calc {
        VoxelIndex(v);
        v.z + v.y * r + v.x * r * r;
        { assert v.x * r * r == (v.x * r) * r; }
        n % r + ((n / r) % r + ((n / r) / r) * r) * r;
        n % r + (n / r) * r;
        n;
      }
    }

    /** The flat positions below n whose cell is occupied (occupied) or free (!occupied),
        in increasing order. */
    ghost function MarkedCells(n: nat, occupied: bool): (idx: seq<nat>)
      requires Valid() && n <= TSDF.cells.Length
      reads this, TSDF, TSDF.cells
      ensures forall j :: 0 <= j < |idx| ==> idx[j] < n && (TSDF.cells[idx[j]] == Occupied) == occupied
      ensures forall j, k :: 0 <= j < k < |idx| ==> idx[j] < idx[k]
    {
      if n == 0 then []
      else MarkedCells(n - 1, occupied) + (if (TSDF.cells[n - 1] == Occupied) == occupied then [n - 1] else [])
    }

    /** Every position below n with the mark is listed. */
    lemma {:induction false} MarkedCellsComplete(n: nat, occupied: bool, m: nat)
      requires Valid() && n <= TSDF.cells.Length && m < n && (TSDF.cells[m] == Occupied) == occupied
      ensures m in MarkedCells(n, occupied)
      decreases n
    {
      if m < n - 1 {
        MarkedCellsComplete(n - 1, occupied, m);
      }
    }

    /** voxels are the voxels at the positions idx. */
    static ghost predicate VoxelsAt(g: VoxelGrid, voxels: seq<Voxel>, idx: seq<nat>)
      reads g
    {
      |voxels| == |idx| && forall j :: 0 <= j < |idx| ==> voxels[j] == g.VoxelAt(idx[j])
    }

    /** Flat position of voxel (i, j, 0): where the sweep of row (i, j) starts. */
    function RowStart(i: int, j: int): int
      reads this
    {
      i * (resolution * resolution) + j * resolution
    }

    /** Consecutive rows are adjacent in storage and the last row ends the storage. */
    lemma RowStarts(i: nat, j: nat)
      requires Valid()
      ensures RowStart(i, j) + resolution == RowStart(i, j + 1)
      ensures RowStart(i, resolution) == RowStart(i + 1, 0)
      ensures RowStart(resolution, 0) == TSDF.cells.Length
      ensures i < resolution && j < resolution ==> RowStart(i, j) + resolution <= TSDF.cells.Length
    {
      var r := resolution;
      assert (i + 1) * (r * r) == i * (r * r) + r * r;
      assert r * r * r == r * (r * r);
      if i < r && j < r {
        CellIndexBound(i, j, r - 1, r, r, r);
      }
    }

    /** The sweep over z of row (i, j), keeping the voxels with the mark. */
    method ScanRow(i: nat, j: nat, occupied: bool, prefix: seq<Voxel>) returns (found: seq<Voxel>)
      requires Valid() && i < resolution && j < resolution
      requires RowStart(i, j) + resolution <= TSDF.cells.Length
      requires VoxelsAt(this, prefix, MarkedCells(RowStart(i, j), occupied))
      ensures VoxelsAt(this, found, MarkedCells(RowStart(i, j) + resolution, occupied))
    {
      found := prefix;
      for k := 0 to resolution
        invariant VoxelsAt(this, found, MarkedCells(RowStart(i, j) + k, occupied))
      {
        ghost var n := RowStart(i, j) + k;
        VoxelIndexIsCellIndex(Voxel(i, j, k));
        VoxelAtIndex(Voxel(i, j, k));
        assert VoxelIndex(Voxel(i, j, k)) == n;
        assert TSDF.Get(i, j, k) == TSDF.cells[n];
        MarkedStep(found, n, occupied);
        if (TSDF.Get(i, j, k) == Fin(0.0)) == occupied {
          found := found + [Voxel(i, j, k)];
        }
      }
    }

    /** Extending the list of marked voxels below n by the voxel at n when it carries
        the mark gives the list below n + 1. */
    lemma MarkedStep(prefix: seq<Voxel>, n: nat, occupied: bool)
      requires Valid() && n < TSDF.cells.Length && VoxelsAt(this, prefix, MarkedCells(n, occupied))
      ensures VoxelsAt(this, prefix + (if (TSDF.cells[n] == Occupied) == occupied then [VoxelAt(n)] else []),
                       MarkedCells(n + 1, occupied))
    {
    }

    /** The triple sweep over x, then y, then z shared by get_obstacles (occupied voxels)
        and the queueing of get_ODF (free voxels): exactly the voxels with the mark, in
        increasing (x, y, z) order. */
    method ScanVoxels(occupied: bool) returns (found: seq<Voxel>)
      requires Valid()
      ensures VoxelsAt(this, found, MarkedCells(TSDF.cells.Length, occupied))
      ensures forall v :: v in found <==> IsValidVoxel(v) && (Tsdf(v) == Occupied) == occupied
      ensures forall a, b :: 0 <= a < b < |found| ==> VoxelIndex(found[a]) < VoxelIndex(found[b])
    {
      found := [];
      RowStarts(0, 0);
      for i := 0 to resolution
        invariant RowStart(i, 0) <= TSDF.cells.Length
        invariant VoxelsAt(this, found, MarkedCells(RowStart(i, 0), occupied))
      {
        for j := 0 to resolution
          invariant RowStart(i, j) <= TSDF.cells.Length
          invariant VoxelsAt(this, found, MarkedCells(RowStart(i, j), occupied))
        {
          RowStarts(i, j);
          found := ScanRow(i, j, occupied, found);
        }
        RowStarts(i, 0);
        RowStarts(i + 1, 0);
      }
      forall v
        ensures v in found <==> IsValidVoxel(v) && (Tsdf(v) == Occupied) == occupied
      {
        ScanExact(found, occupied, v);
      }
      forall a, b | 0 <= a < b < |found|
        ensures VoxelIndex(found[a]) < VoxelIndex(found[b])
      {
        ScanOrdered(found, occupied, a, b);
      }
    }

    /** The voxels at the marked positions are exactly the valid voxels with the mark... */
    lemma ScanExact(found: seq<Voxel>, occupied: bool, v: Voxel)
      requires Valid() && VoxelsAt(this, found, MarkedCells(TSDF.cells.Length, occupied))
      ensures v in found <==> IsValidVoxel(v) && (Tsdf(v) == Occupied) == occupied
    {
      var idx := MarkedCells(TSDF.cells.Length, occupied);
      if v in found {
        var j :| 0 <= j < |found| && found[j] == v;
        VoxelAtValid(idx[j]);
        VoxelIndexIsCellIndex(v);
      }
      if IsValidVoxel(v) && (Tsdf(v) == Occupied) == occupied {
        VoxelIndexIsCellIndex(v);
        MarkedCellsComplete(TSDF.cells.Length, occupied, VoxelIndex(v));
        var j :| 0 <= j < |idx| && idx[j] == VoxelIndex(v);
        VoxelAtIndex(v);
        assert found[j] == v;
      }
    }

    /** ...each once, in increasing (x, y, z) order. */
    lemma ScanOrdered(found: seq<Voxel>, occupied: bool, a: nat, b: nat)
      requires Valid() && VoxelsAt(this, found, MarkedCells(TSDF.cells.Length, occupied))
      requires a < b < |found|
      ensures VoxelIndex(found[a]) < VoxelIndex(found[b])
    {
      var idx := MarkedCells(TSDF.cells.Length, occupied);
      VoxelAtValid(idx[a]);
      VoxelAtValid(idx[b]);
    }

    /** get_obstacles: the occupied voxels, each once, in increasing (x, y, z) order. The
        source returns their centres; the voxels themselves are returned here. */
    method GetObstacles() returns (obstacles: seq<Voxel>)
      requires Valid()
      ensures forall v :: v in obstacles <==> IsValidVoxel(v) && Tsdf(v) == Occupied
      ensures forall a, b :: 0 <= a < b < |obstacles| ==> VoxelIndex(obstacles[a]) < VoxelIndex(obstacles[b])
    {
      obstacles := ScanVoxels(true);
    }

    // -------------------------------------------------------------------------
    // get_ODF

    /** free lists exactly the free voxels of the grid. */
    ghost predicate FreeList(free: seq<Voxel>)
      reads this, TSDF, TSDF.cells
    {
      Valid() && forall w {:trigger Free(w)} :: w in free <==> Free(w)
    }

    /** Writing cells of another cube leaves the list of free voxels exact. */
    twostate lemma FreeListKept(free: seq<Voxel>)
      requires old(FreeList(free)) && unchanged(this, TSDF, TSDF.cells)
      ensures FreeList(free)
    {
    }

    /** The free voxels, in storage order: the voxels get_ODF queues. */
    method FreeVoxels() returns (free: seq<Voxel>)
      requires Valid()
      ensures FreeList(free)
      ensures forall w :: w in free ==> IsValidVoxel(w)
    {
      free := ScanVoxels(false);
    }

    /** get_voxel_neighbors_and_dists for the sweep, whose free voxels are listed in
        free: the neighbours are the listed voxels adjacent to curr. */
    method FreeNeighbors(curr: Voxel, ghost free: seq<Voxel>, ghost step: (Voxel, Voxel) -> real) returns (neighbors: seq<Voxel>, dists: seq<real>)
      requires FreeList(free) && Measures(step, offsetDists)
      ensures |neighbors| == |dists|
      ensures forall j :: 0 <= j < |neighbors| ==>
                neighbors[j] in free && Adjacent(curr, neighbors[j]) && dists[j] == step(curr, neighbors[j])
      ensures forall w :: w in free && Adjacent(curr, w) ==> w in neighbors
    {
      neighbors, dists := GetVoxelNeighborsAndDists(curr);
      forall w | w in free && Adjacent(curr, w)
        ensures w in neighbors
      {
        assert Free(w);
      }
    }

    /** The step lengths of the grid as edge lengths of the sweep's graph. */
    ghost method EdgeLengths() returns (step: (Voxel, Voxel) -> real)
      requires Valid()
      ensures Measures(step, offsetDists) && forall v, w :: step(v, w) >= 0.0
    {
      step := StepLengths(offsetDists);
      StepLengthsMeasure(offsetDists);
    }

    /** A finished sweep over the free voxels, mirrored in odf, is an obstacle distance
        field of this grid. */
    lemma SweepIsODF(odf: Cube, step: (Voxel, Voxel) -> real, free: seq<Voxel>, dist: map<Voxel, ExtReal>, popped: set<Voxel>, obj: Voxel)
      requires FreeList(free) && Mirrors(odf, resolution, free, dist)
      requires Measures(step, offsetDists) && Sweep(step, free, dist, map[], popped, obj)
      ensures forall w :: IsValidVoxel(w) && !Free(w) ==> CellAt(odf, w) == Inf
      ensures forall w :: IsValidVoxel(w) ==> CellAt(odf, w).Nonnegative()
      ensures Free(obj) ==> CellAt(odf, obj) == Fin(0.0)
      ensures forall v, w :: Free(v) && Adjacent(v, w) && Free(w) ==>
                CellAt(odf, w).AtMost(CellAt(odf, v).Plus(Step(offsetDists, v, w)))
    {
      SweepDone(step, free, dist, popped, obj);
      MirroredCells(odf, free, dist);
    }

    /** A cube mirroring distances on the free voxels holds them there and INFINITY on
        the other valid voxels. */
    lemma MirroredCells(odf: Cube, free: seq<Voxel>, dist: map<Voxel, ExtReal>)
      requires FreeList(free) && Mirrors(odf, resolution, free, dist)
      requires forall w :: w in free ==> w in dist
      ensures forall w :: IsValidVoxel(w) ==> CellAt(odf, w) == (if Free(w) then dist[w] else Inf)
    {
      forall w | IsValidVoxel(w)
        ensures CellAt(odf, w) == (if Free(w) then dist[w] else Inf)
      {
        assert odf.InRange(w.x, w.y, w.z);
        assert w in free <==> Free(w);
      }
    }

    /** The obstacle distance field: every free voxel gets the length of a shortest
        26-connected path through free voxels to the voxel of the object (objVoxel, the
        source's voxel_from_point(obj)); occupied voxels and free voxels no such path
        reaches keep INFINITY. What is proved: occupied voxels stay INFINITY, every value
        is a distance, the object's voxel gets 0 when it is free, and the result satisfies
        the triangle inequality of every free step, so no value exceeds the length of any
        free path from the object. */
    method GetODF(objVoxel: Voxel) returns (odf: Cube)
      requires Valid()
      ensures fresh(odf) && fresh(odf.cells)
      ensures odf.Valid() && odf.xSize == resolution && odf.ySize == resolution && odf.zSize == resolution
      ensures forall w :: IsValidVoxel(w) && !Free(w) ==> CellAt(odf, w) == Inf
      ensures forall w :: IsValidVoxel(w) ==> CellAt(odf, w).Nonnegative()
      ensures Free(objVoxel) ==> CellAt(odf, objVoxel) == Fin(0.0)
      ensures forall v, w :: Free(v) && Adjacent(v, w) && Free(w) ==>
                CellAt(odf, w).AtMost(CellAt(odf, v).Plus(Step(offsetDists, v, w)))
    {
      odf := new Cube(resolution, resolution, resolution);
      odf.SetAll(Inf);
      var free := FreeVoxels();
      var pq := QueueFree(free, objVoxel);
      ghost var dist := map w | w in free :: Inf;
      ghost var step := EdgeLengths();
      SweepStarts(step, free, pq, objVoxel);
      label Swept:
      ghost var popped;
      dist, popped := Propagate(odf, free, pq, objVoxel, step, dist);
      FreeListKept@Swept(free);
      SweepIsODF(odf, step, free, dist, popped, objVoxel);
    }

    /** One pass of the while loop of get_ODF: pops an entry of least key, fixes its
        distance and relaxes its free neighbours. The queue shrinks by one. */
    method SweepStep(odf: Cube, free: seq<Voxel>, queue: map<Voxel, ExtReal>, obj: Voxel, ghost step: (Voxel, Voxel) -> real,
                     ghost dist: map<Voxel, ExtReal>, ghost popped: set<Voxel>)
      returns (queue': map<Voxel, ExtReal>, ghost dist': map<Voxel, ExtReal>, ghost popped': set<Voxel>)
      requires odf.cells != TSDF.cells && FreeList(free) && Measures(step, offsetDists)
      requires forall w: Voxel :: w in free ==> odf.InRange(w.x, w.y, w.z)
      requires Sweep(step, free, dist, queue, popped, obj) && Mirrors(odf, resolution, free, dist) && |queue| > 0
      modifies odf.cells
      ensures |queue'| < |queue|
      ensures Sweep(step, free, dist', queue', popped', obj) && Mirrors(odf, resolution, free, dist')
    {
      var curr, d := Top(queue);
      var neighbors, dists := FreeNeighbors(curr, free, step);
      queue' := PopLeast(odf, resolution, step, free, dist, queue, popped, obj, curr, d);
      popped', dist' := popped + {curr}, dist[curr := d];
      queue', dist' := RelaxNeighbors(odf, resolution, step, free, dist', queue', popped', obj, curr, d, neighbors, dists);
    }

    /** The while loop of get_ODF, run until the queue is empty. */
    method Propagate(odf: Cube, free: seq<Voxel>, pq: map<Voxel, ExtReal>, obj: Voxel,
                     ghost step: (Voxel, Voxel) -> real, ghost dist: map<Voxel, ExtReal>)
      returns (ghost dist': map<Voxel, ExtReal>, ghost popped: set<Voxel>)
      requires odf.cells != TSDF.cells && FreeList(free) && Measures(step, offsetDists)
      requires forall w: Voxel :: w in free ==> odf.InRange(w.x, w.y, w.z)
      requires Sweep(step, free, dist, pq, {}, obj) && Mirrors(odf, resolution, free, dist)
      modifies odf.cells
      ensures Sweep(step, free, dist', map[], popped, obj) && Mirrors(odf, resolution, free, dist')
    {
      var queue := pq;
      dist', popped := dist, {};
      while |queue| > 0
        invariant Sweep(step, free, dist', queue, popped, obj) && Mirrors(odf, resolution, free, dist')
        decreases |queue|
      {
        queue, dist', popped := SweepStep(odf, free, queue, obj, step, dist', popped);
      }
      assert queue == map[];
    }
  }
}
