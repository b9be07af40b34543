/** Small shared vocabulary: optional values, vectors of reals and the sums the planners use. */
module Common {

  datatype Option<T> = None | Some(value: T)

  /** A column vector of the source's Matrix<n> type. */
  type Vec = seq<real>

  /** The MAX macro of the source. */
  function Max(a: real, b: real): (r: real)
    ensures r >= a && r >= b
    ensures r == a || r == b
  {
    if a > b then a else b
  }

  /** The MIN macro of the source. */
  function Min(a: real, b: real): (r: real)
    ensures r <= a && r <= b
    ensures r == a || r == b
  {
    if a < b then a else b
  }

  /** fabs */
  function Abs(x: real): (r: real)
    ensures r >= 0.0
    ensures r == x || r == -x
  {
    if x < 0.0 then -x else x
  }

  /** Entry i of a fixed-size buffer handed back by an external routine; entries past
      the end of a short result read as 0 (the C++ buffers always have the full size). */
  function At(v: Vec, i: nat): real
  {
    if i < |v| then v[i] else 0.0
  }

  /** Stage t of a per-stage buffer list such as a solver output (empty past the end). */
  function StageOf(z: seq<Vec>, t: nat): Vec
  {
    if t < |z| then z[t] else []
  }

  /** [f(0), ..., f(n-1)] */
  function Tabulate(n: nat, f: nat -> real): (r: Vec)
    ensures |r| == n
    ensures forall i :: 0 <= i < n ==> r[i] == f(i)
  {
    seq(n, i requires 0 <= i => f(i))
  }

  /** n copies of v */
  function Fill(n: nat, v: real): (r: Vec)
    ensures |r| == n
    ensures forall i :: 0 <= i < n ==> r[i] == v
  {
    Tabulate(n, _ => v)
  }

  /** Sum of the entries, accumulated from the front as the source's loops do. */
  function Sum(s: seq<real>): real
  {
    if |s| == 0 then 0.0 else Sum(s[..|s| - 1]) + s[|s| - 1]
  }

  /** L1 norm, accumulated from the front. */
  function SumAbs(s: seq<real>): (r: real)
    ensures r >= 0.0
  {
    if |s| == 0 then 0.0 else SumAbs(s[..|s| - 1]) + Abs(s[|s| - 1])
  }

  /** Inner product. */
  function Dot(a: Vec, b: Vec): real
    requires |a| == |b|
  {
    if |a| == 0 then 0.0 else Dot(a[..|a| - 1], b[..|b| - 1]) + a[|a| - 1] * b[|b| - 1]
  }

  /** Sum of squares, tr(~u * u) for a column u. */
  function SumSq(a: Vec): (r: real)
    ensures r >= 0.0
  {
    if |a| == 0 then 0.0 else SumSq(a[..|a| - 1]) + a[|a| - 1] * a[|a| - 1]
  }

  /** z' diag(h) z */
  function DiagQuad(h: Vec, z: Vec): real
    requires |h| == |z|
  {
    if |h| == 0 then 0.0
    else DiagQuad(h[..|h| - 1], z[..|z| - 1]) + h[|h| - 1] * z[|z| - 1] * z[|z| - 1]
  }

  lemma {:induction false} DiagQuadAppend(h1: Vec, h2: Vec, z1: Vec, z2: Vec)
    requires |h1| == |z1| && |h2| == |z2|
    ensures DiagQuad(h1 + h2, z1 + z2) == DiagQuad(h1, z1) + DiagQuad(h2, z2)
    decreases |h2|
  {
    if |h2| > 0 {
      assert (h1 + h2)[..|h1 + h2| - 1] == h1 + h2[..|h2| - 1];
      assert (z1 + z2)[..|z1 + z2| - 1] == z1 + z2[..|z2| - 1];
      DiagQuadAppend(h1, h2[..|h2| - 1], z1, z2[..|z2| - 1]);
    } else {
      assert h1 + h2 == h1 && z1 + z2 == z1;
    }
  }

  lemma {:induction false} SumAppend(a: seq<real>, b: seq<real>)
    ensures Sum(a + b) == Sum(a) + Sum(b)
    decreases |b|
  {
    if |b| == 0 {
      assert a + b == a;
    } else {
      assert (a + b)[..|a + b| - 1] == a + b[..|b| - 1];
      SumAppend(a, b[..|b| - 1]);
    }
  }

  lemma {:induction false} SumAbsAppend(a: seq<real>, b: seq<real>)
    ensures SumAbs(a + b) == SumAbs(a) + SumAbs(b)
    decreases |b|
  {
    if |b| == 0 {
      assert a + b == a;
    } else {
      assert (a + b)[..|a + b| - 1] == a + b[..|b| - 1];
      SumAbsAppend(a, b[..|b| - 1]);
    }
  }

  lemma {:induction false} DotAppend(a: Vec, b: Vec, c: Vec, d: Vec)
    requires |a| == |c| && |b| == |d|
    ensures Dot(a + b, c + d) == Dot(a, c) + Dot(b, d)
    decreases |b|
  {
    if |b| == 0 {
      assert a + b == a && c + d == c;
    } else {
      assert (a + b)[..|a + b| - 1] == a + b[..|b| - 1];
      assert (c + d)[..|c + d| - 1] == c + d[..|d| - 1];
      DotAppend(a, b[..|b| - 1], c, d[..|d| - 1]);
    }
  }

  /** Inner product with a constant vector scales the sum. */
  lemma {:induction false} DotConst(c: real, z: Vec)
    ensures Dot(Fill(|z|, c), z) == c * Sum(z)
    decreases |z|
  {
    if |z| > 0 {
      var n := |z| - 1;
      assert Fill(|z|, c)[..n] == Fill(n, c);
      DotConst(c, z[..n]);
    }
  }

  /** s times the j-th unit vector of length n (the zero vector when j is out of range). */
  function ScaledUnit(n: nat, j: int, s: real): (e: Vec)
    ensures |e| == n
  {
    Tabulate(n, (c: nat) => if c == j then s else 0.0)
  }

  /** Inner product with a scaled unit vector picks one entry. */
  lemma {:induction false} DotScaledUnit(n: nat, j: int, s: real, z: Vec)
    requires |z| == n
    ensures Dot(ScaledUnit(n, j, s), z) == if 0 <= j < n then s * z[j] else 0.0
    decreases n
  {
    if n > 0 {
      var m := n - 1;
      assert ScaledUnit(n, j, s)[..m] == ScaledUnit(m, j, s);
      DotScaledUnit(m, j, s, z[..m]);
      if 0 <= j < m {
        assert z[..m][j] == z[j];
      }
    }
  }

  /** One step of an accumulator that adds a plain term and a scaled term. */
  lemma ScaledAccumulate(p: real, c0: real, v0: real, sc: real, s: real, c1: real, v1: real, before: real, after: real)
    requires c1 == c0 + sc && v1 == v0 + s
    requires before == c0 + p * v0
    requires after == before + sc + p * s
    ensures after == c1 + p * v1
  {
    assert p * v1 == p * v0 + p * s;
  }

  lemma ZeroTimes(r: real)
    ensures 0.0 * r == 0.0 && r * 0.0 == 0.0
  {
  }

  /** A sum over a prefix extended by one element. */
  lemma SumPrefixStep(s: seq<real>, i: nat)
    requires i < |s|
    ensures Sum(s[..i + 1]) == Sum(s[..i]) + s[i]
  {
    assert s[..i + 1][..i] == s[..i];
  }
}

/** Facts about flattened two-dimensional indices (row * width + column). */
module Index {

  lemma DivModUnique(q: int, r: int, n: int)
    requires n > 0 && 0 <= r < n && q >= 0
    ensures (q * n + r) / n == q
    ensures (q * n + r) % n == r
  {
    var k := q * n + r;
    SmallMultiple(n, k / n - q, r - k % n);
  }

  lemma SmallMultiple(n: int, m: int, d: int)
    requires n > 0 && n * m == d && -n < d < n
    ensures m == 0
  {
  }

  /** Position of (row, column) in a row-major buffer of the given width. */
  function Flat(row: int, col: int, width: int): int
  {
    col + row * width
  }

  /** Distinct cells of a row-major buffer have distinct positions. */
  lemma FlatInjective(r1: int, c1: int, r2: int, c2: int, width: int)
    requires 0 <= r1 && 0 <= r2 && 0 <= c1 < width && 0 <= c2 < width
    requires Flat(r1, c1, width) == Flat(r2, c2, width)
    ensures r1 == r2 && c1 == c2
  {
    DivModUnique(r1, c1, width);
    DivModUnique(r2, c2, width);
  }

  /** row * width + column lies below rows * width */
  lemma FlatBound(row: int, col: int, rows: int, width: int)
    requires 0 <= row < rows && 0 <= col < width
    ensures 0 <= row * width + col < rows * width
  {
    assert row * width <= (rows - 1) * width;
  }

  /** A flat index below rows * width splits into a row below rows and a column below width. */
  lemma Split(k: int, rows: int, width: int)
    requires width > 0 && 0 <= k < rows * width
    ensures 0 <= k / width < rows && 0 <= k % width < width
    ensures k == (k / width) * width + k % width
  {
  }
}

/** Per-stage buffers: the source keeps one C array per time step (H[t], lb[t], ...). */
module Buffers {
  import opened Common

  /** no two stages share storage */
  ghost predicate Distinct(bufs: seq<array<real>>)
  {
    forall i, j :: 0 <= i < j < |bufs| ==> bufs[i] != bufs[j]
  }

  /** two families of stage buffers share no storage */
  ghost predicate Disjoint(a: seq<array<real>>, b: seq<array<real>>)
  {
    forall i, j :: 0 <= i < |a| && 0 <= j < |b| ==> a[i] != b[j]
  }

  ghost function Footprint(bufs: seq<array<real>>): set<array<real>>
  {
    set t | 0 <= t < |bufs| :: bufs[t]
  }

  /** for(i < n) a[index++] = f(i); returns the index after the run */
  method WriteRun(a: array<real>, start: nat, n: nat, f: nat -> real) returns (next: nat)
    requires start + n <= a.Length
    modifies a
    ensures next == start + n
    ensures forall k :: start <= k < next ==> a[k] == f(k - start)
    ensures forall k :: 0 <= k < a.Length && !(start <= k < next) ==> a[k] == old(a[k])
  {
    next := start;
    for i := 0 to n
      invariant next == start + i
      invariant forall k :: start <= k < next ==> a[k] == f(k - start)
      invariant forall k :: 0 <= k < a.Length && !(start <= k < next) ==> a[k] == old(a[k])
    {
      a[next] := f(i);
      next := next + 1;
    }
  }

  /** for(i < |v|) a[i] = v[i] */
  method WriteVec(a: array<real>, v: Vec)
    requires |v| <= a.Length
    modifies a
    ensures a[..|v|] == v
    ensures a[|v|..] == old(a[|v|..])
  {
    var next := WriteRun(a, 0, |v|, (i: nat) => At(v, i));
    assert forall k :: 0 <= k < |v| ==> a[k] == v[k];
  }
}
