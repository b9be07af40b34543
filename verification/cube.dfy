/** The dense 3-D grid of doubles behind the voxel map: an x_size * y_size * z_size
    block stored flat, cell (x, y, z) at z + y*z_size + x*(y_size*z_size). */
module Cubes {
  import Index

  /** A double of the grid: a finite value or +INFINITY (the distance of a voxel no
      free path reaches). */
  datatype ExtReal = Fin(value: real) | Inf
  {
    /** this < other, as IEEE comparison orders them */
    predicate Below(other: ExtReal)
    {
      match this
      case Inf => false
      case Fin(a) => other.Inf? || a < other.value
    }

    /** this <= other */
    predicate AtMost(other: ExtReal)
    {
      !other.Below(this)
    }

    /** a distance: INFINITY or a finite value that is not negative */
    predicate Nonnegative()
    {
      Inf? || value >= 0.0
    }

    /** this + w; INFINITY absorbs any finite w */
    function Plus(w: real): ExtReal
    {
      match this
      case Inf => Inf
      case Fin(a) => Fin(a + w)
    }
  }

  /** this + w is never below this when w >= 0: a relaxed distance never undercuts the
      distance it extends. */
  lemma PlusNotBelow(a: ExtReal, w: real)
    requires w >= 0.0
    ensures !a.Plus(w).Below(a)
  {
  }

  /** Below is transitive and irreflexive, so a least element is well defined. */
  lemma BelowOrder(a: ExtReal, b: ExtReal, c: ExtReal)
    ensures !a.Below(a)
    ensures a.Below(b) && b.Below(c) ==> a.Below(c)
    ensures a.Below(b) ==> !b.Below(a)
  {
  }

  /** Position of cell (x, y, z) in the flat storage of a cube with the given y and z
      sizes. */
  function CellIndex(x: int, y: int, z: int, ySize: int, zSize: int): int
  {
    z + y * zSize + x * (ySize * zSize)
  }

  /** The cell index is row-major flattening applied twice: (x, y) first, then z. */
  lemma CellIndexFlat(x: int, y: int, z: int, ySize: int, zSize: int)
    ensures CellIndex(x, y, z, ySize, zSize) == Index.Flat(Index.Flat(x, y, ySize), z, zSize)
  {
    calc {
      Index.Flat(Index.Flat(x, y, ySize), z, zSize);
      z + (y + x * ySize) * zSize;
      { assert (y + x * ySize) * zSize == y * zSize + (x * ySize) * zSize; }
      z + y * zSize + (x * ySize) * zSize;
      { assert (x * ySize) * zSize == x * (ySize * zSize); }
      CellIndex(x, y, z, ySize, zSize);
    }
  }

  /** In-range coordinates land inside the storage. */
  lemma CellIndexBound(x: int, y: int, z: int, xSize: nat, ySize: nat, zSize: nat)
    requires 0 <= x < xSize && 0 <= y < ySize && 0 <= z < zSize
    ensures 0 <= CellIndex(x, y, z, ySize, zSize) < xSize * ySize * zSize
  {
    CellIndexFlat(x, y, z, ySize, zSize);
    Index.FlatBound(x, y, xSize, ySize);
    Index.FlatBound(Index.Flat(x, y, ySize), z, xSize * ySize, zSize);
  }

  /** Distinct in-range cells have distinct positions. */
  lemma CellIndexInjective(x1: int, y1: int, z1: int, x2: int, y2: int, z2: int, xSize: nat, ySize: nat, zSize: nat)
    requires 0 <= x1 < xSize && 0 <= y1 < ySize && 0 <= z1 < zSize
    requires 0 <= x2 < xSize && 0 <= y2 < ySize && 0 <= z2 < zSize
    requires CellIndex(x1, y1, z1, ySize, zSize) == CellIndex(x2, y2, z2, ySize, zSize)
    ensures x1 == x2 && y1 == y2 && z1 == z2
  {
    CellIndexFlat(x1, y1, z1, ySize, zSize);
    CellIndexFlat(x2, y2, z2, ySize, zSize);
    Index.FlatBound(x1, y1, xSize, ySize);
    Index.FlatBound(x2, y2, xSize, ySize);
    Index.FlatInjective(Index.Flat(x1, y1, ySize), z1, Index.Flat(x2, y2, ySize), z2, zSize);
    Index.FlatInjective(x1, y1, x2, y2, ySize);
  }

  class Cube {
    const xSize: nat
    const ySize: nat
    const zSize: nat
    /** the flat storage (the source's VectorXd member) */
    const cells: array<ExtReal>

    ghost predicate Valid()
      reads this
    {
      cells.Length == xSize * ySize * zSize
    }

    /** the coordinates get and set assert */
    predicate InRange(x: int, y: int, z: int)
      reads this
    {
      0 <= x < xSize && 0 <= y < ySize && 0 <= z < zSize
    }

    /** Cube(x, y, z): a zero-filled block of the given sizes. */
    constructor(x: nat, y: nat, z: nat)
      ensures Valid() && fresh(cells)
      ensures xSize == x && ySize == y && zSize == z
      ensures forall k :: 0 <= k < cells.Length ==> cells[k] == Fin(0.0)
    {
      xSize, ySize, zSize := x, y, z;
      cells := new ExtReal[x * y * z](_ => Fin(0.0));
    }

    /** Cube(): the empty block. */
    constructor Empty()
      ensures Valid() && xSize == 0 && ySize == 0 && zSize == 0
    {
      xSize, ySize, zSize := 0, 0, 0;
      cells := new ExtReal[0];
    }

    function Get(x: int, y: int, z: int): ExtReal
      requires Valid() && InRange(x, y, z)
      reads this, cells
    {
      CellIndexBound(x, y, z, xSize, ySize, zSize);
      cells[CellIndex(x, y, z, ySize, zSize)]
    }

    /** Writes exactly cell (x, y, z). */
    method Set(x: int, y: int, z: int, val: ExtReal)
      requires Valid() && InRange(x, y, z)
      modifies cells
      ensures Get(x, y, z) == val
      ensures forall i, j, k :: InRange(i, j, k) && (i, j, k) != (x, y, z) ==> Get(i, j, k) == old(Get(i, j, k))
    {
      CellIndexBound(x, y, z, xSize, ySize, zSize);
      cells[CellIndex(x, y, z, ySize, zSize)] := val;
      forall i, j, k | InRange(i, j, k) && (i, j, k) != (x, y, z)
        ensures CellIndex(i, j, k, ySize, zSize) != CellIndex(x, y, z, ySize, zSize)
      {
        if CellIndex(i, j, k, ySize, zSize) == CellIndex(x, y, z, ySize, zSize) {
          CellIndexInjective(i, j, k, x, y, z, xSize, ySize, zSize);
        }
      }
    }

    /** Every cell becomes val. */
    method SetAll(val: ExtReal)
      requires Valid()
      modifies cells
      ensures forall k :: 0 <= k < cells.Length ==> cells[k] == val
      ensures forall i, j, k :: InRange(i, j, k) ==> Get(i, j, k) == val
    {
      for n := 0 to xSize * ySize * zSize
        invariant forall k :: 0 <= k < n ==> cells[k] == val
      {
        cells[n] := val;
      }
      forall i, j, k | InRange(i, j, k)
        ensures Get(i, j, k) == val
      {
        CellIndexBound(i, j, k, xSize, ySize, zSize);
      }
    }
  }
}
