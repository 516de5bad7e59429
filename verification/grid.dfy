/**
 * The map grid the visualizer types cells in. MapGrid itself is not part of
 * this model; what is here is the contract the visualizer relies on: cells
 * addressed by whole-number (x, z), a setter that assigns a type and marks
 * the cell taken, and the row-major conversion between (x, z) and the flat
 * index of the obstacle bits.
 */
module Grid {
  import opened Snapshot

  datatype CellObjectType = Empty | Road | Obstacle | Start | Exit

  /** A cell's terrain role and whether it was already assigned one. */
  datatype Cell = Cell(objectType: CellObjectType, isTaken: bool)

  /** `cells[z][x]` is the cell at (x, z). */
  predicate WellFormed(cells: seq<seq<Cell>>, width: nat, length: nat)
  {
    |cells| == length && forall z :: 0 <= z < length ==> |cells[z]| == width
  }

  predicate InGrid(width: nat, length: nat, p: Position)
  {
    0 <= p.x < width && 0 <= p.z < length
  }

  /** The cells with the one at p replaced by c. */
  function WithCell(cells: seq<seq<Cell>>, width: nat, length: nat, p: Position, c: Cell): (r: seq<seq<Cell>>)
    requires WellFormed(cells, width, length) && InGrid(width, length, p)
    ensures WellFormed(r, width, length)
    ensures r[p.z][p.x] == c
    ensures forall z, x :: 0 <= z < length && 0 <= x < width && (z != p.z || x != p.x) ==> r[z][x] == cells[z][x]
  {
    cells[p.z := cells[p.z][p.x := c]]
  }

  /** CalculateIndexFromCoordinates: row-major, one row of `width` bits per z. */
  function IndexFromCoordinates(width: nat, x: int, z: int): int
  {
    x + z * width
  }

  /** CalculateCoordinatesFromIndex. */
  function CoordinatesFromIndex(width: nat, i: int): Position
    requires width > 0
  {
    Position(i % width, i / width)
  }

  /** Unique quotient and remainder: if n = z * w + x with 0 <= x < w then
      n / w = z and n % w = x. */
  lemma {:induction false} DivModUnique(n: int, w: int, z: int, x: int)
    requires w > 0 && 0 <= x < w && n == z * w + x
    ensures n / w == z && n % w == x
  {
    var q, r := n / w, n % w;
    var d := q - z;
    assert d * w == x - r;
    if d > 0 {
      NonNegativeProduct(d - 1, w);
    } else if d < 0 {
      NonNegativeProduct(-d - 1, w);
    }
  }

  lemma NonNegativeProduct(a: int, b: int)
    requires a >= 0 && b >= 0
    ensures a * b >= 0
  {
  }

  /** Bounds of the flat index of an in-grid position. */
  lemma IndexBounds(width: nat, length: nat, x: int, z: int)
    requires 0 <= x < width && 0 <= z < length
    ensures 0 <= IndexFromCoordinates(width, x, z) < width * length
  {
    assert z * width <= (length - 1) * width;
    assert (length - 1) * width + width == length * width;
  }

  /** Every in-grid position survives the trip to a flat index and back, and
      the index addresses one of the `width * length` bits. */
  lemma {:induction false} IndexRoundTrip(width: nat, length: nat, x: int, z: int)
    requires 0 <= x < width && 0 <= z < length
    ensures 0 <= IndexFromCoordinates(width, x, z) < width * length
    ensures CoordinatesFromIndex(width, IndexFromCoordinates(width, x, z)) == Position(x, z)
  {
    IndexBounds(width, length, x, z);
    DivModUnique(x + z * width, width, z, x);
  }

  /** Every flat index of a `width * length` grid survives the trip to a
      position and back, and that position lies inside the grid. */
  lemma {:induction false} CoordinatesRoundTrip(width: nat, length: nat, i: int)
    requires width > 0 && 0 <= i < width * length
    ensures InGrid(width, length, CoordinatesFromIndex(width, i))
    ensures IndexFromCoordinates(width, i % width, i / width) == i
  {
    var q, r := i / width, i % width;
    assert i == q * width + r;
    if q >= length {
      assert q * width >= length * width;
    }
  }

  /** Distinct flat indices name distinct positions. */
  lemma {:induction false} CoordinatesInjective(width: nat, i: int, j: int)
    requires width > 0 && 0 <= i && 0 <= j && i != j
    ensures CoordinatesFromIndex(width, i) != CoordinatesFromIndex(width, j)
  {
    assert i == (i / width) * width + i % width;
    assert j == (j / width) * width + j % width;
  }

  /** The grid object: fixed dimensions and the cell table. */
  class MapGrid {
    const width: nat
    const length: nat
    var cells: seq<seq<Cell>>

    ghost predicate Valid()
      reads this
    {
      width > 0 && WellFormed(cells, width, length)
    }

    /** A grid of untaken empty cells. */
    constructor (width: nat, length: nat)
      requires width > 0
      ensures Valid() && this.width == width && this.length == length
      ensures forall z, x :: 0 <= z < length && 0 <= x < width ==> cells[z][x] == Cell(Empty, false)
    {
      this.width := width;
      this.length := length;
      cells := seq(length, _ => seq(width, _ => Cell(Empty, false)));
    }

    /** SetCell: assigns the type and marks the cell taken; nothing else in
        the grid changes. */
    method SetCell(x: int, z: int, objectType: CellObjectType)
      requires Valid() && InGrid(width, length, Position(x, z))
      modifies this
      ensures Valid()
      ensures cells == WithCell(old(cells), width, length, Position(x, z), Cell(objectType, true))
    {
      cells := WithCell(cells, width, length, Position(x, z), Cell(objectType, true));
    }
  }
}
