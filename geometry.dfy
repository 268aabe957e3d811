/** Points of a chessboard calibration: detected 2D image corners and the
    canonical 3D object grid that every successful observation is paired with. */
module Geometry {

  /** A detected image corner. Only its identity and its position in a list
      matter to the bookkeeping, so the coordinates are kept as reals. */
  datatype Point2 = Point2(x: real, y: real)

  /** An object point. The source stores integer-valued floats (the row and
      column index of a grid corner and a zero depth); they are kept exact. */
  datatype Point3 = Point3(x: int, y: int, z: int)

  /** Number of iterations of `for (i = 0; i < nx*ny; ++i)`: none when the
      product is not positive. */
  function GridSize(nx: int, ny: int): (n: nat)
    ensures n > 0 ==> n == nx * ny && nx != 0 && ny != 0
    ensures nx * ny >= 0 ==> n == nx * ny
  {
    if nx * ny > 0 then nx * ny else 0
  }

  /** The i-th object point: row i / nx, column i % nx, depth 0. For i >= 0,
      C++'s truncating `/` and `%` agree with Dafny's Euclidean ones. */
  function GridPoint(nx: int, i: nat): Point3
    requires nx != 0
  {
    Point3(i / nx, i % nx, 0)
  }

  /** The object-point list appended by one successful compute. */
  function ObjectGrid(nx: int, ny: int): (g: seq<Point3>)
    ensures |g| == GridSize(nx, ny)
  {
    var n := GridSize(nx, ny);
    seq(n, i requires 0 <= i < n => GridPoint(nx, i))
  }

  /** The loop of the source that fills `obj`, one push_back per index. */
  method BuildObjectPoints(nx: int, ny: int) returns (obj: seq<Point3>)
    ensures obj == ObjectGrid(nx, ny)
  {
    obj := [];
    var i := 0;
    while i < nx * ny
      invariant 0 <= i <= GridSize(nx, ny)
      invariant obj == ObjectGrid(nx, ny)[..i]
    {
      obj := obj + [GridPoint(nx, i)];
      i := i + 1;
    }
  }

  /** Row and column recover the index: the grid is laid out row-major. */
  lemma GridPointIndex(nx: int, i: nat)
    requires nx != 0
    ensures GridPoint(nx, i).x * nx + GridPoint(nx, i).y == i
    ensures 0 <= GridPoint(nx, i).y < if nx > 0 then nx else -nx
  {
  }

  /** For a positive grid every object point lies inside it: the first
      coordinate in [0, ny), the second in [0, nx), the third zero. */
  lemma GridPointInRange(nx: int, ny: int, i: nat)
    requires nx > 0 && ny > 0 && i < nx * ny
    ensures 0 <= GridPoint(nx, i).x < ny
    ensures 0 <= GridPoint(nx, i).y < nx
    ensures GridPoint(nx, i).z == 0
  {
    GridPointIndex(nx, i);
    var p := GridPoint(nx, i);
    if p.x >= ny {
      MulMonotone(ny, p.x, nx);
    }
  }

  /** Distinct indices give distinct object points. */
  lemma GridPointInjective(nx: int, i: nat, j: nat)
    requires nx != 0 && i != j
    ensures GridPoint(nx, i) != GridPoint(nx, j)
  {
    GridPointIndex(nx, i);
    GridPointIndex(nx, j);
  }

  /** Every corner (row, col) of a positive grid occurs in the object list,
      at the row-major position row * nx + col. */
  lemma ObjectGridCovers(nx: int, ny: int, row: int, col: int)
    requires nx > 0 && ny > 0
    requires 0 <= row < ny && 0 <= col < nx
    ensures row * nx + col < |ObjectGrid(nx, ny)|
    ensures ObjectGrid(nx, ny)[row * nx + col] == Point3(row, col, 0)
  {
    MulMonotone(row + 1, ny, nx);
    assert (row + 1) * nx == row * nx + nx;
    DivModUnique(row * nx + col, nx, row, col);
  }

  /** Division by a positive divisor has one quotient and remainder. */
  lemma DivModUnique(i: int, n: int, q: int, r: int)
    requires n > 0 && 0 <= r < n && i == q * n + r
    ensures i / n == q && i % n == r
  {
    var q' := i / n;
    assert i == q' * n + i % n;
    if q' < q {
      MulMonotone(q' + 1, q, n);
    } else if q' > q {
      MulMonotone(q + 1, q', n);
    }
  }

  /** Multiplying by a positive factor keeps the order. */
  lemma MulMonotone(a: int, b: int, n: int)
    requires a <= b && n > 0
    ensures a * n <= b * n
  {
  }
}
