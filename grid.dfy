/**
 * The grid index mapper of HopSim: node ids are laid out row by row over a
 * grid that is numX columns wide, so id = y * numX + x.
 */
module Grid {

  /** A grid coordinate (column x, row y). */
  type Coord = (int, int)

  /**
   * Node id to coordinate (HopSim.__get2DIndex). Python's `%` and `//` agree
   * with Dafny's for a positive divisor, so this is exact for every id.
   */
  function To2D(numX: int, id: int): (c: Coord)
    requires numX > 0
    ensures 0 <= c.0 < numX
    ensures c.1 * numX + c.0 == id
  {
    (id % numX, id / numX)
  }

  /** Coordinate to node id (HopSim.__get1DIndex). */
  function To1D(numX: int, c: Coord): int
  {
    c.1 * numX + c.0
  }

  /** A coordinate inside the numX-by-numY grid. */
  predicate InGrid(numX: int, numY: int, c: Coord)
  {
    0 <= c.0 < numX && 0 <= c.1 < numY
  }

  /** Euclidean division has one quotient and one remainder. */
  lemma {:induction false} DivModUnique(numX: int, q: int, r: int, q': int, r': int)
    requires numX > 0 && 0 <= r < numX && 0 <= r' < numX
    requires q * numX + r == q' * numX + r'
    ensures q == q' && r == r'
  {
    var k := q - q';
    assert k * numX == r' - r;
    if k != 0 {
      MulAwayFromZero(k, numX);
      assert false;
    }
  }

  /** A non-zero multiple of n is at least n away from zero. */
  lemma {:induction false} MulAwayFromZero(k: int, n: int)
    requires n > 0 && k != 0
    ensures k * n >= n || k * n <= -n
    decreases if k < 0 then -k else k
  {
    if k > 1 {
      MulAwayFromZero(k - 1, n);
      assert k * n == (k - 1) * n + n;
    } else if k < -1 {
      MulAwayFromZero(k + 1, n);
      assert k * n == (k + 1) * n - n;
    }
  }

  /** A column inside the grid and any row survive id conversion. */
  lemma {:induction false} RoundTrip2D(numX: int, c: Coord)
    requires 0 <= c.0 < numX
    ensures To2D(numX, To1D(numX, c)) == c
  {
    var d := To2D(numX, To1D(numX, c));
    DivModUnique(numX, d.1, d.0, c.1, c.0);
  }

  /** Every id survives coordinate conversion. */
  lemma RoundTrip1D(numX: int, id: int)
    requires numX > 0
    ensures To1D(numX, To2D(numX, id)) == id
  {
  }

  /** Ids inside the grid are exactly the numbers 0 .. numX * numY - 1. */
  lemma {:induction false} InGridRange(numX: int, numY: int, id: int)
    requires numX > 0
    ensures InGrid(numX, numY, To2D(numX, id)) <==> 0 <= id < numX * numY
  {
    var c := To2D(numX, id);
    if 0 <= c.1 < numY {
      assert c.1 * numX + numX <= numY * numX by {
        assert (numY - c.1) * numX >= numX by { assert numY - c.1 >= 1; }
        assert (numY - c.1) * numX == numY * numX - c.1 * numX;
      }
    } else if c.1 < 0 {
      assert c.1 * numX <= -numX by {
        assert (-c.1) * numX >= numX by { assert -c.1 >= 1; }
      }
    } else {
      assert c.1 * numX >= numY * numX by {
        assert (c.1 - numY) * numX >= 0;
        assert (c.1 - numY) * numX == c.1 * numX - numY * numX;
      }
    }
  }

  /** Distinct grid coordinates have distinct ids. */
  lemma IdInjective(numX: int, c: Coord, d: Coord)
    requires 0 <= c.0 < numX && 0 <= d.0 < numX
    requires To1D(numX, c) == To1D(numX, d)
    ensures c == d
  {
    RoundTrip2D(numX, c);
    RoundTrip2D(numX, d);
  }
}
