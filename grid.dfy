/** Grid snapping of canvas coordinates.

    The application rounds a coordinate to the nearest multiple of the grid size,
    40 pixels, with the browser's `Math.round`, which rounds half-way values toward
    positive infinity: `Math.round(-1.5) == -1`, `Math.round(1.5) == 2`.
    Coordinates are modelled as exact reals; floating-point error is not modelled.
 */
module Grid {

  /** The grid size: the default of `snapToGrid`, which every caller uses. */
  const GridSize: real := 40.0

  function Abs(x: real): real { if x < 0.0 then -x else x }

  /** `Math.round`: the integer nearest to `x`, ties going up. */
  function Round(x: real): (n: int)
    ensures n as real - 0.5 <= x < n as real + 0.5
  {
    (x + 0.5).Floor
  }

  /** The window property determines `Round` uniquely. */
  lemma RoundUnique(x: real, n: int)
    requires n as real - 0.5 <= x < n as real + 0.5
    ensures Round(x) == n
  {
  }

  /** Rounding sends half-way values up, not away from zero. */
  lemma RoundHalfUp(k: int)
    ensures Round(k as real + 0.5) == k + 1
    ensures Round(k as real - 0.5) == k
  {
  }

  /** `v` is an integer multiple of the grid size. */
  predicate OnGrid(v: real) {
    (v / GridSize).Floor as real == v / GridSize
  }

  /** `snapToGrid(value)`: `Math.round(value / 40) * 40`. The result is a grid
      line within half a cell of `v`, a half-way `v` going to the line above. */
  function Snap(v: real): (r: real)
    ensures OnGrid(r)
    ensures r - GridSize / 2.0 <= v < r + GridSize / 2.0
  {
    var n := Round(v / GridSize);
    assert (n as real * GridSize) / GridSize == n as real;
    n as real * GridSize
  }

  /** Snapping a value already on the grid leaves it where it is. */
  lemma SnapFixesGrid(v: real)
    requires OnGrid(v)
    ensures Snap(v) == v
  {
    RoundUnique(v / GridSize, (v / GridSize).Floor);
  }

  /** Snapping is idempotent. */
  lemma SnapIdempotent(v: real)
    ensures Snap(Snap(v)) == Snap(v)
  {
    SnapFixesGrid(Snap(v));
  }

  /** Conversely, the grid line whose half-open window holds `v` is the one `v`
      snaps to: with the contract of `Snap`, it is the nearest grid line, ties going up. */
  lemma SnapWindowUnique(v: real, r: real)
    requires OnGrid(r)
    requires r - GridSize / 2.0 <= v < r + GridSize / 2.0
    ensures Snap(v) == r
  {
    RoundUnique(v / GridSize, (r / GridSize).Floor);
  }

  /** No grid line is nearer to `v` than the one it snaps to. */
  lemma SnapNearest(v: real, k: int)
    ensures Abs(v - Snap(v)) <= Abs(v - k as real * GridSize)
  {
    var n := Round(v / GridSize);
    assert Snap(v) == n as real * GridSize;
    if k < n {
      assert k as real * GridSize <= n as real * GridSize - GridSize;
    } else if k > n {
      assert k as real * GridSize >= n as real * GridSize + GridSize;
    }
  }

  /** Snapping is monotone. */
  lemma SnapMonotone(v: real, w: real)
    requires v <= w
    ensures Snap(v) <= Snap(w)
  {
    RoundMonotone(v / GridSize, w / GridSize);
  }

  lemma RoundMonotone(x: real, y: real)
    requires x <= y
    ensures Round(x) <= Round(y)
  {
  }

  /** Negative drag coordinates round toward positive infinity at the half-way
      point: -20 goes to 0 and -60 to -40, not to -40 and -80. */
  lemma SnapNegativeHalfway()
    ensures Snap(-20.0) == 0.0 && Snap(-60.0) == -40.0 && Snap(20.0) == 40.0
  {
    RoundHalfUp(-1);
    RoundHalfUp(-2);
    RoundHalfUp(0);
  }
}
