/** wasm-lib/src/utils.rs: grid snapping of the compiled backend.
    A value snaps to the rounded quotient by the cell size times the cell
    size, where Rust's `f32::round` rounds half-way cases away from zero. */
module WasmUtils {
  import opened Vectors

  /** `f32::round`: the nearest integer, ties away from zero. */
  function Round(x: real): (n: int)
    ensures x >= 0.0 ==> n as real - 0.5 <= x < n as real + 0.5
    ensures x < 0.0 ==> n as real - 0.5 < x <= n as real + 0.5
  {
    if x >= 0.0 then (x + 0.5).Floor else -((0.5 - x).Floor)
  }

  /** A value lies on the lattice of step `g` when it is an integer multiple of `g`. */
  predicate OnGrid(v: real, g: real)
    requires g != 0.0
  {
    (v / g).Floor as real == v / g
  }

  function SnapToGrid(value: real, gridSize: real): (r: real)
    requires gridSize != 0.0
    ensures OnGrid(r, gridSize)
  {
    var n := Round(value / gridSize);
    assert (n as real * gridSize) / gridSize == n as real;
    n as real * gridSize
  }

  /** The integer multiple chosen by `SnapToGrid` is the rounded quotient. */
  lemma SnapIsRoundedMultiple(v: real, g: real)
    requires g != 0.0
    ensures SnapToGrid(v, g) / g == Round(v / g) as real
  {
  }

  /** Rounding an integer gives that integer back. */
  lemma RoundOfInteger(n: int)
    ensures Round(n as real) == n
  {
  }

  /** Snapping twice is snapping once. */
  lemma SnapIdempotent(v: real, g: real)
    requires g != 0.0
    ensures SnapToGrid(SnapToGrid(v, g), g) == SnapToGrid(v, g)
  {
    var n := Round(v / g);
    SnapIsRoundedMultiple(v, g);
    RoundOfInteger(n);
  }

  /** The snapped value is never more than half a cell from the input. */
  lemma SnapWithinHalfCell(v: real, g: real)
    requires g > 0.0
    ensures -g / 2.0 <= SnapToGrid(v, g) - v <= g / 2.0
  {
    var q := v / g;
    var n := Round(q);
    var d := n as real - q;
    assert -0.5 <= d <= 0.5;
    assert v == q * g;
    assert SnapToGrid(v, g) - v == d * g;
    MulMonotone(d, 0.5, g);
    MulMonotone(-0.5, d, g);
  }

  /** Half-way cases go away from zero: half a cell up snaps to one cell, half a
      cell down snaps to minus one cell. */
  lemma SnapTiesAwayFromZero(g: real)
    requires g > 0.0
    ensures SnapToGrid(g / 2.0, g) == g
    ensures SnapToGrid(-g / 2.0, g) == -g
  {
    assert (g / 2.0) / g == 0.5;
    assert (-g / 2.0) / g == -0.5;
  }

  lemma RoundMonotone(a: real, b: real)
    requires a <= b
    ensures Round(a) <= Round(b)
  {
  }

  /** A larger input never snaps to a smaller value. */
  lemma SnapMonotone(a: real, b: real, g: real)
    requires g > 0.0 && a <= b
    ensures SnapToGrid(a, g) <= SnapToGrid(b, g)
  {
    DivMonotone(a, b, g);
    RoundMonotone(a / g, b / g);
    MulMonotone(Round(a / g) as real, Round(b / g) as real, g);
  }
}
