/** lib/utils.ts: the host-language snapper and the colour jitter.
    A value snaps to the nearest multiple of the cell size found by
    rounding the quotient; `Math.round` sends half-way cases towards
    +infinity, unlike Rust's `f32::round`. */
module Utils {
  import WasmUtils
  import opened Vectors

  /** `Math.round`: the nearest integer, ties towards +infinity. */
  function MathRound(x: real): (n: int)
    ensures n as real - 0.5 <= x < n as real + 0.5
  {
    (x + 0.5).Floor
  }

  /** `snapToGrid`, with the unshown `GRID_SIZE` constant as a parameter. */
  function SnapToGrid(value: real, gridSize: real): (r: real)
    requires gridSize != 0.0
    ensures WasmUtils.OnGrid(r, gridSize)
  {
    var n := MathRound(value / gridSize);
    assert (n as real * gridSize) / gridSize == n as real;
    n as real * gridSize
  }

  lemma MathRoundOfInteger(n: int)
    ensures MathRound(n as real) == n
  {
  }

  lemma SnapIsRoundedMultiple(v: real, g: real)
    requires g != 0.0
    ensures SnapToGrid(v, g) / g == MathRound(v / g) as real
  {
  }

  lemma SnapIdempotent(v: real, g: real)
    requires g != 0.0
    ensures SnapToGrid(SnapToGrid(v, g), g) == SnapToGrid(v, g)
  {
    SnapIsRoundedMultiple(v, g);
    MathRoundOfInteger(MathRound(v / g));
  }

  lemma SnapWithinHalfCell(v: real, g: real)
    requires g > 0.0
    ensures -g / 2.0 <= SnapToGrid(v, g) - v <= g / 2.0
  {
    var q := v / g;
    var d := MathRound(q) as real - q;
    assert -0.5 <= d <= 0.5;
    assert v == q * g;
    assert SnapToGrid(v, g) - v == d * g;
    MulMonotone(d, 0.5, g);
    MulMonotone(-0.5, d, g);
  }

  /** Both half-way cases round up: half a cell snaps to one cell, minus half a
      cell snaps to zero, where the compiled backend gives minus one cell. */
  lemma SnapTiesTowardsPositive(g: real)
    requires g > 0.0
    ensures SnapToGrid(g / 2.0, g) == g
    ensures SnapToGrid(-g / 2.0, g) == 0.0
    ensures WasmUtils.SnapToGrid(-g / 2.0, g) == -g
  {
    assert (g / 2.0) / g == 0.5;
    assert (-g / 2.0) / g == -0.5;
    WasmUtils.SnapTiesAwayFromZero(g);
  }

  /** Away from negative half-way points, `Math.round` and `f32::round` agree. */
  lemma RoundsAgreeOffNegativeTies(q: real)
    requires !(q < 0.0 && q - q.Floor as real == 0.5)
    ensures MathRound(q) == WasmUtils.Round(q)
  {
    if q < 0.0 {
      var f := q.Floor;
      if q - f as real < 0.5 {
        assert MathRound(q) == f;
        assert WasmUtils.Round(q) == f;
      } else {
        assert MathRound(q) == f + 1;
        assert WasmUtils.Round(q) == f + 1;
      }
    }
  }

  /** The two snappers agree everywhere except on negative half-way points. */
  lemma SnapAgreesWithBackendOffNegativeTies(v: real, g: real)
    requires g != 0.0
    requires !(v / g < 0.0 && v / g - (v / g).Floor as real == 0.5)
    ensures SnapToGrid(v, g) == WasmUtils.SnapToGrid(v, g)
  {
    RoundsAgreeOffNegativeTies(v / g);
  }

  lemma SnapMonotone(a: real, b: real, g: real)
    requires g > 0.0 && a <= b
    ensures SnapToGrid(a, g) <= SnapToGrid(b, g)
  {
    DivMonotone(a, b, g);
    assert MathRound(a / g) <= MathRound(b / g);
    MulMonotone(MathRound(a / g) as real, MathRound(b / g) as real, g);
  }

  /** `getColorVariation`: one draw mapped linearly onto [0.7, 1.0). */
  function GetColorVariation(u: real): (c: real)
    requires Unit(u)
    ensures 0.7 <= c < 1.0
  {
    0.7 + u * 0.3
  }
}
