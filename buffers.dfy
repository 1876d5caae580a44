/** The flat-buffer particle step shared by the compiled backend
    (wasm-lib/src/lib.rs, `update_particles`) and the fixed-step renderer
    (lib/three/animation.ts, `updateParticles`): velocities are stride 3
    `[vx, vy, vz, ...]`, positions stride 2 `[x, y, ...]`, and particle `j`
    first loses `gravity` on `vy`, then moves by its new `(vx, vy)`. */
module Buffers {

  datatype Buffers = Buffers(velocities: seq<real>, positions: seq<real>)

  /** The buffers the step may index for `n` particles: velocity slots up to
      `3n - 2` and position slots up to `2n - 1`. */
  predicate Fits(s: Buffers, n: nat) {
    3 * n <= |s.velocities| + 1 && 2 * n <= |s.positions|
  }

  /** Particle `j` alone: `vy -= gravity`, then `x += vx`, `y += vy`. */
  function ParticleStep(q: Buffers, j: nat, gravity: real): (r: Buffers)
    requires 3 * j + 1 < |q.velocities| && 2 * j + 1 < |q.positions|
    ensures |r.velocities| == |q.velocities| && |r.positions| == |q.positions|
  {
    var j3, j2 := 3 * j, 2 * j;
    var vy := q.velocities[j3 + 1] - gravity;
    Buffers(q.velocities[j3 + 1 := vy],
            q.positions[j2 := q.positions[j2] + q.velocities[j3]][j2 + 1 := q.positions[j2 + 1] + vy])
  }

  /** What one particle's step writes. */
  lemma ParticleStepWrites(q: Buffers, j: nat, gravity: real)
    requires 3 * j + 1 < |q.velocities| && 2 * j + 1 < |q.positions|
    ensures var r := ParticleStep(q, j, gravity);
      && r.velocities[3 * j + 1] == q.velocities[3 * j + 1] - gravity
      && r.positions[2 * j] == q.positions[2 * j] + q.velocities[3 * j]
      && r.positions[2 * j + 1] == q.positions[2 * j + 1] + (q.velocities[3 * j + 1] - gravity)
  {
  }

  /** One particle's step changes no other slot. */
  lemma ParticleStepKeeps(q: Buffers, j: nat, gravity: real, k: nat)
    requires 3 * j + 1 < |q.velocities| && 2 * j + 1 < |q.positions|
    ensures var r := ParticleStep(q, j, gravity);
      && (k < |q.velocities| && k != 3 * j + 1 ==> r.velocities[k] == q.velocities[k])
      && (k < |q.positions| && k != 2 * j && k != 2 * j + 1 ==> r.positions[k] == q.positions[k])
  {
  }

  /** The first `n` particles stepped one after the other, in index order. */
  function PlanarStep(s: Buffers, n: nat, gravity: real): (r: Buffers)
    requires Fits(s, n)
    ensures |r.velocities| == |s.velocities| && |r.positions| == |s.positions|
  {
    if n == 0 then s
    else ParticleStep(PlanarStep(s, n - 1, gravity), n - 1, gravity)
  }

  /** Particle `j < n`: `vy` drops by exactly `gravity` while `vx` and `vz` stay. */
  lemma PlanarStepVelocity(s: Buffers, n: nat, gravity: real, j: nat)
    requires Fits(s, n) && j < n
    ensures PlanarStep(s, n, gravity).velocities[3 * j + 1] == s.velocities[3 * j + 1] - gravity
    ensures PlanarStep(s, n, gravity).velocities[3 * j] == s.velocities[3 * j]
    ensures 3 * j + 2 < |s.velocities| ==>
      PlanarStep(s, n, gravity).velocities[3 * j + 2] == s.velocities[3 * j + 2]
  {
    PlanarStepVy(s, n, gravity, j);
    PlanarStepKeepsVxVz(s, n, gravity, j, 0);
    if 3 * j + 2 < |s.velocities| {
      PlanarStepKeepsVxVz(s, n, gravity, j, 2);
    }
  }

  lemma {:induction false} PlanarStepVy(s: Buffers, n: nat, gravity: real, j: nat)
    requires Fits(s, n) && j < n
    ensures PlanarStep(s, n, gravity).velocities[3 * j + 1] == s.velocities[3 * j + 1] - gravity
  {
    var m := n - 1;
    if j < m {
      var q := PlanarStep(s, m, gravity);
      assert PlanarStep(s, n, gravity) == ParticleStep(q, m, gravity);
      PlanarStepVy(s, m, gravity, j);
      ParticleStepKeeps(q, m, gravity, 3 * j + 1);
    } else {
      var q := PlanarStep(s, m, gravity);
      assert PlanarStep(s, n, gravity) == ParticleStep(q, m, gravity);
      PlanarStepBeyond(s, m, gravity, 3 * j + 1);
      ParticleStepWrites(q, m, gravity);
    }
  }

  /** The step writes no velocity slot but the `vy` ones: slot `3i + c` with
      `c` 0 (`vx`) or 2 (`vz`) keeps its value. */
  lemma {:induction false} PlanarStepKeepsVxVz(s: Buffers, n: nat, gravity: real, i: nat, c: nat)
    requires Fits(s, n) && 3 * i + c < |s.velocities| && (c == 0 || c == 2)
    ensures PlanarStep(s, n, gravity).velocities[3 * i + c] == s.velocities[3 * i + c]
  {
    if n > 0 {
      PlanarStepKeepsVxVz(s, n - 1, gravity, i, c);
      ParticleStepKeeps(PlanarStep(s, n - 1, gravity), n - 1, gravity, 3 * i + c);
    }
  }

  /** Particle `j < n` moves by its `vx` and by its post-gravity `vy`. */
  lemma PlanarStepPosition(s: Buffers, n: nat, gravity: real, j: nat)
    requires Fits(s, n) && j < n
    ensures PlanarStep(s, n, gravity).positions[2 * j] == s.positions[2 * j] + s.velocities[3 * j]
    ensures PlanarStep(s, n, gravity).positions[2 * j + 1]
      == s.positions[2 * j + 1] + (s.velocities[3 * j + 1] - gravity)
  {
    PlanarStepPositionAt(s, n, gravity, j, 0);
    PlanarStepPositionAt(s, n, gravity, j, 1);
  }

  /** Velocity slot `3j + c` (`c` 0 for x, 1 for y) once gravity has acted. */
  function Fallen(v: real, c: nat, gravity: real): real {
    if c == 1 then v - gravity else v
  }

  /** What one particle's step writes in position slot `2j + c`. */
  lemma ParticleStepMoves(q: Buffers, j: nat, gravity: real, c: nat)
    requires 3 * j + 1 < |q.velocities| && 2 * j + 1 < |q.positions| && c < 2
    ensures ParticleStep(q, j, gravity).positions[2 * j + c]
      == q.positions[2 * j + c] + Fallen(q.velocities[3 * j + c], c, gravity)
  {
  }

  /** Position slot `2j + c` (`c` 0 for x, 1 for y) moves by velocity slot
      `3j + c`, after gravity when that is `vy`. */
  lemma {:induction false} PlanarStepPositionAt(s: Buffers, n: nat, gravity: real, j: nat, c: nat)
    requires Fits(s, n) && j < n && c < 2
    ensures PlanarStep(s, n, gravity).positions[2 * j + c]
      == s.positions[2 * j + c] + Fallen(s.velocities[3 * j + c], c, gravity)
  {
    var m := n - 1;
    if j < m {
      var q := PlanarStep(s, m, gravity);
      assert PlanarStep(s, n, gravity) == ParticleStep(q, m, gravity);
      PlanarStepPositionAt(s, m, gravity, j, c);
      ParticleStepKeeps(q, m, gravity, 2 * j + c);
    } else {
      PlanarStepPositionLast(s, m, gravity, c);
    }
  }

  /** The particle stepped last, `m`, moves by its own velocity. */
  lemma PlanarStepPositionLast(s: Buffers, m: nat, gravity: real, c: nat)
    requires Fits(s, m + 1) && c < 2
    ensures PlanarStep(s, m + 1, gravity).positions[2 * m + c]
      == s.positions[2 * m + c] + Fallen(s.velocities[3 * m + c], c, gravity)
  {
    var q := PlanarStep(s, m, gravity);
    assert PlanarStep(s, m + 1, gravity) == ParticleStep(q, m, gravity);
    PlanarStepBeyond(s, m, gravity, 3 * m + c);
    PlanarStepBeyond(s, m, gravity, 2 * m + c);
    ParticleStepMoves(q, m, gravity, c);
  }

  /** Slots past the first `n` particles are untouched: velocity slots from `3n`
      on and position slots from `2n` on. */
  lemma {:induction false} PlanarStepBeyond(s: Buffers, n: nat, gravity: real, k: nat)
    requires Fits(s, n)
    ensures var r := PlanarStep(s, n, gravity);
      && (3 * n <= k < |s.velocities| ==> r.velocities[k] == s.velocities[k])
      && (2 * n <= k < |s.positions| ==> r.positions[k] == s.positions[k])
  {
    if n > 0 {
      PlanarStepBeyond(s, n - 1, gravity, k);
      ParticleStepKeeps(PlanarStep(s, n - 1, gravity), n - 1, gravity, k);
    }
  }

  // ---- the stride-3 step of lib/three/animation-js.ts ----

  /** `v * delta`: a velocity over a frame of length `delta`. */
  function Times(v: real, delta: real): real {
    v * delta
  }

  /** The buffers the stride-3 step may index for `n` particles. */
  predicate FitsSpatial(s: Buffers, n: nat) {
    3 * n <= |s.velocities| && 3 * n <= |s.positions|
  }

  /** Particle `j` alone, over a frame of length `delta`: `vz -= gravity * delta`,
      then each of x, y, z moves by its velocity times `delta`. */
  function SpatialParticleStep(q: Buffers, j: nat, gravity: real, delta: real): (r: Buffers)
    requires 3 * j + 2 < |q.velocities| && 3 * j + 2 < |q.positions|
    ensures |r.velocities| == |q.velocities| && |r.positions| == |q.positions|
  {
    var j3 := 3 * j;
    var vz := q.velocities[j3 + 2] - Times(gravity, delta);
    Buffers(q.velocities[j3 + 2 := vz],
            q.positions[j3 := q.positions[j3] + Times(q.velocities[j3], delta)]
                       [j3 + 1 := q.positions[j3 + 1] + Times(q.velocities[j3 + 1], delta)]
                       [j3 + 2 := q.positions[j3 + 2] + Times(vz, delta)])
  }

  /** The velocity slot `3j + c` after gravity has acted over `delta`: only the
      z slot (`c == 2`) changes. */
  function Pulled(v: real, c: nat, gravity: real, delta: real): real {
    if c == 2 then v - Times(gravity, delta) else v
  }

  /** One particle's step writes its three position slots and its `vz` slot,
      and no other slot. */
  lemma SpatialParticleStepKeeps(q: Buffers, j: nat, gravity: real, delta: real, k: nat)
    requires 3 * j + 2 < |q.velocities| && 3 * j + 2 < |q.positions|
    ensures var r := SpatialParticleStep(q, j, gravity, delta);
      && (k < |q.velocities| && k != 3 * j + 2 ==> r.velocities[k] == q.velocities[k])
      && (k < |q.positions| && (k < 3 * j || 3 * j + 2 < k) ==> r.positions[k] == q.positions[k])
  {
  }

  /** What one particle's step writes on axis `c`. */
  lemma SpatialParticleStepWrites(q: Buffers, j: nat, gravity: real, delta: real, c: nat)
    requires 3 * j + 2 < |q.velocities| && 3 * j + 2 < |q.positions| && c < 3
    ensures var r := SpatialParticleStep(q, j, gravity, delta);
      && r.velocities[3 * j + c] == Pulled(q.velocities[3 * j + c], c, gravity, delta)
      && r.positions[3 * j + c]
         == q.positions[3 * j + c] + Times(Pulled(q.velocities[3 * j + c], c, gravity, delta), delta)
  {
  }

  /** The first `n` particles stepped one after the other, in index order. */
  function SpatialStep(s: Buffers, n: nat, gravity: real, delta: real): (r: Buffers)
    requires FitsSpatial(s, n)
    ensures |r.velocities| == |s.velocities| && |r.positions| == |s.positions|
  {
    if n == 0 then s
    else SpatialParticleStep(SpatialStep(s, n - 1, gravity, delta), n - 1, gravity, delta)
  }

  /** Slots past the first `n` particles are untouched. */
  lemma {:induction false} SpatialStepBeyond(s: Buffers, n: nat, gravity: real, delta: real, k: nat)
    requires FitsSpatial(s, n)
    ensures var r := SpatialStep(s, n, gravity, delta);
      && (3 * n <= k < |s.velocities| ==> r.velocities[k] == s.velocities[k])
      && (3 * n <= k < |s.positions| ==> r.positions[k] == s.positions[k])
  {
    if n > 0 {
      SpatialStepBeyond(s, n - 1, gravity, delta, k);
      SpatialParticleStepKeeps(SpatialStep(s, n - 1, gravity, delta), n - 1, gravity, delta, k);
    }
  }

  /** Particle `j < n`, axis `c`: gravity acts on `vz` only, scaled by `delta`;
      the x and y velocities keep their values; each coordinate moves by its
      post-gravity velocity times `delta`. */
  lemma {:induction false} SpatialStepAt(s: Buffers, n: nat, gravity: real, delta: real, j: nat, c: nat)
    requires FitsSpatial(s, n) && j < n && c < 3
    ensures SpatialStep(s, n, gravity, delta).velocities[3 * j + c]
      == Pulled(s.velocities[3 * j + c], c, gravity, delta)
    ensures SpatialStep(s, n, gravity, delta).positions[3 * j + c]
      == s.positions[3 * j + c] + Times(Pulled(s.velocities[3 * j + c], c, gravity, delta), delta)
  {
    var m := n - 1;
    if j < m {
      var q := SpatialStep(s, m, gravity, delta);
      assert SpatialStep(s, n, gravity, delta) == SpatialParticleStep(q, m, gravity, delta);
      SpatialStepAt(s, m, gravity, delta, j, c);
      SpatialParticleStepKeeps(q, m, gravity, delta, 3 * j + c);
    } else {
      SpatialStepLast(s, m, gravity, delta, c);
    }
  }

  /** The particle stepped last, `m`, moves by its own velocity. */
  lemma SpatialStepLast(s: Buffers, m: nat, gravity: real, delta: real, c: nat)
    requires FitsSpatial(s, m + 1) && c < 3
    ensures SpatialStep(s, m + 1, gravity, delta).velocities[3 * m + c]
      == Pulled(s.velocities[3 * m + c], c, gravity, delta)
    ensures SpatialStep(s, m + 1, gravity, delta).positions[3 * m + c]
      == s.positions[3 * m + c] + Times(Pulled(s.velocities[3 * m + c], c, gravity, delta), delta)
  {
    var q := SpatialStep(s, m, gravity, delta);
    assert SpatialStep(s, m + 1, gravity, delta) == SpatialParticleStep(q, m, gravity, delta);
    SpatialStepBeyond(s, m, gravity, delta, 3 * m + c);
    SpatialParticleStepWrites(q, m, gravity, delta, c);
  }

  /** A frame of length zero changes nothing. */
  lemma {:induction false} SpatialStepAtRest(s: Buffers, n: nat, gravity: real)
    requires FitsSpatial(s, n)
    ensures SpatialStep(s, n, gravity, 0.0) == s
  {
    if n > 0 {
      SpatialStepAtRest(s, n - 1, gravity);
      var j3 := 3 * (n - 1);
      assert s.velocities[j3 + 2 := s.velocities[j3 + 2] - Times(gravity, 0.0)] == s.velocities;
    }
  }
}
