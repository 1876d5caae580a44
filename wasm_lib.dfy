/** wasm-lib/src/lib.rs: the compiled backend's buffer kernels and its
    deterministic explosion generator. Buffers are flat: velocities stride 3,
    particle positions stride 2, rocket positions stride 3. The generator is a
    32-bit linear congruential sequence, modelled with explicit `% 2^32`. */
module WasmLib {
  import opened Vectors
  import opened Buffers
  import WasmUtils
  import FireworkConfig

  const GRAVITY: real := 0.05
  const ALPHA_DECAY: real := 0.96
  const ALPHA_THRESHOLD: real := 0.05
  const GRID_SIZE: real := 0.2

  /** `update_particles`: decays alpha; unless the batch has faded below the
      threshold, steps every particle once (gravity on `vy`, then the move). */
  method UpdateParticles(velocities: array<real>, truePositions: array<real>, alpha: real, particleCount: nat)
    returns (newAlpha: real)
    requires velocities != truePositions
    requires alpha * ALPHA_DECAY >= ALPHA_THRESHOLD ==>
      Fits(Buffers(velocities[..], truePositions[..]), particleCount)
    modifies velocities, truePositions
    ensures newAlpha == alpha * ALPHA_DECAY
    ensures newAlpha < ALPHA_THRESHOLD ==> unchanged(velocities) && unchanged(truePositions)
    ensures newAlpha >= ALPHA_THRESHOLD ==>
      Buffers(velocities[..], truePositions[..])
      == PlanarStep(Buffers(old(velocities[..]), old(truePositions[..])), particleCount, GRAVITY)
  {
    newAlpha := alpha * ALPHA_DECAY;
    if newAlpha < ALPHA_THRESHOLD {
      return;
    }
    ghost var start := Buffers(velocities[..], truePositions[..]);
    for i := 0 to particleCount
      invariant Buffers(velocities[..], truePositions[..]) == PlanarStep(start, i, GRAVITY)
    {
      var i3 := i * 3;
      var i2 := i * 2;
      velocities[i3 + 1] := velocities[i3 + 1] - GRAVITY;
      truePositions[i2] := truePositions[i2] + velocities[i3];
      truePositions[i2 + 1] := truePositions[i2 + 1] + velocities[i3 + 1];
    }
  }

  /** `snap_particle_positions`: a new vector with the first `2 * count` entries
      snapped; the input is read only. */
  method SnapParticlePositions(truePositions: seq<real>, particleCount: nat) returns (snapped: seq<real>)
    requires 2 * particleCount <= |truePositions|
    ensures |snapped| == 2 * particleCount
    ensures forall k :: 0 <= k < 2 * particleCount ==>
      snapped[k] == WasmUtils.SnapToGrid(truePositions[k], GRID_SIZE)
  {
    snapped := [];
    for i := 0 to particleCount
      invariant |snapped| == 2 * i
      invariant forall k :: 0 <= k < 2 * i ==> snapped[k] == WasmUtils.SnapToGrid(truePositions[k], GRID_SIZE)
    {
      var i2 := i * 2;
      snapped := snapped + [WasmUtils.SnapToGrid(truePositions[i2], GRID_SIZE)];
      snapped := snapped + [WasmUtils.SnapToGrid(truePositions[i2 + 1], GRID_SIZE)];
    }
  }

  /** Slot `k` of `update_rocket_positions`' result: x and y snapped, z zero. */
  function RocketSlot(truePositions: seq<real>, k: nat): real
    requires k < |truePositions|
  {
    if k % 3 == 2 then 0.0 else WasmUtils.SnapToGrid(truePositions[k], GRID_SIZE)
  }

  /** `update_rocket_positions`: every rocket moves by one full velocity step on
      all three axes; the result holds the snapped x, y and a zero z. */
  method UpdateRocketPositions(truePositions: array<real>, velocities: seq<real>, rocketCount: nat)
    returns (snapped: seq<real>)
    requires 3 * rocketCount <= truePositions.Length && 3 * rocketCount <= |velocities|
    modifies truePositions
    ensures forall k :: 0 <= k < truePositions.Length ==>
      truePositions[k] == if k < 3 * rocketCount then old(truePositions[k]) + velocities[k] else old(truePositions[k])
    ensures |snapped| == 3 * rocketCount
    ensures forall k :: 0 <= k < 3 * rocketCount ==> snapped[k] == RocketSlot(truePositions[..], k)
  {
    snapped := [];
    for i := 0 to rocketCount
      invariant forall k :: 0 <= k < truePositions.Length ==>
        truePositions[k] == if k < 3 * i then old(truePositions[k]) + velocities[k] else old(truePositions[k])
      invariant |snapped| == 3 * i
      invariant forall k :: 0 <= k < 3 * i ==> snapped[k] == RocketSlot(truePositions[..], k)
    {
      var i3 := i * 3;
      truePositions[i3] := truePositions[i3] + velocities[i3];
      truePositions[i3 + 1] := truePositions[i3 + 1] + velocities[i3 + 1];
      truePositions[i3 + 2] := truePositions[i3 + 2] + velocities[i3 + 2];
      snapped := snapped + [WasmUtils.SnapToGrid(truePositions[i3], GRID_SIZE)];
      snapped := snapped + [WasmUtils.SnapToGrid(truePositions[i3 + 1], GRID_SIZE)];
      snapped := snapped + [0.0];
    }
  }

  // ---- the explosion generator ----

  /** The `u8` type code. */
  type TypeCode = c: nat | c < 256

  const U32: nat := 0x1_0000_0000

  /** The starting seed: 12345 plus the index truncated to 32 bits, wrapping
      at 2^32. */
  function InitialSeed(index: nat): (seed: nat)
    ensures seed < U32
  {
    (12345 + index % U32) % U32
  }

  /** One step of the linear congruential generator (multiplier 1103515245,
      increment 12345), wrapping at 2^32. */
  function NextSeed(seed: nat): (next: nat)
    ensures next < U32
  {
    (seed * 1103515245 + 12345) % U32
  }

  /** A draw: the seed's top 16 bits read as a fraction of 2^16. */
  function Draw(seed: nat): (u: real)
    requires seed < U32
    ensures 0.0 <= u <= 65535.0 / 65536.0
    ensures Unit(u)
  {
    var top := seed / 65536;
    assert top <= 65535;
    top as real / 65536.0
  }

  /** The three seeds one particle uses: the radius draw, then up to two `rand()`s. */
  function RadiusSeed(index: nat): (s: nat)
    ensures s < U32
  {
    NextSeed(InitialSeed(index))
  }

  function FirstRandSeed(index: nat): (s: nat)
    ensures s < U32
  {
    NextSeed(RadiusSeed(index))
  }

  function SecondRandSeed(index: nat): (s: nat)
    ensures s < U32
  {
    NextSeed(FirstRandSeed(index))
  }

  /** The particle's radius: its radius draw mapped onto [0.5, 1.0). */
  function Radius(index: nat): (r: real)
    ensures 0.5 <= r < 1.0
  {
    Draw(RadiusSeed(index)) * 0.5 + 0.5
  }

  /** Particle `index` sits at the `index`-th of `particleCount` equal steps
      around the full circle. */
  function Angle(index: nat, particleCount: nat): real
    requires index < particleCount
  {
    (PI * 2.0 * index as real) / particleCount as real
  }

  /** `(rand() * 3.0) as usize`: a truncating cast of a non-negative value. */
  function BreakLevel(u: real): nat
    requires Unit(u)
  {
    (u * 3.0).Floor as nat
  }

  /** The `match` of `calculate_velocity`: the six profiles keyed by type code,
      any other code falling back to the peony profile. `r1` and `r2` are the
      values of the first and second `rand()` calls. */
  function Profile(fireworkType: TypeCode, angle: real, radius: real, trig: Trig, r1: real, r2: real): (v: Vec3)
    requires Unit(r1)
    ensures v.z == 0.0
  {
    var c, s := trig.cos(angle), trig.sin(angle);
    match fireworkType
    case 0 =>
      var speed := radius * (0.4 + r1 * 0.3);
      Vec3(c * speed, s * speed, 0.0)
    case 1 =>
      var speed := radius * (0.5 + r1 * 0.4);
      Vec3(c * speed, s * speed, 0.0)
    case 2 =>
      var speed := radius * (0.3 + r1 * 0.4);
      Vec3(c * speed * 0.3, -Abs(s) * speed * (0.6 + r2 * 0.4), 0.0)
    case 3 =>
      var speed := 2.5 * 0.2;
      Vec3(c * speed, s * speed, 0.0)
    case 4 =>
      var speed := radius * (0.3 + r1 * 0.4);
      Vec3(c * speed * 0.4, Abs(s) * speed * (0.5 + r2 * 0.3), 0.0)
    case 5 =>
      var speed := radius * (0.3 + BreakLevel(r1) as real * 0.25);
      Vec3(c * speed, s * speed, 0.0)
    case _ =>
      var speed := radius * (0.4 + r1 * 0.3);
      Vec3(c * speed, s * speed, 0.0)
  }

  /** `calculate_velocity(type, index, count)`: the profile at angle
      `2 pi index / count`, fed with the particle's own seeded draws. */
  function CalculateVelocity(fireworkType: TypeCode, index: nat, particleCount: nat, trig: Trig): (v: Vec3)
    requires index < particleCount
    ensures v.z == 0.0
  {
    Profile(fireworkType, Angle(index, particleCount), Radius(index), trig,
            Draw(FirstRandSeed(index)), Draw(SecondRandSeed(index)))
  }

  /** The type each code stands for; unknown codes behave as peony. */
  function TypeOfCode(code: TypeCode): FireworkConfig.FireworkType {
    match code
    case 0 => FireworkConfig.Peony
    case 1 => FireworkConfig.Chrysanthemum
    case 2 => FireworkConfig.Willow
    case 3 => FireworkConfig.Ring
    case 4 => FireworkConfig.Palm
    case 5 => FireworkConfig.MultiBreak
    case _ => FireworkConfig.Peony
  }

  /** The backend's profiles are the host profiles of model/firework-config.ts,
      applied to the same draws. */
  lemma BackendMatchesConfig(code: TypeCode, angle: real, radius: real, trig: Trig, r1: real, r2: real)
    requires Unit(r1) && Unit(r2)
    ensures Profile(code, angle, radius, trig, r1, r2)
      == FireworkConfig.GetVelocity(TypeOfCode(code), angle, radius, trig, r1, r2)
  {
    if code == 5 {
      assert BreakLevel(r1) as int == FireworkConfig.BreakLevel(r1);
    }
  }

  /** A code outside 0..5 gives exactly the peony velocity. */
  lemma UnknownCodeIsPeony(code: TypeCode, index: nat, particleCount: nat, trig: Trig)
    requires code > 5 && index < particleCount
    ensures CalculateVelocity(code, index, particleCount, trig) == CalculateVelocity(0, index, particleCount, trig)
    ensures TypeOfCode(code) == FireworkConfig.Peony
  {
  }

  /** Every draw lies in [0, 65535/65536], the radius in [0.5, 1), and the
      multi-break level in {0, 1, 2}. */
  lemma DrawBounds(index: nat)
    ensures 0.0 <= Draw(FirstRandSeed(index)) <= 65535.0 / 65536.0
    ensures 0.5 <= Radius(index) < 1.0
    ensures BreakLevel(Draw(FirstRandSeed(index))) <= 2
  {
    var u := Draw(FirstRandSeed(index));
    assert u * 3.0 < 3.0;
  }

  /** Indices that agree modulo 2^32 get the same draws. */
  lemma SeedsWrapAt32Bits(index: nat)
    ensures InitialSeed(index + U32) == InitialSeed(index)
    ensures Radius(index + U32) == Radius(index)
    ensures Draw(SecondRandSeed(index + U32)) == Draw(SecondRandSeed(index))
  {
    assert (index + U32) % U32 == index % U32;
  }

  /** The first `n` particles' velocity triples, in index order. */
  function ExplosionVelocities(fireworkType: TypeCode, n: nat, particleCount: nat, trig: Trig): seq<real>
    requires n <= particleCount
  {
    if n == 0 then []
    else
      var v := CalculateVelocity(fireworkType, n - 1, particleCount, trig);
      ExplosionVelocities(fireworkType, n - 1, particleCount, trig) + [v.x, v.y, v.z]
  }

  /** Three slots per particle: `vx`, `vy` of `calculate_velocity`, then 0. */
  lemma {:induction false} ExplosionVelocitiesAt(fireworkType: TypeCode, n: nat, particleCount: nat, trig: Trig, j: nat)
    requires n <= particleCount
    ensures |ExplosionVelocities(fireworkType, n, particleCount, trig)| == 3 * n
    ensures j < n ==>
      var v := CalculateVelocity(fireworkType, j, particleCount, trig);
      var e := ExplosionVelocities(fireworkType, n, particleCount, trig);
      e[3 * j] == v.x && e[3 * j + 1] == v.y && e[3 * j + 2] == 0.0
  {
    if n > 0 {
      ExplosionVelocitiesAt(fireworkType, n - 1, particleCount, trig, j);
    }
  }

  /** `calculate_explosion_velocities`: pushes each particle's triple. */
  method CalculateExplosionVelocities(fireworkType: TypeCode, particleCount: nat, trig: Trig)
    returns (velocities: seq<real>)
    ensures velocities == ExplosionVelocities(fireworkType, particleCount, particleCount, trig)
    ensures |velocities| == 3 * particleCount
  {
    velocities := [];
    for i := 0 to particleCount
      invariant velocities == ExplosionVelocities(fireworkType, i, particleCount, trig)
    {
      var velocity := CalculateVelocity(fireworkType, i, particleCount, trig);
      velocities := velocities + [velocity.x];
      velocities := velocities + [velocity.y];
      velocities := velocities + [velocity.z];
    }
    ExplosionVelocitiesAt(fireworkType, particleCount, particleCount, trig, 0);
  }
}
