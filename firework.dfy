/** model/firework.ts: the `Firework` class of the individually-meshed renderer.
    Its getters and `createRocket` are pure; `createExplosion` fills a velocity
    buffer of `3 * PARTICLE_COUNT` slots and adds one pixel per particle to a group.
    Each `Math.random()` draw is an explicit parameter. */
module FireworkModel {
  import opened Vectors
  import opened ColorUtils
  import opened FireworkConfig
  import Utils

  const PARTICLE_COUNT: nat := 500
  const EXPLOSION_HEIGHT: real := 15.0

  /** The `explosionHeight` getter: the class constant, whatever the config. */
  function ExplosionHeight(t: FireworkType): real {
    EXPLOSION_HEIGHT
  }

  lemma ExplosionHeightIgnoresConfig(a: FireworkType, b: FireworkType)
    ensures ExplosionHeight(a) == ExplosionHeight(b) == 15.0
  {
  }

  /** What `createRocket` returns: the mesh position, `userData.truePos` and the
      velocity. */
  datatype RocketLaunch = RocketLaunch(position: Vec3, truePos: Vec2, velocity: Vec3)

  /** `createRocket(x, y, z)` with the lattice step and two draws as parameters. */
  function CreateRocket(x: real, y: real, z: real, gridSize: real, u1: real, u2: real): (r: RocketLaunch)
    requires gridSize != 0.0 && Unit(u1) && Unit(u2)
    // the render position is the snapped true position, and z is passed through
    ensures r.position.x == Utils.SnapToGrid(r.truePos.x, gridSize)
    ensures r.position.y == Utils.SnapToGrid(r.truePos.y, gridSize)
    ensures r.position.z == z
    // the physics position starts on the lattice, within half a cell of the click
    ensures r.truePos == Vec2(Utils.SnapToGrid(x, gridSize), Utils.SnapToGrid(y, gridSize))
    // lateral jitter and upward speed
    ensures -0.05 <= r.velocity.x < 0.05
    ensures 0.5 <= r.velocity.y < 0.7
    ensures r.velocity.z == 0.0
  {
    var sx, sy := Utils.SnapToGrid(x, gridSize), Utils.SnapToGrid(y, gridSize);
    Utils.SnapIdempotent(x, gridSize);
    Utils.SnapIdempotent(y, gridSize);
    RocketLaunch(Vec3(sx, sy, z), Vec2(sx, sy), Vec3((u1 - 0.5) * 0.1, 0.5 + u2 * 0.2, 0.0))
  }

  /** The four `Math.random()` draws made for one particle: the radius sample, the
      profile's own draws, and the colour variation. */
  datatype ParticleDraw = ParticleDraw(radius: real, u1: real, u2: real, color: real)

  predicate ValidDraw(d: ParticleDraw) {
    Unit(d.radius) && Unit(d.u1) && Unit(d.u2) && Unit(d.color)
  }

  /** Particle `i` sits at the `i`-th of `PARTICLE_COUNT` equal steps around
      the full circle. */
  function ParticleAngle(i: nat): real {
    (PI * 2.0 * i as real) / PARTICLE_COUNT as real
  }

  /** The particle's radius: its radius draw mapped onto [0.5, 1.0). */
  function ParticleRadius(d: ParticleDraw): (r: real)
    requires ValidDraw(d)
    ensures 0.5 <= r < 1.0
  {
    d.radius * 0.5 + 0.5
  }

  function ParticleVelocity(t: FireworkType, i: nat, d: ParticleDraw, trig: Trig): Vec3
    requires ValidDraw(d)
  {
    GetVelocity(t, ParticleAngle(i), ParticleRadius(d), trig, d.u1, d.u2)
  }

  /** Slot `k` of the velocity buffer: `vx`, `vy` of particle `k / 3`, then 0. */
  function BurstSlot(t: FireworkType, draws: seq<ParticleDraw>, trig: Trig, k: nat): real
    requires forall d :: d in draws ==> ValidDraw(d)
    requires k < 3 * |draws|
  {
    var i := k / 3;
    assert draws[i] in draws;
    var v := ParticleVelocity(t, i, draws[i], trig);
    if k % 3 == 0 then v.x else if k % 3 == 1 then v.y else 0.0
  }

  /** The three slots of particle `i`. */
  lemma SlotsOfParticle(t: FireworkType, draws: seq<ParticleDraw>, trig: Trig, i: nat)
    requires forall d :: d in draws ==> ValidDraw(d)
    requires i < |draws|
    ensures var v := ParticleVelocity(t, i, draws[i], trig);
      && BurstSlot(t, draws, trig, 3 * i) == v.x
      && BurstSlot(t, draws, trig, 3 * i + 1) == v.y
      && BurstSlot(t, draws, trig, 3 * i + 2) == 0.0
  {
    assert draws[i] in draws;
    assert (3 * i) / 3 == i && (3 * i + 1) / 3 == i && (3 * i + 2) / 3 == i;
  }

  /** The velocity buffer, particle by particle. */
  function BurstVelocities(t: FireworkType, draws: seq<ParticleDraw>, trig: Trig): seq<real>
    requires forall d :: d in draws ==> ValidDraw(d)
  {
    if draws == [] then []
    else
      var n := |draws| - 1;
      var v := ParticleVelocity(t, n, draws[n], trig);
      BurstVelocities(t, draws[..n], trig) + [v.x, v.y, 0.0]
  }

  /** The buffer holds exactly three slots per particle, as `BurstSlot` says. */
  lemma {:induction false} BurstVelocitiesAt(t: FireworkType, draws: seq<ParticleDraw>, trig: Trig, k: nat)
    requires forall d :: d in draws ==> ValidDraw(d)
    requires k < 3 * |draws|
    ensures |BurstVelocities(t, draws, trig)| == 3 * |draws|
    ensures BurstVelocities(t, draws, trig)[k] == BurstSlot(t, draws, trig, k)
  {
    var n := |draws| - 1;
    var front := draws[..n];
    assert forall d :: d in front ==> d in draws;
    if k < 3 * n {
      BurstVelocitiesAt(t, front, trig, k);
      assert draws[k / 3] == front[k / 3];
      assert BurstSlot(t, front, trig, k) == BurstSlot(t, draws, trig, k);
    } else if n > 0 {
      BurstVelocitiesAt(t, front, trig, 0);
    }
  }

  /** One more particle appends its three slots to the buffer. */
  lemma BurstVelocitiesGrow(t: FireworkType, draws: seq<ParticleDraw>, trig: Trig, i: nat)
    requires forall d :: d in draws ==> ValidDraw(d)
    requires i < |draws|
    ensures forall d :: d in draws[..i] ==> ValidDraw(d)
    ensures forall d :: d in draws[..i + 1] ==> ValidDraw(d)
    ensures var v := ParticleVelocity(t, i, draws[i], trig);
      BurstVelocities(t, draws[..i + 1], trig) == BurstVelocities(t, draws[..i], trig) + [v.x, v.y, 0.0]
  {
    assert forall d :: d in draws[..i + 1] ==> d in draws;
    assert draws[..i + 1][..i] == draws[..i];
  }

  /** The pixel mesh of particle `i`: placed at the snapped spawn point, with the
      base colour scaled by a variation in [0.7, 1.0) and full opacity. */
  datatype Pixel = Pixel(position: Vec3, truePos: Vec2, color: Color, opacity: real, initialOpacity: real)

  function BurstPixel(t: FireworkType, x: real, y: real, z: real, gridSize: real, d: ParticleDraw): Pixel
    requires gridSize != 0.0 && ValidDraw(d)
  {
    var sx, sy := Utils.SnapToGrid(x, gridSize), Utils.SnapToGrid(y, gridSize);
    var cv := Utils.GetColorVariation(d.color);
    var base := BaseColor(t);
    Pixel(Vec3(sx, sy, z), Vec2(sx, sy), Color(base.r * cv, base.g * cv, base.b * cv), 1.0, 1.0)
  }

  /** One pass of the explosion loop over the velocity buffer: particle `i`'s
      three slots follow the first `i` particles' slots. */
  method WriteBurstSlots(velocities: array<real>, t: FireworkType, draws: seq<ParticleDraw>, trig: Trig, i: nat)
    requires forall d :: d in draws ==> ValidDraw(d)
    requires i < |draws| && velocities.Length == 3 * |draws|
    requires forall d :: d in draws[..i] ==> ValidDraw(d)
    requires velocities[..3 * i] == BurstVelocities(t, draws[..i], trig)
    modifies velocities
    ensures forall d :: d in draws[..i + 1] ==> ValidDraw(d)
    ensures velocities[..3 * (i + 1)] == BurstVelocities(t, draws[..i + 1], trig)
  {
    assert draws[i] in draws;
    ghost var done := velocities[..3 * i];
    var i3 := i * 3;
    // angle 2 pi i / PARTICLE_COUNT, radius in [0.5, 1), then the profile
    var velocity := ParticleVelocity(t, i, draws[i], trig);
    velocities[i3] := velocity.x;
    velocities[i3 + 1] := velocity.y;
    velocities[i3 + 2] := 0.0;
    assert velocities[..3 * i] == done;
    assert velocities[..3 * (i + 1)] == done + [velocity.x, velocity.y, 0.0];
    BurstVelocitiesGrow(t, draws, trig, i);
  }

  /** `createExplosion(x, y, z)`: the group's pixels and the velocity buffer. */
  method CreateExplosion(t: FireworkType, x: real, y: real, z: real, gridSize: real,
                         draws: seq<ParticleDraw>, trig: Trig)
    returns (group: seq<Pixel>, velocities: array<real>)
    requires gridSize != 0.0
    requires |draws| == PARTICLE_COUNT && forall d :: d in draws ==> ValidDraw(d)
    ensures fresh(velocities)
    ensures velocities.Length == 3 * PARTICLE_COUNT
    ensures velocities[..] == BurstVelocities(t, draws, trig)
    ensures |group| == PARTICLE_COUNT
    ensures forall i :: 0 <= i < PARTICLE_COUNT ==> group[i] == BurstPixel(t, x, y, z, gridSize, draws[i])
  {
    velocities := new real[3 * PARTICLE_COUNT](_ => 0.0);
    group := [];
    for i := 0 to PARTICLE_COUNT
      invariant |group| == i
      invariant forall d :: d in draws[..i] ==> ValidDraw(d)
      invariant velocities[..3 * i] == BurstVelocities(t, draws[..i], trig)
      invariant forall j :: 0 <= j < i ==> group[j] == BurstPixel(t, x, y, z, gridSize, draws[j])
    {
      WriteBurstSlots(velocities, t, draws, trig, i);
      // base colour times a variation in [0.7, 1.0), at the snapped spawn point
      assert draws[i] in draws;
      var pixel := BurstPixel(t, x, y, z, gridSize, draws[i]);
      group := group + [pixel];
    }
    assert draws[..PARTICLE_COUNT] == draws;
    assert velocities[..] == velocities[..3 * PARTICLE_COUNT];
  }

  /** Every particle's velocity comes from the type's profile at angle `2 pi i / 500`
      with a radius in [0.5, 1), and its z slot is 0. */
  lemma BurstSlotsFollowProfile(t: FireworkType, draws: seq<ParticleDraw>, trig: Trig, i: nat)
    requires forall d :: d in draws ==> ValidDraw(d)
    requires i < |draws|
    ensures 0.5 <= ParticleRadius(draws[i]) < 1.0
    ensures var v := GetVelocity(t, ParticleAngle(i), ParticleRadius(draws[i]), trig, draws[i].u1, draws[i].u2);
      var b := BurstVelocities(t, draws, trig);
      |b| == 3 * |draws| && b[3 * i] == v.x && b[3 * i + 1] == v.y && b[3 * i + 2] == 0.0
  {
    BurstVelocitiesAt(t, draws, trig, 3 * i);
    BurstVelocitiesAt(t, draws, trig, 3 * i + 1);
    BurstVelocitiesAt(t, draws, trig, 3 * i + 2);
  }

  /** Every pixel starts at the snapped spawn point with `truePos` equal to its
      render position, opacity 1, and a colour no brighter than the base colour. */
  lemma BurstPixelFacts(t: FireworkType, x: real, y: real, z: real, gridSize: real, d: ParticleDraw)
    requires gridSize != 0.0 && ValidDraw(d)
    ensures var p := BurstPixel(t, x, y, z, gridSize, d);
      var base := BaseColor(t);
      && p.position == Vec3(Utils.SnapToGrid(x, gridSize), Utils.SnapToGrid(y, gridSize), z)
      && p.position.x == Utils.SnapToGrid(p.truePos.x, gridSize)
      && p.position.y == Utils.SnapToGrid(p.truePos.y, gridSize)
      && p.initialOpacity == 1.0 && p.opacity == 1.0
      && 0.7 * base.r <= p.color.r <= base.r
      && 0.7 * base.g <= p.color.g <= base.g
      && 0.7 * base.b <= p.color.b <= base.b
  {
    Utils.SnapIdempotent(x, gridSize);
    Utils.SnapIdempotent(y, gridSize);
    BaseColorsArePastel(t);
    var cv := Utils.GetColorVariation(d.color);
    var base := BaseColor(t);
    assert base.r * (1.0 - cv) >= 0.0 && base.r * (cv - 0.7) >= 0.0;
    assert base.g * (1.0 - cv) >= 0.0 && base.g * (cv - 0.7) >= 0.0;
    assert base.b * (1.0 - cv) >= 0.0 && base.b * (cv - 0.7) >= 0.0;
  }
}
