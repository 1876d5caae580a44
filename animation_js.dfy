/** lib/three/animation-js.ts: the delta-step renderer. A frame of length
    `delta` moves every rocket by `velocity * delta` on all three axes with Z
    up, draws it at the snapped point on all three axes, and explodes it once
    its true z reaches the absolute `EXPLOSION_HEIGHT` (its launch height
    plays no part). Particle batches keep stride-3 positions `[x, y, z, ...]`;
    gravity pulls on z. */
module AnimationJs {
  import opened Vectors
  import opened Types
  import opened Buffers
  import Utils
  import FireworkModel
  import Animation

  /** Where a rocket or particle is drawn: every axis snapped. */
  function RenderPosition(truePos: Vec3, gridSize: real): (p: Vec3)
    requires gridSize != 0.0
    ensures p.x == Utils.SnapToGrid(truePos.x, gridSize) && p.y == Utils.SnapToGrid(truePos.y, gridSize)
    ensures p.z == Utils.SnapToGrid(truePos.z, gridSize)
  {
    Vec3(Utils.SnapToGrid(truePos.x, gridSize), Utils.SnapToGrid(truePos.y, gridSize),
         Utils.SnapToGrid(truePos.z, gridSize))
  }

  /** A drawn point is drawn where it is: the render position is a fixed
      point of snapping. */
  lemma RenderPositionIdempotent(truePos: Vec3, gridSize: real)
    requires gridSize != 0.0
    ensures RenderPosition(RenderPosition(truePos, gridSize), gridSize) == RenderPosition(truePos, gridSize)
  {
    Utils.SnapIdempotent(truePos.x, gridSize);
    Utils.SnapIdempotent(truePos.y, gridSize);
    Utils.SnapIdempotent(truePos.z, gridSize);
  }

  /** `truePos += velocity * delta`, axis by axis. */
  function Advance(p: Vec3, velocity: Vec3, delta: real): Vec3 {
    Vec3(p.x + Times(velocity.x, delta), p.y + Times(velocity.y, delta), p.z + Times(velocity.z, delta))
  }

  /** A frame of length 1 is the whole-velocity step of the fixed-step
      renderer; a frame of length 0 does not move the rocket. */
  lemma AdvanceUnitAndEmptyFrames(p: Vec3, velocity: Vec3)
    ensures Advance(p, velocity, 1.0) == p.Plus(velocity)
    ensures Advance(p, velocity, 0.0) == p
  {
  }

  /** Two frames of lengths `d1` and `d2` move a rocket as far as one frame
      of length `d1 + d2`. */
  lemma AdvanceAdditive(p: Vec3, velocity: Vec3, d1: real, d2: real)
    ensures Advance(Advance(p, velocity, d1), velocity, d2) == Advance(p, velocity, d1 + d2)
  {
    assert Times(velocity.x, d1) + Times(velocity.x, d2) == Times(velocity.x, d1 + d2);
    assert Times(velocity.y, d1) + Times(velocity.y, d2) == Times(velocity.y, d1 + d2);
    assert Times(velocity.z, d1) + Times(velocity.z, d2) == Times(velocity.z, d1 + d2);
  }

  /** One frame of a rocket: it advances by `velocity * delta` and is drawn at
      the snapped point. */
  function Fly(r: RocketState, velocity: Vec3, delta: real, gridSize: real): (q: RocketState)
    requires gridSize != 0.0
    ensures q.truePos == Advance(r.truePos, velocity, delta) && q.wasmId == r.wasmId
    ensures q.position == RenderPosition(q.truePos, gridSize)
  {
    var truePos := Advance(r.truePos, velocity, delta);
    r.(truePos := truePos, position := RenderPosition(truePos, gridSize))
  }

  /** Every rocket of `s`, in state `before[n]`, flown one frame. */
  function FlyAll(s: seq<RocketItem>, before: seq<RocketState>, delta: real, gridSize: real): (after: seq<RocketState>)
    requires gridSize != 0.0 && |before| == |s|
    ensures |after| == |s|
    ensures forall n :: 0 <= n < |s| ==> after[n] == Fly(before[n], s[n].velocity, delta, gridSize)
  {
    seq(|s|, n requires 0 <= n < |s| => Fly(before[n], s[n].velocity, delta, gridSize))
  }

  /** For each rocket in state `before[n]`, whether this frame takes its true
      z to `EXPLOSION_HEIGHT`. */
  function BurstFlags(s: seq<RocketItem>, before: seq<RocketState>, delta: real): (d: seq<bool>)
    requires |before| == |s|
    ensures |d| == |s|
    ensures forall n :: 0 <= n < |s| ==>
      (d[n] <==> Advance(before[n].truePos, s[n].velocity, delta).z >= FireworkModel.EXPLOSION_HEIGHT)
  {
    seq(|s|, n requires 0 <= n < |s| =>
      Advance(before[n].truePos, s[n].velocity, delta).z >= FireworkModel.EXPLOSION_HEIGHT)
  }

  /** The rocket's own part of a frame: its true position advances on each
      axis by its velocity times `delta`, and it is drawn at the snapped
      point. */
  method Move(item: RocketItem, k: Constants, delta: real)
    requires k.gridSize != 0.0
    modifies item
    ensures Flight(item) == Fly(old(Flight(item)), item.velocity, delta, k.gridSize)
  {
    item.truePos := item.truePos.(x := item.truePos.x + Times(item.velocity.x, delta));
    item.truePos := item.truePos.(y := item.truePos.y + Times(item.velocity.y, delta));
    item.truePos := item.truePos.(z := item.truePos.z + Times(item.velocity.z, delta));
    item.position := RenderPosition(item.truePos, k.gridSize);
  }

  /** One pass of the rocket loop at index `i`: the rocket flies one frame;
      when it is flagged as reaching the height, a fresh stride-3 batch
      spawned at its render point is appended and the rocket is spliced
      out. `added` is what was appended. */
  method FlyAt(rockets: RocketsRef, particles: ParticlesRef, ghost s: seq<RocketItem>, ghost before: seq<RocketState>,
               ghost after: seq<RocketState>, ghost drop: seq<bool>, i: nat, k: Constants, delta: real,
               bursts: seq<seq<real>>)
    returns (ghost added: seq<ParticleItem>)
    requires k.gridSize != 0.0 && i < |s| && |drop| == |s| && |bursts| == |s|
    requires forall n :: 0 <= n < |s| && n != i ==> s[n] != s[i]
    requires FlownSuffix(s, before, after, i + 1)
    requires after[i] == Fly(before[i], s[i].velocity, delta, k.gridSize)
    requires drop[i] <==> Advance(before[i].truePos, s[i].velocity, delta).z >= FireworkModel.EXPLOSION_HEIGHT
    requires |bursts[i]| == 3 * FireworkModel.PARTICLE_COUNT
    requires rockets.current == s[..i + 1] + KeptFrom(s, drop, i + 1)
    modifies rockets, particles, s[i]
    ensures rockets.current == s[..i] + KeptFrom(s, drop, i)
    ensures FlownSuffix(s, before, after, i)
    ensures particles.current == old(particles.current) + added
    ensures |added| == (if drop[i] then 1 else 0)
    ensures forall b :: b in added ==> SpawnedFrom(b, s[i].fireworkType, after[i].position, bursts[i], 3)
    ensures fresh(Objects(added))
  {
    SpliceStep(s, drop, i + 1, rockets.current);
    var item := rockets.current[i];
    Move(item, k, delta);
    forall n | 0 <= n < |s| && n != i
      ensures Flight(s[n]) == old(Flight(s[n]))
    {
      assert s[n] != item;
    }
    added := [];
    var targetHeight := FireworkModel.EXPLOSION_HEIGHT;
    if item.truePos.z >= targetHeight {
      var group := new ParticleItem(item.fireworkType, item.position, bursts[i],
                                          FireworkModel.PARTICLE_COUNT, 3);
      particles.current := particles.current + [group];
      rockets.current := rockets.current[..i] + rockets.current[i + 1..];
      added := [group];
      assert added[..0] == [];
    }
  }

  /** One pass of the rocket loop, from index `i + 1` down to `i`. */
  method RocketPass(rockets: RocketsRef, particles: ParticlesRef, ghost s: seq<RocketItem>,
                    ghost before: seq<RocketState>, ghost after: seq<RocketState>, ghost drop: seq<bool>,
                    ghost oldParticles: seq<ParticleItem>, ghost spawned: seq<ParticleItem>, i: nat, k: Constants,
                    delta: real, bursts: seq<seq<real>>)
    returns (ghost added: seq<ParticleItem>)
    requires k.gridSize != 0.0 && Distinct(s) && i < |s|
    requires |before| == |s| && |bursts| == |s| && drop == BurstFlags(s, before, delta)
    requires after == FlyAll(s, before, delta, k.gridSize)
    requires forall n :: 0 <= n < |bursts| ==> |bursts[n]| == 3 * FireworkModel.PARTICLE_COUNT
    requires RocketLoop(rockets, particles, s, before, after, drop, oldParticles, spawned, i + 1, bursts, 3)
    modifies rockets, particles, s[i]
    ensures RocketLoop(rockets, particles, s, before, after, drop, oldParticles, spawned + added, i, bursts, 3)
    ensures fresh(Objects(added))
  {
    DistinctAt(s, i);
    assert after[i] == Fly(before[i], s[i].velocity, delta, k.gridSize);
    assert drop[i] <==> Advance(before[i].truePos, s[i].velocity, delta).z >= FireworkModel.EXPLOSION_HEIGHT;
    assert |bursts[i]| == 3 * FireworkModel.PARTICLE_COUNT;
    added := FlyAt(rockets, particles, s, before, after, drop, i, k, delta, bursts);
    assert Spawned(spawned, s, after, DroppedFrom(drop, i + 1), bursts, 3);
    if drop[i] {
      SpawnedGrow(spawned, s, after, drop, i, bursts, 3, added[0]);
    } else {
      assert DroppedFrom(drop, i) == DroppedFrom(drop, i + 1);
    }
  }

  /** `updateRockets(rocketsRef, particlesRef, scene, delta)`; `bursts[i]` is
      the velocity buffer the explosion factory would draw for rocket `i`.
      Every rocket flies one frame of length `delta`; the ones whose true z
      reaches the height leave the list, the others keeping their order, and
      each of them appends one fresh stride-3 batch at its render point,
      last rocket first. */
  method UpdateRockets(rockets: RocketsRef, particles: ParticlesRef, k: Constants, delta: real, bursts: seq<seq<real>>)
    requires k.gridSize != 0.0
    requires Distinct(rockets.current)
    requires |bursts| == |rockets.current|
    requires forall n :: 0 <= n < |bursts| ==> |bursts[n]| == 3 * FireworkModel.PARTICLE_COUNT
    modifies rockets, particles, set r | r in rockets.current
    ensures var olds, before := old(rockets.current), old(Flights(rockets.current));
      forall n :: 0 <= n < |olds| ==> Flight(olds[n]) == Fly(before[n], olds[n].velocity, delta, k.gridSize)
    ensures var olds, before := old(rockets.current), old(Flights(rockets.current));
      rockets.current == KeptFrom(olds, BurstFlags(olds, before, delta), 0)
    ensures |particles.current| >= |old(particles.current)|
    ensures particles.current[..|old(particles.current)|] == old(particles.current)
    ensures var olds, before := old(rockets.current), old(Flights(rockets.current));
      Spawned(particles.current[|old(particles.current)|..], olds, FlyAll(olds, before, delta, k.gridSize),
              DroppedFrom(BurstFlags(olds, before, delta), 0), bursts, 3)
    ensures fresh(Objects(particles.current[|old(particles.current)|..]))
  {
    ghost var olds := rockets.current;
    ghost var oldParticles := particles.current;
    ghost var before := Flights(rockets.current);
    ghost var drop := BurstFlags(olds, before, delta);
    ghost var after := FlyAll(olds, before, delta, k.gridSize);
    ghost var spawned: seq<ParticleItem> := [];
    RocketLoopStart(rockets, particles, olds, before, after, drop, bursts, 3);
    var i := |rockets.current|;
    while i > 0
      invariant 0 <= i <= |olds|
      invariant RocketLoop(rockets, particles, olds, before, after, drop, oldParticles, spawned, i, bursts, 3)
      invariant fresh(Objects(spawned))
    {
      i := i - 1;
      var added := RocketPass(rockets, particles, olds, before, after, drop, oldParticles, spawned, i, k, delta, bursts);
      ObjectsAppend(spawned, added);
      spawned := spawned + added;
    }
    RocketLoopEnd(rockets, particles, olds, before, after, drop, oldParticles, spawned, bursts, 3);
  }

  /** The instance translations for stride-3 positions `[x0, y0, z0, ...]`:
      every axis snapped, one per triple. */
  function SnappedInstances(positions: seq<real>, gridSize: real): seq<Vec3>
    requires gridSize != 0.0
    decreases |positions|
  {
    if |positions| < 3 then []
    else
      var n := |positions| - 3;
      SnappedInstances(positions[..n], gridSize)
      + [RenderPosition(Vec3(positions[n], positions[n + 1], positions[n + 2]), gridSize)]
  }

  /** Instance `j` sits at the snapped position of particle `j`. */
  lemma {:induction false} SnappedInstancesAt(positions: seq<real>, gridSize: real, j: nat)
    requires gridSize != 0.0 && |positions| % 3 == 0
    ensures |SnappedInstances(positions, gridSize)| == |positions| / 3
    ensures j < |positions| / 3 ==>
      SnappedInstances(positions, gridSize)[j]
      == RenderPosition(Vec3(positions[3 * j], positions[3 * j + 1], positions[3 * j + 2]), gridSize)
    decreases |positions|
  {
    if |positions| >= 3 {
      var n := |positions| - 3;
      SnappedInstancesAt(positions[..n], gridSize, j);
    }
  }

  lemma SnappedInstancesAppend(done: seq<real>, x: real, y: real, z: real, gridSize: real)
    requires gridSize != 0.0
    ensures SnappedInstances(done + [x, y, z], gridSize)
      == SnappedInstances(done, gridSize) + [RenderPosition(Vec3(x, y, z), gridSize)]
  {
    assert (done + [x, y, z])[..|done|] == done;
  }

  /** One pass of the inner loop: particle `j` falls, moves, and is drawn. */
  method StepParticle(b: ParticleItem, j: nat, k: Constants, delta: real)
    requires b.Valid() && b.stride == 3 && k.gridSize != 0.0 && j < b.count
    modifies b.velocities, b.truePos, b.instances
    ensures Buffers(b.velocities[..], b.truePos[..])
      == SpatialParticleStep(Buffers(old(b.velocities[..]), old(b.truePos[..])), j, k.gravity, delta)
    ensures old(b.instances[..j] == SnappedInstances(b.truePos[..3 * j], k.gridSize)) ==>
      b.instances[..j + 1] == SnappedInstances(b.truePos[..3 * (j + 1)], k.gridSize)
  {
    var j3 := 3 * j;
    ghost var v0, p0 := b.velocities[..], b.truePos[..];
    ghost var vz := v0[j3 + 2] - Times(k.gravity, delta);
    ghost var r := SpatialParticleStep(Buffers(v0, p0), j, k.gravity, delta);
    assert r.velocities == v0[j3 + 2 := vz];
    assert r.positions == p0[j3 := p0[j3] + Times(v0[j3], delta)][j3 + 1 := p0[j3 + 1] + Times(v0[j3 + 1], delta)]
                            [j3 + 2 := p0[j3 + 2] + Times(vz, delta)];
    b.velocities[j3 + 2] := b.velocities[j3 + 2] - Times(k.gravity, delta);
    assert b.velocities[..] == r.velocities;
    b.truePos[j3] := b.truePos[j3] + Times(b.velocities[j3], delta);
    b.truePos[j3 + 1] := b.truePos[j3 + 1] + Times(b.velocities[j3 + 1], delta);
    b.truePos[j3 + 2] := b.truePos[j3 + 2] + Times(b.velocities[j3 + 2], delta);
    assert b.truePos[..] == r.positions;
    var snappedX := Utils.SnapToGrid(b.truePos[j3], k.gridSize);
    var snappedY := Utils.SnapToGrid(b.truePos[j3 + 1], k.gridSize);
    var snappedZ := Utils.SnapToGrid(b.truePos[j3 + 2], k.gridSize);
    ghost var done, shown := b.truePos[..j3], b.instances[..j];
    b.instances[j] := Vec3(snappedX, snappedY, snappedZ);
    assert b.truePos[..3 * (j + 1)] == done + [b.truePos[j3], b.truePos[j3 + 1], b.truePos[j3 + 2]];
    assert b.instances[..j + 1] == shown + [b.instances[j]];
    SnappedInstancesAppend(done, b.truePos[j3], b.truePos[j3 + 1], b.truePos[j3 + 2], k.gridSize);
  }

  /** The inner loop of `updateParticles` for one surviving batch. */
  method StepBatch(b: ParticleItem, k: Constants, delta: real)
    requires b.Valid() && b.stride == 3 && k.gridSize != 0.0
    modifies b.velocities, b.truePos, b.instances
    ensures Buffers(b.velocities[..], b.truePos[..])
      == SpatialStep(Buffers(old(b.velocities[..]), old(b.truePos[..])), b.count, k.gravity, delta)
    ensures b.instances[..] == SnappedInstances(b.truePos[..], k.gridSize)
  {
    ghost var start := Buffers(b.velocities[..], b.truePos[..]);
    for j := 0 to b.count
      invariant Buffers(b.velocities[..], b.truePos[..]) == SpatialStep(start, j, k.gravity, delta)
      invariant b.instances[..j] == SnappedInstances(b.truePos[..3 * j], k.gridSize)
    {
      StepParticle(b, j, k, delta);
    }
    assert b.instances[..] == b.instances[..b.count];
    assert b.truePos[..] == b.truePos[..3 * b.count];
  }

  /** What one call of `updateParticles` does to a batch of `count`
      particles over a frame of length `delta`, `decay` standing for
      `Math.pow(ALPHA_DECAY, delta)`: alpha is scaled by `decay` and becomes
      the opacity; a batch that falls below the threshold keeps its buffers
      (and is removed), any other is stepped and every instance is redrawn
      at its snapped position. */
  function Fade(s: BatchState, count: nat, k: Constants, delta: real, decay: real): (r: BatchState)
    requires FitsSpatial(Buffers(s.velocities, s.positions), count) && k.gridSize != 0.0
    ensures r.alpha == Times(s.alpha, decay) && r.opacity == r.alpha
    ensures r.alpha < k.alphaThreshold ==>
      r.velocities == s.velocities && r.positions == s.positions && r.instances == s.instances
  {
    var alpha := Times(s.alpha, decay);
    if alpha < k.alphaThreshold then s.(alpha := alpha, opacity := alpha)
    else
      var stepped := SpatialStep(Buffers(s.velocities, s.positions), count, k.gravity, delta);
      BatchState(alpha, alpha, stepped.velocities, stepped.positions, SnappedInstances(stepped.positions, k.gridSize))
  }

  /** A surviving batch: gravity pulls `vz` of each particle down by
      `GRAVITY * delta`, `vx` and `vy` keep their values, each coordinate
      moves by its post-gravity velocity times `delta`, and the particle is
      drawn at its snapped position. */
  lemma FadeSurvivor(s: BatchState, count: nat, k: Constants, delta: real, decay: real, j: nat, c: nat)
    requires FitsSpatial(Buffers(s.velocities, s.positions), count) && k.gridSize != 0.0
    requires |s.positions| == 3 * count && j < count && c < 3
    requires Times(s.alpha, decay) >= k.alphaThreshold
    ensures var r := Fade(s, count, k, delta, decay);
      && r.velocities[3 * j + c] == Pulled(s.velocities[3 * j + c], c, k.gravity, delta)
      && r.positions[3 * j + c] == s.positions[3 * j + c] + Times(Pulled(s.velocities[3 * j + c], c, k.gravity, delta), delta)
      && |r.instances| == count
      && r.instances[j] == RenderPosition(Vec3(r.positions[3 * j], r.positions[3 * j + 1], r.positions[3 * j + 2]), k.gridSize)
  {
    var stepped := SpatialStep(Buffers(s.velocities, s.positions), count, k.gravity, delta);
    SpatialStepAt(Buffers(s.velocities, s.positions), count, k.gravity, delta, j, c);
    SnappedInstancesAt(stepped.positions, k.gridSize, j);
  }

  /** With `delta = 0` a batch keeps its alpha, velocities and positions. */
  lemma FadeAtRest(s: BatchState, count: nat, k: Constants, decay: real)
    requires FitsSpatial(Buffers(s.velocities, s.positions), count) && k.gridSize != 0.0
    requires DecayFactor(decay, k, 0.0)
    ensures var r := Fade(s, count, k, 0.0, decay);
      r.alpha == s.alpha && r.velocities == s.velocities && r.positions == s.positions
  {
    SpatialStepAtRest(Buffers(s.velocities, s.positions), count, k.gravity);
  }

  /** With `delta = 1` alpha decays exactly as in the fixed-step renderer. */
  lemma FadeUnitFrame(s: BatchState, count: nat, k: Constants, decay: real)
    requires FitsSpatial(Buffers(s.velocities, s.positions), count) && k.gridSize != 0.0
    requires DecayFactor(decay, k, 1.0)
    ensures Fade(s, count, k, 1.0, decay).alpha == Animation.Decayed(s.alpha, k)
  {
  }

  /** Alpha only decays: for a decay within (0, 1] and a frame that is not
      negative, a non-negative alpha stays non-negative and never grows. */
  lemma FadeNeverBrightens(s: BatchState, count: nat, k: Constants, delta: real, decay: real)
    requires FitsSpatial(Buffers(s.velocities, s.positions), count) && k.gridSize != 0.0
    requires DecayFactor(decay, k, delta) && 0.0 < k.alphaDecay <= 1.0 && delta >= 0.0 && s.alpha >= 0.0
    ensures 0.0 <= Fade(s, count, k, delta, decay).alpha <= s.alpha
  {
    ScaleWithinUnit(decay, s.alpha);
    assert Times(s.alpha, decay) == decay * s.alpha;
  }

  /** Batch `b`, whose state was `before`, is now in the state `Fade` gives. */
  predicate FadedFrom(b: ParticleItem, before: BatchState, k: Constants, delta: real, decay: real)
    reads b, b.velocities, b.truePos, b.instances
  {
    && FitsSpatial(Buffers(before.velocities, before.positions), b.count) && k.gridSize != 0.0
    && State(b) == Fade(before, b.count, k, delta, decay)
  }

  /** The body of the batch loop up to the removal test; the result says
      whether the batch is to be spliced out. */
  method FadeBatch(b: ParticleItem, k: Constants, delta: real, decay: real) returns (remove: bool)
    requires b.Valid() && b.stride == 3 && k.gridSize != 0.0
    modifies b, b.velocities, b.truePos, b.instances
    ensures State(b) == Fade(old(State(b)), b.count, k, delta, decay)
    ensures b.alpha == Times(old(b.alpha), decay)
    ensures remove <==> b.alpha < k.alphaThreshold
  {
    b.alpha := Times(b.alpha, decay);
    b.opacity := b.alpha;
    if b.alpha < k.alphaThreshold {
      return true;
    }
    StepBatch(b, k, delta);
    return false;
  }

  /** Batches before index `i` are still in their state `before`; batches
      from `i` on have faded from it. */
  predicate FadedSuffix(s: seq<ParticleItem>, before: seq<BatchState>, i: nat, k: Constants, delta: real, decay: real)
    reads Footprint(s)
  {
    && |before| == |s|
    && (forall n :: 0 <= n < |s| && n < i ==> State(s[n]) == before[n])
    && (forall n :: i <= n < |s| ==> FadedFrom(s[n], before[n], k, delta, decay))
  }

  /** One pass of the batch loop at index `i`: batch `i` fades and is
      spliced out exactly when it is flagged, which the caller guarantees
      happens exactly when its scaled alpha falls below the threshold; every
      other batch of the separate batches `s` stays as it was. */
  method FadeAt(particles: ParticlesRef, ghost s: seq<ParticleItem>, ghost before: seq<BatchState>,
                ghost drop: seq<bool>, i: nat, k: Constants, delta: real, decay: real)
    requires |drop| == |s| && i < |s| && s[i].Valid()
    requires forall n :: 0 <= n < |s| && n != i ==> Disjoint(s[n], s[i])
    requires particles.current == s[..i + 1] + KeptFrom(s, drop, i + 1)
    requires FadedSuffix(s, before, i + 1, k, delta, decay)
    requires drop[i] <==> Times(before[i].alpha, decay) < k.alphaThreshold
    requires s[i].stride == 3 && k.gridSize != 0.0
    modifies particles, s[i], s[i].velocities, s[i].truePos, s[i].instances
    ensures particles.current == s[..i] + KeptFrom(s, drop, i)
    ensures FadedSuffix(s, before, i, k, delta, decay)
  {
    SpliceStep(s, drop, i + 1, particles.current);
    var mesh := particles.current[i];
    var remove := FadeBatch(mesh, k, delta, decay);
    if remove {
      particles.current := particles.current[..i] + particles.current[i + 1..];
    }
    forall n | 0 <= n < |s| && n != i
      ensures State(s[n]) == old(State(s[n]))
    {
      assert s[n] != mesh && s[n].velocities != mesh.velocities && s[n].truePos != mesh.truePos;
      assert s[n].instances != mesh.instances && s[n].velocities != mesh.truePos;
      assert s[n].truePos != mesh.velocities;
    }
  }

  /** For each batch, whether this frame's scaling takes its alpha below the
      threshold. */
  function FadeFlags(s: seq<ParticleItem>, k: Constants, decay: real): (d: seq<bool>)
    reads s
    ensures |d| == |s|
    ensures forall n :: 0 <= n < |s| ==> (d[n] <==> Times(s[n].alpha, decay) < k.alphaThreshold)
  {
    seq(|s|, n requires 0 <= n < |s| reads s => Times(s[n].alpha, decay) < k.alphaThreshold)
  }

  /** `drop` flags exactly the batches whose scaled alpha, from states
      `before`, falls below the threshold. */
  predicate Flagged(before: seq<BatchState>, drop: seq<bool>, k: Constants, decay: real) {
    && |drop| == |before|
    && forall n :: 0 <= n < |before| ==> (drop[n] <==> Times(before[n].alpha, decay) < k.alphaThreshold)
  }

  /** One pass of the batch loop, from index `i + 1` down to `i`. */
  method BatchPass(particles: ParticlesRef, ghost s: seq<ParticleItem>, ghost before: seq<BatchState>,
                   ghost drop: seq<bool>, i: nat, k: Constants, delta: real, decay: real)
    requires SeparateBatches(s) && i < |s| && |drop| == |s| && k.gridSize != 0.0
    requires forall n :: 0 <= n < |s| ==> s[n].stride == 3
    requires Flagged(before, drop, k, decay)
    requires particles.current == s[..i + 1] + KeptFrom(s, drop, i + 1)
    requires FadedSuffix(s, before, i + 1, k, delta, decay)
    modifies particles, s[i], s[i].velocities, s[i].truePos, s[i].instances
    ensures particles.current == s[..i] + KeptFrom(s, drop, i)
    ensures FadedSuffix(s, before, i, k, delta, decay)
  {
    SeparateAt(s, i);
    FadeAt(particles, s, before, drop, i, k, delta, decay);
  }

  /** The batch loop, from the last batch to the first. */
  method BatchLoop(particles: ParticlesRef, ghost s: seq<ParticleItem>, ghost before: seq<BatchState>,
                   ghost drop: seq<bool>, k: Constants, delta: real, decay: real)
    requires SeparateBatches(s) && |drop| == |s| && k.gridSize != 0.0
    requires forall n :: 0 <= n < |s| ==> s[n].stride == 3
    requires Flagged(before, drop, k, decay)
    requires particles.current == s && s[..|s|] + KeptFrom(s, drop, |s|) == s
    requires FadedSuffix(s, before, |s|, k, delta, decay)
    modifies particles, Footprint(s)
    ensures particles.current == s[..0] + KeptFrom(s, drop, 0)
    ensures FadedSuffix(s, before, 0, k, delta, decay)
  {
    var i := |particles.current|;
    while i > 0
      invariant 0 <= i <= |s|
      invariant particles.current == s[..i] + KeptFrom(s, drop, i)
      invariant FadedSuffix(s, before, i, k, delta, decay)
    {
      i := i - 1;
      BatchPass(particles, s, before, drop, i, k, delta, decay);
    }
  }

  /** Before the loop every batch is in its first state, and the flags are
      those of that state. */
  lemma LoopStart(s: seq<ParticleItem>, before: seq<BatchState>, drop: seq<bool>, k: Constants, delta: real,
                  decay: real)
    requires before == States(s) && drop == FadeFlags(s, k, decay)
    ensures FadedSuffix(s, before, |s|, k, delta, decay) && Flagged(before, drop, k, decay)
  {
  }

  /** `updateParticles(particlesRef, scene, delta)`, with `decay` the value of
      `Math.pow(ALPHA_DECAY, delta)`: every batch fades as `Fade` says, and
      exactly the batches whose scaled alpha fell below the threshold leave
      the list, the others keeping their order. */
  method UpdateParticles(particles: ParticlesRef, k: Constants, delta: real, decay: real)
    requires k.gridSize != 0.0 && DecayFactor(decay, k, delta)
    requires SeparateBatches(particles.current)
    requires forall n :: 0 <= n < |particles.current| ==> particles.current[n].stride == 3
    modifies particles, Footprint(particles.current)
    ensures particles.current == KeptFrom(old(particles.current), old(FadeFlags(particles.current, k, decay)), 0)
    ensures forall n :: 0 <= n < |old(particles.current)| ==>
      var b := old(particles.current)[n];
      FadedFrom(b, old(State(b)), k, delta, decay)
  {
    ghost var olds := particles.current;
    ghost var drop := FadeFlags(particles.current, k, decay);
    ghost var before := States(particles.current);
    LoopStart(olds, before, drop, k, delta, decay);
    SpliceEnds(olds, drop);
    BatchLoop(particles, olds, before, drop, k, delta, decay);
  }
}
