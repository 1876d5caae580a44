/** lib/three/animation.ts: the fixed-step renderer. One call moves every rocket
    by one whole velocity step with Y up and explodes it once it has risen
    `EXPLOSION_HEIGHT` above its launch height; particle batches keep stride-2
    positions `[x, y, ...]` and are drawn in the plane z = 0. Both lists are
    walked from the back so that `splice` does not skip an element. */
module Animation {
  import opened Vectors
  import opened Types
  import opened Buffers
  import Utils
  import FireworkModel
  import FireworkConfig

  /** Where a rocket or particle is drawn: snapped x and y, z pinned to 0. */
  function RenderPosition(truePos: Vec3, gridSize: real): (p: Vec3)
    requires gridSize != 0.0
    ensures p.z == 0.0
    ensures p.x == Utils.SnapToGrid(truePos.x, gridSize) && p.y == Utils.SnapToGrid(truePos.y, gridSize)
  {
    Vec3(Utils.SnapToGrid(truePos.x, gridSize), Utils.SnapToGrid(truePos.y, gridSize), 0.0)
  }

  /** One frame of a rocket: a whole velocity step, drawn at the snapped
      point. */
  function Fly(r: RocketState, velocity: Vec3, gridSize: real): (q: RocketState)
    requires gridSize != 0.0
    ensures q.truePos == r.truePos.Plus(velocity) && q.wasmId == r.wasmId
    ensures q.position == RenderPosition(q.truePos, gridSize)
  {
    var truePos := r.truePos.Plus(velocity);
    r.(truePos := truePos, position := RenderPosition(truePos, gridSize))
  }

  /** Every rocket of `s`, in state `before[n]`, flown one frame. */
  function FlyAll(s: seq<RocketItem>, before: seq<RocketState>, gridSize: real): (after: seq<RocketState>)
    requires gridSize != 0.0 && |before| == |s|
    ensures |after| == |s|
    ensures forall n :: 0 <= n < |s| ==> after[n] == Fly(before[n], s[n].velocity, gridSize)
  {
    seq(|s|, n requires 0 <= n < |s| => Fly(before[n], s[n].velocity, gridSize))
  }

  /** For each rocket in state `before[n]`, whether this frame's step takes it
      to its explosion height: `launchY + EXPLOSION_HEIGHT` on Y. */
  function BurstFlags(s: seq<RocketItem>, before: seq<RocketState>): (d: seq<bool>)
    requires |before| == |s|
    ensures |d| == |s|
    ensures forall n :: 0 <= n < |s| ==>
      (d[n] <==> before[n].truePos.Plus(s[n].velocity).y >= s[n].launchY + FireworkModel.EXPLOSION_HEIGHT)
  {
    seq(|s|, n requires 0 <= n < |s| =>
      before[n].truePos.Plus(s[n].velocity).y >= s[n].launchY + FireworkModel.EXPLOSION_HEIGHT)
  }

  /** The rocket's own part of a frame: it advances by its whole velocity and
      is drawn at the snapped point. */
  method Move(item: RocketItem, k: Constants)
    requires k.gridSize != 0.0
    modifies item
    ensures Flight(item) == Fly(old(Flight(item)), item.velocity, k.gridSize)
  {
    item.truePos := item.truePos.Plus(item.velocity);
    item.position := RenderPosition(item.truePos, k.gridSize);
  }

  /** One pass of the rocket loop at index `i`: the rocket flies one frame;
      when it is flagged as reaching its height, a fresh batch spawned at
      its render point is appended and the rocket is spliced out. `added` is
      what was appended. */
  method FlyAt(rockets: RocketsRef, particles: ParticlesRef, ghost s: seq<RocketItem>, ghost before: seq<RocketState>,
               ghost after: seq<RocketState>, ghost drop: seq<bool>, i: nat, k: Constants, bursts: seq<seq<real>>)
    returns (ghost added: seq<ParticleItem>)
    requires k.gridSize != 0.0 && i < |s| && |drop| == |s| && |bursts| == |s|
    requires forall n :: 0 <= n < |s| && n != i ==> s[n] != s[i]
    requires FlownSuffix(s, before, after, i + 1)
    requires after[i] == Fly(before[i], s[i].velocity, k.gridSize)
    requires drop[i] <==> before[i].truePos.Plus(s[i].velocity).y >= s[i].launchY + FireworkModel.EXPLOSION_HEIGHT
    requires |bursts[i]| == 3 * FireworkModel.PARTICLE_COUNT
    requires rockets.current == s[..i + 1] + KeptFrom(s, drop, i + 1)
    modifies rockets, particles, s[i]
    ensures rockets.current == s[..i] + KeptFrom(s, drop, i)
    ensures FlownSuffix(s, before, after, i)
    ensures particles.current == old(particles.current) + added
    ensures |added| == (if drop[i] then 1 else 0)
    ensures forall b :: b in added ==> SpawnedFrom(b, s[i].fireworkType, after[i].position, bursts[i], 2)
    ensures fresh(Objects(added))
  {
    SpliceStep(s, drop, i + 1, rockets.current);
    var item := rockets.current[i];
    Move(item, k);
    forall n | 0 <= n < |s| && n != i
      ensures Flight(s[n]) == old(Flight(s[n]))
    {
      assert s[n] != item;
    }
    added := [];
    var targetHeight := item.launchY + FireworkModel.EXPLOSION_HEIGHT;
    if item.truePos.y >= targetHeight {
      var group := new ParticleItem(item.fireworkType, item.position, bursts[i],
                                          FireworkModel.PARTICLE_COUNT, 2);
      particles.current := particles.current + [group];
      rockets.current := rockets.current[..i] + rockets.current[i + 1..];
      added := [group];
      assert added[..0] == [];
    }
  }

  /** One pass of the rocket loop, from index `i + 1` down to `i`. */
  method RocketPass(rockets: RocketsRef, particles: ParticlesRef, ghost s: seq<RocketItem>,
                    ghost before: seq<RocketState>, ghost after: seq<RocketState>, ghost drop: seq<bool>,
                    ghost oldParticles: seq<ParticleItem>, ghost spawned: seq<ParticleItem>, i: nat, k: Constants,
                    bursts: seq<seq<real>>)
    returns (ghost added: seq<ParticleItem>)
    requires k.gridSize != 0.0 && Distinct(s) && i < |s|
    requires |before| == |s| && |bursts| == |s| && drop == BurstFlags(s, before)
    requires after == FlyAll(s, before, k.gridSize)
    requires forall n :: 0 <= n < |bursts| ==> |bursts[n]| == 3 * FireworkModel.PARTICLE_COUNT
    requires RocketLoop(rockets, particles, s, before, after, drop, oldParticles, spawned, i + 1, bursts, 2)
    modifies rockets, particles, s[i]
    ensures RocketLoop(rockets, particles, s, before, after, drop, oldParticles, spawned + added, i, bursts, 2)
    ensures fresh(Objects(added))
  {
    DistinctAt(s, i);
    assert after[i] == Fly(before[i], s[i].velocity, k.gridSize);
    assert drop[i] <==> before[i].truePos.Plus(s[i].velocity).y >= s[i].launchY + FireworkModel.EXPLOSION_HEIGHT;
    assert |bursts[i]| == 3 * FireworkModel.PARTICLE_COUNT;
    added := FlyAt(rockets, particles, s, before, after, drop, i, k, bursts);
    assert Spawned(spawned, s, after, DroppedFrom(drop, i + 1), bursts, 2);
    if drop[i] {
      SpawnedGrow(spawned, s, after, drop, i, bursts, 2, added[0]);
    } else {
      assert DroppedFrom(drop, i) == DroppedFrom(drop, i + 1);
    }
  }

  /** `updateRockets(rocketsRef, particlesRef, scene)`; `bursts[i]` is the
      velocity buffer an instanced explosion factory would draw for rocket
      `i`. Every rocket flies one frame; the ones that reach their height
      leave the list, the others keeping their order, and each of them
      appends one fresh batch at its render point, last rocket first. The
      batch is the one `updateParticles` can step; the entry the source
      pushes as written is `PushedGroup` below. */
  method UpdateRockets(rockets: RocketsRef, particles: ParticlesRef, k: Constants, bursts: seq<seq<real>>)
    requires k.gridSize != 0.0
    requires Distinct(rockets.current)
    requires |bursts| == |rockets.current|
    requires forall n :: 0 <= n < |bursts| ==> |bursts[n]| == 3 * FireworkModel.PARTICLE_COUNT
    modifies rockets, particles, set r | r in rockets.current
    ensures var olds, before := old(rockets.current), old(Flights(rockets.current));
      forall n :: 0 <= n < |olds| ==> Flight(olds[n]) == Fly(before[n], olds[n].velocity, k.gridSize)
    ensures var olds, before := old(rockets.current), old(Flights(rockets.current));
      rockets.current == KeptFrom(olds, BurstFlags(olds, before), 0)
    ensures |particles.current| >= |old(particles.current)|
    ensures particles.current[..|old(particles.current)|] == old(particles.current)
    ensures var olds, before := old(rockets.current), old(Flights(rockets.current));
      Spawned(particles.current[|old(particles.current)|..], olds, FlyAll(olds, before, k.gridSize),
              DroppedFrom(BurstFlags(olds, before), 0), bursts, 2)
    ensures fresh(Objects(particles.current[|old(particles.current)|..]))
  {
    ghost var olds := rockets.current;
    ghost var oldParticles := particles.current;
    ghost var before := Flights(rockets.current);
    ghost var drop := BurstFlags(olds, before);
    ghost var after := FlyAll(olds, before, k.gridSize);
    ghost var spawned: seq<ParticleItem> := [];
    RocketLoopStart(rockets, particles, olds, before, after, drop, bursts, 2);
    var i := |rockets.current|;
    while i > 0
      invariant 0 <= i <= |olds|
      invariant RocketLoop(rockets, particles, olds, before, after, drop, oldParticles, spawned, i, bursts, 2)
      invariant fresh(Objects(spawned))
    {
      i := i - 1;
      var added := RocketPass(rockets, particles, olds, before, after, drop, oldParticles, spawned, i, k, bursts);
      ObjectsAppend(spawned, added);
      spawned := spawned + added;
    }
    RocketLoopEnd(rockets, particles, olds, before, after, drop, oldParticles, spawned, bursts, 2);
  }

  /** The instance translations for stride-2 positions `[x0, y0, x1, y1, ...]`:
      snapped x and y, z = 0, one per pair. */
  function SnappedInstances(positions: seq<real>, gridSize: real): seq<Vec3>
    requires gridSize != 0.0
    decreases |positions|
  {
    if |positions| < 2 then []
    else
      var n := |positions| - 2;
      SnappedInstances(positions[..n], gridSize)
      + [Vec3(Utils.SnapToGrid(positions[n], gridSize), Utils.SnapToGrid(positions[n + 1], gridSize), 0.0)]
  }

  /** Instance `j` sits at the snapped position of particle `j`: the render
      position is always the snapped true position. */
  lemma {:induction false} SnappedInstancesAt(positions: seq<real>, gridSize: real, j: nat)
    requires gridSize != 0.0 && |positions| % 2 == 0
    ensures |SnappedInstances(positions, gridSize)| == |positions| / 2
    ensures j < |positions| / 2 ==>
      SnappedInstances(positions, gridSize)[j]
      == Vec3(Utils.SnapToGrid(positions[2 * j], gridSize), Utils.SnapToGrid(positions[2 * j + 1], gridSize), 0.0)
    decreases |positions|
  {
    if |positions| >= 2 {
      var n := |positions| - 2;
      SnappedInstancesAt(positions[..n], gridSize, j);
    }
  }

  lemma SnappedInstancesAppend(done: seq<real>, x: real, y: real, gridSize: real)
    requires gridSize != 0.0
    ensures SnappedInstances(done + [x, y], gridSize)
      == SnappedInstances(done, gridSize) + [Vec3(Utils.SnapToGrid(x, gridSize), Utils.SnapToGrid(y, gridSize), 0.0)]
  {
    assert (done + [x, y])[..|done|] == done;
  }

  predicate InstancesSnapped(b: ParticleItem, gridSize: real)
    requires gridSize != 0.0
    reads b.instances, b.truePos
  {
    b.instances[..] == SnappedInstances(b.truePos[..], gridSize)
  }

  /** One pass of the inner loop: particle `j` falls, moves, and is drawn. */
  method StepParticle(b: ParticleItem, j: nat, k: Constants)
    requires b.Valid() && b.stride == 2 && k.gridSize != 0.0 && j < b.count
    modifies b.velocities, b.truePos, b.instances
    ensures Buffers(b.velocities[..], b.truePos[..])
      == ParticleStep(Buffers(old(b.velocities[..]), old(b.truePos[..])), j, k.gravity)
    ensures old(b.instances[..j] == SnappedInstances(b.truePos[..2 * j], k.gridSize)) ==>
      b.instances[..j + 1] == SnappedInstances(b.truePos[..2 * (j + 1)], k.gridSize)
  {
    var j3 := 3 * j;
    var j2 := 2 * j;
    ghost var v0, p0 := b.velocities[..], b.truePos[..];
    ghost var vy := v0[j3 + 1] - k.gravity;
    ghost var r := ParticleStep(Buffers(v0, p0), j, k.gravity);
    assert r.velocities == v0[j3 + 1 := vy];
    assert r.positions == p0[j2 := p0[j2] + v0[j3]][j2 + 1 := p0[j2 + 1] + vy];
    b.velocities[j3 + 1] := b.velocities[j3 + 1] - k.gravity;
    assert b.velocities[..] == r.velocities;
    b.truePos[j2] := b.truePos[j2] + b.velocities[j3];
    b.truePos[j2 + 1] := b.truePos[j2 + 1] + b.velocities[j3 + 1];
    assert b.truePos[..] == r.positions;
    var snappedX := Utils.SnapToGrid(b.truePos[j2], k.gridSize);
    var snappedY := Utils.SnapToGrid(b.truePos[j2 + 1], k.gridSize);
    ghost var done, shown := b.truePos[..j2], b.instances[..j];
    b.instances[j] := Vec3(snappedX, snappedY, 0.0);
    assert b.truePos[..2 * (j + 1)] == done + [b.truePos[j2], b.truePos[j2 + 1]];
    assert b.instances[..j + 1] == shown + [b.instances[j]];
    SnappedInstancesAppend(done, b.truePos[j2], b.truePos[j2 + 1], k.gridSize);
  }

  /** The inner loop of `updateParticles` for one surviving batch. */
  method StepBatch(b: ParticleItem, k: Constants)
    requires b.Valid() && b.stride == 2 && k.gridSize != 0.0
    modifies b.velocities, b.truePos, b.instances
    ensures Buffers(b.velocities[..], b.truePos[..])
      == PlanarStep(Buffers(old(b.velocities[..]), old(b.truePos[..])), b.count, k.gravity)
    ensures InstancesSnapped(b, k.gridSize)
  {
    ghost var start := Buffers(b.velocities[..], b.truePos[..]);
    for j := 0 to b.count
      invariant Buffers(b.velocities[..], b.truePos[..]) == PlanarStep(start, j, k.gravity)
      invariant b.instances[..j] == SnappedInstances(b.truePos[..2 * j], k.gridSize)
    {
      StepParticle(b, j, k);
    }
    assert b.instances[..] == b.instances[..b.count];
    assert b.truePos[..] == b.truePos[..2 * b.count];
  }

  /** A batch's alpha after one frame: scaled once by the decay constant. */
  function Decayed(alpha: real, k: Constants): real {
    alpha * k.alphaDecay
  }

  /** What one call of `updateParticles` does to a batch of `count` particles:
      alpha decays once and becomes the opacity; a batch that falls below the
      threshold keeps its buffers (and is removed), any other is stepped and
      every instance is redrawn at its snapped position. */
  function Fade(s: BatchState, count: nat, k: Constants): (r: BatchState)
    requires Fits(Buffers(s.velocities, s.positions), count) && k.gridSize != 0.0
    ensures r.alpha == Decayed(s.alpha, k) && r.opacity == r.alpha
    ensures r.alpha < k.alphaThreshold ==>
      r.velocities == s.velocities && r.positions == s.positions && r.instances == s.instances
  {
    var alpha := Decayed(s.alpha, k);
    if alpha < k.alphaThreshold then s.(alpha := alpha, opacity := alpha)
    else
      var stepped := PlanarStep(Buffers(s.velocities, s.positions), count, k.gravity);
      BatchState(alpha, alpha, stepped.velocities, stepped.positions, SnappedInstances(stepped.positions, k.gridSize))
  }

  /** Alpha only decays: for a decay constant within (0, 1], a non-negative
      alpha stays non-negative and never grows. */
  lemma FadeNeverBrightens(s: BatchState, count: nat, k: Constants)
    requires Fits(Buffers(s.velocities, s.positions), count) && k.gridSize != 0.0
    requires 0.0 < k.alphaDecay <= 1.0 && s.alpha >= 0.0
    ensures 0.0 <= Fade(s, count, k).alpha <= s.alpha
  {
    ScaleWithinUnit(k.alphaDecay, s.alpha);
    assert Decayed(s.alpha, k) == k.alphaDecay * s.alpha;
  }

  /** A surviving batch: particle `j` loses `GRAVITY` on `vy` while `vx`
      keeps its value, moves by `vx` and the new `vy`, and is drawn at its
      snapped position with z = 0. */
  lemma FadeSurvivor(s: BatchState, count: nat, k: Constants, j: nat)
    requires Fits(Buffers(s.velocities, s.positions), count) && k.gridSize != 0.0
    requires |s.positions| == 2 * count && j < count
    requires Decayed(s.alpha, k) >= k.alphaThreshold
    ensures var r := Fade(s, count, k);
      && r.velocities[3 * j + 1] == s.velocities[3 * j + 1] - k.gravity
      && r.velocities[3 * j] == s.velocities[3 * j]
      && r.positions[2 * j] == s.positions[2 * j] + s.velocities[3 * j]
      && r.positions[2 * j + 1] == s.positions[2 * j + 1] + (s.velocities[3 * j + 1] - k.gravity)
      && |r.instances| == count
      && r.instances[j] == Vec3(Utils.SnapToGrid(r.positions[2 * j], k.gridSize),
                                Utils.SnapToGrid(r.positions[2 * j + 1], k.gridSize), 0.0)
  {
    var q := Buffers(s.velocities, s.positions);
    PlanarStepVelocity(q, count, k.gravity, j);
    PlanarStepPosition(q, count, k.gravity, j);
    SnappedInstancesAt(PlanarStep(q, count, k.gravity).positions, k.gridSize, j);
  }

  /** Batch `b`, whose state was `before`, is now in the state `Fade` gives. */
  predicate FadedFrom(b: ParticleItem, before: BatchState, k: Constants)
    reads b, b.velocities, b.truePos, b.instances
  {
    && Fits(Buffers(before.velocities, before.positions), b.count) && k.gridSize != 0.0
    && State(b) == Fade(before, b.count, k)
  }

  /** The body of the batch loop up to the removal test; the result says
      whether the batch is to be spliced out. */
  method FadeBatch(b: ParticleItem, k: Constants) returns (remove: bool)
    requires b.Valid() && b.stride == 2 && k.gridSize != 0.0
    modifies b, b.velocities, b.truePos, b.instances
    ensures State(b) == Fade(old(State(b)), b.count, k)
    ensures b.alpha == Decayed(old(b.alpha), k)
    ensures remove <==> b.alpha < k.alphaThreshold
  {
    b.alpha := Decayed(b.alpha, k);
    b.opacity := b.alpha;
    if b.alpha < k.alphaThreshold {
      return true;
    }
    StepBatch(b, k);
    return false;
  }

  /** Batches before index `i` are still in their state `before`; batches
      from `i` on have faded from it. */
  predicate FadedSuffix(s: seq<ParticleItem>, before: seq<BatchState>, i: nat, k: Constants)
    reads Footprint(s)
  {
    && |before| == |s|
    && (forall n :: 0 <= n < |s| && n < i ==> State(s[n]) == before[n])
    && (forall n :: i <= n < |s| ==> FadedFrom(s[n], before[n], k))
  }

  /** One pass of the batch loop at index `i`: batch `i` fades and is
      spliced out exactly when it is flagged, which the caller guarantees
      happens exactly when its decayed alpha falls below the threshold; every
      other batch of the separate batches `s` stays as it was. */
  method FadeAt(particles: ParticlesRef, ghost s: seq<ParticleItem>, ghost before: seq<BatchState>,
                ghost drop: seq<bool>, i: nat, k: Constants)
    requires |drop| == |s| && i < |s| && s[i].Valid()
    requires forall n :: 0 <= n < |s| && n != i ==> Disjoint(s[n], s[i])
    requires particles.current == s[..i + 1] + KeptFrom(s, drop, i + 1)
    requires FadedSuffix(s, before, i + 1, k)
    requires drop[i] <==> Decayed(before[i].alpha, k) < k.alphaThreshold
    requires s[i].stride == 2 && k.gridSize != 0.0
    modifies particles, s[i], s[i].velocities, s[i].truePos, s[i].instances
    ensures particles.current == s[..i] + KeptFrom(s, drop, i)
    ensures FadedSuffix(s, before, i, k)
  {
    SpliceStep(s, drop, i + 1, particles.current);
    var mesh := particles.current[i];
    var remove := FadeBatch(mesh, k);
    if remove {
      particles.current := particles.current[..i] + particles.current[i + 1..];
    }
    forall n | 0 <= n < |s| && n != i
      ensures State(s[n]) == old(State(s[n]))
    {
      assert s[n] != mesh && s[n].velocities != mesh.velocities && s[n].truePos != mesh.truePos;
      assert s[n].instances != mesh.instances && s[n].velocities != mesh.truePos;
      assert s[n].truePos != mesh.velocities;
    }
  }

  /** For each batch, whether one more decay takes its alpha below the
      threshold. */
  function FadeFlags(s: seq<ParticleItem>, k: Constants): (d: seq<bool>)
    reads s
    ensures |d| == |s|
    ensures forall n :: 0 <= n < |s| ==> (d[n] <==> Decayed(s[n].alpha, k) < k.alphaThreshold)
  {
    seq(|s|, n requires 0 <= n < |s| reads s => Decayed(s[n].alpha, k) < k.alphaThreshold)
  }

  /** `drop` flags exactly the batches whose decayed alpha, from states
      `before`, falls below the threshold. */
  predicate Flagged(before: seq<BatchState>, drop: seq<bool>, k: Constants) {
    && |drop| == |before|
    && forall n :: 0 <= n < |before| ==> (drop[n] <==> Decayed(before[n].alpha, k) < k.alphaThreshold)
  }

  /** One pass of the batch loop, from index `i + 1` down to `i`. */
  method BatchPass(particles: ParticlesRef, ghost s: seq<ParticleItem>, ghost before: seq<BatchState>,
                   ghost drop: seq<bool>, i: nat, k: Constants)
    requires SeparateBatches(s) && i < |s| && |drop| == |s| && k.gridSize != 0.0
    requires forall n :: 0 <= n < |s| ==> s[n].stride == 2
    requires Flagged(before, drop, k)
    requires particles.current == s[..i + 1] + KeptFrom(s, drop, i + 1)
    requires FadedSuffix(s, before, i + 1, k)
    modifies particles, s[i], s[i].velocities, s[i].truePos, s[i].instances
    ensures particles.current == s[..i] + KeptFrom(s, drop, i)
    ensures FadedSuffix(s, before, i, k)
  {
    SeparateAt(s, i);
    FadeAt(particles, s, before, drop, i, k);
  }

  /** The batch loop, from the last batch to the first. */
  method BatchLoop(particles: ParticlesRef, ghost s: seq<ParticleItem>, ghost before: seq<BatchState>,
                   ghost drop: seq<bool>, k: Constants)
    requires SeparateBatches(s) && |drop| == |s| && k.gridSize != 0.0
    requires forall n :: 0 <= n < |s| ==> s[n].stride == 2
    requires Flagged(before, drop, k)
    requires particles.current == s && s[..|s|] + KeptFrom(s, drop, |s|) == s
    requires FadedSuffix(s, before, |s|, k)
    modifies particles, Footprint(s)
    ensures particles.current == s[..0] + KeptFrom(s, drop, 0)
    ensures FadedSuffix(s, before, 0, k)
  {
    var i := |particles.current|;
    while i > 0
      invariant 0 <= i <= |s|
      invariant particles.current == s[..i] + KeptFrom(s, drop, i)
      invariant FadedSuffix(s, before, i, k)
    {
      i := i - 1;
      BatchPass(particles, s, before, drop, i, k);
    }
  }

  /** Before the loop every batch is in its first state, and the flags are
      those of that state. */
  lemma LoopStart(s: seq<ParticleItem>, before: seq<BatchState>, drop: seq<bool>, k: Constants)
    requires before == States(s) && drop == FadeFlags(s, k)
    ensures FadedSuffix(s, before, |s|, k) && Flagged(before, drop, k)
  {
  }

  /** `updateParticles(particlesRef, scene)`: every batch fades as `Fade`
      says, and exactly the batches whose decayed alpha fell below the
      threshold leave the list, the others keeping their order. */
  method UpdateParticles(particles: ParticlesRef, k: Constants)
    requires k.gridSize != 0.0
    requires SeparateBatches(particles.current)
    requires forall n :: 0 <= n < |particles.current| ==> particles.current[n].stride == 2
    modifies particles, Footprint(particles.current)
    ensures particles.current == KeptFrom(old(particles.current), old(FadeFlags(particles.current, k)), 0)
    ensures forall n :: 0 <= n < |old(particles.current)| ==>
      var b := old(particles.current)[n];
      FadedFrom(b, old(State(b)), k)
  {
    ghost var olds := particles.current;
    ghost var drop := FadeFlags(particles.current, k);
    ghost var before := States(particles.current);
    LoopStart(olds, before, drop, k);
    SpliceEnds(olds, drop);
    BatchLoop(particles, olds, before, drop, k);
  }

  /** What `updateParticles` takes from an entry of `particlesRef`: its
      `userData.velocities`, `userData.truePos` and `userData.alpha`
      (`None` where the entry has no such field) and whether it has a
      material whose opacity can be set. */
  datatype Entry = Entry(velocities: Option<seq<real>>, truePos: Option<seq<real>>, alpha: Option<real>,
                         material: bool)

  /** An entry that `updateParticles` can step as a batch of `count`
      particles at two position slots each. */
  predicate Steppable(e: Entry, count: nat) {
    && e.velocities.Some? && |e.velocities.value| == 3 * count
    && e.truePos.Some? && |e.truePos.value| == 2 * count
    && e.alpha.Some? && e.material
  }

  /** The entry a batch object presents. */
  function BatchEntry(b: ParticleItem): (e: Entry)
    reads b, b.velocities, b.truePos
    ensures b.Valid() && b.stride == 2 ==> Steppable(e, b.count)
  {
    Entry(Some(b.velocities[..]), Some(b.truePos[..]), Some(b.alpha), true)
  }

  /** The entry that `updateRockets` pushes as written: the `group` that
      `createExplosion` returns, a plain group of pixel meshes. Its
      `userData` is empty and it has no material. The velocity buffer drawn
      with it is dropped by the destructuring `{ group }`. */
  function PushedGroup(group: seq<FireworkModel.Pixel>, velocities: seq<real>): (e: Entry)
    ensures e.velocities.None? && e.truePos.None? && e.alpha.None? && !e.material
  {
    Entry(None, None, None, false)
  }

  /** The first two statements of the batch loop on one entry: the alpha is
      scaled (`NaN`, written `None`, when the entry has no alpha), then it
      is stored as the material's opacity, which throws when there is no
      material. */
  datatype FadeStep = Threw | Stored(alpha: Option<real>)

  function FadeEntry(e: Entry, k: Constants): (r: FadeStep)
    ensures r.Threw? <==> !e.material
    ensures r.Stored? ==> (r.alpha.Some? <==> e.alpha.Some?)
    ensures r.Stored? && e.alpha.Some? ==> r.alpha == Some(Decayed(e.alpha.value, k))
  {
    if !e.material then Threw
    else if e.alpha.None? then Stored(None)
    else Stored(Some(Decayed(e.alpha.value, k)))
  }

  /** As written, the entry pushed for an exploding rocket is never a batch
      `updateParticles` can step, whatever the explosion drew, and the next
      frame throws on it before any particle moves. */
  lemma PushedGroupNotSteppable(group: seq<FireworkModel.Pixel>, velocities: seq<real>, k: Constants)
    ensures forall count :: !Steppable(PushedGroup(group, velocities), count)
    ensures FadeEntry(PushedGroup(group, velocities), k) == Threw
  {
  }

  /** As intended, the batch `FlyAt` spawns is one `updateParticles` can
      step: it holds the burst's velocities and fades from full opacity. */
  lemma SpawnedBatchSteppable(b: ParticleItem, t: FireworkConfig.FireworkType, origin: Vec3, burst: seq<real>,
                              k: Constants)
    requires SpawnedFrom(b, t, origin, burst, 2)
    ensures Steppable(BatchEntry(b), FireworkModel.PARTICLE_COUNT)
    ensures BatchEntry(b).velocities == Some(burst)
    ensures FadeEntry(BatchEntry(b), k) == Stored(Some(Decayed(1.0, k)))
  {
  }
}
