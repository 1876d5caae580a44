/** lib/three/animation-wasm.ts: the renderer that hands the physics to the
    compiled backend. Each rocket and each batch registers with the backend
    the first time a frame meets it and keeps the id it is given; the
    backend's replies overwrite the rocket's positions and place the batch's
    instances. An empty list returns at once; a pass that leaves a list
    empty tells the backend to clear it. */
module AnimationWasm {
  import opened Vectors
  import opened Types
  import Buffers
  import FireworkModel

  /** A call into the backend, as its log records it. */
  datatype Call =
    | RocketCreated(truePos: seq<real>, velocity: seq<real>, id: nat)
    | RocketUpdated(id: nat, delta: real)
    | RocketsCleared
    | ParticleCreated(velocities: seq<real>, positions: seq<real>, count: nat, id: nat)
    | ParticleUpdated(id: nat, delta: real)
    | ParticlesCleared

  /** How many calls of each kind the backend has served. */
  datatype Served = Served(rocketsCreated: nat, rocketsUpdated: nat, particlesCreated: nat, particlesUpdated: nat)

  /** The answers of the backend's code, which is not part of this model,
      fixed in advance: the id the n-th create call of a kind hands out and
      the numbers the n-th update call of a kind returns. */
  datatype Script = Script(rocketIds: nat -> nat, rocketReplies: nat -> seq<real>,
                           particleIds: nat -> nat, particleReplies: nat -> seq<real>)

  /** The backend as the renderer meets it: its script, how many calls of
      each kind it has served, and the log of every call made to it. */
  datatype Backend = Backend(script: Script, served: Served, log: seq<Call>)

  /** `create_rocket(truePos, velocity)` */
  method CreateRocket(backend: Backend, truePos: seq<real>, velocity: seq<real>) returns (next: Backend, id: nat)
    ensures id == Answer(backend.script.rocketIds, backend.served.rocketsCreated)
    ensures next.script == backend.script && next.log == backend.log + [RocketCreated(truePos, velocity, id)]
    ensures next.served == backend.served.(rocketsCreated := backend.served.rocketsCreated + 1)
  {
    id := Answer(backend.script.rocketIds, backend.served.rocketsCreated);
    next := backend.(served := backend.served.(rocketsCreated := backend.served.rocketsCreated + 1),
                     log := backend.log + [RocketCreated(truePos, velocity, id)]);
  }

  /** `update_rocket(id, delta)` */
  method UpdateRocket(backend: Backend, id: nat, delta: real) returns (next: Backend, results: seq<real>)
    ensures results == Answer(backend.script.rocketReplies, backend.served.rocketsUpdated)
    ensures next.script == backend.script && next.log == backend.log + [RocketUpdated(id, delta)]
    ensures next.served == backend.served.(rocketsUpdated := backend.served.rocketsUpdated + 1)
  {
    results := Answer(backend.script.rocketReplies, backend.served.rocketsUpdated);
    next := backend.(served := backend.served.(rocketsUpdated := backend.served.rocketsUpdated + 1),
                     log := backend.log + [RocketUpdated(id, delta)]);
  }

  /** `clear_rockets()` */
  function ClearRockets(backend: Backend): (next: Backend)
    ensures next.script == backend.script && next.served == backend.served
    ensures next.log == backend.log + [RocketsCleared]
  {
    backend.(log := backend.log + [RocketsCleared])
  }

  /** `create_particle(velocities, truePos, count)` */
  method CreateParticle(backend: Backend, velocities: seq<real>, positions: seq<real>, count: nat)
    returns (next: Backend, id: nat)
    ensures id == Answer(backend.script.particleIds, backend.served.particlesCreated)
    ensures next.script == backend.script
    ensures next.log == backend.log + [ParticleCreated(velocities, positions, count, id)]
    ensures next.served == backend.served.(particlesCreated := backend.served.particlesCreated + 1)
  {
    id := Answer(backend.script.particleIds, backend.served.particlesCreated);
    next := backend.(served := backend.served.(particlesCreated := backend.served.particlesCreated + 1),
                     log := backend.log + [ParticleCreated(velocities, positions, count, id)]);
  }

  /** `update_particle(id, delta)`: the snapped positions of the batch. */
  method UpdateParticle(backend: Backend, id: nat, delta: real) returns (next: Backend, snapped: seq<real>)
    ensures snapped == Answer(backend.script.particleReplies, backend.served.particlesUpdated)
    ensures next.script == backend.script && next.log == backend.log + [ParticleUpdated(id, delta)]
    ensures next.served == backend.served.(particlesUpdated := backend.served.particlesUpdated + 1)
  {
    snapped := Answer(backend.script.particleReplies, backend.served.particlesUpdated);
    next := backend.(served := backend.served.(particlesUpdated := backend.served.particlesUpdated + 1),
                     log := backend.log + [ParticleUpdated(id, delta)]);
  }

  /** `clear_particles()` */
  function ClearParticles(backend: Backend): (next: Backend)
    ensures next.script == backend.script && next.served == backend.served
    ensures next.log == backend.log + [ParticlesCleared]
  {
    backend.(log := backend.log + [ParticlesCleared])
  }

  // ---- registration ----

  /** The number of entries from index `i` on that equal `want`. */
  function CountFrom(flags: seq<bool>, i: nat, want: bool): (c: nat)
    requires i <= |flags|
    ensures c <= |flags| - i
    decreases |flags| - i
  {
    if i == |flags| then 0 else CountFrom(flags, i + 1, want) + (if flags[i] == want then 1 else 0)
  }

  /** The `n`-th answer of a backend scripted by `script`. */
  function Answer<T>(script: nat -> T, n: nat): T {
    script(n)
  }

  /** Which entries still lack a backend id. */
  function Unset(held: seq<Option<nat>>): (u: seq<bool>)
    ensures |u| == |held| && forall n :: 0 <= n < |held| ==> (u[n] <==> held[n].None?)
  {
    seq(|held|, n requires 0 <= n < |held| => held[n].None?)
  }

  /** The id an entry holds after registration: the one it already had, or
      else the id the backend hands out on its `created`-th create call. */
  function Registered(held: Option<nat>, ids: nat -> nat, created: nat): (id: nat)
    ensures held.Some? ==> id == held.value
  {
    if held.Some? then held.value else Answer(ids, created)
  }

  /** The ids a list holds after a pass from its back: an entry without one
      is given the next id the backend hands out, after those handed to the
      entries behind it. */
  function AssignedIds(held: seq<Option<nat>>, ids: nat -> nat, created: nat): (r: seq<nat>)
    ensures |r| == |held|
    ensures forall n {:trigger r[n]} :: 0 <= n < |held| ==>
      r[n] == Registered(held[n], ids, created + CountFrom(Unset(held), n + 1, true))
  {
    var u := Unset(held);
    seq(|held|, n requires 0 <= n < |held| => Registered(held[n], ids, created + CountFrom(u, n + 1, true)))
  }

  /** Entry `i` holds the id of the create call made after those of the
      entries behind it that lacked one. */
  lemma {:induction false} IdAt(held: seq<Option<nat>>, r: seq<nat>, ids: nat -> nat, created0: nat, created: nat, i: nat)
    requires i < |held| && r == AssignedIds(held, ids, created0)
    requires created == created0 + CountFrom(Unset(held), i + 1, true)
    ensures r[i] == Registered(held[i], ids, created)
  {
    assert r[i] == Registered(held[i], ids, created0 + CountFrom(Unset(held), i + 1, true));
  }

  /** Two entries without an id are given the ids of two different create
      calls, the one nearer the back of the list the earlier call. */
  lemma AssignedIdsFresh(held: seq<Option<nat>>, a: nat, b: nat)
    requires a < b < |held| && held[a].None? && held[b].None?
    ensures CountFrom(Unset(held), a + 1, true) > CountFrom(Unset(held), b + 1, true)
  {
    CountFromSplit(Unset(held), a + 1, b);
  }

  /** Counting from `i` counts at least as many as counting from `j >= i`,
      and one more for entry `j` when it matches. */
  lemma {:induction false} CountFromSplit(flags: seq<bool>, i: nat, j: nat)
    requires i <= j < |flags|
    ensures CountFrom(flags, i, true) >= CountFrom(flags, j + 1, true) + (if flags[j] then 1 else 0)
    decreases j - i
  {
    if i < j {
      CountFromSplit(flags, i + 1, j);
    }
  }

  // ---- rockets ----

  /** The id each rocket of a list held before the frame. */
  function RocketWasmIds(before: seq<RocketState>): (r: seq<Option<nat>>)
    ensures |r| == |before| && forall n :: 0 <= n < |before| ==> r[n] == before[n].wasmId
  {
    seq(|before|, n requires 0 <= n < |before| => before[n].wasmId)
  }

  /** One frame of a rocket: it holds `id`, and the backend's reply
      `results` overwrites its true and render positions only when it has
      exactly six numbers. */
  function WasmFly(r: RocketState, id: nat, results: seq<real>): (q: RocketState)
    ensures q.wasmId == Some(id)
    ensures |results| == 6 ==>
      q.truePos == Vec3(results[0], results[1], results[2]) && q.position == Vec3(results[3], results[4], results[5])
    ensures |results| != 6 ==> q.truePos == r.truePos && q.position == r.position
  {
    if |results| == 6 then
      RocketState(Vec3(results[0], results[1], results[2]), Vec3(results[3], results[4], results[5]), Some(id))
    else r.(wasmId := Some(id))
  }

  /** Every rocket flown one frame: rocket `n`, the `|s| - 1 - n`-th one the
      backward pass meets, gets the reply of that update call. */
  function WasmFlights(before: seq<RocketState>, ids: seq<nat>, replies: nat -> seq<real>, updated: nat)
    : (after: seq<RocketState>)
    requires |ids| == |before|
    ensures |after| == |before|
    ensures forall n {:trigger after[n]} :: 0 <= n < |before| ==>
      after[n] == WasmFly(before[n], ids[n], Answer(replies, updated + |before| - 1 - n))
  {
    seq(|before|, n requires 0 <= n < |before| => WasmFly(before[n], ids[n], Answer(replies, updated + |before| - 1 - n)))
  }

  /** For each flown rocket, whether its true z has reached `EXPLOSION_HEIGHT`. */
  function Exploding(after: seq<RocketState>): (d: seq<bool>)
    ensures |d| == |after|
    ensures forall n :: 0 <= n < |after| ==> (d[n] <==> after[n].truePos.z >= FireworkModel.EXPLOSION_HEIGHT)
  {
    seq(|after|, n requires 0 <= n < |after| => after[n].truePos.z >= FireworkModel.EXPLOSION_HEIGHT)
  }

  /** The calls one rocket makes: a registration with its true position and
      velocity when it had no id, then one update. */
  function RocketCallsFor(velocity: Vec3, r: RocketState, id: nat, delta: real): (c: seq<Call>)
    ensures |c| == (if r.wasmId.None? then 2 else 1) && c[|c| - 1] == RocketUpdated(id, delta)
    ensures r.wasmId.None? ==>
      c[0] == RocketCreated([r.truePos.x, r.truePos.y, r.truePos.z], [velocity.x, velocity.y, velocity.z], id)
  {
    (if r.wasmId.None? then
       [RocketCreated([r.truePos.x, r.truePos.y, r.truePos.z], [velocity.x, velocity.y, velocity.z], id)]
     else [])
    + [RocketUpdated(id, delta)]
  }

  /** The calls the rockets from index `i` on make, last rocket first. */
  function RocketCalls(s: seq<RocketItem>, before: seq<RocketState>, ids: seq<nat>, delta: real, i: nat): seq<Call>
    requires |before| == |s| && |ids| == |s| && i <= |s|
    decreases |s| - i
  {
    if i == |s| then []
    else RocketCalls(s, before, ids, delta, i + 1) + RocketCallsFor(s[i].velocity, before[i], ids[i], delta)
  }

  /** The rocket pass makes one update call per rocket and one registration
      per rocket without an id, and nothing else: a rocket that leaves the
      list never notifies the backend. */
  lemma {:induction false} RocketCallsShape(s: seq<RocketItem>, before: seq<RocketState>, ids: seq<nat>,
                                            delta: real, i: nat)
    requires |before| == |s| && |ids| == |s| && i <= |s|
    ensures |RocketCalls(s, before, ids, delta, i)| == (|s| - i) + CountFrom(Unset(RocketWasmIds(before)), i, true)
    ensures forall c :: c in RocketCalls(s, before, ids, delta, i) ==> c.RocketCreated? || c.RocketUpdated?
    decreases |s| - i
  {
    if i < |s| {
      RocketCallsShape(s, before, ids, delta, i + 1);
      assert Unset(RocketWasmIds(before))[i] <==> before[i].wasmId.None?;
    }
  }

  /** The backend once one rocket in state `r` with velocity `velocity` has
      made its calls, holding `id`. */
  ghost predicate RocketServed(next: Backend, backend: Backend, velocity: Vec3, r: RocketState, id: nat, delta: real) {
    && next.script == backend.script
    && next.log == backend.log + RocketCallsFor(velocity, r, id, delta)
    && next.served == backend.served.(
         rocketsCreated := backend.served.rocketsCreated + (if r.wasmId.None? then 1 else 0),
         rocketsUpdated := backend.served.rocketsUpdated + 1)
  }

  /** The rocket's own part of a frame: it registers if it has no id, asks
      the backend for its new state, and takes the reply when it has six
      numbers. */
  method Sync(item: RocketItem, backend: Backend, delta: real) returns (next: Backend)
    modifies item
    ensures var id := Registered(old(item.wasmId), backend.script.rocketIds, backend.served.rocketsCreated);
      && Flight(item) == WasmFly(old(Flight(item)), id, Answer(backend.script.rocketReplies, backend.served.rocketsUpdated))
      && RocketServed(next, backend, item.velocity, old(Flight(item)), id, delta)
  {
    next := backend;
    if item.wasmId == None {
      var truePos := [item.truePos.x, item.truePos.y, item.truePos.z];
      var velocity := [item.velocity.x, item.velocity.y, item.velocity.z];
      var id;
      next, id := CreateRocket(next, truePos, velocity);
      item.wasmId := Some(id);
    }
    var results;
    next, results := UpdateRocket(next, item.wasmId.value, delta);
    if |results| == 6 {
      item.truePos := Vec3(results[0], results[1], results[2]);
      item.position := Vec3(results[3], results[4], results[5]);
    }
  }

  /** One pass of the rocket loop at index `i`: the rocket syncs with the
      backend; when it is flagged as having reached the height, a fresh batch
      spawned at its render point is appended and the rocket is spliced
      out. `added` is what was appended. */
  method FlyAt(rockets: RocketsRef, particles: ParticlesRef, backend: Backend, ghost s: seq<RocketItem>,
               ghost before: seq<RocketState>, ghost after: seq<RocketState>, ghost ids: seq<nat>,
               ghost drop: seq<bool>, i: nat, delta: real, bursts: seq<seq<real>>)
    returns (next: Backend, ghost added: seq<ParticleItem>)
    requires i < |s| && |drop| == |s| && |bursts| == |s| && |ids| == |s|
    requires forall n :: 0 <= n < |s| && n != i ==> s[n] != s[i]
    requires FlownSuffix(s, before, after, i + 1)
    requires ids[i] == Registered(before[i].wasmId, backend.script.rocketIds, backend.served.rocketsCreated)
    requires after[i] == WasmFly(before[i], ids[i], Answer(backend.script.rocketReplies, backend.served.rocketsUpdated))
    requires drop[i] <==> after[i].truePos.z >= FireworkModel.EXPLOSION_HEIGHT
    requires |bursts[i]| == 3 * FireworkModel.PARTICLE_COUNT
    requires rockets.current == s[..i + 1] + KeptFrom(s, drop, i + 1)
    modifies rockets, particles, s[i]
    ensures rockets.current == s[..i] + KeptFrom(s, drop, i)
    ensures FlownSuffix(s, before, after, i)
    ensures particles.current == old(particles.current) + added
    ensures |added| == (if drop[i] then 1 else 0)
    ensures forall b :: b in added ==> SpawnedFrom(b, s[i].fireworkType, after[i].position, bursts[i], 3)
    ensures fresh(Objects(added))
    ensures RocketServed(next, backend, s[i].velocity, before[i], ids[i], delta)
  {
    SpliceStep(s, drop, i + 1, rockets.current);
    var item := rockets.current[i];
    next := Sync(item, backend, delta);
    forall n | 0 <= n < |s| && n != i
      ensures Flight(s[n]) == old(Flight(s[n]))
    {
      assert s[n] != item;
    }
    added := [];
    var targetHeight := FireworkModel.EXPLOSION_HEIGHT;
    if item.truePos.z >= targetHeight {
      var group := new ParticleItem(item.fireworkType, item.position, bursts[i],
                                          FireworkModel.PARTICLE_COUNT, 3);
      particles.current := particles.current + [group];
      rockets.current := rockets.current[..i] + rockets.current[i + 1..];
      added := [group];
      assert added[..0] == [];
    }
  }

  /** The backend once the rockets from index `i` on have been processed,
      starting from `backend0`. */
  ghost predicate RocketCallsMade(backend: Backend, s: seq<RocketItem>, before: seq<RocketState>,
                            ids: seq<nat>, delta: real, backend0: Backend, i: nat)
  {
    && |before| == |s| && |ids| == |s| && i <= |s|
    && backend.script == backend0.script
    && backend.log == backend0.log + RocketCalls(s, before, ids, delta, i)
    && backend.served == backend0.served.(
         rocketsCreated := backend0.served.rocketsCreated + CountFrom(Unset(RocketWasmIds(before)), i, true),
         rocketsUpdated := backend0.served.rocketsUpdated + (|s| - i))
  }

  /** Before the first pass the backend has seen nothing from the rockets. */
  lemma RocketCallsNone(backend: Backend, s: seq<RocketItem>, before: seq<RocketState>, ids: seq<nat>, delta: real)
    requires |before| == |s| && |ids| == |s|
    ensures RocketCallsMade(backend, s, before, ids, delta, backend, |s|)
  {
  }

  /** The backend after the rocket pass and, when `cleared`, the call that
      clears the rockets. */
  lemma RocketsClosed(mid: Backend, next: Backend, backend: Backend, s: seq<RocketItem>, before: seq<RocketState>,
                      ids: seq<nat>, delta: real, cleared: bool)
    requires RocketCallsMade(mid, s, before, ids, delta, backend, 0)
    requires next == if cleared then mid.(log := mid.log + [RocketsCleared]) else mid
    ensures RocketsReported(next, backend, s, before, ids, delta, cleared)
  {
  }

  /** The backend after a whole rocket pass over `s`: the same script, the
      calls of every rocket in turn (then the clear, when `cleared`) appended
      to the log, one registration per rocket that had no id and one update
      per rocket served. */
  ghost predicate RocketsReported(next: Backend, backend: Backend, s: seq<RocketItem>, before: seq<RocketState>,
                                  ids: seq<nat>, delta: real, cleared: bool)
    requires |before| == |s| && |ids| == |s|
  {
    && next.script == backend.script
    && next.log == backend.log + RocketCalls(s, before, ids, delta, 0) + (if cleared then [RocketsCleared] else [])
    && next.served == backend.served.(
         rocketsCreated := backend.served.rocketsCreated + CountFrom(Unset(RocketWasmIds(before)), 0, true),
         rocketsUpdated := backend.served.rocketsUpdated + |s|)
  }

  /** Before rocket `i` is processed, the backend's counters pick out the id
      and the reply rocket `i` gets. */
  lemma {:induction false} RocketAt(before: seq<RocketState>, ids: seq<nat>, after: seq<RocketState>,
                 rocketIds: nat -> nat, replies: nat -> seq<real>, served0: Served, created: nat, updated: nat, i: nat)
    requires i < |before|
    requires ids == AssignedIds(RocketWasmIds(before), rocketIds, served0.rocketsCreated)
    requires after == WasmFlights(before, ids, replies, served0.rocketsUpdated)
    requires created == served0.rocketsCreated + CountFrom(Unset(RocketWasmIds(before)), i + 1, true)
    requires updated == served0.rocketsUpdated + |before| - 1 - i
    ensures ids[i] == Registered(before[i].wasmId, rocketIds, created)
    ensures after[i] == WasmFly(before[i], ids[i], Answer(replies, updated))
  {
    IdAt(RocketWasmIds(before), ids, rocketIds, served0.rocketsCreated, created, i);
  }

  /** Processing rocket `i` extends what the backend has seen from index
      `i + 1` on to what it has seen from index `i` on. */
  lemma {:induction false} RocketCallsAdvance(s: seq<RocketItem>, before: seq<RocketState>, ids: seq<nat>, delta: real,
                           backend0: Backend, mid: Backend, next: Backend, i: nat)
    requires i < |s|
    requires RocketCallsMade(mid, s, before, ids, delta, backend0, i + 1)
    requires RocketServed(next, mid, s[i].velocity, before[i], ids[i], delta)
    ensures RocketCallsMade(next, s, before, ids, delta, backend0, i)
  {
    assert Unset(RocketWasmIds(before))[i] <==> before[i].wasmId.None?;
    assert next.log == backend0.log + (RocketCalls(s, before, ids, delta, i + 1) + RocketCallsFor(s[i].velocity, before[i], ids[i], delta));
  }

  /** The rocket loop's own part of a pass at index `i`, given the id and
      the reply rocket `i` gets. */
  method FlyPass(rockets: RocketsRef, particles: ParticlesRef, backend: Backend, ghost s: seq<RocketItem>,
                 ghost before: seq<RocketState>, ghost after: seq<RocketState>, ghost ids: seq<nat>,
                 ghost drop: seq<bool>, ghost oldParticles: seq<ParticleItem>, ghost spawned: seq<ParticleItem>,
                 i: nat, delta: real, bursts: seq<seq<real>>)
    returns (next: Backend, ghost added: seq<ParticleItem>)
    requires Distinct(s) && i < |s| && |bursts| == |s| && |ids| == |s|
    requires |before| == |s| && |after| == |s| && |drop| == |s|
    requires ids[i] == Registered(before[i].wasmId, backend.script.rocketIds, backend.served.rocketsCreated)
    requires after[i] == WasmFly(before[i], ids[i], Answer(backend.script.rocketReplies, backend.served.rocketsUpdated))
    requires drop[i] <==> after[i].truePos.z >= FireworkModel.EXPLOSION_HEIGHT
    requires |bursts[i]| == 3 * FireworkModel.PARTICLE_COUNT
    requires RocketLoop(rockets, particles, s, before, after, drop, oldParticles, spawned, i + 1, bursts, 3)
    modifies rockets, particles, s[i]
    ensures RocketLoop(rockets, particles, s, before, after, drop, oldParticles, spawned + added, i, bursts, 3)
    ensures RocketServed(next, backend, s[i].velocity, before[i], ids[i], delta)
    ensures fresh(Objects(added))
  {
    DistinctAt(s, i);
    next, added := FlyAt(rockets, particles, backend, s, before, after, ids, drop, i, delta, bursts);
    assert Spawned(spawned, s, after, DroppedFrom(drop, i + 1), bursts, 3);
    if drop[i] {
      SpawnedGrow(spawned, s, after, drop, i, bursts, 3, added[0]);
    } else {
      assert DroppedFrom(drop, i) == DroppedFrom(drop, i + 1);
    }
  }

  /** One pass of the rocket loop, from index `i + 1` down to `i`. */
  method RocketPass(rockets: RocketsRef, particles: ParticlesRef, backend: Backend, ghost s: seq<RocketItem>,
                    ghost before: seq<RocketState>, ghost after: seq<RocketState>, ghost ids: seq<nat>,
                    ghost drop: seq<bool>, ghost oldParticles: seq<ParticleItem>, ghost spawned: seq<ParticleItem>,
                    ghost backend0: Backend, i: nat, delta: real, bursts: seq<seq<real>>)
    returns (next: Backend, ghost added: seq<ParticleItem>)
    requires Distinct(s) && i < |s| && |before| == |s| && |bursts| == |s|
    requires ids == AssignedIds(RocketWasmIds(before), backend0.script.rocketIds, backend0.served.rocketsCreated)
    requires after == WasmFlights(before, ids, backend0.script.rocketReplies, backend0.served.rocketsUpdated)
    requires drop == Exploding(after)
    requires forall n :: 0 <= n < |bursts| ==> |bursts[n]| == 3 * FireworkModel.PARTICLE_COUNT
    requires RocketLoop(rockets, particles, s, before, after, drop, oldParticles, spawned, i + 1, bursts, 3)
    requires RocketCallsMade(backend, s, before, ids, delta, backend0, i + 1)
    modifies rockets, particles, s[i]
    ensures RocketLoop(rockets, particles, s, before, after, drop, oldParticles, spawned + added, i, bursts, 3)
    ensures RocketCallsMade(next, s, before, ids, delta, backend0, i)
    ensures fresh(Objects(added))
  {
    RocketAt(before, ids, after, backend0.script.rocketIds, backend0.script.rocketReplies, backend0.served,
             backend.served.rocketsCreated, backend.served.rocketsUpdated, i);
    next, added := FlyPass(rockets, particles, backend, s, before, after, ids, drop, oldParticles, spawned,
                           i, delta, bursts);
    RocketCallsAdvance(s, before, ids, delta, backend0, backend, next, i);
  }

  /** The rocket loop of `updateRockets`, from the last rocket to the first;
      `spawned` is what it appends. */
  method RocketLoopRun(rockets: RocketsRef, particles: ParticlesRef, backend: Backend, ghost s: seq<RocketItem>,
                       ghost before: seq<RocketState>, ghost after: seq<RocketState>, ghost ids: seq<nat>,
                       ghost drop: seq<bool>, ghost oldParticles: seq<ParticleItem>, delta: real,
                       bursts: seq<seq<real>>)
    returns (next: Backend, ghost spawned: seq<ParticleItem>)
    requires Distinct(s) && |before| == |s| && |bursts| == |s|
    requires ids == AssignedIds(RocketWasmIds(before), backend.script.rocketIds, backend.served.rocketsCreated)
    requires after == WasmFlights(before, ids, backend.script.rocketReplies, backend.served.rocketsUpdated)
    requires drop == Exploding(after)
    requires forall n :: 0 <= n < |bursts| ==> |bursts[n]| == 3 * FireworkModel.PARTICLE_COUNT
    requires rockets.current == s
    requires RocketLoop(rockets, particles, s, before, after, drop, oldParticles, [], |s|, bursts, 3)
    requires RocketCallsMade(backend, s, before, ids, delta, backend, |s|)
    modifies rockets, particles, set r | r in s
    ensures RocketLoop(rockets, particles, s, before, after, drop, oldParticles, spawned, 0, bursts, 3)
    ensures RocketCallsMade(next, s, before, ids, delta, backend, 0)
    ensures fresh(Objects(spawned))
  {
    next := backend;
    spawned := [];
    var i := |rockets.current|;
    while i > 0
      invariant 0 <= i <= |s|
      invariant RocketLoop(rockets, particles, s, before, after, drop, oldParticles, spawned, i, bursts, 3)
      invariant RocketCallsMade(next, s, before, ids, delta, backend, i)
      invariant fresh(Objects(spawned))
    {
      i := i - 1;
      ghost var added: seq<ParticleItem>;
      next, added := RocketPass(rockets, particles, next, s, before, after, ids, drop, oldParticles, spawned,
                                backend, i, delta, bursts);
      ObjectsAppend(spawned, added);
      spawned := spawned + added;
    }
  }

  /** The non-empty case of `updateRockets`: the loop, then the clear when
      every rocket exploded. */
  method RocketsRun(rockets: RocketsRef, particles: ParticlesRef, backend: Backend, ghost s: seq<RocketItem>,
                    ghost before: seq<RocketState>, ghost ids: seq<nat>, ghost after: seq<RocketState>,
                    ghost drop: seq<bool>, ghost oldParticles: seq<ParticleItem>, delta: real,
                    bursts: seq<seq<real>>)
    returns (next: Backend, ghost spawned: seq<ParticleItem>)
    requires Distinct(s) && |before| == |s| && |bursts| == |s|
    requires ids == AssignedIds(RocketWasmIds(before), backend.script.rocketIds, backend.served.rocketsCreated)
    requires after == WasmFlights(before, ids, backend.script.rocketReplies, backend.served.rocketsUpdated)
    requires drop == Exploding(after)
    requires forall n :: 0 <= n < |bursts| ==> |bursts[n]| == 3 * FireworkModel.PARTICLE_COUNT
    requires rockets.current == s && s != []
    requires RocketLoop(rockets, particles, s, before, after, drop, oldParticles, [], |s|, bursts, 3)
    requires RocketCallsMade(backend, s, before, ids, delta, backend, |s|)
    modifies rockets, particles, set r | r in s
    ensures RocketLoop(rockets, particles, s, before, after, drop, oldParticles, spawned, 0, bursts, 3)
    ensures fresh(Objects(spawned))
    ensures RocketsReported(next, backend, s, before, ids, delta, s != [] && rockets.current == [])
  {
    var mid;
    mid, spawned := RocketLoopRun(rockets, particles, backend, s, before, after, ids, drop, oldParticles,
                                  delta, bursts);
    next := mid;
    if |rockets.current| == 0 {
      next := ClearRockets(next);
    }
    RocketsClosed(mid, next, backend, s, before, ids, delta, s != [] && rockets.current == []);
  }

  /** `updateRockets(rocketsRef, particlesRef, scene, delta)`; `bursts[i]` is
      the velocity buffer the explosion factory would draw for rocket `i`.
      An empty list returns at once without a backend call. Otherwise every
      rocket registers if it has no id and takes the backend's reply; the
      ones whose true z reaches the height leave the list, the others keeping
      their order, each of them appending one fresh batch at its render
      point; and `clear_rockets` is called exactly when no rocket is left. */
  method UpdateRockets(rockets: RocketsRef, particles: ParticlesRef, backend: Backend, delta: real,
                       bursts: seq<seq<real>>)
    returns (next: Backend, ghost before: seq<RocketState>, ghost ids: seq<nat>, ghost after: seq<RocketState>,
             ghost drop: seq<bool>)
    requires Distinct(rockets.current)
    requires |bursts| == |rockets.current|
    requires forall n :: 0 <= n < |bursts| ==> |bursts[n]| == 3 * FireworkModel.PARTICLE_COUNT
    modifies rockets, particles, set r | r in rockets.current
    ensures before == old(Flights(rockets.current))
    ensures ids == AssignedIds(RocketWasmIds(before), backend.script.rocketIds, backend.served.rocketsCreated)
    ensures after == WasmFlights(before, ids, backend.script.rocketReplies, backend.served.rocketsUpdated)
    ensures drop == Exploding(after)
    ensures RocketsFlown(rockets, particles, old(rockets.current), after, drop, old(particles.current), bursts, 3)
    ensures fresh(Objects(particles.current[|old(particles.current)|..]))
    ensures RocketsReported(next, backend, old(rockets.current), before, ids, delta,
                            old(rockets.current) != [] && rockets.current == [])
  {
    ghost var olds := rockets.current;
    ghost var oldParticles := particles.current;
    before := Flights(rockets.current);
    ids := AssignedIds(RocketWasmIds(before), backend.script.rocketIds, backend.served.rocketsCreated);
    after := WasmFlights(before, ids, backend.script.rocketReplies, backend.served.rocketsUpdated);
    drop := Exploding(after);
    next := backend;
    ghost var spawned: seq<ParticleItem> := [];
    RocketLoopStart(rockets, particles, olds, before, after, drop, bursts, 3);
    RocketCallsNone(backend, olds, before, ids, delta);
    if |rockets.current| == 0 {
      RocketLoopEnd(rockets, particles, olds, before, after, drop, oldParticles, spawned, bursts, 3);
      RocketsClosed(backend, next, backend, olds, before, ids, delta, false);
      return;
    }
    next, spawned := RocketsRun(rockets, particles, backend, olds, before, ids, after, drop, oldParticles, delta,
                                bursts);
    RocketLoopEnd(rockets, particles, olds, before, after, drop, oldParticles, spawned, bursts, 3);
  }

  // ---- particle batches ----

  /** Entry `k` of a backend reply; past its end the model reads 0. */
  function Entry(a: seq<real>, k: nat): real {
    if k < |a| then a[k] else 0.0
  }

  /** The instance translations placed from the backend's snapped
      positions: instance `j` at entries `3j`, `3j + 1`, `3j + 2`. */
  function Placed(snapped: seq<real>, count: nat): (r: seq<Vec3>)
    ensures |r| == count
    ensures forall j :: 0 <= j < count && 3 * j + 2 < |snapped| ==>
      r[j] == Vec3(snapped[3 * j], snapped[3 * j + 1], snapped[3 * j + 2])
  {
    seq(count, j requires 0 <= j < count => Vec3(Entry(snapped, 3 * j), Entry(snapped, 3 * j + 1), Entry(snapped, 3 * j + 2)))
  }

  /** The instance loop for a surviving batch. */
  method Place(b: ParticleItem, snapped: seq<real>)
    requires b.Valid()
    modifies b.instances
    ensures b.instances[..] == Placed(snapped, b.count)
  {
    for j := 0 to b.count
      invariant forall m :: 0 <= m < j ==>
        b.instances[m] == Vec3(Entry(snapped, 3 * m), Entry(snapped, 3 * m + 1), Entry(snapped, 3 * m + 2))
    {
      var j3 := j * 3;
      var snappedX := Entry(snapped, j3);
      var snappedY := Entry(snapped, j3 + 1);
      var snappedZ := Entry(snapped, j3 + 2);
      b.instances[j] := Vec3(snappedX, snappedY, snappedZ);
    }
  }

  /** What one call does to a batch of `count` particles, `decay` standing
      for `Math.pow(ALPHA_DECAY, delta)` and `snapped` for the backend's
      reply: alpha is scaled and becomes the opacity; the buffers stay with
      the backend and are not touched here; a batch that stays visible has
      its instances placed from the reply. */
  function WasmFade(s: BatchState, snapped: seq<real>, count: nat, k: Constants, decay: real): (r: BatchState)
    ensures r.alpha == Buffers.Times(s.alpha, decay) && r.opacity == r.alpha
    ensures r.velocities == s.velocities && r.positions == s.positions
    ensures r.alpha < k.alphaThreshold ==> r.instances == s.instances
    ensures r.alpha >= k.alphaThreshold ==> r.instances == Placed(snapped, count)
  {
    var alpha := Buffers.Times(s.alpha, decay);
    if alpha < k.alphaThreshold then s.(alpha := alpha, opacity := alpha)
    else s.(alpha := alpha, opacity := alpha, instances := Placed(snapped, count))
  }

  /** The calls one batch makes: a registration with its buffers when it
      had no id, made before the alpha test, then an update only when the
      batch stays. */
  function BatchCalls(s: BatchState, held: Option<nat>, count: nat, id: nat, dropped: bool, delta: real)
    : (c: seq<Call>)
    ensures |c| == (if held.None? then 1 else 0) + (if dropped then 0 else 1)
    ensures held.None? ==> c[0] == ParticleCreated(s.velocities, s.positions, count, id)
    ensures !dropped ==> c[|c| - 1] == ParticleUpdated(id, delta)
    ensures dropped ==> forall x :: x in c ==> !x.ParticleUpdated?
  {
    (if held.None? then [ParticleCreated(s.velocities, s.positions, count, id)] else [])
    + (if dropped then [] else [ParticleUpdated(id, delta)])
  }

  /** The backend once one batch in state `s`, holding `held` before and
      `id` after, has made its calls; `dropped` says whether it left. */
  ghost predicate BatchServed(next: Backend, backend: Backend, s: BatchState, held: Option<nat>, count: nat, id: nat,
                        dropped: bool, delta: real)
  {
    && next.script == backend.script
    && next.log == backend.log + BatchCalls(s, held, count, id, dropped, delta)
    && next.served == backend.served.(
         particlesCreated := backend.served.particlesCreated + (if held.None? then 1 else 0),
         particlesUpdated := backend.served.particlesUpdated + (if dropped then 0 else 1))
  }

  /** The body of the batch loop up to the removal test. */
  method FadeBatch(b: ParticleItem, backend: Backend, k: Constants, delta: real, decay: real)
    returns (next: Backend, remove: bool)
    requires b.Valid()
    modifies b, b.instances
    ensures var id := Registered(old(b.wasmId), backend.script.particleIds, backend.served.particlesCreated);
      && b.wasmId == Some(id)
      && State(b) == WasmFade(old(State(b)), Answer(backend.script.particleReplies, backend.served.particlesUpdated), b.count, k, decay)
      && BatchServed(next, backend, old(State(b)), old(b.wasmId), b.count, id, remove, delta)
    ensures remove <==> b.alpha < k.alphaThreshold
  {
    next := backend;
    var particleCount := b.count;
    if b.wasmId == None {
      var id;
      next, id := CreateParticle(next, b.velocities[..], b.truePos[..], particleCount);
      b.wasmId := Some(id);
    }
    b.alpha := Buffers.Times(b.alpha, decay);
    b.opacity := b.alpha;
    if b.alpha < k.alphaThreshold {
      return next, true;
    }
    var snapped;
    next, snapped := UpdateParticle(next, b.wasmId.value, delta);
    Place(b, snapped);
    return next, false;
  }

  /** The id each batch of a list holds. */
  function WasmIds(s: seq<ParticleItem>): (r: seq<Option<nat>>)
    reads s
    ensures |r| == |s| && forall n {:trigger r[n]} :: 0 <= n < |s| ==> r[n] == s[n].wasmId
  {
    seq(|s|, n requires 0 <= n < |s| reads s => s[n].wasmId)
  }

  /** For each batch in state `before[n]`, whether this frame's scaling
      takes its alpha below the threshold. */
  function Dimming(before: seq<BatchState>, k: Constants, decay: real): (d: seq<bool>)
    ensures |d| == |before|
    ensures forall n :: 0 <= n < |before| ==> (d[n] <==> Buffers.Times(before[n].alpha, decay) < k.alphaThreshold)
  {
    seq(|before|, n requires 0 <= n < |before| => Buffers.Times(before[n].alpha, decay) < k.alphaThreshold)
  }

  /** Every batch faded one frame: batch `n` that stays gets the reply of
      the update call made after those of the staying batches behind it. */
  function WasmFades(s: seq<ParticleItem>, before: seq<BatchState>, drop: seq<bool>, replies: nat -> seq<real>,
                     updated: nat, k: Constants, decay: real): (after: seq<BatchState>)
    requires |before| == |s| && |drop| == |s|
    ensures |after| == |s|
    ensures forall n {:trigger after[n]} :: 0 <= n < |s| ==>
      after[n] == WasmFade(before[n], Answer(replies, updated + CountFrom(drop, n + 1, false)), s[n].count, k, decay)
  {
    seq(|s|, n requires 0 <= n < |s| =>
      WasmFade(before[n], Answer(replies, updated + CountFrom(drop, n + 1, false)), s[n].count, k, decay))
  }

  /** The calls the batches from index `i` on make, last batch first. */
  function ParticleCalls(s: seq<ParticleItem>, before: seq<BatchState>, held: seq<Option<nat>>, ids: seq<nat>,
                         drop: seq<bool>, delta: real, i: nat): seq<Call>
    requires |before| == |s| && |held| == |s| && |ids| == |s| && |drop| == |s| && i <= |s|
    decreases |s| - i
  {
    if i == |s| then []
    else ParticleCalls(s, before, held, ids, drop, delta, i + 1)
         + BatchCalls(before[i], held[i], s[i].count, ids[i], drop[i], delta)
  }

  /** The batch pass makes one registration per batch without an id and one
      update per batch that stays, and nothing else. */
  lemma {:induction false} ParticleCallsShape(s: seq<ParticleItem>, before: seq<BatchState>, held: seq<Option<nat>>,
                                              ids: seq<nat>, drop: seq<bool>, delta: real, i: nat)
    requires |before| == |s| && |held| == |s| && |ids| == |s| && |drop| == |s| && i <= |s|
    ensures |ParticleCalls(s, before, held, ids, drop, delta, i)|
      == CountFrom(Unset(held), i, true) + CountFrom(drop, i, false)
    ensures forall c :: c in ParticleCalls(s, before, held, ids, drop, delta, i) ==>
      c.ParticleCreated? || c.ParticleUpdated?
    decreases |s| - i
  {
    if i < |s| {
      ParticleCallsShape(s, before, held, ids, drop, delta, i + 1);
      assert Unset(held)[i] <==> held[i].None?;
    }
  }

  /** Batches before index `i` are as they were; batches from `i` on have
      faded and hold their ids. */
  predicate BatchesSynced(s: seq<ParticleItem>, before: seq<BatchState>, held: seq<Option<nat>>,
                          after: seq<BatchState>, ids: seq<nat>, i: nat)
    reads Footprint(s)
  {
    && |before| == |s| && |held| == |s| && |after| == |s| && |ids| == |s|
    && (forall n :: 0 <= n < |s| && n < i ==> State(s[n]) == before[n] && s[n].wasmId == held[n])
    && (forall n :: i <= n < |s| ==> State(s[n]) == after[n] && s[n].wasmId == Some(ids[n]))
  }

  /** Before the first pass every batch is as it was. */
  lemma SyncedNone(s: seq<ParticleItem>, before: seq<BatchState>, held: seq<Option<nat>>,
                   after: seq<BatchState>, ids: seq<nat>)
    requires before == States(s) && held == WasmIds(s) && |after| == |s| && |ids| == |s|
    ensures BatchesSynced(s, before, held, after, ids, |s|)
  {
  }

  /** The backend once the batches from index `i` on have been processed,
      starting from `backend0`. */
  ghost predicate ParticleCallsMade(backend: Backend, s: seq<ParticleItem>, before: seq<BatchState>,
                              held: seq<Option<nat>>, ids: seq<nat>, drop: seq<bool>, delta: real,
                              backend0: Backend, i: nat)
  {
    && |before| == |s| && |held| == |s| && |ids| == |s| && |drop| == |s| && i <= |s|
    && backend.script == backend0.script
    && backend.log == backend0.log + ParticleCalls(s, before, held, ids, drop, delta, i)
    && backend.served == backend0.served.(
         particlesCreated := backend0.served.particlesCreated + CountFrom(Unset(held), i, true),
         particlesUpdated := backend0.served.particlesUpdated + CountFrom(drop, i, false))
  }

  /** Before the first pass the backend has seen nothing from the batches. */
  lemma ParticleCallsNone(backend: Backend, s: seq<ParticleItem>, before: seq<BatchState>, held: seq<Option<nat>>,
                          ids: seq<nat>, drop: seq<bool>, delta: real)
    requires |before| == |s| && |held| == |s| && |ids| == |s| && |drop| == |s|
    ensures ParticleCallsMade(backend, s, before, held, ids, drop, delta, backend, |s|)
  {
  }

  /** Before batch `i` is processed, the backend's counters pick out the id
      and the reply batch `i` gets. */
  lemma {:induction false} BatchAt(s: seq<ParticleItem>, before: seq<BatchState>, held: seq<Option<nat>>, ids: seq<nat>,
                drop: seq<bool>, after: seq<BatchState>, particleIds: nat -> nat, replies: nat -> seq<real>,
                served0: Served, created: nat, updated: nat, i: nat, k: Constants, decay: real)
    requires i < |s| && |before| == |s| && |held| == |s| && |drop| == |s|
    requires ids == AssignedIds(held, particleIds, served0.particlesCreated)
    requires after == WasmFades(s, before, drop, replies, served0.particlesUpdated, k, decay)
    requires created == served0.particlesCreated + CountFrom(Unset(held), i + 1, true)
    requires updated == served0.particlesUpdated + CountFrom(drop, i + 1, false)
    ensures ids[i] == Registered(held[i], particleIds, created)
    ensures after[i] == WasmFade(before[i], Answer(replies, updated), s[i].count, k, decay)
  {
    IdAt(held, ids, particleIds, served0.particlesCreated, created, i);
    FadeReplyAt(s, before, drop, after, replies, served0.particlesUpdated, updated, i, k, decay);
  }

  /** The reply batch `i` takes is the one after those of the staying
      batches behind it. */
  lemma {:induction false} FadeReplyAt(s: seq<ParticleItem>, before: seq<BatchState>, drop: seq<bool>, after: seq<BatchState>,
                    replies: nat -> seq<real>, updated0: nat, updated: nat, i: nat, k: Constants, decay: real)
    requires i < |s| && |before| == |s| && |drop| == |s|
    requires after == WasmFades(s, before, drop, replies, updated0, k, decay)
    requires updated == updated0 + CountFrom(drop, i + 1, false)
    ensures after[i] == WasmFade(before[i], Answer(replies, updated), s[i].count, k, decay)
  {
    assert after[i] == WasmFade(before[i], Answer(replies, updated0 + CountFrom(drop, i + 1, false)), s[i].count, k, decay);
  }

  /** Processing batch `i` extends what the backend has seen from index
      `i + 1` on to what it has seen from index `i` on. */
  lemma {:induction false} ParticleCallsAdvance(s: seq<ParticleItem>, before: seq<BatchState>, held: seq<Option<nat>>,
                             ids: seq<nat>, drop: seq<bool>, delta: real, backend0: Backend, mid: Backend,
                             next: Backend, i: nat)
    requires i < |s|
    requires ParticleCallsMade(mid, s, before, held, ids, drop, delta, backend0, i + 1)
    requires BatchServed(next, mid, before[i], held[i], s[i].count, ids[i], drop[i], delta)
    ensures ParticleCallsMade(next, s, before, held, ids, drop, delta, backend0, i)
  {
    assert Unset(held)[i] <==> held[i].None?;
    assert next.log == backend0.log + (ParticleCalls(s, before, held, ids, drop, delta, i + 1)
                                       + BatchCalls(before[i], held[i], s[i].count, ids[i], drop[i], delta));
  }

  /** Batch `i` fades through the backend; the other batches are untouched. */
  method FadeOne(b: ParticleItem, backend: Backend, ghost s: seq<ParticleItem>, ghost before: seq<BatchState>,
                 ghost held: seq<Option<nat>>, ghost after: seq<BatchState>, ghost ids: seq<nat>,
                 ghost drop: seq<bool>, ghost i: nat, k: Constants, delta: real, decay: real)
    returns (next: Backend, remove: bool)
    requires |drop| == |s| && i < |s| && b == s[i] && b.Valid()
    requires forall n :: 0 <= n < |s| && n != i ==> Disjoint(s[n], b)
    requires BatchesSynced(s, before, held, after, ids, i + 1)
    requires ids[i] == Registered(held[i], backend.script.particleIds, backend.served.particlesCreated)
    requires after[i] == WasmFade(before[i], Answer(backend.script.particleReplies, backend.served.particlesUpdated),
                                  b.count, k, decay)
    requires drop[i] <==> Buffers.Times(before[i].alpha, decay) < k.alphaThreshold
    modifies b, b.instances
    ensures remove == drop[i]
    ensures BatchesSynced(s, before, held, after, ids, i)
    ensures BatchServed(next, backend, before[i], held[i], b.count, ids[i], drop[i], delta)
  {
    next, remove := FadeBatch(b, backend, k, delta, decay);
    forall n | 0 <= n < |s| && n != i
      ensures State(s[n]) == old(State(s[n])) && s[n].wasmId == old(s[n].wasmId)
    {
      assert s[n] != b && s[n].instances != b.instances;
    }
  }

  /** One pass of the batch loop at index `i`. */
  method FadeAt(particles: ParticlesRef, backend: Backend, ghost s: seq<ParticleItem>, ghost before: seq<BatchState>,
                ghost held: seq<Option<nat>>, ghost after: seq<BatchState>, ghost ids: seq<nat>,
                ghost drop: seq<bool>, i: nat, k: Constants, delta: real, decay: real)
    returns (next: Backend)
    requires |drop| == |s| && i < |s| && s[i].Valid()
    requires forall n :: 0 <= n < |s| && n != i ==> Disjoint(s[n], s[i])
    requires particles.current == s[..i + 1] + KeptFrom(s, drop, i + 1)
    requires BatchesSynced(s, before, held, after, ids, i + 1)
    requires ids[i] == Registered(held[i], backend.script.particleIds, backend.served.particlesCreated)
    requires after[i] == WasmFade(before[i], Answer(backend.script.particleReplies, backend.served.particlesUpdated),
                                  s[i].count, k, decay)
    requires drop[i] <==> Buffers.Times(before[i].alpha, decay) < k.alphaThreshold
    modifies particles, s[i], s[i].instances
    ensures particles.current == s[..i] + KeptFrom(s, drop, i)
    ensures BatchesSynced(s, before, held, after, ids, i)
    ensures BatchServed(next, backend, before[i], held[i], s[i].count, ids[i], drop[i], delta)
  {
    SpliceStep(s, drop, i + 1, particles.current);
    var remove;
    next, remove := FadeOne(particles.current[i], backend, s, before, held, after, ids, drop, i, k, delta, decay);
    OutsideFootprint(s, particles);
    if remove {
      particles.current := particles.current[..i] + particles.current[i + 1..];
    }
  }

  /** One pass of the batch loop, from index `i + 1` down to `i`. */
  method BatchPass(particles: ParticlesRef, backend: Backend, ghost s: seq<ParticleItem>, ghost before: seq<BatchState>,
                   ghost held: seq<Option<nat>>, ghost after: seq<BatchState>, ghost ids: seq<nat>,
                   ghost drop: seq<bool>, ghost backend0: Backend, i: nat, k: Constants, delta: real, decay: real)
    returns (next: Backend)
    requires SeparateBatches(s) && i < |s| && |before| == |s| && |held| == |s|
    requires ids == AssignedIds(held, backend0.script.particleIds, backend0.served.particlesCreated)
    requires drop == Dimming(before, k, decay)
    requires after == WasmFades(s, before, drop, backend0.script.particleReplies, backend0.served.particlesUpdated, k, decay)
    requires particles.current == s[..i + 1] + KeptFrom(s, drop, i + 1)
    requires BatchesSynced(s, before, held, after, ids, i + 1)
    requires ParticleCallsMade(backend, s, before, held, ids, drop, delta, backend0, i + 1)
    modifies particles, s[i], s[i].instances
    ensures particles.current == s[..i] + KeptFrom(s, drop, i)
    ensures BatchesSynced(s, before, held, after, ids, i)
    ensures ParticleCallsMade(next, s, before, held, ids, drop, delta, backend0, i)
  {
    BatchAt(s, before, held, ids, drop, after, backend0.script.particleIds, backend0.script.particleReplies,
            backend0.served, backend.served.particlesCreated, backend.served.particlesUpdated, i, k, decay);
    SeparateAt(s, i);
    next := FadeAt(particles, backend, s, before, held, after, ids, drop, i, k, delta, decay);
    ParticleCallsAdvance(s, before, held, ids, drop, delta, backend0, backend, next, i);
  }

  /** The backend after the batch pass and, when `cleared`, the call that
      clears the batches. */
  lemma ParticlesClosed(mid: Backend, next: Backend, backend: Backend, s: seq<ParticleItem>, before: seq<BatchState>,
                         held: seq<Option<nat>>, ids: seq<nat>, drop: seq<bool>, delta: real, cleared: bool)
    requires ParticleCallsMade(mid, s, before, held, ids, drop, delta, backend, 0)
    requires next == if cleared then mid.(log := mid.log + [ParticlesCleared]) else mid
    ensures next.script == backend.script
    ensures next.log == backend.log + ParticleCalls(s, before, held, ids, drop, delta, 0)
                        + (if cleared then [ParticlesCleared] else [])
    ensures next.served == backend.served.(
      particlesCreated := backend.served.particlesCreated + CountFrom(Unset(held), 0, true),
      particlesUpdated := backend.served.particlesUpdated + CountFrom(drop, 0, false))
  {
  }

  /** The batch loop of `updateParticles`, from the last batch to the first. */
  method BatchLoop(particles: ParticlesRef, backend: Backend, ghost s: seq<ParticleItem>, ghost before: seq<BatchState>,
                   ghost held: seq<Option<nat>>, ghost after: seq<BatchState>, ghost ids: seq<nat>,
                   ghost drop: seq<bool>, k: Constants, delta: real, decay: real)
    returns (next: Backend)
    requires SeparateBatches(s) && |before| == |s| && |held| == |s|
    requires ids == AssignedIds(held, backend.script.particleIds, backend.served.particlesCreated)
    requires drop == Dimming(before, k, decay)
    requires after == WasmFades(s, before, drop, backend.script.particleReplies, backend.served.particlesUpdated, k, decay)
    requires particles.current == s && s[..|s|] + KeptFrom(s, drop, |s|) == s
    requires BatchesSynced(s, before, held, after, ids, |s|)
    requires ParticleCallsMade(backend, s, before, held, ids, drop, delta, backend, |s|)
    modifies particles, Footprint(s)
    ensures particles.current == s[..0] + KeptFrom(s, drop, 0)
    ensures BatchesSynced(s, before, held, after, ids, 0)
    ensures ParticleCallsMade(next, s, before, held, ids, drop, delta, backend, 0)
  {
    next := backend;
    var i := |particles.current|;
    while i > 0
      invariant 0 <= i <= |s|
      invariant particles.current == s[..i] + KeptFrom(s, drop, i)
      invariant BatchesSynced(s, before, held, after, ids, i)
      invariant ParticleCallsMade(next, s, before, held, ids, drop, delta, backend, i)
    {
      i := i - 1;
      next := BatchPass(particles, next, s, before, held, after, ids, drop, backend, i, k, delta, decay);
    }
  }

  /** `updateParticles(particlesRef, scene, delta)`, with `decay` the value of
      `Math.pow(ALPHA_DECAY, delta)`. An empty list returns at once without a
      backend call. Otherwise every batch registers if it has no id, before
      its alpha is scaled; exactly the batches whose scaled alpha fell below
      the threshold leave the list, the others keeping their order, and only
      the others are passed to `update_particle` and have their instances
      placed from its reply; `clear_particles` is called exactly when no
      batch is left. */
  method UpdateParticles(particles: ParticlesRef, backend: Backend, k: Constants, delta: real, decay: real)
    returns (next: Backend, ghost before: seq<BatchState>, ghost held: seq<Option<nat>>, ghost drop: seq<bool>,
             ghost ids: seq<nat>, ghost after: seq<BatchState>)
    requires DecayFactor(decay, k, delta)
    requires SeparateBatches(particles.current)
    modifies particles, Footprint(particles.current)
    ensures before == old(States(particles.current)) && held == old(WasmIds(particles.current))
    ensures drop == Dimming(before, k, decay)
    ensures ids == AssignedIds(held, backend.script.particleIds, backend.served.particlesCreated)
    ensures after == WasmFades(old(particles.current), before, drop, backend.script.particleReplies,
                               backend.served.particlesUpdated, k, decay)
    ensures particles.current == KeptFrom(old(particles.current), drop, 0)
    ensures BatchesSynced(old(particles.current), before, held, after, ids, 0)
    ensures next.script == backend.script
    ensures next.log == backend.log + ParticleCalls(old(particles.current), before, held, ids, drop, delta, 0)
                        + (if old(particles.current) != [] && particles.current == [] then [ParticlesCleared] else [])
    ensures next.served == backend.served.(
      particlesCreated := backend.served.particlesCreated + CountFrom(Unset(held), 0, true),
      particlesUpdated := backend.served.particlesUpdated + CountFrom(drop, 0, false))
  {
    ghost var s := particles.current;
    before, held := States(particles.current), WasmIds(particles.current);
    drop := Dimming(before, k, decay);
    ids := AssignedIds(held, backend.script.particleIds, backend.served.particlesCreated);
    after := WasmFades(s, before, drop, backend.script.particleReplies, backend.served.particlesUpdated, k, decay);
    next := backend;
    ParticleCallsNone(backend, s, before, held, ids, drop, delta);
    if |particles.current| == 0 {
      ParticlesClosed(backend, next, backend, s, before, held, ids, drop, delta, false);
      return;
    }
    SyncedNone(s, before, held, after, ids);
    SpliceEnds(s, drop);
    var mid := BatchLoop(particles, backend, s, before, held, after, ids, drop, k, delta, decay);
    next := mid;
    if |particles.current| == 0 {
      next := ClearParticles(next);
    }
    ParticlesClosed(mid, next, backend, s, before, held, ids, drop, delta, |particles.current| == 0);
  }
}
