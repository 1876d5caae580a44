/** lib/three/types.ts: the mutable records the renderers keep in their refs,
    and the explosion rule and list filters that lib/three/animation.ts,
    lib/three/animation-js.ts and lib/three/animation-wasm.ts share. A rocket
    mesh becomes its true and render positions; a particle batch (an
    `InstancedMesh`) becomes its count, its flat buffers, one translation per
    instance matrix, and its alpha and material opacity. */
module Types {
  import opened Vectors
  import FireworkConfig
  import FireworkModel

  datatype Option<T> = None | Some(value: T)

  /** The values of the unshown lib/three/constants module. */
  datatype Constants = Constants(gridSize: real, gravity: real, alphaDecay: real, alphaThreshold: real)

  class RocketItem {
    var truePos: Vec3          // rocket.userData.truePos
    var position: Vec3         // rocket.position, the rendered point
    const velocity: Vec3
    const fireworkType: FireworkConfig.FireworkType
    const launchY: real
    var wasmId: Option<nat>    // RocketItemWasm.wasmId

    constructor (truePos: Vec3, position: Vec3, velocity: Vec3, fireworkType: FireworkConfig.FireworkType, launchY: real)
      ensures this.truePos == truePos && this.position == position && this.velocity == velocity
      ensures this.fireworkType == fireworkType && this.launchY == launchY && wasmId == None
    {
      this.truePos := truePos;
      this.position := position;
      this.velocity := velocity;
      this.fireworkType := fireworkType;
      this.launchY := launchY;
      wasmId := None;
    }
  }

  /** A snapshot of what an animation frame may change in a rocket. */
  datatype RocketState = RocketState(truePos: Vec3, position: Vec3, wasmId: Option<nat>)

  function Flight(r: RocketItem): RocketState
    reads r
  {
    RocketState(r.truePos, r.position, r.wasmId)
  }

  /** The state of every rocket of a list. */
  function Flights(s: seq<RocketItem>): (r: seq<RocketState>)
    reads set x | x in s
    ensures |r| == |s| && forall n {:trigger r[n]} :: 0 <= n < |s| ==> r[n] == Flight(s[n])
  {
    seq(|s|, n requires 0 <= n < |s| reads s => Flight(s[n]))
  }

  /** Coordinate `a` (0, 1 or 2) of a point. */
  function Axis(p: Vec3, a: nat): real {
    if a == 0 then p.x else if a == 1 then p.y else p.z
  }

  /** The number of position slots of `count` particles at `stride` (2 or 3)
      slots each. */
  function Slots(stride: nat, count: nat): nat {
    if stride == 2 then 2 * count else 3 * count
  }

  /** A position buffer holding `count` copies of the first `stride`
      coordinates of `origin`. */
  function Filled(origin: Vec3, stride: nat, count: nat): (r: seq<real>)
    ensures |r| == Slots(stride, count)
  {
    seq(Slots(stride, count), k requires 0 <= k < Slots(stride, count) => Axis(origin, k % (if stride == 2 then 2 else 3)))
  }

  class ParticleItem {
    const count: nat                     // mesh.count
    const stride: nat                    // 2 or 3 position slots per particle
    const fireworkType: FireworkConfig.FireworkType
    const velocities: array<real>        // userData.velocities
    const truePos: array<real>           // userData.truePos
    const instances: array<Vec3>         // the translation of each instance matrix
    var alpha: real                      // userData.alpha
    var opacity: real                    // material.opacity
    var wasmId: Option<nat>              // ParticleSystemWasm userData.wasmId

    predicate Valid() {
      && velocities.Length == 3 * count
      && (stride == 2 || stride == 3)
      && truePos.Length == Slots(stride, count)
      && instances.Length == count
      && velocities != truePos
    }

    /** A fresh batch of `count` particles, all at `origin`, with the given
        velocity buffer, fully opaque. */
    constructor (fireworkType: FireworkConfig.FireworkType, origin: Vec3, burst: seq<real>, count: nat, stride: nat)
      requires |burst| == 3 * count && (stride == 2 || stride == 3)
      ensures Valid() && fresh(velocities) && fresh(truePos) && fresh(instances)
      ensures this.count == count && this.stride == stride && this.fireworkType == fireworkType
      ensures velocities[..] == burst
      ensures truePos[..] == Filled(origin, stride, count)
      ensures instances[..] == seq(count, _ => origin)
      ensures alpha == 1.0 && opacity == 1.0 && wasmId == None
    {
      this.count := count;
      this.stride := stride;
      this.fireworkType := fireworkType;
      velocities := new real[3 * count](k requires 0 <= k < 3 * count reads {} => burst[k]);
      truePos := new real[Slots(stride, count)](k requires 0 <= k < Slots(stride, count) reads {} =>
        Axis(origin, k % (if stride == 2 then 2 else 3)));
      instances := new Vec3[count](_ => origin);
      alpha := 1.0;
      opacity := 1.0;
      wasmId := None;
      new;
      assert velocities[..] == burst;
      assert truePos[..] == Filled(origin, stride, count);
      assert instances[..] == seq(count, _ => origin);
    }
  }

  /** A snapshot of what an animation frame may change in a batch. */
  datatype BatchState = BatchState(alpha: real, opacity: real, velocities: seq<real>,
                                   positions: seq<real>, instances: seq<Vec3>)

  function State(b: ParticleItem): (s: BatchState)
    reads b, b.velocities, b.truePos, b.instances
    ensures |s.velocities| == b.velocities.Length && |s.positions| == b.truePos.Length
    ensures |s.instances| == b.instances.Length
  {
    BatchState(b.alpha, b.opacity, b.velocities[..], b.truePos[..], b.instances[..])
  }

  /** What is known of `Math.pow(ALPHA_DECAY, delta)`, the factor by which a
      frame of length `delta` scales a batch's alpha: 1 for an empty frame,
      `ALPHA_DECAY` for a unit frame, and within (0, 1] whenever the decay is
      and the frame is not negative. */
  predicate DecayFactor(f: real, k: Constants, delta: real) {
    && (delta == 0.0 ==> f == 1.0)
    && (delta == 1.0 ==> f == k.alphaDecay)
    && (0.0 < k.alphaDecay <= 1.0 && delta >= 0.0 ==> 0.0 < f <= 1.0)
  }

  /** `rocketsRef` and `particlesRef`. */
  class RocketsRef {
    var current: seq<RocketItem>
  }

  class ParticlesRef {
    var current: seq<ParticleItem>
  }

  /** No element appears twice in the list. */
  predicate Distinct<T(==)>(s: seq<T>)
    decreases |s|
  {
    |s| == 0 || (s[0] !in s[1..] && Distinct(s[1..]))
  }

  /** No other element of a distinct list is element `i`. */
  lemma {:induction false} DistinctAt<T>(s: seq<T>, i: nat)
    requires Distinct(s) && i < |s|
    ensures forall n :: 0 <= n < |s| && n != i ==> s[n] != s[i]
    decreases |s|
  {
    if i == 0 {
      assert forall n :: 1 <= n < |s| ==> s[n] == s[1..][n - 1];
    } else {
      DistinctAt(s[1..], i - 1);
      assert s[i] == s[1..][i - 1];
      assert forall n :: 1 <= n < |s| ==> s[n] == s[1..][n - 1];
    }
  }

  /** Every object a particle update may write. */
  function Footprint(s: seq<ParticleItem>): (r: set<object>)
    ensures forall n :: 0 <= n < |s| ==>
      s[n] in r && s[n].velocities in r && s[n].truePos in r && s[n].instances in r
  {
    assert forall n :: 0 <= n < |s| ==> s[n] in s;
    (set b | b in s :: b as object) + (set b | b in s :: b.velocities as object)
    + (set b | b in s :: b.truePos as object) + (set b | b in s :: b.instances as object)
  }

  /** The list holder is none of the objects a particle update writes. */
  lemma OutsideFootprint(s: seq<ParticleItem>, p: ParticlesRef)
    ensures p !in Footprint(s)
  {
  }

  /** The batches of a list and their buffers, collected batch by batch. */
  function Objects(s: seq<ParticleItem>): (r: set<object>)
    ensures forall n :: 0 <= n < |s| ==>
      s[n] in r && s[n].velocities in r && s[n].truePos in r && s[n].instances in r
  {
    if s == [] then {}
    else
      var b := s[|s| - 1];
      Objects(s[..|s| - 1]) + {b, b.velocities, b.truePos, b.instances}
  }

  lemma {:induction false} ObjectsAppend(a: seq<ParticleItem>, b: seq<ParticleItem>)
    ensures Objects(a + b) == Objects(a) + Objects(b)
    decreases |b|
  {
    if b == [] {
      assert a + b == a;
    } else {
      var m := |b| - 1;
      ObjectsAppend(a, b[..m]);
      assert (a + b)[..|a + b| - 1] == a + b[..m];
    }
  }

  /** The state of every batch of a list. */
  function States(s: seq<ParticleItem>): (r: seq<BatchState>)
    reads Footprint(s)
    ensures |r| == |s| && forall n {:trigger r[n]} :: 0 <= n < |s| ==> r[n] == State(s[n])
  {
    seq(|s|, n requires 0 <= n < |s| reads Footprint(s) => State(s[n]))
  }

  /** The batches are well formed, distinct, and share no buffer. */
  predicate SeparateBatches(s: seq<ParticleItem>)
    decreases |s|
  {
    |s| == 0 || (s[0].Valid() && Apart(s[0], s[1..]) && SeparateBatches(s[1..]))
  }

  /** Batch `b` is none of `rest` and shares no buffer with any of them. */
  predicate Apart(b: ParticleItem, rest: seq<ParticleItem>) {
    forall n :: 0 <= n < |rest| ==> Disjoint(b, rest[n])
  }

  /** Two batches that are different objects with different buffers. */
  predicate Disjoint(a: ParticleItem, b: ParticleItem) {
    && a != b
    && a.velocities != b.velocities && a.velocities != b.truePos
    && a.truePos != b.velocities && a.truePos != b.truePos
    && a.instances != b.instances
  }

  /** Batch `i` of a separate list is well formed and disjoint from every
      other batch of the list. */
  lemma {:induction false} SeparateAt(s: seq<ParticleItem>, i: nat)
    requires SeparateBatches(s) && i < |s|
    ensures s[i].Valid()
    ensures forall n :: 0 <= n < |s| && n != i ==> Disjoint(s[n], s[i])
    decreases |s|
  {
    if i == 0 {
      assert forall n :: 1 <= n < |s| ==> s[n] == s[1..][n - 1];
    } else {
      SeparateAt(s[1..], i - 1);
      assert s[i] == s[1..][i - 1];
      assert Disjoint(s[0], s[1..][i - 1]);
      assert forall n :: 1 <= n < |s| ==> s[n] == s[1..][n - 1];
    }
  }

  // ---- removal from a list ----

  /** The elements from index `i` on whose flag in `drop` is false, in list
      order: what a loop that splices out every flagged element leaves. */
  function KeptFrom<T>(s: seq<T>, drop: seq<bool>, i: nat): seq<T>
    requires |drop| == |s| && i <= |s|
    decreases |s| - i
  {
    if i == |s| then []
    else (if drop[i] then [] else [s[i]]) + KeptFrom(s, drop, i + 1)
  }

  /** The indices from `i` on whose flag is set, highest first: the order in
      which a loop walking the list from the back meets them. */
  function DroppedFrom(drop: seq<bool>, i: nat): (e: seq<nat>)
    requires i <= |drop|
    ensures forall n :: 0 <= n < |e| ==> i <= e[n] < |drop|
    decreases |drop| - i
  {
    if i == |drop| then []
    else DroppedFrom(drop, i + 1) + (if drop[i] then [i] else [])
  }

  /** Every index from `i` on is either kept or dropped, never both: exactly
      one dropped entry per flagged element. */
  lemma {:induction false} DroppedFromIsExact<T>(s: seq<T>, drop: seq<bool>, i: nat, j: nat)
    requires |drop| == |s| && i <= |s|
    ensures j in DroppedFrom(drop, i) <==> i <= j < |s| && drop[j]
    ensures |KeptFrom(s, drop, i)| + |DroppedFrom(drop, i)| == |s| - i
    decreases |s| - i
  {
    if i < |s| {
      DroppedFromIsExact(s, drop, i + 1, j);
    }
  }

  /** One step of a loop that walks the list from the back, at index
      `j - 1`: splicing that element out exactly when it is flagged extends
      the kept suffix by one. */
  lemma SpliceStep<T>(s: seq<T>, drop: seq<bool>, j: nat, cur: seq<T>)
    requires |drop| == |s| && 0 < j <= |s|
    requires cur == s[..j] + KeptFrom(s, drop, j)
    ensures cur[j - 1] == s[j - 1]
    ensures drop[j - 1] ==> cur[..j - 1] + cur[j..] == s[..j - 1] + KeptFrom(s, drop, j - 1)
    ensures !drop[j - 1] ==> cur == s[..j - 1] + KeptFrom(s, drop, j - 1)
  {
    assert cur[..j - 1] == s[..j - 1];
    assert cur[j..] == KeptFrom(s, drop, j);
    assert s[..j] == s[..j - 1] + [s[j - 1]];
  }

  /** Before a walk from the back nothing has been spliced out; after it,
      exactly the kept elements remain. */
  lemma SpliceEnds<T>(s: seq<T>, drop: seq<bool>)
    requires |drop| == |s|
    ensures s[..|s|] + KeptFrom(s, drop, |s|) == s
    ensures s[..0] + KeptFrom(s, drop, 0) == KeptFrom(s, drop, 0)
  {
    assert s[..|s|] == s;
    assert s[..0] == [];
  }

  /** The dropped indices are strictly decreasing, so none is listed twice. */
  lemma {:induction false} DroppedFromDescending(drop: seq<bool>, i: nat)
    requires i <= |drop|
    ensures forall a, b :: 0 <= a < b < |DroppedFrom(drop, i)| ==>
      DroppedFrom(drop, i)[a] > DroppedFrom(drop, i)[b]
    decreases |drop| - i
  {
    if i < |drop| {
      DroppedFromDescending(drop, i + 1);
      var e := DroppedFrom(drop, i + 1);
      forall j | j in e ensures j > i {
        DroppedFromIsExact(drop, drop, i + 1, j);
      }
      var f := DroppedFrom(drop, i);
      forall a, b | 0 <= a < b < |f| ensures f[a] > f[b] {
        if b >= |e| {
          assert f[a] == e[a] && e[a] in e;
        }
      }
    }
  }

  /** The kept elements are exactly the unflagged ones. */
  lemma {:induction false} KeptFromIsExact<T>(s: seq<T>, drop: seq<bool>, i: nat, x: T)
    requires |drop| == |s| && i <= |s|
    ensures x in KeptFrom(s, drop, i) <==> exists j :: i <= j < |s| && !drop[j] && s[j] == x
    decreases |s| - i
  {
    if i < |s| {
      KeptFromIsExact(s, drop, i + 1, x);
      var rest := KeptFrom(s, drop, i + 1);
      assert KeptFrom(s, drop, i) == (if drop[i] then [] else [s[i]]) + rest;
      if x in KeptFrom(s, drop, i) {
        if x in rest {
          var j :| i + 1 <= j < |s| && !drop[j] && s[j] == x;
        } else {
          assert !drop[i] && s[i] == x;
        }
      }
      if j :| i <= j < |s| && !drop[j] && s[j] == x {
        if j > i {
          assert x in rest;
        }
      }
    }
  }

  // ---- the rocket loop shared by the renderers ----

  /** A batch spawned by a rocket of type `t` drawn at `origin`: 500 particles
      of that type at that point, `stride` position slots each, with the
      factory's velocity buffer, fully opaque. */
  predicate SpawnedFrom(b: ParticleItem, t: FireworkConfig.FireworkType, origin: Vec3, burst: seq<real>, stride: nat)
    reads b, b.velocities, b.truePos, b.instances
  {
    && b.Valid() && b.count == FireworkModel.PARTICLE_COUNT && b.stride == stride
    && b.fireworkType == t
    && b.velocities[..] == burst
    && b.truePos[..] == Filled(origin, stride, b.count)
    && b.instances[..] == seq(b.count, _ => origin)
    && b.alpha == 1.0 && b.wasmId == None
  }

  /** Rockets before index `i` are still in their state `before`; rockets
      from `i` on are in their state `after`. */
  predicate FlownSuffix(s: seq<RocketItem>, before: seq<RocketState>, after: seq<RocketState>, i: nat)
    reads set r | r in s
  {
    && |before| == |s| && |after| == |s|
    && (forall n :: 0 <= n < |s| && n < i ==> Flight(s[n]) == before[n])
    && (forall n :: i <= n < |s| ==> Flight(s[n]) == after[n])
  }

  /** `ps` holds one batch per exploded rocket index in `ex`, spawned at that
      rocket's render point `after[ex[n]].position`. */
  predicate Spawned(ps: seq<ParticleItem>, s: seq<RocketItem>, after: seq<RocketState>,
                    ex: seq<nat>, bursts: seq<seq<real>>, stride: nat)
    reads Footprint(ps)
  {
    && |ps| == |ex|
    && forall n :: 0 <= n < |ex| ==>
         ex[n] < |s| && ex[n] < |after| && ex[n] < |bursts|
         && SpawnedFrom(ps[n], s[ex[n]].fireworkType, after[ex[n]].position, bursts[ex[n]], stride)
  }

  /** Appending a batch spawned by rocket `i`, the next flagged rocket the
      backward walk meets, extends the spawned list by one. */
  lemma SpawnedGrow(ps: seq<ParticleItem>, s: seq<RocketItem>, after: seq<RocketState>,
                    drop: seq<bool>, i: nat, bursts: seq<seq<real>>, stride: nat, b: ParticleItem)
    requires i < |drop| && drop[i] && i < |s| && i < |after| && i < |bursts|
    requires Spawned(ps, s, after, DroppedFrom(drop, i + 1), bursts, stride)
    requires SpawnedFrom(b, s[i].fireworkType, after[i].position, bursts[i], stride)
    ensures Spawned(ps + [b], s, after, DroppedFrom(drop, i), bursts, stride)
  {
    assert DroppedFrom(drop, i) == DroppedFrom(drop, i + 1) + [i];
  }

  /** What the rocket loop keeps: rockets from index `i` on have flown and
      the flagged ones among them are spliced out; `spawned`, the batches
      appended so far, were made by this call, one per flagged rocket from
      `i` on. */
  predicate RocketLoop(rockets: RocketsRef, particles: ParticlesRef, s: seq<RocketItem>, before: seq<RocketState>,
                       after: seq<RocketState>, drop: seq<bool>, oldParticles: seq<ParticleItem>,
                       spawned: seq<ParticleItem>, i: nat, bursts: seq<seq<real>>, stride: nat)
    reads rockets, particles, (set r | r in s), Footprint(spawned)
  {
    && i <= |s| && |drop| == |s|
    && rockets.current == s[..i] + KeptFrom(s, drop, i)
    && FlownSuffix(s, before, after, i)
    && particles.current == oldParticles + spawned
    && Spawned(spawned, s, after, DroppedFrom(drop, i), bursts, stride)
  }

  /** Before the rocket loop nothing has flown and nothing is spawned. */
  lemma RocketLoopStart(rockets: RocketsRef, particles: ParticlesRef, s: seq<RocketItem>, before: seq<RocketState>,
                        after: seq<RocketState>, drop: seq<bool>, bursts: seq<seq<real>>, stride: nat)
    requires rockets.current == s && before == Flights(s) && |after| == |s| && |drop| == |s|
    ensures RocketLoop(rockets, particles, s, before, after, drop, particles.current, [], |s|, bursts, stride)
  {
    assert s[..|s|] == s && particles.current + [] == particles.current;
  }

  /** After the rocket loop every rocket has flown, the kept ones remain in
      order, and the spawned batches follow the batches that were there. */
  lemma RocketLoopEnd(rockets: RocketsRef, particles: ParticlesRef, s: seq<RocketItem>, before: seq<RocketState>,
                      after: seq<RocketState>, drop: seq<bool>, oldParticles: seq<ParticleItem>,
                      spawned: seq<ParticleItem>, bursts: seq<seq<real>>, stride: nat)
    requires RocketLoop(rockets, particles, s, before, after, drop, oldParticles, spawned, 0, bursts, stride)
    ensures forall n :: 0 <= n < |s| ==> Flight(s[n]) == after[n]
    ensures rockets.current == KeptFrom(s, drop, 0)
    ensures |particles.current| >= |oldParticles|
    ensures particles.current[..|oldParticles|] == oldParticles
    ensures particles.current[|oldParticles|..] == spawned
    ensures Spawned(particles.current[|oldParticles|..], s, after, DroppedFrom(drop, 0), bursts, stride)
    ensures RocketsFlown(rockets, particles, s, after, drop, oldParticles, bursts, stride)
  {
    assert s[..0] == [];
    assert particles.current[..|oldParticles|] == oldParticles;
    assert particles.current[|oldParticles|..] == spawned;
  }

  /** What a whole rocket pass leaves behind: every rocket of `s` holds its
      state in `after`, the list keeps the rockets not flagged in `drop`, in
      order, and the batches spawned by the flagged ones follow the batches
      that were there before. */
  predicate RocketsFlown(rockets: RocketsRef, particles: ParticlesRef, s: seq<RocketItem>, after: seq<RocketState>,
                         drop: seq<bool>, oldParticles: seq<ParticleItem>, bursts: seq<seq<real>>, stride: nat)
    reads rockets, particles, (set r | r in s), Footprint(particles.current)
  {
    && |after| == |s| && |drop| == |s|
    && (forall n :: 0 <= n < |s| ==> Flight(s[n]) == after[n])
    && rockets.current == KeptFrom(s, drop, 0)
    && |particles.current| >= |oldParticles|
    && particles.current[..|oldParticles|] == oldParticles
    && Spawned(particles.current[|oldParticles|..], s, after, DroppedFrom(drop, 0), bursts, stride)
  }
}
