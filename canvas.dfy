/** components/Canvas.tsx: the legacy renderer, where every particle is its
    own pixel mesh inside a group. One call moves every rocket by one whole
    velocity step with Y up and explodes it at the absolute height 15; a
    particle group first decays its alpha, then moves every pixel whose
    velocity slots exist, and only then is removed when it has faded. Both
    lists are walked from the back so that `splice` does not skip an
    element. */
module LegacyCanvas {
  import opened Vectors
  import Types
  import Utils
  import FireworkConfig
  import FireworkModel

  const INITIAL_Y: real := -15.0
  const GRAVITY: real := 0.05
  const ALPHA_DECAY: real := 0.96
  const ALPHA_THRESHOLD: real := 0.05

  // ---- entities ----

  /** An entry of `rocketsRef.current`: the rocket mesh's render position
      and `userData.truePos` (x and y only, as `createRocket` sets them), its
      velocity and its type. */
  class Rocket {
    var position: Vec3
    var truePos: Vec2
    const velocity: Vec3
    const fireworkType: FireworkConfig.FireworkType

    constructor (launch: FireworkModel.RocketLaunch, t: FireworkConfig.FireworkType)
      ensures position == launch.position && truePos == launch.truePos
      ensures velocity == launch.velocity && fireworkType == t
    {
      position := launch.position;
      truePos := launch.truePos;
      velocity := launch.velocity;
      fireworkType := t;
    }
  }

  /** A `THREE.Group` of pixel meshes with `userData.velocities` and
      `userData.alpha`. */
  class Group {
    const velocities: array<real>
    const children: array<FireworkModel.Pixel>
    var alpha: real

    constructor (velocities: array<real>, pixels: seq<FireworkModel.Pixel>, alpha: real)
      ensures this.velocities == velocities && this.alpha == alpha
      ensures fresh(children) && children[..] == pixels
    {
      this.velocities := velocities;
      this.alpha := alpha;
      children := new FireworkModel.Pixel[|pixels|](j requires 0 <= j < |pixels| => pixels[j]);
    }
  }

  class Rockets {
    var current: seq<Rocket>
  }

  class Groups {
    var current: seq<Group>
  }

  // ---- rockets ----

  /** What a rocket frame reads and writes. */
  datatype RocketState = RocketState(truePos: Vec2, position: Vec3)

  function State(r: Rocket): RocketState
    reads r
  {
    RocketState(r.truePos, r.position)
  }

  /** The state of every rocket of a list. */
  function States(s: seq<Rocket>): (r: seq<RocketState>)
    reads set x | x in s
    ensures |r| == |s| && forall n :: 0 <= n < |s| ==> r[n] == State(s[n])
  {
    seq(|s|, n requires 0 <= n < |s| reads set x | x in s => State(s[n]))
  }

  /** One frame of a rocket: `truePos.x += vx`, `truePos.y += vy`, drawn at
      the snapped x and y with z = 0. */
  function Fly(q: RocketState, velocity: Vec3, gridSize: real): (r: RocketState)
    requires gridSize != 0.0
    ensures r.truePos == Vec2(q.truePos.x + velocity.x, q.truePos.y + velocity.y)
    ensures r.position.x == Utils.SnapToGrid(r.truePos.x, gridSize)
    ensures r.position.y == Utils.SnapToGrid(r.truePos.y, gridSize)
    ensures r.position.z == 0.0
  {
    var truePos := Vec2(q.truePos.x + velocity.x, q.truePos.y + velocity.y);
    RocketState(truePos, Vec3(Utils.SnapToGrid(truePos.x, gridSize), Utils.SnapToGrid(truePos.y, gridSize), 0.0))
  }

  /** Every rocket of `s`, in state `before[n]`, flown one frame. */
  function FlyAll(s: seq<Rocket>, before: seq<RocketState>, gridSize: real): (after: seq<RocketState>)
    requires gridSize != 0.0 && |before| == |s|
    ensures |after| == |s|
    ensures forall n :: 0 <= n < |s| ==> after[n] == Fly(before[n], s[n].velocity, gridSize)
  {
    seq(|s|, n requires 0 <= n < |s| => Fly(before[n], s[n].velocity, gridSize))
  }

  /** For each rocket in state `before[n]`, whether this frame's step takes
      its true y to the type's explosion height. */
  function BurstFlags(s: seq<Rocket>, before: seq<RocketState>): (d: seq<bool>)
    requires |before| == |s|
    ensures |d| == |s|
    ensures forall n :: 0 <= n < |s| ==>
      (d[n] <==> before[n].truePos.y + s[n].velocity.y >= FireworkModel.ExplosionHeight(s[n].fireworkType))
  {
    seq(|s|, n requires 0 <= n < |s| =>
      before[n].truePos.y + s[n].velocity.y >= FireworkModel.ExplosionHeight(s[n].fireworkType))
  }

  /** The rocket's own part of a frame. */
  method Move(item: Rocket, gridSize: real)
    requires gridSize != 0.0
    modifies item
    ensures State(item) == Fly(old(State(item)), item.velocity, gridSize)
  {
    item.truePos := Vec2(item.truePos.x + item.velocity.x, item.truePos.y + item.velocity.y);
    item.position := Vec3(Utils.SnapToGrid(item.truePos.x, gridSize), Utils.SnapToGrid(item.truePos.y, gridSize), 0.0);
  }

  /** Rockets before index `i` are still in their state `before`; rockets
      from `i` on are in their state `after`. */
  predicate FlownSuffix(s: seq<Rocket>, before: seq<RocketState>, after: seq<RocketState>, i: nat)
    reads set r | r in s
  {
    && |before| == |s| && |after| == |s|
    && (forall n :: 0 <= n < |s| && n < i ==> State(s[n]) == before[n])
    && (forall n :: i <= n < |s| ==> State(s[n]) == after[n])
  }

  // ---- explosions ----

  /** Every object a group update may write. */
  function Footprint(s: seq<Group>): (r: set<object>)
    ensures forall n :: 0 <= n < |s| ==> s[n] in r && s[n].velocities in r && s[n].children in r
  {
    assert forall n :: 0 <= n < |s| ==> s[n] in s;
    (set b | b in s :: b as object) + (set b | b in s :: b.velocities as object)
    + (set b | b in s :: b.children as object)
  }

  /** The groups of a list and their buffers, collected group by group. */
  function Objects(s: seq<Group>): (r: set<object>)
    ensures forall n :: 0 <= n < |s| ==> s[n] in r && s[n].velocities in r && s[n].children in r
  {
    if s == [] then {}
    else
      var b := s[|s| - 1];
      Objects(s[..|s| - 1]) + {b, b.velocities, b.children}
  }

  lemma {:induction false} ObjectsAppend(a: seq<Group>, b: seq<Group>)
    ensures Objects(a + b) == Objects(a) + Objects(b)
    decreases |b|
  {
    if b == [] {
      assert a + b == a;
    } else {
      var n := |b| - 1;
      ObjectsAppend(a, b[..n]);
      assert (a + b)[..|a + b| - 1] == a + b[..n];
    }
  }

  /** The draws one explosion makes: a radius, two profile draws and a
      colour variation for each of its particles. */
  predicate ValidDraws(draws: seq<FireworkModel.ParticleDraw>) {
    |draws| == FireworkModel.PARTICLE_COUNT && forall d :: d in draws ==> FireworkModel.ValidDraw(d)
  }

  /** Group `b` is the one `createExplosion` builds at `(x, y, 0)` from
      `draws`, with `userData.alpha = 1.0`. */
  predicate SpawnedFrom(b: Group, t: FireworkConfig.FireworkType, origin: Vec3, draws: seq<FireworkModel.ParticleDraw>,
                        trig: Trig, gridSize: real)
    reads b, b.velocities, b.children
  {
    && gridSize != 0.0 && ValidDraws(draws)
    && b.velocities[..] == FireworkModel.BurstVelocities(t, draws, trig)
    && b.children.Length == FireworkModel.PARTICLE_COUNT
    && (forall j :: 0 <= j < FireworkModel.PARTICLE_COUNT ==>
          assert draws[j] in draws;
          b.children[j] == FireworkModel.BurstPixel(t, origin.x, origin.y, 0.0, gridSize, draws[j]))
    && b.alpha == 1.0
  }

  /** Group `ps[n]` was spawned by rocket `ex[n]`, flown to `after[ex[n]]`. */
  predicate Spawned(ps: seq<Group>, s: seq<Rocket>, after: seq<RocketState>, ex: seq<nat>,
                    draws: seq<seq<FireworkModel.ParticleDraw>>, trig: Trig, gridSize: real)
    reads Footprint(ps)
  {
    && |ps| == |ex|
    && forall n :: 0 <= n < |ex| ==>
         ex[n] < |s| && ex[n] < |after| && ex[n] < |draws|
         && SpawnedFrom(ps[n], s[ex[n]].fireworkType, after[ex[n]].position, draws[ex[n]], trig, gridSize)
  }

  /** Appending the group of rocket `i`, the next flagged rocket the
      backward walk meets, extends the spawned list by one. */
  lemma SpawnedGrow(ps: seq<Group>, s: seq<Rocket>, after: seq<RocketState>, drop: seq<bool>, i: nat,
                    draws: seq<seq<FireworkModel.ParticleDraw>>, trig: Trig, gridSize: real, b: Group)
    requires i < |drop| && drop[i] && i < |s| && i < |after| && i < |draws|
    requires Spawned(ps, s, after, Types.DroppedFrom(drop, i + 1), draws, trig, gridSize)
    requires SpawnedFrom(b, s[i].fireworkType, after[i].position, draws[i], trig, gridSize)
    ensures Spawned(ps + [b], s, after, Types.DroppedFrom(drop, i), draws, trig, gridSize)
  {
    var ex := Types.DroppedFrom(drop, i + 1);
    assert Types.DroppedFrom(drop, i) == ex + [i];
    forall n | 0 <= n < |ps|
      ensures (ps + [b])[n] == ps[n]
    {
    }
  }

  // ---- the rocket loop ----

  /** The state of the rocket loop once rockets from index `i` on are done. */
  predicate RocketLoop(rockets: Rockets, groups: Groups, s: seq<Rocket>, before: seq<RocketState>,
                       after: seq<RocketState>, drop: seq<bool>, oldGroups: seq<Group>, spawned: seq<Group>, i: nat,
                       draws: seq<seq<FireworkModel.ParticleDraw>>, trig: Trig, gridSize: real)
    reads rockets, groups, (set r | r in s), Footprint(spawned)
  {
    && i <= |s| && |drop| == |s|
    && rockets.current == s[..i] + Types.KeptFrom(s, drop, i)
    && FlownSuffix(s, before, after, i)
    && groups.current == oldGroups + spawned
    && Spawned(spawned, s, after, Types.DroppedFrom(drop, i), draws, trig, gridSize)
  }

  /** Before the loop nothing has flown and nothing is spawned. */
  lemma RocketLoopStart(rockets: Rockets, groups: Groups, s: seq<Rocket>, before: seq<RocketState>,
                        after: seq<RocketState>, drop: seq<bool>, draws: seq<seq<FireworkModel.ParticleDraw>>,
                        trig: Trig, gridSize: real)
    requires rockets.current == s && before == States(s) && |after| == |s| && |drop| == |s|
    ensures RocketLoop(rockets, groups, s, before, after, drop, groups.current, [], |s|, draws, trig, gridSize)
  {
    assert s[..|s|] == s && groups.current + [] == groups.current;
  }

  /** What a whole rocket pass leaves behind: every rocket of `s` holds its
      state in `after`, the list keeps the rockets not flagged in `drop`, in
      order, and the groups spawned by the flagged ones follow the groups
      that were there before. */
  predicate RocketsFlown(rockets: Rockets, groups: Groups, s: seq<Rocket>, after: seq<RocketState>, drop: seq<bool>,
                         oldGroups: seq<Group>, draws: seq<seq<FireworkModel.ParticleDraw>>, trig: Trig,
                         gridSize: real)
    reads rockets, groups, (set r | r in s), Footprint(groups.current)
  {
    && |after| == |s| && |drop| == |s|
    && (forall n :: 0 <= n < |s| ==> State(s[n]) == after[n])
    && rockets.current == Types.KeptFrom(s, drop, 0)
    && |groups.current| >= |oldGroups|
    && groups.current[..|oldGroups|] == oldGroups
    && Spawned(groups.current[|oldGroups|..], s, after, Types.DroppedFrom(drop, 0), draws, trig, gridSize)
  }

  /** After the loop every rocket has flown, the kept ones remain in order,
      and the spawned groups follow the groups that were there. */
  lemma RocketLoopEnd(rockets: Rockets, groups: Groups, s: seq<Rocket>, before: seq<RocketState>,
                      after: seq<RocketState>, drop: seq<bool>, oldGroups: seq<Group>, spawned: seq<Group>,
                      draws: seq<seq<FireworkModel.ParticleDraw>>, trig: Trig, gridSize: real)
    requires RocketLoop(rockets, groups, s, before, after, drop, oldGroups, spawned, 0, draws, trig, gridSize)
    ensures groups.current[|oldGroups|..] == spawned
    ensures RocketsFlown(rockets, groups, s, after, drop, oldGroups, draws, trig, gridSize)
  {
    assert s[..0] == [];
    assert groups.current[..|oldGroups|] == oldGroups;
    assert groups.current[|oldGroups|..] == spawned;
  }

  /** `createExplosion(position.x, position.y, 0)` and `userData.alpha = 1.0`. */
  method Explode(t: FireworkConfig.FireworkType, origin: Vec3, draws: seq<FireworkModel.ParticleDraw>, trig: Trig,
                 gridSize: real)
    returns (group: Group)
    requires gridSize != 0.0 && ValidDraws(draws)
    ensures fresh(group) && fresh(group.velocities) && fresh(group.children)
    ensures SpawnedFrom(group, t, origin, draws, trig, gridSize)
  {
    var pixels, velocities := FireworkModel.CreateExplosion(t, origin.x, origin.y, 0.0, gridSize, draws, trig);
    group := new Group(velocities, pixels, 1.0);
  }

  /** One pass of the rocket loop at index `i`: the rocket flies one frame;
      when it is flagged as reaching its height, a fresh group spawned at its
      render point is appended and the rocket is spliced out. */
  method FlyAt(rockets: Rockets, groups: Groups, ghost s: seq<Rocket>, ghost before: seq<RocketState>,
               ghost after: seq<RocketState>, ghost drop: seq<bool>, i: nat,
               draws: seq<seq<FireworkModel.ParticleDraw>>, trig: Trig, gridSize: real)
    returns (ghost added: seq<Group>)
    requires gridSize != 0.0 && i < |s| && |drop| == |s| && |draws| == |s|
    requires forall n :: 0 <= n < |s| && n != i ==> s[n] != s[i]
    requires FlownSuffix(s, before, after, i + 1)
    requires after[i] == Fly(before[i], s[i].velocity, gridSize)
    requires drop[i] <==> before[i].truePos.y + s[i].velocity.y >= FireworkModel.ExplosionHeight(s[i].fireworkType)
    requires ValidDraws(draws[i])
    requires rockets.current == s[..i + 1] + Types.KeptFrom(s, drop, i + 1)
    modifies rockets, groups, s[i]
    ensures rockets.current == s[..i] + Types.KeptFrom(s, drop, i)
    ensures FlownSuffix(s, before, after, i)
    ensures groups.current == old(groups.current) + added
    ensures |added| == (if drop[i] then 1 else 0)
    ensures forall b :: b in added ==> SpawnedFrom(b, s[i].fireworkType, after[i].position, draws[i], trig, gridSize)
    ensures fresh(Objects(added))
  {
    Types.SpliceStep(s, drop, i + 1, rockets.current);
    var item := rockets.current[i];
    Move(item, gridSize);
    forall n | 0 <= n < |s| && n != i
      ensures State(s[n]) == old(State(s[n]))
    {
      assert s[n] != item;
    }
    added := [];
    if item.truePos.y >= FireworkModel.ExplosionHeight(item.fireworkType) {
      var group := Explode(item.fireworkType, item.position, draws[i], trig, gridSize);
      groups.current := groups.current + [group];
      rockets.current := rockets.current[..i] + rockets.current[i + 1..];
      added := [group];
      assert added[..0] == [];
    }
  }

  /** One pass of the rocket loop, from index `i + 1` down to `i`. */
  method RocketPass(rockets: Rockets, groups: Groups, ghost s: seq<Rocket>, ghost before: seq<RocketState>,
                    ghost after: seq<RocketState>, ghost drop: seq<bool>, ghost oldGroups: seq<Group>,
                    ghost spawned: seq<Group>, i: nat, draws: seq<seq<FireworkModel.ParticleDraw>>, trig: Trig,
                    gridSize: real)
    returns (ghost added: seq<Group>)
    requires gridSize != 0.0 && Types.Distinct(s) && i < |s|
    requires |before| == |s| && |draws| == |s| && drop == BurstFlags(s, before)
    requires after == FlyAll(s, before, gridSize)
    requires forall n :: 0 <= n < |draws| ==> ValidDraws(draws[n])
    requires RocketLoop(rockets, groups, s, before, after, drop, oldGroups, spawned, i + 1, draws, trig, gridSize)
    modifies rockets, groups, s[i]
    ensures RocketLoop(rockets, groups, s, before, after, drop, oldGroups, spawned + added, i, draws, trig, gridSize)
    ensures fresh(Objects(added))
  {
    Types.DistinctAt(s, i);
    added := FlyAt(rockets, groups, s, before, after, drop, i, draws, trig, gridSize);
    assert Spawned(spawned, s, after, Types.DroppedFrom(drop, i + 1), draws, trig, gridSize);
    if drop[i] {
      SpawnedGrow(spawned, s, after, drop, i, draws, trig, gridSize, added[0]);
    } else {
      assert Types.DroppedFrom(drop, i) == Types.DroppedFrom(drop, i + 1);
    }
  }

  /** The rocket loop, from the last rocket to the first. */
  method RocketLoopRun(rockets: Rockets, groups: Groups, ghost s: seq<Rocket>, ghost before: seq<RocketState>,
                       ghost after: seq<RocketState>, ghost drop: seq<bool>, ghost oldGroups: seq<Group>,
                       draws: seq<seq<FireworkModel.ParticleDraw>>, trig: Trig, gridSize: real)
    returns (ghost spawned: seq<Group>)
    requires gridSize != 0.0 && Types.Distinct(s)
    requires |before| == |s| && |draws| == |s| && drop == BurstFlags(s, before)
    requires after == FlyAll(s, before, gridSize)
    requires forall n :: 0 <= n < |draws| ==> ValidDraws(draws[n])
    requires rockets.current == s
    requires RocketLoop(rockets, groups, s, before, after, drop, oldGroups, [], |s|, draws, trig, gridSize)
    modifies rockets, groups, set r | r in s
    ensures RocketLoop(rockets, groups, s, before, after, drop, oldGroups, spawned, 0, draws, trig, gridSize)
    ensures fresh(Objects(spawned))
  {
    spawned := [];
    var i := |rockets.current|;
    while i > 0
      invariant 0 <= i <= |s|
      invariant RocketLoop(rockets, groups, s, before, after, drop, oldGroups, spawned, i, draws, trig, gridSize)
      invariant fresh(Objects(spawned))
    {
      i := i - 1;
      var added := RocketPass(rockets, groups, s, before, after, drop, oldGroups, spawned, i, draws, trig, gridSize);
      ObjectsAppend(spawned, added);
      spawned := spawned + added;
    }
  }

  /** `updateRockets(rocketsRef, particlesRef, scene)`; `draws[i]` are the
      random draws the explosion of rocket `i` would make. Every rocket
      flies one frame; the ones whose true y reaches 15 leave the list, the
      others keeping their order, and each of them appends one fresh group
      at its render point, last rocket first. */
  method UpdateRockets(rockets: Rockets, groups: Groups, draws: seq<seq<FireworkModel.ParticleDraw>>, trig: Trig,
                       gridSize: real)
    returns (ghost before: seq<RocketState>, ghost after: seq<RocketState>, ghost drop: seq<bool>)
    requires gridSize != 0.0
    requires Types.Distinct(rockets.current)
    requires |draws| == |rockets.current|
    requires forall n :: 0 <= n < |draws| ==> ValidDraws(draws[n])
    modifies rockets, groups, set r | r in rockets.current
    ensures before == old(States(rockets.current))
    ensures after == FlyAll(old(rockets.current), before, gridSize)
    ensures drop == BurstFlags(old(rockets.current), before)
    ensures RocketsFlown(rockets, groups, old(rockets.current), after, drop, old(groups.current), draws, trig, gridSize)
    ensures fresh(Objects(groups.current[|old(groups.current)|..]))
  {
    ghost var olds := rockets.current;
    ghost var oldGroups := groups.current;
    before := States(rockets.current);
    drop := BurstFlags(olds, before);
    after := FlyAll(olds, before, gridSize);
    RocketLoopStart(rockets, groups, olds, before, after, drop, draws, trig, gridSize);
    var spawned := RocketLoopRun(rockets, groups, olds, before, after, drop, oldGroups, draws, trig, gridSize);
    RocketLoopEnd(rockets, groups, olds, before, after, drop, oldGroups, spawned, draws, trig, gridSize);
  }

  /** `launchFirework(type, x)`: one rocket of the given type, created at
      `(x, INITIAL_Y, 0)`, joins the end of the list. */
  method LaunchFirework(rockets: Rockets, t: FireworkConfig.FireworkType, x: real, gridSize: real, u1: real, u2: real)
    returns (r: Rocket)
    requires gridSize != 0.0 && Unit(u1) && Unit(u2)
    modifies rockets
    ensures fresh(r)
    ensures rockets.current == old(rockets.current) + [r]
    ensures r.fireworkType == t
    ensures var launch := FireworkModel.CreateRocket(x, INITIAL_Y, 0.0, gridSize, u1, u2);
      State(r) == RocketState(launch.truePos, launch.position) && r.velocity == launch.velocity
  {
    var launch := FireworkModel.CreateRocket(x, INITIAL_Y, 0.0, gridSize, u1, u2);
    r := new Rocket(launch, t);
    rockets.current := rockets.current + [r];
  }

  /** A rocket launched by `launchFirework` starts on the lattice at the
      launch height's snapped value, is drawn at its true position, and
      rises. */
  lemma LaunchedRocket(x: real, gridSize: real, u1: real, u2: real)
    requires gridSize > 0.0 && Unit(u1) && Unit(u2)
    ensures var launch := FireworkModel.CreateRocket(x, INITIAL_Y, 0.0, gridSize, u1, u2);
      && launch.truePos.y == Utils.SnapToGrid(INITIAL_Y, gridSize)
      && launch.position == Vec3(launch.truePos.x, launch.truePos.y, 0.0)
      && launch.velocity.y >= 0.5
  {
    var launch := FireworkModel.CreateRocket(x, INITIAL_Y, 0.0, gridSize, u1, u2);
    Utils.SnapIdempotent(launch.truePos.x, gridSize);
    Utils.SnapIdempotent(launch.truePos.y, gridSize);
  }

  // ---- particle groups ----

  /** The velocity buffer and the pixels of a group. */
  datatype Pixels = Pixels(velocities: seq<real>, children: seq<FireworkModel.Pixel>)

  /** A falsy-default on a number that is never undefined: 0 counts as
      missing and becomes 1. */
  function OrOne(x: real): real {
    if x == 0.0 then 1.0 else x
  }

  /** A group's alpha after one frame: a zero alpha counts as 1, and the
      result is scaled by the decay constant. */
  function Decay(alpha: real): real {
    OrOne(alpha) * ALPHA_DECAY
  }

  /** Pixel `p` moved by `(vx, vy)`, drawn at the snapped point with z = 0,
      its opacity the
      current alpha times its initial opacity (1 when that is zero). */
  function MovePixel(p: FireworkModel.Pixel, vx: real, vy: real, alpha: real, gridSize: real): (q: FireworkModel.Pixel)
    requires gridSize != 0.0
    ensures q.truePos == Vec2(p.truePos.x + vx, p.truePos.y + vy)
    ensures q.position == Vec3(Utils.SnapToGrid(q.truePos.x, gridSize), Utils.SnapToGrid(q.truePos.y, gridSize), 0.0)
    ensures q.opacity == OrOne(p.initialOpacity) * alpha
    ensures q.color == p.color && q.initialOpacity == p.initialOpacity
  {
    var truePos := Vec2(p.truePos.x + vx, p.truePos.y + vy);
    p.(truePos := truePos,
       position := Vec3(Utils.SnapToGrid(truePos.x, gridSize), Utils.SnapToGrid(truePos.y, gridSize), 0.0),
       opacity := OrOne(p.initialOpacity) * alpha)
  }

  /** Pixel `idx` alone: when its three velocity slots exist, `vy` loses
      gravity and the pixel moves by `(vx, vy)`; otherwise nothing changes. */
  function ChildStep(q: Pixels, idx: nat, alpha: real, gridSize: real): (r: Pixels)
    requires idx < |q.children| && gridSize != 0.0
    ensures |r.velocities| == |q.velocities| && |r.children| == |q.children|
  {
    var v3 := 3 * idx;
    if v3 + 2 < |q.velocities| then
      var vy := q.velocities[v3 + 1] - GRAVITY;
      Pixels(q.velocities[v3 + 1 := vy],
             q.children[idx := MovePixel(q.children[idx], q.velocities[v3], vy, alpha, gridSize)])
    else q
  }

  /** The first `n` pixels stepped one after the other, in index order. */
  function ChildrenStep(q: Pixels, n: nat, alpha: real, gridSize: real): (r: Pixels)
    requires n <= |q.children| && gridSize != 0.0
    ensures |r.velocities| == |q.velocities| && |r.children| == |q.children|
  {
    if n == 0 then q else ChildStep(ChildrenStep(q, n - 1, alpha, gridSize), n - 1, alpha, gridSize)
  }

  /** Whether pixel `i` is among the first `n` and has its velocity slots. */
  predicate Moves(q: Pixels, n: nat, i: nat) {
    i < n && 3 * i + 2 < |q.velocities|
  }

  /** Velocity slot `3i + c`: only the `vy` slot of a pixel that moves
      changes, and it loses exactly `GRAVITY`. */
  lemma {:induction false} ChildrenStepSlot(q: Pixels, n: nat, alpha: real, gridSize: real, i: nat, c: nat)
    requires n <= |q.children| && gridSize != 0.0 && c < 3 && 3 * i + c < |q.velocities|
    ensures ChildrenStep(q, n, alpha, gridSize).velocities[3 * i + c]
      == if c == 1 && Moves(q, n, i) then q.velocities[3 * i + 1] - GRAVITY else q.velocities[3 * i + c]
  {
    if n > 0 {
      var m := n - 1;
      ChildrenStepSlot(q, m, alpha, gridSize, i, c);
      assert 3 * i + c == 3 * m + 1 <==> i == m && c == 1;
      assert Moves(q, n, i) <==> Moves(q, m, i) || (i == m && 3 * m + 2 < |q.velocities|);
    }
  }

  /** Pixel `i`: moved by its `vx` and post-gravity `vy` when it moves,
      untouched otherwise. */
  lemma {:induction false} ChildrenStepPixel(q: Pixels, n: nat, alpha: real, gridSize: real, i: nat)
    requires n <= |q.children| && gridSize != 0.0 && i < |q.children|
    ensures ChildrenStep(q, n, alpha, gridSize).children[i]
      == if Moves(q, n, i)
         then MovePixel(q.children[i], q.velocities[3 * i], q.velocities[3 * i + 1] - GRAVITY, alpha, gridSize)
         else q.children[i]
  {
    if n > 0 {
      var m := n - 1;
      ChildrenStepPixel(q, m, alpha, gridSize, i);
      if i == m && 3 * i + 2 < |q.velocities| {
        ChildrenStepSlot(q, m, alpha, gridSize, i, 0);
        ChildrenStepSlot(q, m, alpha, gridSize, i, 1);
      }
    }
  }

  /** One pass of the pixel loop. */
  method StepChild(b: Group, idx: nat, gridSize: real)
    requires idx < b.children.Length && gridSize != 0.0
    modifies b.velocities, b.children
    ensures Pixels(b.velocities[..], b.children[..])
      == ChildStep(old(Pixels(b.velocities[..], b.children[..])), idx, b.alpha, gridSize)
  {
    var vIdx := idx * 3;
    if vIdx + 2 < b.velocities.Length {
      b.velocities[vIdx + 1] := b.velocities[vIdx + 1] - GRAVITY;
      b.children[idx] := MovePixel(b.children[idx], b.velocities[vIdx], b.velocities[vIdx + 1], b.alpha, gridSize);
    }
  }

  /** `children.forEach(...)` over a group. */
  method StepChildren(b: Group, gridSize: real)
    requires gridSize != 0.0
    modifies b.velocities, b.children
    ensures Pixels(b.velocities[..], b.children[..])
      == ChildrenStep(old(Pixels(b.velocities[..], b.children[..])), b.children.Length, b.alpha, gridSize)
  {
    ghost var start := Pixels(b.velocities[..], b.children[..]);
    for idx := 0 to b.children.Length
      invariant Pixels(b.velocities[..], b.children[..]) == ChildrenStep(start, idx, b.alpha, gridSize)
    {
      StepChild(b, idx, gridSize);
    }
  }

  /** What one call reads and writes of a group. */
  datatype GroupState = GroupState(alpha: real, pixels: Pixels)

  function GroupStateOf(b: Group): GroupState
    reads b, b.velocities, b.children
  {
    GroupState(b.alpha, Pixels(b.velocities[..], b.children[..]))
  }

  /** What one call of `updateParticles` does to a group: alpha decays
      first, then every pixel with velocity slots moves, whether or not the
      group is about to be removed. */
  function Fade(s: GroupState, gridSize: real): (r: GroupState)
    requires gridSize != 0.0
    ensures r.alpha == Decay(s.alpha)
    ensures |r.pixels.velocities| == |s.pixels.velocities| && |r.pixels.children| == |s.pixels.children|
  {
    var alpha := Decay(s.alpha);
    GroupState(alpha, ChildrenStep(s.pixels, |s.pixels.children|, alpha, gridSize))
  }

  /** What `Fade` does to pixel `i` and its velocity slots: a pixel with all
      three slots loses `GRAVITY` on `vy` only, moves by `vx` and the new
      `vy`, is drawn at the snapped point and takes the opacity
      of the new alpha times its initial opacity; a pixel without them is untouched. */
  lemma FadePixel(s: GroupState, gridSize: real, i: nat)
    requires gridSize != 0.0 && i < |s.pixels.children|
    ensures var r, v, p := Fade(s, gridSize), s.pixels.velocities, s.pixels.children[i];
      if 3 * i + 2 < |v| then
        && r.pixels.velocities[3 * i] == v[3 * i]
        && r.pixels.velocities[3 * i + 1] == v[3 * i + 1] - GRAVITY
        && r.pixels.velocities[3 * i + 2] == v[3 * i + 2]
        && r.pixels.children[i].truePos == Vec2(p.truePos.x + v[3 * i], p.truePos.y + (v[3 * i + 1] - GRAVITY))
        && r.pixels.children[i].position.x == Utils.SnapToGrid(r.pixels.children[i].truePos.x, gridSize)
        && r.pixels.children[i].position.y == Utils.SnapToGrid(r.pixels.children[i].truePos.y, gridSize)
        && r.pixels.children[i].position.z == 0.0
        && r.pixels.children[i].opacity == OrOne(p.initialOpacity) * r.alpha
      else
        r.pixels.children[i] == p
  {
    var n := |s.pixels.children|;
    var alpha := Decay(s.alpha);
    ChildrenStepPixel(s.pixels, n, alpha, gridSize, i);
    if 3 * i + 2 < |s.pixels.velocities| {
      ChildrenStepSlot(s.pixels, n, alpha, gridSize, i, 0);
      ChildrenStepSlot(s.pixels, n, alpha, gridSize, i, 1);
      ChildrenStepSlot(s.pixels, n, alpha, gridSize, i, 2);
    }
  }

  /** Group `b`, whose state was `before`, is now in the state `Fade` gives. */
  predicate FadedFrom(b: Group, before: GroupState, gridSize: real)
    reads b, b.velocities, b.children
  {
    gridSize != 0.0 && GroupStateOf(b) == Fade(before, gridSize)
  }

  /** The body of the group loop up to the removal test; the result says
      whether the group is to be spliced out. */
  method FadeGroup(b: Group, gridSize: real) returns (remove: bool)
    requires gridSize != 0.0
    modifies b, b.velocities, b.children
    ensures GroupStateOf(b) == Fade(old(GroupStateOf(b)), gridSize)
    ensures remove <==> Decay(old(b.alpha)) < ALPHA_THRESHOLD
  {
    var alpha := OrOne(b.alpha);
    b.alpha := alpha * ALPHA_DECAY;
    StepChildren(b, gridSize);
    remove := b.alpha < ALPHA_THRESHOLD;
  }

  /** Two groups that are different objects with different buffers. */
  predicate Disjoint(a: Group, b: Group) {
    a != b && a.velocities != b.velocities && a.children != b.children
  }

  /** Group `b` shares nothing with any of `rest`. */
  predicate Apart(b: Group, rest: seq<Group>) {
    forall n :: 0 <= n < |rest| ==> Disjoint(b, rest[n])
  }

  /** No two groups of the list share an object. */
  predicate SeparateGroups(s: seq<Group>)
    decreases |s|
  {
    |s| == 0 || (Apart(s[0], s[1..]) && SeparateGroups(s[1..]))
  }

  /** Group `i` of a separate list shares nothing with any other group. */
  lemma {:induction false} SeparateAt(s: seq<Group>, i: nat)
    requires SeparateGroups(s) && i < |s|
    ensures forall n :: 0 <= n < |s| && n != i ==> Disjoint(s[n], s[i])
    decreases |s|
  {
    if i == 0 {
      forall n | 1 <= n < |s|
        ensures Disjoint(s[n], s[0])
      {
        assert s[n] == s[1..][n - 1];
      }
    } else {
      SeparateAt(s[1..], i - 1);
      assert s[i] == s[1..][i - 1];
      forall n | 0 <= n < |s| && n != i
        ensures Disjoint(s[n], s[i])
      {
        if n > 0 {
          assert s[n] == s[1..][n - 1];
        } else {
          assert Disjoint(s[0], s[1..][i - 1]);
        }
      }
    }
  }

  /** The state of every group of a list. */
  function GroupStates(s: seq<Group>): (r: seq<GroupState>)
    reads Footprint(s)
    ensures |r| == |s| && forall n :: 0 <= n < |s| ==> r[n] == GroupStateOf(s[n])
  {
    seq(|s|, n requires 0 <= n < |s| reads Footprint(s) => GroupStateOf(s[n]))
  }

  /** Groups before index `i` are still in their state `before`; groups from
      `i` on have faded from it. */
  predicate FadedSuffix(s: seq<Group>, before: seq<GroupState>, i: nat, gridSize: real)
    reads Footprint(s)
  {
    && |before| == |s|
    && (forall n :: 0 <= n < |s| && n < i ==> GroupStateOf(s[n]) == before[n])
    && (forall n :: i <= n < |s| ==> FadedFrom(s[n], before[n], gridSize))
  }

  /** For each group, whether this call's decay takes its alpha below the
      threshold. */
  function FadeFlags(s: seq<Group>): (d: seq<bool>)
    reads s
    ensures |d| == |s|
    ensures forall n :: 0 <= n < |s| ==> (d[n] <==> Decay(s[n].alpha) < ALPHA_THRESHOLD)
  {
    seq(|s|, n requires 0 <= n < |s| reads s => Decay(s[n].alpha) < ALPHA_THRESHOLD)
  }

  /** `drop` flags exactly the groups whose decayed alpha, from states
      `before`, falls below the threshold. */
  predicate Flagged(before: seq<GroupState>, drop: seq<bool>) {
    && |drop| == |before|
    && forall n :: 0 <= n < |before| ==> (drop[n] <==> Decay(before[n].alpha) < ALPHA_THRESHOLD)
  }

  /** One pass of the group loop at index `i`: group `i` fades and is
      spliced out exactly when it is flagged; every other group stays as it
      was. */
  method FadeAt(groups: Groups, ghost s: seq<Group>, ghost before: seq<GroupState>, ghost drop: seq<bool>, i: nat,
                gridSize: real)
    requires |drop| == |s| && i < |s| && gridSize != 0.0
    requires forall n :: 0 <= n < |s| && n != i ==> Disjoint(s[n], s[i])
    requires groups.current == s[..i + 1] + Types.KeptFrom(s, drop, i + 1)
    requires FadedSuffix(s, before, i + 1, gridSize)
    requires drop[i] <==> Decay(before[i].alpha) < ALPHA_THRESHOLD
    modifies groups, s[i], s[i].velocities, s[i].children
    ensures groups.current == s[..i] + Types.KeptFrom(s, drop, i)
    ensures FadedSuffix(s, before, i, gridSize)
  {
    Types.SpliceStep(s, drop, i + 1, groups.current);
    var group := groups.current[i];
    var remove := FadeGroup(group, gridSize);
    if remove {
      groups.current := groups.current[..i] + groups.current[i + 1..];
    }
    forall n | 0 <= n < |s| && n != i
      ensures GroupStateOf(s[n]) == old(GroupStateOf(s[n]))
    {
      assert s[n] != group && s[n].velocities != group.velocities && s[n].children != group.children;
    }
  }

  /** One pass of the group loop, from index `i + 1` down to `i`. */
  method GroupPass(groups: Groups, ghost s: seq<Group>, ghost before: seq<GroupState>, ghost drop: seq<bool>, i: nat,
                   gridSize: real)
    requires SeparateGroups(s) && i < |s| && |drop| == |s| && gridSize != 0.0
    requires Flagged(before, drop)
    requires groups.current == s[..i + 1] + Types.KeptFrom(s, drop, i + 1)
    requires FadedSuffix(s, before, i + 1, gridSize)
    modifies groups, s[i], s[i].velocities, s[i].children
    ensures groups.current == s[..i] + Types.KeptFrom(s, drop, i)
    ensures FadedSuffix(s, before, i, gridSize)
  {
    SeparateAt(s, i);
    FadeAt(groups, s, before, drop, i, gridSize);
  }

  /** The group loop, from the last group to the first. */
  method GroupLoop(groups: Groups, ghost s: seq<Group>, ghost before: seq<GroupState>, ghost drop: seq<bool>,
                   gridSize: real)
    requires SeparateGroups(s) && |drop| == |s| && gridSize != 0.0
    requires Flagged(before, drop)
    requires groups.current == s && s[..|s|] + Types.KeptFrom(s, drop, |s|) == s
    requires FadedSuffix(s, before, |s|, gridSize)
    modifies groups, Footprint(s)
    ensures groups.current == s[..0] + Types.KeptFrom(s, drop, 0)
    ensures FadedSuffix(s, before, 0, gridSize)
  {
    var i := |groups.current|;
    while i > 0
      invariant 0 <= i <= |s|
      invariant groups.current == s[..i] + Types.KeptFrom(s, drop, i)
      invariant FadedSuffix(s, before, i, gridSize)
    {
      i := i - 1;
      GroupPass(groups, s, before, drop, i, gridSize);
    }
  }

  /** Before the loop every group is in its first state, and the flags are
      those of that state. */
  lemma LoopStart(s: seq<Group>, before: seq<GroupState>, drop: seq<bool>, gridSize: real)
    requires before == GroupStates(s) && drop == FadeFlags(s)
    ensures FadedSuffix(s, before, |s|, gridSize) && Flagged(before, drop)
  {
  }

  /** `updateParticles(particlesRef, scene)`: every group fades as `Fade`
      says, and exactly the groups whose decayed alpha fell below the
      threshold leave the list, the others keeping their order. */
  method UpdateParticles(groups: Groups, gridSize: real)
    requires gridSize != 0.0
    requires SeparateGroups(groups.current)
    modifies groups, Footprint(groups.current)
    ensures groups.current == Types.KeptFrom(old(groups.current), old(FadeFlags(groups.current)), 0)
    ensures forall n :: 0 <= n < |old(groups.current)| ==>
      var b := old(groups.current)[n];
      FadedFrom(b, old(GroupStateOf(b)), gridSize)
  {
    ghost var olds := groups.current;
    ghost var drop := FadeFlags(groups.current);
    ghost var before := GroupStates(groups.current);
    LoopStart(olds, before, drop, gridSize);
    Types.SpliceEnds(olds, drop);
    GroupLoop(groups, olds, before, drop, gridSize);
  }

  // ---- how long a group lives ----

  function Pow(x: real, n: nat): real {
    if n == 0 then 1.0 else x * Pow(x, n - 1)
  }

  lemma {:induction false} PowAdd(x: real, a: nat, b: nat)
    ensures Pow(x, a + b) == Pow(x, a) * Pow(x, b)
  {
    if a > 0 {
      PowAdd(x, a - 1, b);
      assert Pow(x, a + b) == x * (Pow(x, a - 1) * Pow(x, b));
    }
  }

  /** A group's `Fade` applied `n` times. */
  function FadeTimes(s: GroupState, n: nat, gridSize: real): GroupState
    requires gridSize != 0.0
  {
    if n == 0 then s else Fade(FadeTimes(s, n - 1, gridSize), gridSize)
  }

  /** From alpha 1, every call multiplies alpha by `ALPHA_DECAY`. */
  lemma {:induction false} FadeTimesAlpha(s: GroupState, n: nat, gridSize: real)
    requires gridSize != 0.0 && s.alpha == 1.0
    ensures FadeTimes(s, n, gridSize).alpha == Pow(ALPHA_DECAY, n) && Pow(ALPHA_DECAY, n) > 0.0
  {
    if n > 0 {
      FadeTimesAlpha(s, n - 1, gridSize);
    }
  }

  lemma {:induction false} PowDecreasing(m: nat, n: nat)
    requires m <= n
    ensures 0.0 < Pow(ALPHA_DECAY, n) <= Pow(ALPHA_DECAY, m)
    decreases n
  {
    if n > 0 {
      if m < n {
        PowDecreasing(m, n - 1);
      } else {
        PowDecreasing(0, n - 1);
      }
    }
  }

  /** Seventy-three decays keep alpha at or above the threshold; the
      seventy-fourth takes it below. */
  lemma SeventyThreePowers()
    ensures Pow(ALPHA_DECAY, 73) >= ALPHA_THRESHOLD > Pow(ALPHA_DECAY, 74)
  {
    var x := ALPHA_DECAY;
    assert Pow(x, 1) == 0.96;
    PowAdd(x, 1, 1);
    assert Pow(x, 2) == 0.9216;
    PowAdd(x, 2, 2);
    assert Pow(x, 4) == 0.84934656;
    PowAdd(x, 4, 4);
    assert Pow(x, 8) == 0.7213895789838336;
    PowAdd(x, 8, 8);
    assert 0.5204 < Pow(x, 16) < 0.5205;
    PowAdd(x, 16, 16);
    assert 0.2708 < Pow(x, 32) < 0.2709;
    PowAdd(x, 32, 32);
    assert 0.07333 < Pow(x, 64) < 0.07339;
    PowAdd(x, 64, 8);
    PowAdd(x, 72, 1);
    PowAdd(x, 73, 1);
  }

  /** A group spawned with alpha 1 stays in the list through 73 calls of
      `updateParticles` and is removed by the 74th. */
  lemma GroupLifetime(s: GroupState, gridSize: real)
    requires gridSize != 0.0 && s.alpha == 1.0
    ensures forall n :: 1 <= n <= 73 ==> FadeTimes(s, n, gridSize).alpha >= ALPHA_THRESHOLD
    ensures FadeTimes(s, 74, gridSize).alpha < ALPHA_THRESHOLD
  {
    SeventyThreePowers();
    forall n | 1 <= n <= 73
      ensures FadeTimes(s, n, gridSize).alpha >= ALPHA_THRESHOLD
    {
      FadeTimesAlpha(s, n, gridSize);
      PowDecreasing(n, 73);
    }
    FadeTimesAlpha(s, 74, gridSize);
  }
}
