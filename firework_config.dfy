/** model/firework-config.ts: the six firework types, their display data, base
    colours and velocity profiles. Each profile maps an angle and a radius sample
    (plus its own `Math.random()` draws, passed in as `u1`, `u2`) to a planar
    velocity; `vz` is always 0. */
module FireworkConfig {
  import opened Vectors
  import opened ColorUtils

  datatype FireworkType = Peony | Chrysanthemum | Willow | Ring | Palm | MultiBreak

  /** The keys of `fireworkConfigs` in declaration order (`Object.keys` order). */
  const FireworkTypes: seq<FireworkType> :=
    [Peony, Chrysanthemum, Willow, Ring, Palm, MultiBreak]

  function Key(t: FireworkType): string {
    match t
    case Peony => "peony"
    case Chrysanthemum => "chrysanthemum"
    case Willow => "willow"
    case Ring => "ring"
    case Palm => "palm"
    case MultiBreak => "multi-break"
  }

  function Name(t: FireworkType): string {
    match t
    case Peony => "Peony"
    case Chrysanthemum => "Chrysanthemum"
    case Willow => "Willow"
    case Ring => "Ring"
    case Palm => "Palm"
    case MultiBreak => "Multi-Break"
  }

  /** `baseColor`, built with the file's own copy of `pastelColor`, which is the
      same map as model/color-utils.ts. */
  function BaseColor(t: FireworkType): Color {
    match t
    case Peony => PastelColor(255.0, 107.0, 107.0)
    case Chrysanthemum => PastelColor(78.0, 205.0, 196.0)
    case Willow => PastelColor(255.0, 230.0, 109.0)
    case Ring => PastelColor(149.0, 225.0, 211.0)
    case Palm => PastelColor(243.0, 129.0, 129.0)
    case MultiBreak => PastelColor(170.0, 150.0, 218.0)
  }

  /** The multi-break profile's band: the draw scaled to [0, 3) and rounded
      down. */
  function BreakLevel(u: real): (level: int)
    requires Unit(u)
    ensures 0 <= level <= 2
    ensures level as real <= u * 3.0 < level as real + 1.0
  {
    (u * 3.0).Floor
  }

  /** The `speed` local of each profile; `u1` is the profile's first draw. */
  function ProfileSpeed(t: FireworkType, radius: real, u1: real): real
    requires Unit(u1)
  {
    match t
    case Peony => radius * (0.4 + u1 * 0.3)
    case Chrysanthemum => radius * (0.5 + u1 * 0.4)
    case Willow => radius * (0.3 + u1 * 0.4)
    case Ring => 2.5 * 0.2
    case Palm => radius * (0.3 + u1 * 0.4)
    case MultiBreak => radius * (0.3 + BreakLevel(u1) as real * 0.25)
  }

  /** `getVelocity(angle, radius)`; `u2` is the second draw of willow and palm. */
  function GetVelocity(t: FireworkType, angle: real, radius: real, trig: Trig, u1: real, u2: real): Vec3
    requires Unit(u1) && Unit(u2)
  {
    var speed := ProfileSpeed(t, radius, u1);
    var c, s := trig.cos(angle), trig.sin(angle);
    match t
    case Willow => Vec3(c * speed * 0.3, -Abs(s) * speed * (0.6 + u2 * 0.4), 0.0)
    case Palm => Vec3(c * speed * 0.4, Abs(s) * speed * (0.5 + u2 * 0.3), 0.0)
    case _ => Vec3(c * speed, s * speed, 0.0)
  }

  /** `getDefaultFireworkType`: the first key, "peony". */
  function GetDefaultFireworkType(): (t: FireworkType)
    ensures t == FireworkTypes[0] && Key(t) == "peony"
  {
    FireworkTypes[0]
  }

  /** There are exactly six types, each listed once, with distinct keys. */
  lemma SixDistinctTypes()
    ensures |FireworkTypes| == 6
    ensures forall t: FireworkType :: t in FireworkTypes
    ensures forall i, j :: 0 <= i < j < |FireworkTypes| ==>
      FireworkTypes[i] != FireworkTypes[j] && Key(FireworkTypes[i]) != Key(FireworkTypes[j])
  {
    forall t: FireworkType ensures t in FireworkTypes {
      match t
      case Peony => assert FireworkTypes[0] == t;
      case Chrysanthemum => assert FireworkTypes[1] == t;
      case Willow => assert FireworkTypes[2] == t;
      case Ring => assert FireworkTypes[3] == t;
      case Palm => assert FireworkTypes[4] == t;
      case MultiBreak => assert FireworkTypes[5] == t;
    }
  }

  /** Every base colour channel lies in the pastel range [0.4, 1.0]. */
  lemma BaseColorsArePastel(t: FireworkType)
    ensures 0.4 <= BaseColor(t).r <= 1.0
    ensures 0.4 <= BaseColor(t).g <= 1.0
    ensures 0.4 <= BaseColor(t).b <= 1.0
  {
  }

  /** Every profile is planar: `vz` is 0. */
  lemma ProfilesArePlanar(t: FireworkType, angle: real, radius: real, trig: Trig, u1: real, u2: real)
    requires Unit(u1) && Unit(u2)
    ensures GetVelocity(t, angle, radius, trig, u1, u2).z == 0.0
  {
  }

  /** Peony speed lies in [0.2, 0.7) for a radius sample in [0.5, 1). */
  lemma PeonySpeedRange(radius: real, u1: real)
    requires 0.5 <= radius < 1.0 && Unit(u1)
    ensures 0.2 <= ProfileSpeed(Peony, radius, u1) < 0.7
  {
    var f := 0.4 + u1 * 0.3;
    assert 0.4 <= f < 0.7;
    var speed := ProfileSpeed(Peony, radius, u1);
    assert speed == radius * f;
    MulMonotone(0.5, radius, f);
    assert 0.5 * f <= speed;
    MulStrictMonotone(radius, 1.0, f);
    assert speed < 1.0 * f;
  }

  /** The willow and palm shapes for one direction `(c, s)` with `|c| <= 1`:
      the vertical part has a fixed sign and the horizontal part is at most
      `k` times the speed. */
  lemma DirectionBounds(c: real, s: real, speed: real, w: real, k: real)
    requires -1.0 <= c <= 1.0 && speed >= 0.0 && w >= 0.0 && k >= 0.0
    ensures -Abs(s) * speed * w <= 0.0 && Abs(s) * speed * w >= 0.0
    ensures Abs(c * speed * k) <= k * speed
  {
    MulMonotone(0.0, Abs(s), speed);
    MulMonotone(0.0, Abs(s) * speed, w);
    assert -Abs(s) * speed * w == -(Abs(s) * speed * w);
    ScaleWithinUnit(c, speed);
    var cs := c * speed;
    MulMonotone(cs, speed, k);
    MulMonotone(-speed, cs, k);
    assert -speed * k == -(speed * k);
    assert speed * k == k * speed;
  }

  /** A willow or palm speed is never negative. */
  lemma SpreadSpeedNonnegative(radius: real, u1: real)
    requires radius >= 0.0 && Unit(u1)
    ensures ProfileSpeed(Willow, radius, u1) >= 0.0 && ProfileSpeed(Palm, radius, u1) >= 0.0
  {
    MulMonotone(0.0, radius, 0.3 + u1 * 0.4);
  }

  /** Willow droops: `vy <= 0`, and `|vx|` is at most 0.3 of the speed. */
  lemma WillowDroops(angle: real, radius: real, trig: Trig, u1: real, u2: real)
    requires ValidTrig(trig) && radius >= 0.0 && Unit(u1) && Unit(u2)
    ensures var v := GetVelocity(Willow, angle, radius, trig, u1, u2);
      var speed := ProfileSpeed(Willow, radius, u1);
      v.y <= 0.0 && Abs(v.x) <= 0.3 * speed
  {
    SpreadSpeedNonnegative(radius, u1);
    assert -1.0 <= trig.cos(angle) <= 1.0;
    DirectionBounds(trig.cos(angle), trig.sin(angle), ProfileSpeed(Willow, radius, u1), 0.6 + u2 * 0.4, 0.3);
  }

  /** Palm rises: `vy >= 0`, and `|vx|` is at most 0.4 of the speed. */
  lemma PalmRises(angle: real, radius: real, trig: Trig, u1: real, u2: real)
    requires ValidTrig(trig) && radius >= 0.0 && Unit(u1) && Unit(u2)
    ensures var v := GetVelocity(Palm, angle, radius, trig, u1, u2);
      var speed := ProfileSpeed(Palm, radius, u1);
      v.y >= 0.0 && Abs(v.x) <= 0.4 * speed
  {
    SpreadSpeedNonnegative(radius, u1);
    assert -1.0 <= trig.cos(angle) <= 1.0;
    DirectionBounds(trig.cos(angle), trig.sin(angle), ProfileSpeed(Palm, radius, u1), 0.5 + u2 * 0.3, 0.4);
  }

  /** Ring ignores the radius and the draws: every particle moves at speed 0.5. */
  lemma RingHasFixedSpeed(angle: real, radius: real, trig: Trig, u1: real, u2: real)
    requires ValidTrig(trig) && Unit(u1) && Unit(u2)
    ensures var v := GetVelocity(Ring, angle, radius, trig, u1, u2);
      v.x * v.x + v.y * v.y == 0.25
  {
    var c, s := trig.cos(angle), trig.sin(angle);
    assert c * c + s * s == 1.0;
    assert (c * 0.5) * (c * 0.5) + (s * 0.5) * (s * 0.5) == 0.25 * (c * c + s * s);
  }

  /** Multi-break speed falls in one of three bands. */
  lemma MultiBreakBands(radius: real, u1: real)
    requires Unit(u1)
    ensures var speed := ProfileSpeed(MultiBreak, radius, u1);
      speed == 0.3 * radius || speed == 0.55 * radius || speed == 0.8 * radius
  {
    var level := BreakLevel(u1);
    assert level == 0 || level == 1 || level == 2;
  }
}
