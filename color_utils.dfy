/** model/color-utils.ts: the pastel colour map. Each 0..255 channel is mapped
    independently onto [0.4, 1.0] by `c / 255 * 0.6 + 0.4`. */
module ColorUtils {

  /** `THREE.Color`, channels as reals. */
  datatype Color = Color(r: real, g: real, b: real)

  /** One channel of `pastelColor`; it is invertible, so no two inputs share a
      pastel value. */
  function PastelChannel(c: real): (p: real)
    ensures (p - 0.4) / 0.6 * 255.0 == c
    ensures 0.0 <= c <= 255.0 ==> 0.4 <= p <= 1.0
  {
    (c / 255.0) * 0.6 + 0.4
  }

  /** `pastelColor(r, g, b)`: each output channel depends on its own input only. */
  function PastelColor(r: real, g: real, b: real): Color
  {
    Color(PastelChannel(r), PastelChannel(g), PastelChannel(b))
  }

  /** Every channel of a colour made from 0..255 inputs lies in [0.4, 1.0]. */
  lemma PastelColorInRange(r: real, g: real, b: real)
    requires 0.0 <= r <= 255.0 && 0.0 <= g <= 255.0 && 0.0 <= b <= 255.0
    ensures var c := PastelColor(r, g, b);
      0.4 <= c.r <= 1.0 && 0.4 <= c.g <= 1.0 && 0.4 <= c.b <= 1.0
  {
  }

  /** Changing one input channel leaves the other two output channels alone. */
  lemma PastelChannelsIndependent(r: real, g: real, b: real, r': real, g': real, b': real)
    ensures PastelColor(r, g, b).r == PastelColor(r, g', b').r
    ensures PastelColor(r, g, b).g == PastelColor(r', g, b').g
    ensures PastelColor(r, g, b).b == PastelColor(r', g', b).b
  {
  }

  /** Black becomes grey 0.4 and white stays white. */
  lemma PastelColorEndpoints()
    ensures PastelColor(0.0, 0.0, 0.0) == Color(0.4, 0.4, 0.4)
    ensures PastelColor(255.0, 255.0, 255.0) == Color(1.0, 1.0, 1.0)
  {
  }

  /** Each channel is strictly increasing in its input. */
  lemma PastelChannelStrictlyIncreasing(a: real, b: real)
    requires a < b
    ensures PastelChannel(a) < PastelChannel(b)
  {
  }
}
