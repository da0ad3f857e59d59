/**
 The numeric part of `renderGauge`: the needle value is the probability clamped to [0, 100], and the needle
 colour falls in one of three bands by threshold.
 */
module Gauge {

  /** Needle colours: "#ef4444", "#f59e0b" and "#10b981" in the chart. */
  datatype Needle = Red | Amber | Green

  /** What the gauge shows: its value and the needle colour. */
  datatype Dial = Dial(value: real, needle: Needle)

  function Min(a: real, b: real): real { if a <= b then a else b }
  function Max(a: real, b: real): real { if a >= b then a else b }

  /** `Math.min(100, Math.max(0, prob))`. */
  function GaugeValue(prob: real): (v: real)
    ensures 0.0 <= v <= 100.0
    ensures 0.0 <= prob <= 100.0 ==> v == prob
    ensures prob < 0.0 ==> v == 0.0
    ensures prob > 100.0 ==> v == 100.0
  {
    Min(100.0, Max(0.0, prob))
  }

  /** The needle colour for a gauge value: three exclusive, exhaustive bands. */
  function NeedleFor(value: real): (c: Needle)
    ensures c == Red <==> value > 60.0
    ensures c == Amber <==> 30.0 < value <= 60.0
    ensures c == Green <==> value <= 30.0
  {
    if value > 60.0 then Red else if value > 30.0 then Amber else Green
  }

  /** `renderGauge(prob)` as the dial it draws. */
  function RenderGauge(prob: real): (d: Dial)
    ensures d.value == GaugeValue(prob)
    // The clamp unfolded, for readers of this contract alone:
    ensures 0.0 <= d.value <= 100.0
    ensures 0.0 <= prob <= 100.0 ==> d.value == prob
    ensures prob < 0.0 ==> d.value == 0.0
    ensures prob > 100.0 ==> d.value == 100.0
    // The needle bands hold of the probability itself, not only of the clamped value:
    ensures d.needle == Red <==> prob > 60.0
    ensures d.needle == Amber <==> 30.0 < prob <= 60.0
    ensures d.needle == Green <==> prob <= 30.0
  {
    var v := GaugeValue(prob);
    Dial(v, NeedleFor(v))
  }

  /** Clamping twice is clamping once. */
  lemma GaugeValueIdempotent(prob: real)
    ensures GaugeValue(GaugeValue(prob)) == GaugeValue(prob)
  {
  }

  /** Clamping preserves order, so a larger probability never shows lower. */
  lemma GaugeValueMonotone(p: real, q: real)
    requires p <= q
    ensures GaugeValue(p) <= GaugeValue(q)
  {
  }
}
