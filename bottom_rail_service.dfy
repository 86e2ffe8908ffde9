/** The bottom-rail service's weight helper. */
module BottomRailService {
  import opened Measurements
  import opened Numerics
  import opened MeasurementConverter
  import opened Catalog

  /** The weight in kg of a bottom rail of the given width: its weight per
      length in kg/m times the width in m; -1 with no unit unless both
      conversions succeed. */
  function WeightKg(t: Table, rail: BottomRail, width: Measurement): (r: Measurement)
    ensures (Convert(t, rail.weight, "kg/m").Failed() || Convert(t, width, "m").Failed()) ==> r == Failure
    ensures r == Failure || r.unit == "kg"
    ensures var weight, w := Convert(t, rail.weight, "kg/m"), Convert(t, width, "m");
            !weight.Failed() && !w.Failed() ==> r == Measurement(weight.value * w.value, "kg")
  {
    var weight := Convert(t, rail.weight, "kg/m");
    var w := Convert(t, width, "m");
    if !weight.Failed() && !w.Failed() then
      Measurement(weight.value * w.value, "kg")
    else
      Failure
  }

  /** A rail k times as wide (in the same unit) weighs k times as much, as long
      as both weights are computed. */
  lemma WeightKgScales(t: Table, rail: BottomRail, v: real, u: Unit, k: real)
    requires WeightKg(t, rail, Measurement(v, u)) != Failure
    requires WeightKg(t, rail, Measurement(k * v, u)) != Failure
    ensures WeightKg(t, rail, Measurement(k * v, u)).value == k * WeightKg(t, rail, Measurement(v, u)).value
  {
    var weight := Convert(t, rail.weight, "kg/m").value;
    ConvertScales(t, v, u, "m", k);
    var w := Convert(t, Measurement(v, u), "m").value;
    assert weight * (k * w) == k * (weight * w);
  }

  /** A computed weight is in kg and is non-negative when the converted weight
      per length and width are. */
  lemma WeightKgNonNegative(t: Table, rail: BottomRail, width: Measurement)
    requires !Convert(t, rail.weight, "kg/m").Failed() && !Convert(t, width, "m").Failed()
    requires Convert(t, rail.weight, "kg/m").value >= 0.0 && Convert(t, width, "m").value >= 0.0
    ensures WeightKg(t, rail, width).unit == "kg" && WeightKg(t, rail, width).value >= 0.0
  {
    MulMonotonic(0.0, Convert(t, rail.weight, "kg/m").value, Convert(t, width, "m").value);
  }
}
