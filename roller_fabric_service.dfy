/** The roller-fabric service's weight helper. */
module RollerFabricService {
  import opened Measurements
  import opened Numerics
  import opened MeasurementConverter
  import opened Catalog

  /** The weight in kg of a fabric panel: its weight per area in kg/m2 times
      width and drop in m; -1 with no unit unless all three conversions
      succeed. */
  function WeightKg(t: Table, fabric: Fabric, width: Measurement, drop: Measurement): (r: Measurement)
    ensures (Convert(t, fabric.weight, "kg/m2").Failed() || Convert(t, width, "m").Failed() ||
             Convert(t, drop, "m").Failed()) ==> r == Failure
    ensures r == Failure || r.unit == "kg"
    ensures var weight, w, d := Convert(t, fabric.weight, "kg/m2"), Convert(t, width, "m"), Convert(t, drop, "m");
            !weight.Failed() && !w.Failed() && !d.Failed() ==> r == Measurement(weight.value * w.value * d.value, "kg")
  {
    var weight := Convert(t, fabric.weight, "kg/m2");
    var w := Convert(t, width, "m");
    var d := Convert(t, drop, "m");
    if !weight.Failed() && !w.Failed() && !d.Failed() then
      Measurement(weight.value * w.value * d.value, "kg")
    else
      Failure
  }

  /** The panel's weight does not depend on which side is the width. */
  lemma WeightKgSymmetric(t: Table, fabric: Fabric, width: Measurement, drop: Measurement)
    ensures WeightKg(t, fabric, width, drop) == WeightKg(t, fabric, drop, width)
  {
    var weight := Convert(t, fabric.weight, "kg/m2").value;
    var w, d := Convert(t, width, "m").value, Convert(t, drop, "m").value;
    assert weight * w * d == weight * d * w;
  }

  /** A computed weight is in kg and is non-negative when the converted weight
      per area, width and drop are. */
  lemma WeightKgNonNegative(t: Table, fabric: Fabric, width: Measurement, drop: Measurement)
    requires !Convert(t, fabric.weight, "kg/m2").Failed()
    requires !Convert(t, width, "m").Failed() && !Convert(t, drop, "m").Failed()
    requires Convert(t, fabric.weight, "kg/m2").value >= 0.0
    requires Convert(t, width, "m").value >= 0.0 && Convert(t, drop, "m").value >= 0.0
    ensures WeightKg(t, fabric, width, drop).unit == "kg" && WeightKg(t, fabric, width, drop).value >= 0.0
  {
    var weight := Convert(t, fabric.weight, "kg/m2").value;
    var w, d := Convert(t, width, "m").value, Convert(t, drop, "m").value;
    MulMonotonic(0.0, weight, w);
    MulMonotonic(0.0, weight * w, d);
  }
}
