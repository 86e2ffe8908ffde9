/** The roller-fabric entity's own weight helper. Unlike the service's, it
    converts the weight to "kg/m", a weight per length, before multiplying it
    by two lengths. */
module RollerFabric {
  import opened Measurements
  import opened Numerics
  import opened MeasurementConverter
  import opened Catalog

  /** The weight in kg of a fabric panel: its weight converted to kg/m times
      width and drop in m; -1 with no unit unless all three conversions
      succeed. */
  function WeightKg(t: Table, fabric: Fabric, width: Measurement, drop: Measurement): (r: Measurement)
    ensures (Convert(t, fabric.weight, "kg/m").Failed() || Convert(t, width, "m").Failed() ||
             Convert(t, drop, "m").Failed()) ==> r == Failure
    ensures r == Failure || r.unit == "kg"
    ensures var weight, w, d := Convert(t, fabric.weight, "kg/m"), Convert(t, width, "m"), Convert(t, drop, "m");
            !weight.Failed() && !w.Failed() && !d.Failed() ==> r == Measurement(weight.value * w.value * d.value, "kg")
  {
    var weight := Convert(t, fabric.weight, "kg/m");
    var w := Convert(t, width, "m");
    var d := Convert(t, drop, "m");
    if !weight.Failed() && !w.Failed() && !d.Failed() then
      Measurement(weight.value * w.value * d.value, "kg")
    else
      Failure
  }

  /** A fabric whose weight is per area ("g/m2") and has no stored conversion
      to "kg/m" never gets a weight. */
  lemma WeightKgNeedsPerLengthWeight(t: Table, fabric: Fabric, width: Measurement, drop: Measurement)
    requires fabric.weight.unit != "kg/m" && (fabric.weight.unit, "kg/m") !in t.edges
    ensures WeightKg(t, fabric, width, drop) == Failure
  {
  }

  /** A computed weight is in kg and is non-negative when the converted weight,
      width and drop are. */
  lemma WeightKgNonNegative(t: Table, fabric: Fabric, width: Measurement, drop: Measurement)
    requires !Convert(t, fabric.weight, "kg/m").Failed()
    requires !Convert(t, width, "m").Failed() && !Convert(t, drop, "m").Failed()
    requires Convert(t, fabric.weight, "kg/m").value >= 0.0
    requires Convert(t, width, "m").value >= 0.0 && Convert(t, drop, "m").value >= 0.0
    ensures WeightKg(t, fabric, width, drop).unit == "kg" && WeightKg(t, fabric, width, drop).value >= 0.0
  {
    var weight := Convert(t, fabric.weight, "kg/m").value;
    var w, d := Convert(t, width, "m").value, Convert(t, drop, "m").value;
    MulMonotonic(0.0, weight, w);
    MulMonotonic(0.0, weight * w, d);
  }
}
