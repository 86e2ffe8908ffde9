/** The roller-tube entity: its default material constants and its wall
    thickness. */
module RollerTube {
  import opened Measurements
  import opened MeasurementConverter
  import opened Catalog

  /** The modulus of elasticity of a tube built without one: 70 GPa (aluminium). */
  const DefaultModulus: Measurement := Measurement(70.0, "GPa")

  /** The density of a tube built without one: 2.7 g/cm^3 (aluminium). */
  const DefaultDensity: Measurement := Measurement(2.7, "g/cm^3")

  /** A tube built from a name and two diameters, the material fields taking
      their defaults. */
  function Build(name: string, outer: Measurement, inner: Measurement): (r: Tube)
    ensures r.name == name && r.outerDiameter == outer && r.innerDiameter == inner
    ensures r.modulus == Measurement(70.0, "GPa") && r.density == Measurement(2.7, "g/cm^3")
  {
    Tube(name, outer, inner, DefaultModulus, DefaultDensity)
  }

  /** The wall thickness, outer minus inner diameter, in the outer diameter's
      unit. Equal units need no conversion (registered or not); otherwise the
      inner diameter is converted, and a failed conversion gives -1. */
  function Thickness(t: Table, tube: Tube): (r: Measurement)
    ensures r.unit == tube.outerDiameter.unit
    ensures tube.outerDiameter.unit == tube.innerDiameter.unit ==>
              r.value + tube.innerDiameter.value == tube.outerDiameter.value
    ensures tube.outerDiameter.unit != tube.innerDiameter.unit ==>
              var inner := Convert(t, tube.innerDiameter, tube.outerDiameter.unit);
              if inner.Failed() then r.value == -1.0
              else r.value + inner.value == tube.outerDiameter.value
  {
    var outer, inner := tube.outerDiameter, tube.innerDiameter;
    var difference :=
      if outer.unit == inner.unit then outer.value - inner.value
      else
        var converted := Convert(t, inner, outer.unit);
        if !converted.Failed() then outer.value - converted.value else -1.0;
    Measurement(difference, outer.unit)
  }

  /** With both diameters in one unit the table plays no part. */
  lemma ThicknessIgnoresTable(t1: Table, t2: Table, tube: Tube)
    requires tube.outerDiameter.unit == tube.innerDiameter.unit
    ensures Thickness(t1, tube) == Thickness(t2, tube)
  {
  }

  /** A tube whose inner diameter does not exceed its outer one, both in one
      unit, has a non-negative wall thickness no larger than the outer diameter
      when the inner one is non-negative. */
  lemma ThicknessBounds(t: Table, tube: Tube)
    requires tube.outerDiameter.unit == tube.innerDiameter.unit
    requires 0.0 <= tube.innerDiameter.value <= tube.outerDiameter.value
    ensures 0.0 <= Thickness(t, tube).value <= tube.outerDiameter.value
  {
  }

  /** In mixed units the thickness is the same as after first converting the
      inner diameter by hand, as long as that conversion succeeds. */
  lemma ThicknessMixedUnits(t: Table, tube: Tube)
    requires tube.outerDiameter.unit != tube.innerDiameter.unit
    requires !Convert(t, tube.innerDiameter, tube.outerDiameter.unit).Failed()
    ensures Thickness(t, tube) ==
              Thickness(t, tube.(innerDiameter := Convert(t, tube.innerDiameter, tube.outerDiameter.unit)))
  {
  }
}
