/** The engineering calculator: roll-up, maximum drop, moment of inertia, loads,
    deflection and the per-tube system limits. Every input is converted first;
    a conversion that fails yields the value -1, and each formula checks some,
    not always all, of its conversions for it. */
module ShadeCalculator {
  import opened Measurements
  import opened Numerics
  import opened MeasurementConverter
  import opened Catalog

  /** The limits of one tube in a system with a fabric. */
  datatype SystemLimit = SystemLimit(tubeName: string, maxDrop: Measurement, maxWidth: Measurement,
                                     deflection: Measurement)

  /** The deflection, in mm, that a tube may reach at the maximum width. */
  const MaxDeflection: real := 2.99

  /** The longest drop any system may report. */
  const DropLimit: Measurement := Measurement(3.0, "m")

  /** The square D^2 + 4 t drop / pi of the diameter of a roll of `drop` of
      fabric of thickness `t` wound on a tube of diameter `d`. */
  function RollSquare(d: real, t: real, drop: real): (r: real)
    ensures t == 0.0 || drop == 0.0 ==> r == d * d
    ensures t * drop >= 0.0 ==> r >= d * d
  {
    assert 4.0 * t * drop == 4.0 * (t * drop);
    d * d + 4.0 * t * drop / Pi
  }

  /** The diameter sqrt(D^2 + 4 t drop / pi) of that roll. */
  function RollDiameter(lib: MathLib, d: real, t: real, drop: real): (r: real)
    ensures lib.Valid() && RollSquare(d, t, drop) >= 0.0 ==> r >= 0.0 && r * r == RollSquare(d, t, drop)
  {
    lib.sqrt(RollSquare(d, t, drop))
  }

  /** The drop pi ((R^2 - D^2) / 4) / t that fills a roll of diameter `rollUp`. */
  function DropForRoll(rollUp: real, d: real, t: real): (r: real)
    ensures t != 0.0 ==> t * r == Pi * (rollUp * rollUp - d * d) / 4.0
    ensures t == 0.0 ==> r == 0.0
  {
    Quotient(Pi * ((rollUp * rollUp - d * d) / 4.0), t)
  }

  /** The moment of inertia as the calculator computes it, with the inner
      diameter as the base term: pi (Di^4 - (Di - 2 (Do - Di))^4) / 64. */
  function TubeMoment(outer: real, inner: real): (r: real)
    ensures outer == inner || outer == 2.0 * inner ==> r == 0.0
  {
    Pow4Even(inner);
    Pi * (Pow4(inner) - Pow4(inner - 2.0 * (outer - inner))) / 64.0
  }

  /** The span (2.99 * 384 E I / (5 W))^(1/4) at which a beam carrying `load` per
      unit length deflects by `MaxDeflection`. */
  function SpanAtMaxDeflection(lib: MathLib, load: real, e: real, i: real): (r: real)
    ensures lib.Valid() && load != 0.0 && MaxDeflection * 384.0 * e * i / (5.0 * load) >= 0.0 ==>
              r >= 0.0 && 5.0 * load * Pow4(r) == MaxDeflection * 384.0 * e * i
  {
    lib.fourthRoot(Quotient(MaxDeflection * 384.0 * e * i, 5.0 * load))
  }

  /** The diameter of the roll when `drop` of fabric of the given thickness is
      wound on a tube, in the drop's unit. The formula runs when either
      conversion succeeds, so a failed one enters it as -1. */
  function RollUp(lib: MathLib, t: Table, drop: Measurement, outerDiameter: Measurement,
                  thickness: Measurement): (r: Measurement)
    ensures r.unit == drop.unit
    ensures Convert(t, outerDiameter, drop.unit).Failed() && Convert(t, thickness, drop.unit).Failed() ==>
              r.value == -1.0
    ensures var d, th := Convert(t, outerDiameter, drop.unit), Convert(t, thickness, drop.unit);
            !d.Failed() || !th.Failed() ==> r.value == RollDiameter(lib, d.value, th.value, drop.value)
  {
    var d := Convert(t, outerDiameter, drop.unit).value;
    var th := Convert(t, thickness, drop.unit).value;
    var rollUp :=
      if d != -1.0 || th != -1.0 then RollDiameter(lib, d, th, drop.value)
      else -1.0;
    Measurement(rollUp, drop.unit)
  }

  /** The longest drop, in mm, that winds onto a tube without exceeding the
      roll diameter `maxRollUp`; -1 unless all three inputs convert to mm. */
  function MaxDrop(t: Table, maxRollUp: Measurement, outerDiameter: Measurement,
                   thickness: Measurement): (r: Measurement)
    ensures r.unit == "mm"
    ensures (Convert(t, maxRollUp, "mm").Failed() || Convert(t, outerDiameter, "mm").Failed() ||
             Convert(t, thickness, "mm").Failed()) ==> r.value == -1.0
    ensures var rollUp, d, th := Convert(t, maxRollUp, "mm"), Convert(t, outerDiameter, "mm"), Convert(t, thickness, "mm");
            !rollUp.Failed() && !d.Failed() && !th.Failed() ==> r.value == DropForRoll(rollUp.value, d.value, th.value)
  {
    var rollUp := Convert(t, maxRollUp, "mm").value;
    var d := Convert(t, outerDiameter, "mm").value;
    var th := Convert(t, thickness, "mm").value;
    var maxDrop :=
      if rollUp != -1.0 && d != -1.0 && th != -1.0 then DropForRoll(rollUp, d, th)
      else -1.0;
    Measurement(maxDrop, "mm")
  }

  /** The second moment of area of the tube in mm^4. Only the inner diameter's
      conversion is checked, and the inner diameter is the base term:
      pi (Di^4 - (Di - 2 (Do - Di))^4) / 64. */
  function MomentOfInertia(t: Table, tube: Tube): (r: Measurement)
    ensures r.unit == "mm^4"
    ensures Convert(t, tube.innerDiameter, "mm").Failed() ==> r.value == -1.0
    ensures !Convert(t, tube.innerDiameter, "mm").Failed() ==>
              r.value == TubeMoment(Convert(t, tube.outerDiameter, "mm").value, Convert(t, tube.innerDiameter, "mm").value)
  {
    var outer := Convert(t, tube.outerDiameter, "mm").value;
    var inner := Convert(t, tube.innerDiameter, "mm").value;
    var moment := if inner != -1.0 then TubeMoment(outer, inner) else -1.0;
    Measurement(moment, "mm^4")
  }

  /** The weight of a fabric panel in `unit`: its weight converted to
      `unit + "/m^2"` times width and drop in m; -1 with no unit unless all
      three conversions succeed. */
  function TotalFabricWeight(t: Table, fabric: Fabric, width: Measurement, drop: Measurement,
                             unit: Unit): (r: Measurement)
    ensures r == Failure || r.unit == unit
    ensures (Convert(t, fabric.weight, unit + "/m^2").Failed() || Convert(t, width, "m").Failed() ||
             Convert(t, drop, "m").Failed()) ==> r == Failure
    ensures var weight, w, d := Convert(t, fabric.weight, unit + "/m^2"), Convert(t, width, "m"), Convert(t, drop, "m");
            !weight.Failed() && !w.Failed() && !d.Failed() ==> r == Measurement(weight.value * w.value * d.value, unit)
  {
    var weight := Convert(t, fabric.weight, unit + "/m^2");
    var w := Convert(t, width, "m");
    var d := Convert(t, drop, "m");
    if !weight.Failed() && !w.Failed() && !d.Failed() then
      Measurement(weight.value * w.value * d.value, unit)
    else
      Failure
  }

  /** Whether `part` occurs in `s` (Java's `String.contains`). */
  predicate Contains(s: string, part: string) {
    |part| <= |s| && (s[..|part|] == part || Contains(s[1..], part))
  }

  /** The unit the weight is converted to before it is multiplied by a length:
      the weight unit, a slash, and then the per-length (or, for a weight unit
      mentioning "^2", per-area) unit, which itself starts with the weight
      unit again. */
  function WeightPerUnitTarget(weight: Measurement, weightUnit: Unit, lengthUnit: Unit): (u: Unit)
    ensures u != weightUnit + "/" + lengthUnit
    ensures Contains(weight.unit, "^2") ==> u == weightUnit + "/" + weightUnit + "/" + lengthUnit + "^2"
    ensures !Contains(weight.unit, "^2") ==> u == weightUnit + "/" + weightUnit + "/" + lengthUnit
  {
    var squared := Contains(weight.unit, "^2");
    var unit := if squared then weightUnit + "/" + lengthUnit + "^2" else weightUnit + "/" + lengthUnit;
    weightUnit + "/" + unit
  }

  /** A weight per length (or per area) times one length: the weight converted
      to `WeightPerUnitTarget`, the length to `lengthUnit`; -1 with no unit
      unless both succeed. The result is in `weightUnit`, or in
      `weightUnit + "/" + lengthUnit` for a per-area weight. */
  function WeightPerUnit(t: Table, weight: Measurement, length: Measurement, weightUnit: Unit,
                         lengthUnit: Unit): (r: Measurement)
    ensures (Convert(t, weight, WeightPerUnitTarget(weight, weightUnit, lengthUnit)).Failed() ||
             Convert(t, length, lengthUnit).Failed()) ==> r == Failure
    ensures r == Failure || r.unit == if Contains(weight.unit, "^2") then weightUnit + "/" + lengthUnit else weightUnit
    ensures var w := Convert(t, weight, WeightPerUnitTarget(weight, weightUnit, lengthUnit));
            var l := Convert(t, length, lengthUnit);
            !w.Failed() && !l.Failed() ==> r.value == w.value * l.value
  {
    var squared := Contains(weight.unit, "^2");
    var w := Convert(t, weight, WeightPerUnitTarget(weight, weightUnit, lengthUnit));
    var l := Convert(t, length, lengthUnit);
    if !w.Failed() && !l.Failed() then
      Measurement(w.value * l.value, if squared then weightUnit + "/" + lengthUnit else weightUnit)
    else
      Failure
  }

  /** The load on the tube in N: the fabric's weight plus the bottom rail's,
      each converted to N; -1 with no unit unless drop and width convert to m
      and both weights convert to N. */
  function TotalLoad(t: Table, fabric: Fabric, rail: BottomRail, width: Measurement,
                     drop: Measurement): (r: Measurement)
    ensures r == Failure || r.unit == "N"
    ensures (Convert(t, drop, "m").Failed() || Convert(t, width, "m").Failed()) ==> r == Failure
    ensures var d, w := Convert(t, drop, "m"), Convert(t, width, "m");
            var fabricWeight := Convert(t, TotalFabricWeight(t, fabric, w, d, "kg"), "N");
            var railWeight := Convert(t, WeightPerUnit(t, rail.weight, w, "kg", "m"), "N");
            && (fabricWeight.Failed() || railWeight.Failed() ==> r == Failure)
            && (!d.Failed() && !w.Failed() && !fabricWeight.Failed() && !railWeight.Failed() ==>
                  r == Measurement(fabricWeight.value + railWeight.value, "N"))
  {
    var d := Convert(t, drop, "m");
    var w := Convert(t, width, "m");
    if !d.Failed() && !w.Failed() then
      var fabricWeight := Convert(t, TotalFabricWeight(t, fabric, w, d, "kg"), "N");
      var railWeight := Convert(t, WeightPerUnit(t, rail.weight, w, "kg", "m"), "N");
      if !fabricWeight.Failed() && !railWeight.Failed() then
        Measurement(fabricWeight.value + railWeight.value, "N")
      else
        Failure
    else
      Failure
  }

  /** The mid-span deflection 5 w l^3 / (384 E I) of a simply supported beam of
      length l carrying a total load w spread evenly along it. */
  function BeamDeflection(w: real, l: real, e: real, i: real): (r: real)
    ensures e * i != 0.0 ==> r * (384.0 * e * i) == 5.0 * w * Cube(l)
    ensures w == 0.0 || l == 0.0 ==> r == 0.0
  {
    Quotient(5.0 * w * Cube(l), 384.0 * e * i)
  }

  /** The deflection of the tube under fabric and bottom rail, converted to
      `unit`. Only the width and modulus conversions are checked: a failed
      load or moment of inertia enters the formula as -1. */
  function TubeDeflection(t: Table, fabric: Fabric, rail: BottomRail, tube: Tube, width: Measurement,
                          drop: Measurement, unit: Unit): (r: Measurement)
    ensures (Convert(t, width, "mm").Failed() || Convert(t, tube.modulus, "N/mm2").Failed()) ==>
              r == Convert(t, Failure, unit)
    ensures var l, e := Convert(t, width, "mm"), Convert(t, tube.modulus, "N/mm2");
            !l.Failed() && !e.Failed() ==>
              var w := TotalLoad(t, fabric, rail, width, drop).value;
              r == Convert(t, Measurement(BeamDeflection(w, l.value, e.value, MomentOfInertia(t, tube).value), "mm"), unit)
    ensures r == Failure || r.unit == unit
  {
    var l := Convert(t, width, "mm");
    var e := Convert(t, tube.modulus, "N/mm2");
    var result :=
      if !l.Failed() && !e.Failed() then
        var w := TotalLoad(t, fabric, rail, width, drop);
        var i := MomentOfInertia(t, tube);
        Measurement(BeamDeflection(w.value, l.value, e.value, i.value), "mm")
      else
        Failure;
    Convert(t, result, unit)
  }

  /** The roll-up's limit as a drop, in m and never above 3 m; a failed
      maximum drop is passed on unchanged (-1 in mm). */
  function LimitedDrop(t: Table, system: ShadeSystem, fabric: Fabric, tube: Tube): (r: Measurement)
    ensures r.value <= 3.0
    ensures r.Failed() || r.unit == "m"
    ensures var drop := MaxDrop(t, system.maxDiameter, tube.outerDiameter, fabric.thickness);
            var inMetres := Convert(t, drop, "m");
            && (drop.Failed() ==> r == drop)
            && (!drop.Failed() && inMetres.value <= 3.0 ==> r == inMetres)
            && (!drop.Failed() && inMetres.value > 3.0 ==> r == DropLimit)
  {
    var drop := MaxDrop(t, system.maxDiameter, tube.outerDiameter, fabric.thickness);
    if drop.Failed() then drop
    else
      var inMetres := Convert(t, drop, "m");
      if inMetres.value > DropLimit.value then DropLimit else inMetres
  }

  /** The widest shade, in mm, whose tube deflects by no more than
      `MaxDeflection` under the fabric hanging at `drop` plus the bottom rail:
      (2.99 * 384 E I / (5 W))^(1/4) with W the weight per mm in N; -1 unless
      both weights convert to g/mm. */
  function MaxWidthMm(lib: MathLib, t: Table, fabric: Fabric, tube: Tube, rail: BottomRail,
                      drop: Measurement): (r: real)
    ensures var fabricWeight := Convert(t, WeightPerUnit(t, fabric.weight, drop, "g", "m"), "g/mm");
            var railWeight := Convert(t, rail.weight, "g/mm");
            && (fabricWeight.Failed() || railWeight.Failed() ==> r == -1.0)
            && (!fabricWeight.Failed() && !railWeight.Failed() ==>
                  r == SpanAtMaxDeflection(lib, MaxWidthLoad(t, fabric, rail, drop),
                                           Convert(t, tube.modulus, "N/mm2").value, MomentOfInertia(t, tube).value))
  {
    var fabricWeight := Convert(t, WeightPerUnit(t, fabric.weight, drop, "g", "m"), "g/mm");
    var railWeight := Convert(t, rail.weight, "g/mm");
    if !fabricWeight.Failed() && !railWeight.Failed() then
      var i := MomentOfInertia(t, tube);
      var e := Convert(t, tube.modulus, "N/mm2");
      SpanAtMaxDeflection(lib, MaxWidthLoad(t, fabric, rail, drop), e.value, i.value)
    else
      -1.0
  }

  /** The load per mm used for the maximum width: the fabric's weight per mm at
      `drop` plus the rail's, both in g/mm, summed and read as g before
      converting to N. */
  function MaxWidthLoad(t: Table, fabric: Fabric, rail: BottomRail, drop: Measurement): (r: real)
    ensures var sum := Convert(t, WeightPerUnit(t, fabric.weight, drop, "g", "m"), "g/mm").value +
                       Convert(t, rail.weight, "g/mm").value;
            "g" in t.units && "N" in t.units && ("g", "N") in t.edges ==> r == sum * t.edges[("g", "N")]
    ensures !("g" in t.units && "N" in t.units && ("g", "N") in t.edges) ==> r == -1.0
  {
    var fabricWeight := Convert(t, WeightPerUnit(t, fabric.weight, drop, "g", "m"), "g/mm");
    var railWeight := Convert(t, rail.weight, "g/mm");
    Convert(t, Measurement(fabricWeight.value + railWeight.value, "g"), "N").value
  }

  /** A measurement rounded to two decimals, in its own unit. */
  function RoundMeasurement(m: Measurement): (r: Measurement)
    ensures r.unit == m.unit
    ensures m.value - 0.005 < r.value <= m.value + 0.005
    ensures (r.value * 100.0).Floor as real == r.value * 100.0
  {
    Measurement(RoundHundredths(m.value), m.unit)
  }

  /** The limits of `tube` in `system` with `fabric` and `rail`, in `unit`. Both
      the drop and the width are converted to `unit` at the end, so a failed
      value is -1 only when no conversion to `unit` applies. */
  function GetSystemLimit(lib: MathLib, t: Table, unit: Unit, system: ShadeSystem, fabric: Fabric,
                          tube: Tube, rail: BottomRail): (r: SystemLimit)
    ensures r.tubeName == tube.name
    ensures r.deflection == Measurement(MaxDeflection, "mm")
    ensures r.maxWidth.unit == unit
    ensures r.maxDrop == RoundMeasurement(Convert(t, LimitedDrop(t, system, fabric, tube), unit))
    ensures !MaxDrop(t, system.maxDiameter, tube.outerDiameter, fabric.thickness).Failed() ==>
              var width := MaxWidthMm(lib, t, fabric, tube, rail, LimitedDrop(t, system, fabric, tube));
              r.maxWidth == RoundMeasurement(Measurement(Convert(t, Measurement(width, "mm"), unit).value, unit))
    ensures MaxDrop(t, system.maxDiameter, tube.outerDiameter, fabric.thickness).Failed() ==>
              r.maxWidth == RoundMeasurement(Measurement(Convert(t, Measurement(-1.0, "mm"), unit).value, unit))
  {
    var drop := LimitedDrop(t, system, fabric, tube);
    var maxWidth :=
      if MaxDrop(t, system.maxDiameter, tube.outerDiameter, fabric.thickness).Failed() then -1.0
      else MaxWidthMm(lib, t, fabric, tube, rail, drop);
    var width := Convert(t, Measurement(maxWidth, "mm"), unit).value;
    SystemLimit(tube.name, RoundMeasurement(Convert(t, drop, unit)), RoundMeasurement(Measurement(width, unit)),
                Measurement(MaxDeflection, "mm"))
  }

  /** The limits for every tube, in the order of `tubes`. */
  method GetAllSystemLimits(lib: MathLib, t: Table, unit: Unit, system: ShadeSystem, fabric: Fabric,
                            rail: BottomRail, tubes: seq<Tube>) returns (limits: seq<SystemLimit>)
    ensures |limits| == |tubes|
    ensures forall i | 0 <= i < |tubes| :: limits[i] == GetSystemLimit(lib, t, unit, system, fabric, tubes[i], rail)
  {
    limits := [];
    for k := 0 to |tubes|
      invariant |limits| == k
      invariant forall i | 0 <= i < k :: limits[i] == GetSystemLimit(lib, t, unit, system, fabric, tubes[i], rail)
    {
      var limit := GetSystemLimit(lib, t, unit, system, fabric, tubes[k], rail);
      limits := limits + [limit];
    }
  }

  // Properties of the formulas

  /** The roll diameter R is the one whose annulus around the tube has the area
      of the fabric's edge: pi (R^2 - D^2) / 4 = t * drop. */
  lemma RollDiameterWindsFabric(lib: MathLib, d: real, t: real, drop: real)
    requires lib.Valid()
    requires d >= 0.0 && t >= 0.0 && drop >= 0.0
    ensures RollDiameter(lib, d, t, drop) >= d
    ensures Pi * (RollDiameter(lib, d, t, drop) * RollDiameter(lib, d, t, drop) - d * d) / 4.0 == t * drop
  {
    var x := d * d + 4.0 * t * drop / Pi;
    MulMonotonic(0.0, t, drop);
    assert x >= d * d;
    SqrtMonotonic(lib, d * d, x);
    SqrtOfSquare(lib, d);
  }

  /** With a fabric of no thickness the roll is just the tube. */
  lemma RollDiameterZeroThickness(lib: MathLib, d: real, drop: real)
    requires lib.Valid() && d >= 0.0
    ensures RollDiameter(lib, d, 0.0, drop) == d
  {
    assert RollSquare(d, 0.0, drop) == d * d;
    SqrtOfSquare(lib, d);
  }

  /** A longer drop never gives a smaller roll. */
  lemma RollDiameterMonotonic(lib: MathLib, d: real, t: real, drop1: real, drop2: real)
    requires lib.Valid()
    requires t >= 0.0 && 0.0 <= drop1 <= drop2
    ensures RollDiameter(lib, d, t, drop1) <= RollDiameter(lib, d, t, drop2)
  {
    MulMonotonic(drop1, drop2, 4.0 * t);
    assert 4.0 * t * drop1 / Pi <= 4.0 * t * drop2 / Pi;
    assert d * d >= 0.0;
    SqrtMonotonic(lib, d * d + 4.0 * t * drop1 / Pi, d * d + 4.0 * t * drop2 / Pi);
  }

  /** The drop for a roll, wound on the tube, covers exactly the roll's
      cross-section: D^2 + 4 t drop / pi = R^2. */
  lemma DropForRollCoversRoll(rollUp: real, d: real, t: real)
    requires t != 0.0
    ensures RollSquare(d, t, DropForRoll(rollUp, d, t)) == rollUp * rollUp
  {
    var drop := DropForRoll(rollUp, d, t);
    var area := rollUp * rollUp - d * d;
    assert 4.0 * (t * drop) == Pi * area;
  }

  /** Winding the drop for a roll gives that roll back, for a roll no smaller
      than the tube and a fabric of positive thickness. */
  lemma RollDiameterOfDropForRoll(lib: MathLib, rollUp: real, d: real, t: real)
    requires lib.Valid()
    requires 0.0 <= d <= rollUp && t > 0.0
    ensures RollDiameter(lib, d, t, DropForRoll(rollUp, d, t)) == rollUp
  {
    DropForRollCoversRoll(rollUp, d, t);
    SqrtOfSquare(lib, rollUp);
  }

  /** For a positive inner diameter the computed moment of inertia is positive
      exactly when the outer diameter lies strictly between the inner one and
      twice it. */
  lemma TubeMomentPositiveIff(outer: real, inner: real)
    requires inner > 0.0
    ensures TubeMoment(outer, inner) > 0.0 <==> inner < outer < 2.0 * inner
  {
    var base := inner - 2.0 * (outer - inner);
    var size := if base < 0.0 then -base else base;
    Pow4Even(base);
    assert Pow4(base) == Pow4(size);
    if size < inner {
      Pow4StrictlyMonotonic(size, inner);
    } else if inner < size {
      Pow4StrictlyMonotonic(inner, size);
    }
  }

  /** Under a fixed beam, a heavier load never deflects less. */
  lemma DeflectionMonotonicInLoad(w1: real, w2: real, l: real, e: real, i: real)
    requires w1 <= w2 && l >= 0.0 && e * i > 0.0
    ensures BeamDeflection(w1, l, e, i) <= BeamDeflection(w2, l, e, i)
  {
    var c := Cube(l);
    CubeMonotonic(0.0, l);
    MulMonotonic(5.0 * w1, 5.0 * w2, c);
    var k := 384.0 * e * i;
    assert k > 0.0;
    assert 5.0 * w1 * c / k <= 5.0 * w2 * c / k;
  }

  /** Under a fixed load, a longer beam never deflects less. */
  lemma DeflectionMonotonicInLength(w: real, l1: real, l2: real, e: real, i: real)
    requires w >= 0.0 && 0.0 <= l1 <= l2 && e * i > 0.0
    ensures BeamDeflection(w, l1, e, i) <= BeamDeflection(w, l2, e, i)
  {
    CubeMonotonic(l1, l2);
    MulMonotonic(Cube(l1), Cube(l2), 5.0 * w);
    var k := 384.0 * e * i;
    assert k > 0.0;
    assert 5.0 * w * Cube(l1) / k <= 5.0 * w * Cube(l2) / k;
  }

  /** Under a non-positive load (such as the failure value -1), a longer beam
      never deflects more: the formula bends it further upwards. */
  lemma DeflectionAntitoneInLength(w: real, l1: real, l2: real, e: real, i: real)
    requires w <= 0.0 && 0.0 <= l1 <= l2 && e * i > 0.0
    ensures BeamDeflection(w, l2, e, i) <= BeamDeflection(w, l1, e, i)
  {
    CubeMonotonic(l1, l2);
    MulMonotonic(Cube(l1), Cube(l2), -5.0 * w);
    assert 5.0 * w * Cube(l2) <= 5.0 * w * Cube(l1);
    var k := 384.0 * e * i;
    assert k > 0.0;
    assert 5.0 * w * Cube(l2) / k <= 5.0 * w * Cube(l1) / k;
  }

  /** At the span of `SpanAtMaxDeflection`, with a positive beam stiffness,
      the deflection formula gives `MaxDeflection`. */
  lemma SpanDeflectsByMaxDeflection(lib: MathLib, load: real, e: real, i: real)
    requires lib.Valid()
    requires load > 0.0 && e * i > 0.0
    ensures var span := SpanAtMaxDeflection(lib, load, e, i);
            BeamDeflection(load * span, span, e, i) == MaxDeflection
  {
    var span := SpanAtMaxDeflection(lib, load, e, i);
    var k := 384.0 * e * i;
    assert MaxDeflection * k / (5.0 * load) >= 0.0;
    assert 5.0 * (load * span) * Cube(span) == 5.0 * load * Pow4(span);
  }

  // Properties of the calculator's operations

  /** A roll-up whose inputs both convert is the roll diameter of the converted
      values, and so satisfies `RollDiameterWindsFabric`. */
  lemma RollUpWindsFabric(lib: MathLib, t: Table, drop: Measurement, outerDiameter: Measurement,
                          thickness: Measurement)
    requires lib.Valid()
    requires !Convert(t, outerDiameter, drop.unit).Failed() && !Convert(t, thickness, drop.unit).Failed()
    requires Convert(t, outerDiameter, drop.unit).value >= 0.0
    requires Convert(t, thickness, drop.unit).value >= 0.0 && drop.value >= 0.0
    ensures var d, th := Convert(t, outerDiameter, drop.unit).value, Convert(t, thickness, drop.unit).value;
            var r := RollUp(lib, t, drop, outerDiameter, thickness).value;
            r >= d && Pi * (r * r - d * d) / 4.0 == th * drop.value
  {
    RollDiameterWindsFabric(lib, Convert(t, outerDiameter, drop.unit).value, Convert(t, thickness, drop.unit).value,
                            drop.value);
  }

  /** With a fabric of no thickness the roll is just the tube. */
  lemma RollUpZeroThickness(lib: MathLib, t: Table, drop: Measurement, outerDiameter: Measurement,
                            thickness: Measurement)
    requires lib.Valid()
    requires !Convert(t, outerDiameter, drop.unit).Failed() && Convert(t, outerDiameter, drop.unit).value >= 0.0
    requires Convert(t, thickness, drop.unit).value == 0.0
    ensures RollUp(lib, t, drop, outerDiameter, thickness).value == Convert(t, outerDiameter, drop.unit).value
  {
    RollDiameterZeroThickness(lib, Convert(t, outerDiameter, drop.unit).value, drop.value);
  }

  /** A longer drop never gives a smaller roll. */
  lemma RollUpMonotonic(lib: MathLib, t: Table, drop1: Measurement, drop2: Measurement,
                        outerDiameter: Measurement, thickness: Measurement)
    requires lib.Valid()
    requires drop1.unit == drop2.unit && 0.0 <= drop1.value <= drop2.value
    requires !Convert(t, outerDiameter, drop1.unit).Failed() && !Convert(t, thickness, drop1.unit).Failed()
    requires Convert(t, thickness, drop1.unit).value >= 0.0
    ensures RollUp(lib, t, drop1, outerDiameter, thickness).value <= RollUp(lib, t, drop2, outerDiameter, thickness).value
  {
    RollDiameterMonotonic(lib, Convert(t, outerDiameter, drop1.unit).value, Convert(t, thickness, drop1.unit).value,
                          drop1.value, drop2.value);
  }

  /** Because the guard joins the two conversion checks with "or", a failed
      thickness conversion enters the formula as a thickness of -1. */
  lemma RollUpUsesFailedThickness(lib: MathLib, t: Table, drop: Measurement, outerDiameter: Measurement,
                                  thickness: Measurement)
    requires !Convert(t, outerDiameter, drop.unit).Failed() && Convert(t, thickness, drop.unit).Failed()
    ensures RollUp(lib, t, drop, outerDiameter, thickness).value ==
              RollDiameter(lib, Convert(t, outerDiameter, drop.unit).value, -1.0, drop.value)
  {
  }

  /** The maximum drop fills exactly the annulus between the tube and the
      largest roll: thickness * drop = pi (R^2 - D^2) / 4, all in mm. */
  lemma MaxDropFillsRoll(t: Table, maxRollUp: Measurement, outerDiameter: Measurement, thickness: Measurement)
    requires !Convert(t, maxRollUp, "mm").Failed() && !Convert(t, outerDiameter, "mm").Failed()
    requires !Convert(t, thickness, "mm").Failed() && Convert(t, thickness, "mm").value != 0.0
    ensures var rollUp, d := Convert(t, maxRollUp, "mm").value, Convert(t, outerDiameter, "mm").value;
            Convert(t, thickness, "mm").value * MaxDrop(t, maxRollUp, outerDiameter, thickness).value ==
              Pi * (rollUp * rollUp - d * d) / 4.0
  {
  }

  /** Winding the maximum drop gives back the largest roll in mm, for a roll
      no smaller than the tube and a fabric of positive thickness. */
  lemma RollUpOfMaxDrop(lib: MathLib, t: Table, maxRollUp: Measurement, outerDiameter: Measurement,
                        thickness: Measurement)
    requires lib.Valid()
    requires !Convert(t, maxRollUp, "mm").Failed() && !Convert(t, outerDiameter, "mm").Failed()
    requires !Convert(t, thickness, "mm").Failed()
    requires 0.0 <= Convert(t, outerDiameter, "mm").value <= Convert(t, maxRollUp, "mm").value
    requires Convert(t, thickness, "mm").value > 0.0
    ensures RollUp(lib, t, MaxDrop(t, maxRollUp, outerDiameter, thickness), outerDiameter, thickness).value ==
              Convert(t, maxRollUp, "mm").value
  {
    var rollUp, d, th := Convert(t, maxRollUp, "mm"), Convert(t, outerDiameter, "mm"), Convert(t, thickness, "mm");
    assert Convert(t, d, "mm") == d && Convert(t, th, "mm") == th;
    RollDiameterOfDropForRoll(lib, rollUp.value, d.value, th.value);
  }

  /** For a positive inner diameter in mm, the moment of inertia is positive
      exactly when the outer diameter lies strictly between the inner one and
      twice it. */
  lemma MomentPositiveIff(t: Table, tube: Tube)
    requires !Convert(t, tube.innerDiameter, "mm").Failed() && Convert(t, tube.innerDiameter, "mm").value > 0.0
    ensures var outer, inner := Convert(t, tube.outerDiameter, "mm").value, Convert(t, tube.innerDiameter, "mm").value;
            MomentOfInertia(t, tube).value > 0.0 <==> inner < outer < 2.0 * inner
  {
    TubeMomentPositiveIff(Convert(t, tube.outerDiameter, "mm").value, Convert(t, tube.innerDiameter, "mm").value);
  }

  /** When both weights convert to a positive load and the beam stiffness is
      positive, a shade of the maximum width, carrying that load per mm along
      its whole width, deflects its tube by exactly `MaxDeflection`. */
  lemma MaxWidthDeflectsByMaxDeflection(lib: MathLib, t: Table, fabric: Fabric, tube: Tube, rail: BottomRail,
                                        drop: Measurement)
    requires lib.Valid()
    requires !Convert(t, WeightPerUnit(t, fabric.weight, drop, "g", "m"), "g/mm").Failed()
    requires !Convert(t, rail.weight, "g/mm").Failed()
    requires MaxWidthLoad(t, fabric, rail, drop) > 0.0
    requires Convert(t, tube.modulus, "N/mm2").value * MomentOfInertia(t, tube).value > 0.0
    ensures var width := MaxWidthMm(lib, t, fabric, tube, rail, drop);
            BeamDeflection(MaxWidthLoad(t, fabric, rail, drop) * width, width, Convert(t, tube.modulus, "N/mm2").value,
                           MomentOfInertia(t, tube).value) == MaxDeflection
  {
    var e, i := Convert(t, tube.modulus, "N/mm2").value, MomentOfInertia(t, tube).value;
    SpanWidthDeflectsByMaxDeflection(lib, MaxWidthLoad(t, fabric, rail, drop), e, i,
                                     MaxWidthMm(lib, t, fabric, tube, rail, drop));
  }

  /** `SpanDeflectsByMaxDeflection` for a width known to be that span. */
  lemma SpanWidthDeflectsByMaxDeflection(lib: MathLib, load: real, e: real, i: real, width: real)
    requires lib.Valid() && load > 0.0 && e * i > 0.0
    requires width == SpanAtMaxDeflection(lib, load, e, i)
    ensures BeamDeflection(load * width, width, e, i) == MaxDeflection
  {
    SpanDeflectsByMaxDeflection(lib, load, e, i);
  }

  /** The reported drop, asked for in m, never exceeds the 3 m limit, as long as
      every stored factor is positive. */
  lemma ReportedDropWithinLimit(lib: MathLib, t: Table, system: ShadeSystem, fabric: Fabric, tube: Tube,
                                rail: BottomRail)
    requires forall p | p in t.edges :: t.edges[p] > 0.0
    ensures GetSystemLimit(lib, t, "m", system, fabric, tube, rail).maxDrop.value <= 3.0
  {
    var drop := LimitedDrop(t, system, fabric, tube);
    var converted := Convert(t, drop, "m");
    assert converted.value <= 3.0;
    var r := RoundMeasurement(converted).value;
    assert (r * 100.0).Floor as real == r * 100.0;
    assert (r * 100.0).Floor <= 300;
  }

  /** A failed maximum drop still goes through the final conversion: both the
      reported drop and the reported width are -1 mm converted to `unit`. */
  lemma FailedMaxDropIsConverted(lib: MathLib, t: Table, unit: Unit, system: ShadeSystem, fabric: Fabric,
                                 tube: Tube, rail: BottomRail)
    requires MaxDrop(t, system.maxDiameter, tube.outerDiameter, fabric.thickness).Failed()
    ensures var limit := GetSystemLimit(lib, t, unit, system, fabric, tube, rail);
            var failed := Convert(t, Measurement(-1.0, "mm"), unit);
            limit.maxDrop == RoundMeasurement(failed) &&
            limit.maxWidth == RoundMeasurement(Measurement(failed.value, unit))
  {
  }

  /** Rounding a reported value again changes nothing. */
  lemma RoundMeasurementIdempotent(m: Measurement)
    ensures RoundMeasurement(RoundMeasurement(m)) == RoundMeasurement(m)
  {
    RoundHundredthsIdempotent(m.value);
  }

  /** The fabric's weight does not depend on which side is the width. */
  lemma TotalFabricWeightSymmetric(t: Table, fabric: Fabric, width: Measurement, drop: Measurement, unit: Unit)
    ensures TotalFabricWeight(t, fabric, width, drop, unit) == TotalFabricWeight(t, fabric, drop, width, unit)
  {
    var weight := Convert(t, fabric.weight, unit + "/m^2").value;
    var w, d := Convert(t, width, "m").value, Convert(t, drop, "m").value;
    assert weight * w * d == weight * d * w;
  }

  // Linearity and monotonicity in the width

  /** A weight per length times a length k times as long (in the same unit) is
      k times as large, as long as both products are computed. */
  lemma WeightPerUnitScales(t: Table, weight: Measurement, v: real, u: Unit, weightUnit: Unit,
                            lengthUnit: Unit, k: real)
    requires WeightPerUnit(t, weight, Measurement(v, u), weightUnit, lengthUnit) != Failure
    requires WeightPerUnit(t, weight, Measurement(k * v, u), weightUnit, lengthUnit) != Failure
    ensures WeightPerUnit(t, weight, Measurement(k * v, u), weightUnit, lengthUnit).value ==
              k * WeightPerUnit(t, weight, Measurement(v, u), weightUnit, lengthUnit).value
  {
    var w := Convert(t, weight, WeightPerUnitTarget(weight, weightUnit, lengthUnit)).value;
    ConvertScales(t, v, u, lengthUnit, k);
    var l := Convert(t, Measurement(v, u), lengthUnit).value;
    assert w * (k * l) == k * (w * l);
  }

  /** With non-negative factors and weight, a longer length never gives a
      smaller product, and the product is non-negative. */
  lemma WeightPerUnitMonotonicInLength(t: Table, weight: Measurement, v1: real, v2: real, u: Unit,
                                       weightUnit: Unit, lengthUnit: Unit)
    requires t.NonNegativeFactors() && 0.0 <= v1 <= v2 && weight.value >= 0.0
    requires WeightPerUnit(t, weight, Measurement(v1, u), weightUnit, lengthUnit) != Failure
    requires WeightPerUnit(t, weight, Measurement(v2, u), weightUnit, lengthUnit) != Failure
    ensures 0.0 <= WeightPerUnit(t, weight, Measurement(v1, u), weightUnit, lengthUnit).value <=
                   WeightPerUnit(t, weight, Measurement(v2, u), weightUnit, lengthUnit).value
  {
    var target := WeightPerUnitTarget(weight, weightUnit, lengthUnit);
    ConvertNonNegative(t, weight, target);
    var w := Convert(t, weight, target).value;
    ConvertMonotonic(t, v1, v2, u, lengthUnit);
    ConvertNonNegative(t, Measurement(v1, u), lengthUnit);
    var l1, l2 := Convert(t, Measurement(v1, u), lengthUnit).value, Convert(t, Measurement(v2, u), lengthUnit).value;
    MulMonotonic(l1, l2, w);
    MulMonotonic(0.0, l1, w);
  }

  /** With non-negative factors, weight and drop, a wider panel never weighs
      less, and its weight is non-negative. */
  lemma TotalFabricWeightMonotonicInWidth(t: Table, fabric: Fabric, v1: real, v2: real, u: Unit,
                                          drop: Measurement, unit: Unit)
    requires t.NonNegativeFactors() && 0.0 <= v1 <= v2
    requires fabric.weight.value >= 0.0 && drop.value >= 0.0
    requires TotalFabricWeight(t, fabric, Measurement(v1, u), drop, unit) != Failure
    requires TotalFabricWeight(t, fabric, Measurement(v2, u), drop, unit) != Failure
    ensures 0.0 <= TotalFabricWeight(t, fabric, Measurement(v1, u), drop, unit).value <=
                   TotalFabricWeight(t, fabric, Measurement(v2, u), drop, unit).value
  {
    ConvertNonNegative(t, fabric.weight, unit + "/m^2");
    var weight := Convert(t, fabric.weight, unit + "/m^2").value;
    ConvertNonNegative(t, drop, "m");
    var d := Convert(t, drop, "m").value;
    ConvertMonotonic(t, v1, v2, u, "m");
    ConvertNonNegative(t, Measurement(v1, u), "m");
    var w1, w2 := Convert(t, Measurement(v1, u), "m").value, Convert(t, Measurement(v2, u), "m").value;
    MulMonotonic(w1, w2, weight);
    MulMonotonic(weight * w1, weight * w2, d);
    MulMonotonic(0.0, w1, weight);
    MulMonotonic(0.0, weight * w1, d);
  }

  /** The fabric's share of the load, in N, for a width already in m: never
      smaller for a wider panel, and non-negative. */
  lemma FabricLoadMonotonic(t: Table, fabric: Fabric, x1: real, x2: real, d: Measurement)
    requires t.NonNegativeFactors() && NoUnit !in t.units && 0.0 <= x1 <= x2
    requires fabric.weight.value >= 0.0 && d.value >= 0.0
    requires Convert(t, TotalFabricWeight(t, fabric, Measurement(x1, "m"), d, "kg"), "N") != Failure
    requires Convert(t, TotalFabricWeight(t, fabric, Measurement(x2, "m"), d, "kg"), "N") != Failure
    ensures 0.0 <= Convert(t, TotalFabricWeight(t, fabric, Measurement(x1, "m"), d, "kg"), "N").value <=
                   Convert(t, TotalFabricWeight(t, fabric, Measurement(x2, "m"), d, "kg"), "N").value
  {
    FailurePersists(t, "N");
    var f1, f2 := TotalFabricWeight(t, fabric, Measurement(x1, "m"), d, "kg"),
                  TotalFabricWeight(t, fabric, Measurement(x2, "m"), d, "kg");
    TotalFabricWeightMonotonicInWidth(t, fabric, x1, x2, "m", d, "kg");
    assert f1 == Measurement(f1.value, "kg") && f2 == Measurement(f2.value, "kg");
    ConvertMonotonic(t, f1.value, f2.value, "kg", "N");
    ConvertNonNegative(t, f1, "N");
  }

  /** The bottom rail's share of the load, in N, for a width already in m:
      never smaller for a wider rail, and non-negative. */
  lemma RailLoadMonotonic(t: Table, rail: BottomRail, x1: real, x2: real)
    requires t.NonNegativeFactors() && NoUnit !in t.units && 0.0 <= x1 <= x2
    requires rail.weight.value >= 0.0
    requires Convert(t, WeightPerUnit(t, rail.weight, Measurement(x1, "m"), "kg", "m"), "N") != Failure
    requires Convert(t, WeightPerUnit(t, rail.weight, Measurement(x2, "m"), "kg", "m"), "N") != Failure
    ensures 0.0 <= Convert(t, WeightPerUnit(t, rail.weight, Measurement(x1, "m"), "kg", "m"), "N").value <=
                   Convert(t, WeightPerUnit(t, rail.weight, Measurement(x2, "m"), "kg", "m"), "N").value
  {
    FailurePersists(t, "N");
    var r1, r2 := WeightPerUnit(t, rail.weight, Measurement(x1, "m"), "kg", "m"),
                  WeightPerUnit(t, rail.weight, Measurement(x2, "m"), "kg", "m");
    WeightPerUnitMonotonicInLength(t, rail.weight, x1, x2, "m", "kg", "m");
    assert r1 == Measurement(r1.value, r1.unit) && r2 == Measurement(r2.value, r1.unit);
    ConvertMonotonic(t, r1.value, r2.value, r1.unit, "N");
    ConvertNonNegative(t, r1, "N");
  }

  /** With non-negative factors, weights and drop, a wider shade never puts a
      smaller load on the tube, and a computed load is non-negative. */
  lemma TotalLoadMonotonicInWidth(t: Table, fabric: Fabric, rail: BottomRail, v1: real, v2: real, u: Unit,
                                  drop: Measurement)
    requires t.NonNegativeFactors() && NoUnit !in t.units && 0.0 <= v1 <= v2
    requires fabric.weight.value >= 0.0 && rail.weight.value >= 0.0 && drop.value >= 0.0
    requires TotalLoad(t, fabric, rail, Measurement(v1, u), drop) != Failure
    requires TotalLoad(t, fabric, rail, Measurement(v2, u), drop) != Failure
    ensures 0.0 <= TotalLoad(t, fabric, rail, Measurement(v1, u), drop).value <=
                   TotalLoad(t, fabric, rail, Measurement(v2, u), drop).value
  {
    var d := Convert(t, drop, "m");
    ConvertNonNegative(t, drop, "m");
    var w1, w2 := Convert(t, Measurement(v1, u), "m"), Convert(t, Measurement(v2, u), "m");
    ConvertMonotonic(t, v1, v2, u, "m");
    ConvertNonNegative(t, Measurement(v1, u), "m");
    assert w1 == Measurement(w1.value, "m") && w2 == Measurement(w2.value, "m");
    FabricLoadMonotonic(t, fabric, w1.value, w2.value, d);
    RailLoadMonotonic(t, rail, w1.value, w2.value);
  }

  /** With non-negative factors, weights and drop, a positive beam stiffness
      and a computed load, a wider shade never deflects its tube less. */
  lemma TubeDeflectionMonotonicInWidth(t: Table, fabric: Fabric, rail: BottomRail, tube: Tube, v1: real,
                                       v2: real, u: Unit, drop: Measurement, unit: Unit)
    requires t.NonNegativeFactors() && NoUnit !in t.units && 0.0 <= v1 <= v2
    requires fabric.weight.value >= 0.0 && rail.weight.value >= 0.0 && drop.value >= 0.0
    requires TotalLoad(t, fabric, rail, Measurement(v1, u), drop) != Failure
    requires TotalLoad(t, fabric, rail, Measurement(v2, u), drop) != Failure
    requires Convert(t, tube.modulus, "N/mm2").value * MomentOfInertia(t, tube).value > 0.0
    requires TubeDeflection(t, fabric, rail, tube, Measurement(v1, u), drop, unit) != Failure
    requires TubeDeflection(t, fabric, rail, tube, Measurement(v2, u), drop, unit) != Failure
    ensures TubeDeflection(t, fabric, rail, tube, Measurement(v1, u), drop, unit).value <=
              TubeDeflection(t, fabric, rail, tube, Measurement(v2, u), drop, unit).value
  {
    FailurePersists(t, unit);
    var e, i := Convert(t, tube.modulus, "N/mm2").value, MomentOfInertia(t, tube).value;
    var l1, l2 := Convert(t, Measurement(v1, u), "mm").value, Convert(t, Measurement(v2, u), "mm").value;
    ConvertMonotonic(t, v1, v2, u, "mm");
    ConvertNonNegative(t, Measurement(v1, u), "mm");
    var w1, w2 := TotalLoad(t, fabric, rail, Measurement(v1, u), drop).value,
                  TotalLoad(t, fabric, rail, Measurement(v2, u), drop).value;
    TotalLoadMonotonicInWidth(t, fabric, rail, v1, v2, u, drop);
    DeflectionMonotonicInLoad(w1, w2, l1, e, i);
    DeflectionMonotonicInLength(w2, l1, l2, e, i);
    ConvertMonotonic(t, BeamDeflection(w1, l1, e, i), BeamDeflection(w2, l2, e, i), "mm", unit);
  }

  /** When the load cannot be computed it enters the formula as -1, and then a
      wider shade never deflects its tube more: the reported deflection runs
      the wrong way. */
  lemma TubeDeflectionReversesOnFailedLoad(t: Table, fabric: Fabric, rail: BottomRail, tube: Tube, v1: real,
                                           v2: real, u: Unit, drop: Measurement, unit: Unit)
    requires t.NonNegativeFactors() && NoUnit !in t.units && 0.0 <= v1 <= v2
    requires TotalLoad(t, fabric, rail, Measurement(v1, u), drop).Failed()
    requires TotalLoad(t, fabric, rail, Measurement(v2, u), drop).Failed()
    requires Convert(t, tube.modulus, "N/mm2").value * MomentOfInertia(t, tube).value > 0.0
    requires TubeDeflection(t, fabric, rail, tube, Measurement(v1, u), drop, unit) != Failure
    requires TubeDeflection(t, fabric, rail, tube, Measurement(v2, u), drop, unit) != Failure
    ensures TubeDeflection(t, fabric, rail, tube, Measurement(v2, u), drop, unit).value <=
              TubeDeflection(t, fabric, rail, tube, Measurement(v1, u), drop, unit).value
  {
    FailurePersists(t, unit);
    var e, i := Convert(t, tube.modulus, "N/mm2").value, MomentOfInertia(t, tube).value;
    var l1, l2 := Convert(t, Measurement(v1, u), "mm").value, Convert(t, Measurement(v2, u), "mm").value;
    ConvertMonotonic(t, v1, v2, u, "mm");
    ConvertNonNegative(t, Measurement(v1, u), "mm");
    DeflectionAntitoneInLength(-1.0, l1, l2, e, i);
    ConvertMonotonic(t, BeamDeflection(-1.0, l2, e, i), BeamDeflection(-1.0, l1, e, i), "mm", unit);
  }
}
