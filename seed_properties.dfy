/** What the seeded conversion table and catalog mean for the calculator. */
module SeedProperties {
  import opened Measurements
  import opened Numerics
  import opened MeasurementConverter
  import opened MeasurementService
  import opened Catalog
  import opened ShadeCalculator
  import opened Application
  import RollerTube
  import BottomRailService
  import RollerFabricService
  import RollerFabric

  /** Every seeded pair: the 21 seeded conversions are exactly these. */
  const SeedPairs: set<(Unit, Unit)> := {
    ("mm", "m"), ("m", "mm"), ("cm", "m"), ("m", "cm"), ("m", "ft"), ("ft", "m"), ("m", "in"), ("in", "m"),
    ("mm", "in"), ("in", "mm"), ("mm", "ft"), ("ft", "mm"), ("kg/m", "g/m"), ("kg/m", "g/mm"), ("kg", "N"),
    ("g", "N"), ("g/m", "kg/m"), ("g/m", "g/mm"), ("g/m2", "g/mm2"), ("g/m2", "kg/m2"), ("GPa", "N/mm2")
  }

  /** A pair outside `SeedPairs` has no seeded conversion. */
  lemma NotASeedPair(p: (Unit, Unit))
    requires p !in SeedPairs
    ensures p !in SeedTable().edges
  {
    forall i | 0 <= i < |SeedConversions|
      ensures Key(SeedConversions[i]) != p
    {
      assert i in {0, 1, 2, 3, 4, 5, 6, 7, 8, 9, 10, 11, 12, 13, 14, 15, 16, 17, 18, 19, 20};
    }
    NotSeeded(p);
  }

  /** A unit of `SeedUnits` is registered by the seeding. */
  lemma Registered(u: Unit)
    requires u in SeedUnits
    ensures u in SeedTable().units
  {
    SeedTableUnits();
  }

  /** A unit outside `SeedUnits` is not registered by the seeding. */
  lemma NotASeedUnit(u: Unit)
    requires u !in SeedUnits
    ensures u !in SeedTable().units
  {
    SeedTableUnits();
  }

  /** m to mm and back, and cm to m and back, are exact. */
  lemma SeedMetricRoundTrips(v: real)
    ensures Convert(SeedTable(), Convert(SeedTable(), Measurement(v, "m"), "mm"), "m") == Measurement(v, "m")
    ensures Convert(SeedTable(), Convert(SeedTable(), Measurement(v, "mm"), "m"), "mm") == Measurement(v, "mm")
    ensures Convert(SeedTable(), Convert(SeedTable(), Measurement(v, "cm"), "m"), "cm") == Measurement(v, "cm")
  {
    Registered("m");
    Registered("mm");
    Registered("cm");
    SeedEdge(0);
    SeedEdge(1);
    SeedEdge(2);
    SeedEdge(3);
    RoundTrip(SeedTable(), Measurement(v, "m"), "mm");
    RoundTrip(SeedTable(), Measurement(v, "mm"), "m");
    RoundTrip(SeedTable(), Measurement(v, "cm"), "m");
  }

  /** m to ft and back, and m to in and back, do not give the metre back: the
      seeded factors are not exact reciprocals. */
  lemma SeedImperialRoundTripsInexact()
    ensures Convert(SeedTable(), Convert(SeedTable(), Measurement(1.0, "m"), "ft"), "m") ==
              Measurement(1.000000032, "m")
    ensures Convert(SeedTable(), Convert(SeedTable(), Measurement(1.0, "m"), "in"), "m") ==
              Measurement(1.00000054, "m")
  {
    Registered("m");
    Registered("ft");
    Registered("in");
    SeedEdge(4);
    SeedEdge(5);
    SeedEdge(6);
    SeedEdge(7);
  }

  /** The seeded table is not closed under composition: cm converts to m and m
      to mm, yet cm does not convert to mm. */
  lemma SeedNotComposed(v: real)
    ensures Convert(SeedTable(), Measurement(v, "cm"), "m") == Measurement(v * 0.01, "m")
    ensures Convert(SeedTable(), Measurement(v, "m"), "mm") == Measurement(v * 1000.0, "mm")
    ensures Convert(SeedTable(), Measurement(v, "cm"), "mm") == Failure
  {
    Registered("cm");
    Registered("m");
    Registered("mm");
    SeedEdge(1);
    SeedEdge(2);
    CentimetreNotToMillimetre();
  }

  /** No stored conversion takes cm to mm. */
  lemma CentimetreNotToMillimetre()
    ensures ("cm", "mm") !in SeedTable().edges
  {
    NotASeedPair(("cm", "mm"));
  }

  /** Nor is it closed under inversion: kg converts to N, yet N does not
      convert to kg. */
  lemma SeedNotInverted(v: real)
    ensures Convert(SeedTable(), Measurement(v, "kg"), "N") == Measurement(v * 9.81, "N")
    ensures Convert(SeedTable(), Measurement(v, "N"), "kg") == Failure
  {
    Registered("N");
    Registered("kg");
    SeedEdge(14);
    NotASeedPair(("N", "kg"));
  }

  /** The empty unit name is not registered, so a failure stays a failure
      through every conversion. */
  lemma SeedFailurePersists(to: Unit)
    ensures Convert(SeedTable(), Failure, to) == Failure
  {
    NotASeedUnit(NoUnit);
  }

  /** The seeded modulus default converts to 70000 N/mm2. */
  lemma SeedDefaultModulus()
    ensures Convert(SeedTable(), RollerTube.DefaultModulus, "N/mm2") == Measurement(70000.0, "N/mm2")
  {
    Registered("GPa");
    Registered("N/mm2");
    SeedEdge(20);
  }

  /** The per-area unit "kg/m^2" the fabric weight is converted to is never
      registered, so the total load is always a failure. */
  lemma SeedTotalLoadFails(fabric: Fabric, rail: BottomRail, width: Measurement, drop: Measurement)
    ensures TotalLoad(SeedTable(), fabric, rail, width, drop) == Failure
  {
    assert "kg" + "/m^2" == "kg/m^2";
    NotASeedUnit("kg/m^2");
    NotASeedUnit(NoUnit);
  }

  /** The doubled units "g/g/m" and "g/g/m^2" the fabric weight is converted to
      are never registered, so the maximum width is always -1 mm before the
      final conversion. */
  lemma SeedMaxWidthFails(lib: MathLib, fabric: Fabric, tube: Tube, rail: BottomRail, drop: Measurement)
    ensures MaxWidthMm(lib, SeedTable(), fabric, tube, rail, drop) == -1.0
  {
    var target := WeightPerUnitTarget(fabric.weight, "g", "m");
    assert target == "g/g/m" || target == "g/g/m^2";
    NotASeedUnit("g/g/m");
    NotASeedUnit("g/g/m^2");
    NotASeedUnit(NoUnit);
    var w := WeightPerUnit(SeedTable(), fabric.weight, drop, "g", "m");
    assert w == Failure;
    assert Convert(SeedTable(), w, "g/mm") == Failure;
  }

  /** Hence every reported width is -1 mm converted to the requested unit. */
  lemma SeedReportedWidthIsFailure(lib: MathLib, unit: Unit, system: ShadeSystem, fabric: Fabric, tube: Tube,
                                   rail: BottomRail)
    ensures GetSystemLimit(lib, SeedTable(), unit, system, fabric, tube, rail).maxWidth ==
              RoundMeasurement(Measurement(Convert(SeedTable(), Measurement(-1.0, "mm"), unit).value, unit))
  {
    SeedMaxWidthFails(lib, fabric, tube, rail, LimitedDrop(SeedTable(), system, fabric, tube));
  }

  /** That is -1 in mm, and -0.04 in inches. */
  lemma SeedReportedWidth(lib: MathLib, system: ShadeSystem, fabric: Fabric, tube: Tube, rail: BottomRail)
    ensures GetSystemLimit(lib, SeedTable(), "mm", system, fabric, tube, rail).maxWidth == Measurement(-1.0, "mm")
    ensures GetSystemLimit(lib, SeedTable(), "in", system, fabric, tube, rail).maxWidth == Measurement(-0.04, "in")
  {
    SeedReportedWidthIsFailure(lib, "mm", system, fabric, tube, rail);
    SeedReportedWidthIsFailure(lib, "in", system, fabric, tube, rail);
    Registered("mm");
    Registered("in");
    SeedEdge(8);
    assert Round(-100.0) == -100;
    assert Round(-3.93701) == -4;
  }

  /** Every seeded tube is in mm with 0 < inner < outer < 2 * inner, and has
      the default modulus. */
  lemma SeedTubesWellFormed()
    ensures forall i | 0 <= i < |SeedTubes| ::
              var tube := SeedTubes[i];
              && tube.outerDiameter.unit == "mm" && tube.innerDiameter.unit == "mm"
              && 0.0 < tube.innerDiameter.value < tube.outerDiameter.value < 2.0 * tube.innerDiameter.value
              && tube.modulus == RollerTube.DefaultModulus
  {
    forall i | 0 <= i < |SeedTubes|
      ensures var tube := SeedTubes[i];
              && tube.outerDiameter.unit == "mm" && tube.innerDiameter.unit == "mm"
              && 0.0 < tube.innerDiameter.value < tube.outerDiameter.value < 2.0 * tube.innerDiameter.value
              && tube.modulus == RollerTube.DefaultModulus
    {
      assert i in {0, 1, 2, 3, 4, 5, 6, 7, 8};
    }
  }

  /** So every seeded tube has a positive moment of inertia under the seeded
      table. */
  lemma SeedTubeMomentPositive(i: nat)
    requires i < |SeedTubes|
    ensures MomentOfInertia(SeedTable(), SeedTubes[i]).value > 0.0
  {
    SeedTubesWellFormed();
    Registered("mm");
    MomentPositiveIff(SeedTable(), SeedTubes[i]);
  }

  /** Because the failed load enters the deflection formula unchecked, a
      seeded tube of positive width in mm reports a negative deflection. */
  lemma SeedDeflectionNegative(i: nat, fabric: Fabric, rail: BottomRail, width: real, drop: Measurement)
    requires i < |SeedTubes| && width > 0.0
    ensures TubeDeflection(SeedTable(), fabric, rail, SeedTubes[i], Measurement(width, "mm"), drop, "mm").value < 0.0
  {
    var t, tube := SeedTable(), SeedTubes[i];
    Registered("mm");
    SeedDefaultModulus();
    SeedTotalLoadFails(fabric, rail, Measurement(width, "mm"), drop);
    SeedTubeMomentPositive(i);
    FailedLoadDeflectsUpwards(width, 70000.0, MomentOfInertia(t, tube).value);
  }

  /** Every seeded conversion factor is non-negative. */
  lemma SeedFactorsNonNegative()
    ensures SeedTable().NonNegativeFactors()
  {
    forall p | p in SeedTable().edges
      ensures SeedTable().edges[p] >= 0.0
    {
      SeedFactorNonNegative(p);
    }
  }

  /** One stored factor of the seeded table is non-negative. */
  lemma SeedFactorNonNegative(p: (Unit, Unit))
    requires p in SeedTable().edges
    ensures SeedTable().edges[p] >= 0.0
  {
    var i := SeedIndex(p);
    SeedEdge(i);
    SeedRatesPositive(i);
  }

  /** The seeded conversion that stored a pair. */
  lemma SeedIndex(p: (Unit, Unit)) returns (i: nat)
    requires p in SeedTable().edges
    ensures i < |SeedConversions| && Key(SeedConversions[i]) == p
  {
    SeedTableEdges();
    i :| 0 <= i < |SeedConversions| && Key(SeedConversions[i]) == p;
  }

  /** Every seeded rate is positive. */
  lemma SeedRatesPositive(i: nat)
    requires i < |SeedConversions|
    ensures SeedConversions[i].rate > 0.0
  {
    assert i in {0, 1, 2, 3, 4, 5, 6, 7, 8, 9, 10, 11, 12, 13, 14, 15, 16, 17, 18, 19, 20};
  }

  /** So with the seeded table a seeded tube's reported deflection shrinks as
      the shade gets wider: the failed load makes the deflection run the wrong
      way. */
  lemma SeedDeflectionShrinksWithWidth(i: nat, fabric: Fabric, rail: BottomRail, v1: real, v2: real,
                                       drop: Measurement)
    requires i < |SeedTubes| && 0.0 < v1 <= v2
    ensures TubeDeflection(SeedTable(), fabric, rail, SeedTubes[i], Measurement(v2, "mm"), drop, "mm").value <=
              TubeDeflection(SeedTable(), fabric, rail, SeedTubes[i], Measurement(v1, "mm"), drop, "mm").value
  {
    var t, tube := SeedTable(), SeedTubes[i];
    Registered("mm");
    NotASeedUnit(NoUnit);
    SeedFactorsNonNegative();
    SeedDefaultModulus();
    SeedTotalLoadFails(fabric, rail, Measurement(v1, "mm"), drop);
    SeedTotalLoadFails(fabric, rail, Measurement(v2, "mm"), drop);
    SeedTubeMomentPositive(i);
    var moment := MomentOfInertia(t, tube).value;
    assert 70000.0 * moment > 0.0;
    TubeDeflectionReversesOnFailedLoad(t, fabric, rail, tube, v1, v2, "mm", drop, "mm");
  }

  /** The beam formula with the failed load -1 gives a negative deflection for
      every positive span, modulus and moment of inertia. */
  lemma FailedLoadDeflectsUpwards(l: real, e: real, i: real)
    requires l > 0.0 && e > 0.0 && i > 0.0
    ensures BeamDeflection(-1.0, l, e, i) < 0.0
  {
    var cube, stiffness := Cube(l), 384.0 * e * i;
    assert cube > 0.0;
    assert stiffness > 0.0;
    assert 5.0 * -1.0 * cube < 0.0;
  }

  /** The entity's weight helper never weighs a seeded fabric: their weights are
      in g/m2 and nothing converts g/m2 to kg/m. */
  lemma SeedRollerFabricWeightFails(i: nat, width: Measurement, drop: Measurement)
    requires i < |SeedFabrics|
    ensures RollerFabric.WeightKg(SeedTable(), SeedFabrics[i], width, drop) == Failure
  {
    assert SeedFabrics[i].weight.unit == "g/m2" by {
      assert i in {0, 1, 2};
    }
    NotASeedPair(("g/m2", "kg/m"));
    RollerFabric.WeightKgNeedsPerLengthWeight(SeedTable(), SeedFabrics[i], width, drop);
  }

  /** The service's weight helper does weigh them: 1 m by 2 m of the light
      demo fabric (210 g/m2) weighs 0.42 kg. */
  lemma SeedRollerFabricServiceWeight()
    ensures RollerFabricService.WeightKg(SeedTable(), SeedFabrics[0], Measurement(1.0, "m"), Measurement(2.0, "m")) ==
              Measurement(0.42, "kg")
  {
    Registered("g/m2");
    Registered("kg/m2");
    Registered("m");
    SeedEdge(19);
  }

  /** A 2000 mm Euro Slim bottom rail (1.15 kg/m) weighs 2.3 kg. */
  lemma SeedBottomRailWeight()
    ensures BottomRailService.WeightKg(SeedTable(), SeedRails[0], Measurement(2000.0, "mm")) == Measurement(2.3, "kg")
  {
    Registered("kg/m");
    Registered("mm");
    Registered("m");
    SeedEdge(0);
  }

  /** In the Cassette 100 system a 32 mm tube with the light demo fabric holds
      more than 3 m of fabric, so the reported drop is the 3 m limit. */
  lemma SeedDropClamped(lib: MathLib, rail: BottomRail)
    ensures LimitedDrop(SeedTable(), SeedSystems[0], SeedFabrics[0], SeedTubes[1]) == DropLimit
    ensures GetSystemLimit(lib, SeedTable(), "m", SeedSystems[0], SeedFabrics[0], SeedTubes[1], rail).maxDrop ==
              Measurement(3.0, "m")
  {
    Registered("mm");
    Registered("m");
    SeedEdge(0);
    var drop := MaxDrop(SeedTable(), SeedSystems[0].maxDiameter, SeedTubes[1].outerDiameter, SeedFabrics[0].thickness);
    assert drop.value == DropForRoll(65.0, 32.0, 0.3);
    assert Convert(SeedTable(), drop, "m").value > 3.0;
    assert Round(300.0) == 300;
  }
}
