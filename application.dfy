/** Application start-up: unless running in production, the conversion table
    and the catalog are seeded. */
module Application {
  import opened Measurements
  import opened MeasurementConverter
  import opened MeasurementService
  import opened Catalog
  import RollerTube

  /** The seeded conversions, in seeding order. */
  const SeedConversions: seq<ConversionCreation> := [
    // length
    ConversionCreation("mm", "m", 0.001), ConversionCreation("m", "mm", 1000.0),
    ConversionCreation("cm", "m", 0.01), ConversionCreation("m", "cm", 100.0),
    ConversionCreation("m", "ft", 3.28084), ConversionCreation("ft", "m", 0.3048),
    ConversionCreation("m", "in", 39.3701), ConversionCreation("in", "m", 0.0254),
    ConversionCreation("mm", "in", 0.0393701), ConversionCreation("in", "mm", 25.4),
    ConversionCreation("mm", "ft", 0.00328084), ConversionCreation("ft", "mm", 304.8),
    // weight
    ConversionCreation("kg/m", "g/m", 1000.0), ConversionCreation("kg/m", "g/mm", 1.0),
    ConversionCreation("kg", "N", 9.81), ConversionCreation("g", "N", 0.00981),
    ConversionCreation("g/m", "kg/m", 0.001), ConversionCreation("g/m", "g/mm", 0.001),
    ConversionCreation("g/m2", "g/mm2", 0.000001), ConversionCreation("g/m2", "kg/m2", 0.001),
    // modulus of elasticity
    ConversionCreation("GPa", "N/mm2", 1000.0)
  ]

  /** Every unit name that occurs in a seeded conversion. */
  const SeedUnits: set<Unit> := {"mm", "m", "cm", "ft", "in", "kg/m", "g/m", "g/mm", "kg", "N", "g",
                                 "g/m2", "g/mm2", "kg/m2", "GPa", "N/mm2"}

  /** The seeded roller-shade systems. */
  const SeedSystems: seq<ShadeSystem> := [
    ShadeSystem("Cassette 100", Measurement(65.0, "mm")),
    ShadeSystem("Cassette 120 flat", Measurement(83.5, "mm")),
    ShadeSystem("Cassette 120 round", Measurement(78.0, "mm")),
    ShadeSystem("Euro L", Measurement(99.0, "mm"))
  ]

  /** The seeded tubes: the names and diameters the seeding lists. The
      seeding gives them no material constants; they are taken to be roller
      tubes built by `RollerTube.Build`, so they carry its default modulus and
      density. */
  const SeedTubes: seq<Tube> := [
    RollerTube.Build("28mm - 1 1/8\"", Measurement(27.1, "mm"), Measurement(26.79, "mm")),
    RollerTube.Build("32mm - 1 1/4\" LGH", Measurement(32.0, "mm"), Measurement(30.0, "mm")),
    RollerTube.Build("32mm - 1 1/4\" STD", Measurement(32.6, "mm"), Measurement(30.0, "mm")),
    RollerTube.Build("38mm - 1 1/2\" STD", Measurement(38.43, "mm"), Measurement(35.89, "mm")),
    RollerTube.Build("38mm - 1 1/2\" HD", Measurement(40.3, "mm"), Measurement(35.9, "mm")),
    RollerTube.Build("45mm - 1 3/4\"", Measurement(45.0, "mm"), Measurement(41.5, "mm")),
    RollerTube.Build("50mm - 2\"", Measurement(51.25, "mm"), Measurement(47.0, "mm")),
    RollerTube.Build("63 - 2 1/2\"", Measurement(65.3, "mm"), Measurement(61.7, "mm")),
    RollerTube.Build("83 - 3 1/4\"", Measurement(83.0, "mm"), Measurement(77.0, "mm"))
  ]

  /** The seeded fabrics. */
  const SeedFabrics: seq<Fabric> := [
    Fabric("Light-demo", Measurement(0.3, "mm"), Measurement(210.0, "g/m2")),
    Fabric("Medium-demo", Measurement(0.5, "mm"), Measurement(410.0, "g/m2")),
    Fabric("Heavy-demo", Measurement(0.7, "mm"), Measurement(610.0, "g/m2"))
  ]

  /** The seeded bottom rails. */
  const SeedRails: seq<BottomRail> := [
    BottomRail("Euro Slim", Measurement(1.15, "kg/m"))
  ]

  /** The table after storing `cs` one after the other. */
  function SaveAll(t: Table, cs: seq<ConversionCreation>): (r: Table)
    ensures t.units <= r.units && t.edges.Keys <= r.edges.Keys
  {
    if |cs| == 0 then t else ConversionSaved(SaveAll(t, cs[..|cs| - 1]), cs[|cs| - 1])
  }

  /** The ordered pair a conversion is stored under. */
  function Key(c: ConversionCreation): (Unit, Unit) {
    (c.from, c.to)
  }

  /** No two requests in `cs` are for the same ordered pair. */
  ghost predicate DistinctKeys(cs: seq<ConversionCreation>) {
    forall i, j | 0 <= i < j < |cs| :: Key(cs[i]) != Key(cs[j])
  }

  /** After storing `cs` the registered units are the old ones plus every unit
      named in a request. */
  lemma {:induction false} SaveAllUnits(t: Table, cs: seq<ConversionCreation>)
    ensures forall u :: u in SaveAll(t, cs).units <==>
                          u in t.units || exists i | 0 <= i < |cs| :: cs[i].from == u || cs[i].to == u
  {
    if |cs| > 0 {
      var n := |cs| - 1;
      var prefix := cs[..n];
      assert forall i | 0 <= i < n :: prefix[i] == cs[i];
      SaveAllUnits(t, prefix);
    }
  }

  /** After storing `cs` the stored pairs are the old ones plus every requested
      pair, and a pair stored before keeps its factor. */
  lemma {:induction false} SaveAllKeys(t: Table, cs: seq<ConversionCreation>)
    ensures forall p :: p in SaveAll(t, cs).edges <==> p in t.edges || exists i | 0 <= i < |cs| :: Key(cs[i]) == p
    ensures forall p | p in t.edges :: SaveAll(t, cs).edges[p] == t.edges[p]
  {
    if |cs| > 0 {
      var n := |cs| - 1;
      var prefix := cs[..n];
      assert forall i | 0 <= i < n :: prefix[i] == cs[i];
      SaveAllKeys(t, prefix);
    }
  }

  /** The requests of `cs` before position `n` are again for distinct pairs,
      none of which is the pair of the request at `n`. */
  lemma PrefixDistinct(cs: seq<ConversionCreation>, n: nat)
    requires DistinctKeys(cs) && n < |cs|
    ensures DistinctKeys(cs[..n])
    ensures forall i | 0 <= i < n :: Key(cs[..n][i]) != Key(cs[n])
  {
    var prefix := cs[..n];
    forall i, j | 0 <= i < j < n
      ensures Key(prefix[i]) != Key(prefix[j])
    {
      assert prefix[i] == cs[i] && prefix[j] == cs[j];
    }
    forall i | 0 <= i < n
      ensures Key(prefix[i]) != Key(cs[n])
    {
      assert prefix[i] == cs[i];
    }
  }

  /** Storing requests for distinct pairs, none stored yet, never meets the
      duplicate case: every pair gets its requested factor. */
  lemma {:induction false} SaveAllRates(t: Table, cs: seq<ConversionCreation>)
    requires DistinctKeys(cs)
    requires forall i | 0 <= i < |cs| :: Key(cs[i]) !in t.edges
    ensures forall i | 0 <= i < |cs| :: Key(cs[i]) in SaveAll(t, cs).edges
    ensures forall i | 0 <= i < |cs| :: SaveAll(t, cs).edges[Key(cs[i])] == cs[i].rate
  {
    if |cs| > 0 {
      var n := |cs| - 1;
      var prefix, last := cs[..n], cs[n];
      PrefixDistinct(cs, n);
      assert forall i | 0 <= i < n :: prefix[i] == cs[i];
      SaveAllRates(t, prefix);
      SaveAllKeys(t, prefix);
      var before := SaveAll(t, prefix);
      assert Key(last) !in before.edges;
      var after := ConversionSaved(before, last);
      forall i | 0 <= i < |cs|
        ensures Key(cs[i]) in after.edges && after.edges[Key(cs[i])] == cs[i].rate
      {
        if i < n {
          assert Key(prefix[i]) in before.edges && before.edges[Key(prefix[i])] == prefix[i].rate;
          assert Key(prefix[i]) != Key(last);
        }
      }
    }
  }

  /** Storing requests for distinct pairs, none stored yet, grows the table by
      exactly one conversion per request. */
  lemma {:induction false} SaveAllCount(t: Table, cs: seq<ConversionCreation>)
    requires DistinctKeys(cs)
    requires forall i | 0 <= i < |cs| :: Key(cs[i]) !in t.edges
    ensures |SaveAll(t, cs).edges| == |t.edges| + |cs|
  {
    if |cs| > 0 {
      var n := |cs| - 1;
      var prefix, last := cs[..n], cs[n];
      PrefixDistinct(cs, n);
      assert forall i | 0 <= i < n :: prefix[i] == cs[i];
      SaveAllCount(t, prefix);
      SaveAllKeys(t, prefix);
      assert Key(last) !in SaveAll(t, prefix).edges;
      SaveConversionCount(SaveAll(t, prefix), last);
    }
  }

  /** The table the seeding builds from an empty database. */
  function SeedTable(): Table {
    SaveAll(Table({}, map[]), SeedConversions)
  }

  /** The 21 seeded pairs are pairwise distinct. */
  lemma SeedKeysDistinct()
    ensures DistinctKeys(SeedConversions)
  {
    forall i, j | 0 <= i < j < |SeedConversions|
      ensures Key(SeedConversions[i]) != Key(SeedConversions[j])
    {
      assert i in {0, 1, 2, 3, 4, 5, 6, 7, 8, 9, 10, 11, 12, 13, 14, 15, 16, 17, 18, 19, 20};
      assert j in {0, 1, 2, 3, 4, 5, 6, 7, 8, 9, 10, 11, 12, 13, 14, 15, 16, 17, 18, 19, 20};
    }
  }

  /** Seeding an empty database stores exactly 21 conversions. */
  lemma SeedTableCount()
    ensures |SeedTable().edges| == 21
  {
    SeedKeysDistinct();
    SaveAllCount(Table({}, map[]), SeedConversions);
  }

  /** Seeding an empty database stores every seeded conversion with its factor,
      and nothing else. */
  lemma SeedTableEdges()
    ensures forall i | 0 <= i < |SeedConversions| ::
              Key(SeedConversions[i]) in SeedTable().edges && SeedTable().edges[Key(SeedConversions[i])] == SeedConversions[i].rate
    ensures forall p :: p in SeedTable().edges <==> exists i | 0 <= i < |SeedConversions| :: Key(SeedConversions[i]) == p
  {
    SeedKeysDistinct();
    SaveAllRates(Table({}, map[]), SeedConversions);
    SaveAllKeys(Table({}, map[]), SeedConversions);
  }

  /** Every unit a seeded conversion names is one of `SeedUnits`. */
  lemma SeedConversionsUseSeedUnits()
    ensures forall i | 0 <= i < |SeedConversions| ::
              SeedConversions[i].from in SeedUnits && SeedConversions[i].to in SeedUnits
  {
    forall i | 0 <= i < |SeedConversions|
      ensures SeedConversions[i].from in SeedUnits && SeedConversions[i].to in SeedUnits
    {
      assert i in {0, 1, 2, 3, 4, 5, 6, 7, 8, 9, 10, 11, 12, 13, 14, 15, 16, 17, 18, 19, 20};
    }
  }

  /** Both units a seeded conversion names are registered by the seeding. */
  lemma SeedNamesRegistered(i: nat)
    requires i < |SeedConversions|
    ensures SeedConversions[i].from in SeedTable().units && SeedConversions[i].to in SeedTable().units
  {
    SaveAllUnits(Table({}, map[]), SeedConversions);
  }

  /** Every unit the seeding registers is one of `SeedUnits`. */
  lemma SeedTableUnitsSound()
    ensures forall u | u in SeedTable().units :: u in SeedUnits
  {
    SaveAllUnits(Table({}, map[]), SeedConversions);
    SeedConversionsUseSeedUnits();
  }

  /** Every unit of `SeedUnits` is registered by the seeding. */
  lemma SeedTableUnitsComplete()
    ensures forall u | u in SeedUnits :: u in SeedTable().units
  {
    var c := SeedConversions;
    SeedNamesRegistered(0);
    SeedNamesRegistered(2);
    SeedNamesRegistered(4);
    SeedNamesRegistered(6);
    SeedNamesRegistered(12);
    SeedNamesRegistered(13);
    SeedNamesRegistered(14);
    SeedNamesRegistered(15);
    SeedNamesRegistered(18);
    SeedNamesRegistered(19);
    SeedNamesRegistered(20);
    assert c[0].from == "mm" && c[0].to == "m" && c[2].from == "cm" && c[4].to == "ft" && c[6].to == "in";
    assert c[12].from == "kg/m" && c[12].to == "g/m" && c[13].to == "g/mm" && c[14].from == "kg";
    assert c[14].to == "N" && c[15].from == "g" && c[18].from == "g/m2" && c[18].to == "g/mm2";
    assert c[19].to == "kg/m2" && c[20].from == "GPa" && c[20].to == "N/mm2";
  }

  /** Seeding an empty database registers exactly the units the seeded
      conversions name. */
  lemma SeedTableUnits()
    ensures forall u :: u in SeedTable().units <==> u in SeedUnits
  {
    SeedTableUnitsSound();
    SeedTableUnitsComplete();
  }

  /** Each seeded conversion is stored under its pair with its factor. */
  lemma SeedEdge(i: nat)
    requires i < |SeedConversions|
    ensures Key(SeedConversions[i]) in SeedTable().edges
    ensures SeedTable().edges[Key(SeedConversions[i])] == SeedConversions[i].rate
  {
    SeedTableEdges();
  }

  /** A pair that is not seeded is not stored. */
  lemma NotSeeded(p: (Unit, Unit))
    requires forall i | 0 <= i < |SeedConversions| :: Key(SeedConversions[i]) != p
    ensures p !in SeedTable().edges
  {
    SeedTableEdges();
  }

  /** Seeding runs unless the mode is exactly "production"; a missing mode
      counts as development. */
  predicate Seeds(devMode: Option<string>): (r: bool)
    ensures r <==> devMode.None? || devMode.value != "production"
  {
    devMode != Some("production")
  }

  /** Stores the seeded conversions one by one. */
  method CreateConversions(service: Service)
    modifies service
    ensures service.Snapshot() == SaveAll(old(service.Snapshot()), SeedConversions)
  {
    ghost var start := service.Snapshot();
    for k := 0 to |SeedConversions|
      invariant service.Snapshot() == SaveAll(start, SeedConversions[..k])
    {
      var _ := service.SaveConversion(SeedConversions[k]);
      assert SeedConversions[..k + 1][..k] == SeedConversions[..k];
    }
    assert SeedConversions[..|SeedConversions|] == SeedConversions;
  }

  /** The start-up step: in development the conversion table is seeded. The
      catalog records are the constants above. */
  method Run(devMode: Option<string>, service: Service)
    modifies service
    ensures Seeds(devMode) ==> service.Snapshot() == SaveAll(old(service.Snapshot()), SeedConversions)
    ensures !Seeds(devMode) ==> service.Snapshot() == old(service.Snapshot())
  {
    if Seeds(devMode) {
      CreateConversions(service);
    }
  }
}
