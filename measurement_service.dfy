/** The insert operations on the conversion table and the checked conversion
    offered to clients. */
module MeasurementService {
  import opened Measurements
  import opened MeasurementConverter

  /** A request to store a conversion `from -> to` with factor `rate`. */
  datatype ConversionCreation = ConversionCreation(from: Unit, to: Unit, rate: real)

  /** A stored conversion. */
  datatype UnitConversion = UnitConversion(from: Unit, to: Unit, factor: real)

  const ConversionExists: string := "Conversion already exists"
  const UnitsMissing: string := "One or more units do not exist"

  /** The table after registering the unit name `u`: registering is idempotent
      and never touches a stored conversion. */
  function UnitSaved(t: Table, u: Unit): (r: Table)
    ensures u in r.units && r.edges == t.edges
    ensures forall v :: v in r.units <==> v in t.units || v == u
    ensures u in t.units ==> r == t
  {
    Table(t.units + {u}, t.edges)
  }

  /** The table after a request to store `c`. Both unit names end up registered;
      a pair already stored keeps its old factor; a new pair gets the requested
      factor; no other pair changes. */
  function ConversionSaved(t: Table, c: ConversionCreation): (r: Table)
    ensures c.from in r.units && c.to in r.units
    ensures forall v :: v in r.units <==> v in t.units || v == c.from || v == c.to
    ensures (c.from, c.to) in r.edges
    ensures r.edges[(c.from, c.to)] == if (c.from, c.to) in t.edges then t.edges[(c.from, c.to)] else c.rate
    ensures forall p | p != (c.from, c.to) :: (p in r.edges <==> p in t.edges)
    ensures forall p | p != (c.from, c.to) && p in t.edges :: r.edges[p] == t.edges[p]
  {
    var withUnits := UnitSaved(UnitSaved(t, c.from), c.to);
    if (c.from, c.to) in withUnits.edges then withUnits
    else Table(withUnits.units, withUnits.edges[(c.from, c.to) := c.rate])
  }

  /** What a request to store `c` answers, given the table before it. */
  function SaveConversionResponse(t: Table, c: ConversionCreation): (r: Response<UnitConversion>)
    ensures r == Errors([ConversionExists]) <==> (c.from, c.to) in t.edges
    ensures r.Data? ==> r.data == UnitConversion(c.from, c.to, c.rate)
  {
    if (c.from, c.to) in t.edges then Errors([ConversionExists])
    else Data(UnitConversion(c.from, c.to, c.rate))
  }

  /** The service's checked conversion over the table `t` (the service's
      `Snapshot()`): an error when either unit name is unregistered, otherwise
      whatever the converter gives. It only reads the table. */
  function ConvertResponse(t: Table, m: Measurement, toUnit: Unit): (r: Response<Measurement>)
    ensures r.Errors? <==> m.unit !in t.units || toUnit !in t.units
    ensures r.Errors? ==> r.errors == [UnitsMissing]
    ensures r.Data? ==> r.data == Convert(t, m, toUnit) && (r.data == Failure || r.data.unit == toUnit)
  {
    if toUnit !in t.units || m.unit !in t.units then Errors([UnitsMissing])
    else Data(Convert(t, m, toUnit))
  }

  /** Storing a pair a second time changes nothing: the first factor wins. */
  lemma SaveConversionIdempotent(t: Table, c: ConversionCreation, rate: real)
    ensures ConversionSaved(ConversionSaved(t, c), ConversionCreation(c.from, c.to, rate)) == ConversionSaved(t, c)
    ensures SaveConversionResponse(ConversionSaved(t, c), ConversionCreation(c.from, c.to, rate)) == Errors([ConversionExists])
  {
  }

  /** Storing `from -> to` never stores the reverse conversion. */
  lemma SaveConversionNoReverse(t: Table, c: ConversionCreation)
    requires c.from != c.to
    ensures (c.to, c.from) in ConversionSaved(t, c).edges <==> (c.to, c.from) in t.edges
  {
  }

  /** Storing a new pair adds exactly one conversion. */
  lemma SaveConversionCount(t: Table, c: ConversionCreation)
    ensures |ConversionSaved(t, c).edges| == if (c.from, c.to) in t.edges then |t.edges| else |t.edges| + 1
  {
    var r := ConversionSaved(t, c);
    if (c.from, c.to) !in t.edges {
      assert r.edges.Keys == t.edges.Keys + {(c.from, c.to)};
    }
  }

  /** Every stored conversion keeps joining two registered units. */
  lemma SaveConversionValid(t: Table, c: ConversionCreation)
    requires t.Valid()
    ensures ConversionSaved(t, c).Valid()
  {
  }

  /** The measurement service over an in-memory unit set and conversion map,
      in place of the two repositories. */
  class Service {
    var units: set<Unit>
    var edges: map<(Unit, Unit), real>

    /** The table the converter reads. */
    function Snapshot(): Table
      reads this
    {
      Table(units, edges)
    }

    /** An empty database. */
    constructor ()
      ensures Snapshot() == Table({}, map[])
    {
      units := {};
      edges := map[];
    }

    /** Returns the registered unit `u`, registering it first if needed. */
    method SaveUnit(u: Unit) returns (saved: Unit)
      modifies this
      ensures saved == u
      ensures Snapshot() == UnitSaved(old(Snapshot()), u)
    {
      if u !in units {
        units := units + {u};
      }
      saved := u;
    }

    /** Stores the conversion `c` unless its pair is already stored. */
    method SaveConversion(c: ConversionCreation) returns (r: Response<UnitConversion>)
      modifies this
      ensures r == SaveConversionResponse(old(Snapshot()), c)
      ensures Snapshot() == ConversionSaved(old(Snapshot()), c)
    {
      var from, to;
      if c.from in units && c.to in units {
        from, to := c.from, c.to;
      } else {
        from := SaveUnit(c.from);
        to := SaveUnit(c.to);
      }
      if (from, to) in edges {
        r := Errors([ConversionExists]);
      } else {
        edges := edges[(from, to) := c.rate];
        r := Data(UnitConversion(from, to, c.rate));
      }
    }
  }
}
