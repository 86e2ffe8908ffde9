/** The conversion engine: a table of registered unit names and directed
    conversion factors, and the one-step converter that reads it. */
module MeasurementConverter {
  import opened Measurements

  /** The unit repository (`units`) and the conversion repository (`edges`,
      one factor per ordered pair of unit names). */
  datatype Table = Table(units: set<Unit>, edges: map<(Unit, Unit), real>) {

    /** Every stored conversion joins two registered units. */
    ghost predicate Valid() {
      forall p | p in edges :: p.0 in units && p.1 in units
    }

    /** Every stored factor is non-negative, as are all the factors of the
        application's seed. */
    ghost predicate NonNegativeFactors() {
      forall p | p in edges :: edges[p] >= 0.0
    }
  }

  /** Converts `from` to the unit `to`. Both unit names must be registered;
      equal units give the measurement back unchanged; different units need one
      stored conversion from `from.unit` to `to`, which multiplies the value.
      Anything else gives the failure value -1 with no unit. */
  function Convert(t: Table, from: Measurement, to: Unit): (r: Measurement)
    ensures from.unit !in t.units || to !in t.units ==> r == Failure
    ensures from.unit in t.units && to in t.units && from.unit == to ==> r == from
    ensures from.unit in t.units && to in t.units && (from.unit, to) in t.edges && from.unit != to ==>
              r == Measurement(from.value * t.edges[(from.unit, to)], to)
    ensures from.unit != to && (from.unit, to) !in t.edges ==> r == Failure
    ensures r == Failure || r.unit == to
  {
    if to in t.units && from.unit in t.units then
      if from.unit != to then
        if (from.unit, to) in t.edges then
          Measurement(from.value * t.edges[(from.unit, to)], to)
        else
          Failure
      else
        from
    else
      Failure
  }

  /** The converter succeeds exactly when the target is reachable in at most
      one stored step from a registered source: it never inverts a stored
      conversion and never chains two of them. */
  lemma ConvertSucceedsIff(t: Table, from: Measurement, to: Unit)
    requires NoUnit !in t.units
    ensures Convert(t, from, to) != Failure <==>
              from.unit in t.units && to in t.units && (from.unit == to || (from.unit, to) in t.edges)
  {
    if from.unit in t.units && to in t.units && (from.unit == to || (from.unit, to) in t.edges) {
      assert from.unit != NoUnit && to != NoUnit;
    }
  }

  /** Converting a measurement to its own unit leaves it unchanged exactly when
      that unit is registered (or the measurement already is the failure value). */
  lemma ConvertIdentityIff(t: Table, m: Measurement)
    ensures Convert(t, m, m.unit) == m <==> m.unit in t.units || m == Failure
  {
  }

  /** Once a calculation has failed it stays failed: when the empty unit name is
      not registered, converting the failure value gives the failure value. */
  lemma FailurePersists(t: Table, to: Unit)
    requires NoUnit !in t.units
    ensures Convert(t, Failure, to) == Failure
  {
  }

  /** Two stored conversions whose factors are reciprocal undo each other. */
  lemma RoundTrip(t: Table, m: Measurement, to: Unit)
    requires m.unit in t.units && to in t.units && m.unit != to
    requires (m.unit, to) in t.edges && (to, m.unit) in t.edges
    requires t.edges[(m.unit, to)] * t.edges[(to, m.unit)] == 1.0
    ensures Convert(t, Convert(t, m, to), m.unit) == m
  {
    var f, g := t.edges[(m.unit, to)], t.edges[(to, m.unit)];
    assert Convert(t, m, to) == Measurement(m.value * f, to);
    assert m.value * f * g == m.value * (f * g);
  }

  /** Conversion is linear in the value: scaling the input scales a successful
      result by the same factor. */
  lemma ConvertScales(t: Table, v: real, u: Unit, to: Unit, k: real)
    requires Convert(t, Measurement(v, u), to) != Failure
    requires Convert(t, Measurement(k * v, u), to) != Failure
    ensures Convert(t, Measurement(k * v, u), to).value == k * Convert(t, Measurement(v, u), to).value
  {
    if u != to {
      var f := t.edges[(u, to)];
      assert k * v * f == k * (v * f);
    }
  }

  /** With non-negative factors, conversion preserves the order of two values
      in the same unit. */
  lemma ConvertMonotonic(t: Table, v1: real, v2: real, u: Unit, to: Unit)
    requires t.NonNegativeFactors() && v1 <= v2
    requires Convert(t, Measurement(v1, u), to) != Failure
    requires Convert(t, Measurement(v2, u), to) != Failure
    ensures Convert(t, Measurement(v1, u), to).value <= Convert(t, Measurement(v2, u), to).value
  {
    if u != to {
      var f := t.edges[(u, to)];
      assert f >= 0.0;
      assert v2 * f - v1 * f == (v2 - v1) * f;
    }
  }

  /** With non-negative factors, a successful conversion of a non-negative
      value is non-negative. */
  lemma ConvertNonNegative(t: Table, m: Measurement, to: Unit)
    requires t.NonNegativeFactors() && m.value >= 0.0
    ensures Convert(t, m, to) == Failure || Convert(t, m, to).value >= 0.0
  {
    if m.unit in t.units && to in t.units && m.unit != to && (m.unit, to) in t.edges {
      assert t.edges[(m.unit, to)] >= 0.0;
    }
  }

  /** Registration alone never makes two different units convertible: without a
      stored conversion the result is the failure value, even when the chain
      `from -> via -> to` is stored. */
  lemma NeverComposes(t: Table, m: Measurement, via: Unit, to: Unit)
    requires (m.unit, via) in t.edges && (via, to) in t.edges
    requires m.unit != to && (m.unit, to) !in t.edges
    ensures Convert(t, m, to) == Failure
  {
  }
}
