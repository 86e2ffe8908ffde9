/** Values shared by every part of the shade calculator: measurements, their
    failure value, and the response envelope the services return. */
module Measurements {

  /** A unit label such as "mm", "kg/m" or "N/mm2". Labels are compared
      literally: "Kg/M" and "kg/m" are different units. */
  type Unit = string

  /** The unit of a measurement built without one (Java's `null`). A repository
      lookup by a null label is an `IS NULL` query, so the missing unit behaves
      like one more label, and it is modelled as the empty one. */
  const NoUnit: Unit := ""

  /** A magnitude paired with its unit label. */
  datatype Measurement = Measurement(value: real, unit: Unit) {

    /** The test every caller applies: a value of exactly -1 means that a
        conversion failed. */
    predicate Failed() {
      value == -1.0
    }
  }

  /** `Measurement.builder().value(-1).build()`: value -1, no unit. */
  const Failure: Measurement := Measurement(-1.0, NoUnit)

  datatype Option<+T> = None | Some(value: T)

  /** The service response: data on success, error messages otherwise. */
  datatype Response<+T> = Data(data: T) | Errors(errors: seq<string>)
}
