/** The catalog records the calculator reads. Database ids and the collection
    back-references are left out: only the measured data matters here. */
module Catalog {
  import opened Measurements

  /** A roller-shade system (cassette or bracket) and the largest roll it holds. */
  datatype ShadeSystem = ShadeSystem(name: string, maxDiameter: Measurement)

  /** A fabric: its thickness and its weight per area. */
  datatype Fabric = Fabric(name: string, thickness: Measurement, weight: Measurement)

  /** A roller tube: its diameters, its modulus of elasticity and its density. */
  datatype Tube = Tube(name: string, outerDiameter: Measurement, innerDiameter: Measurement,
                       modulus: Measurement, density: Measurement)

  /** A bottom rail and its weight per length. */
  datatype BottomRail = BottomRail(name: string, weight: Measurement)
}
