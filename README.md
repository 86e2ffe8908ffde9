# Shade calculator core, modelled in Dafny

The Vertilux shade-calculator back end sizes roller shades. Its core is a
unit-conversion engine and an engineering calculator on top of it.

- **Conversion engine.** A table of registered unit names and directed
  conversion factors. A conversion succeeds only in one of two cases:
  - both unit names are registered and are equal;
  - both unit names are registered and one stored conversion leads from the
    source unit to the target unit.

  Every other conversion yields the failure value: -1 with no unit.
- **Calculator.** It computes:
  - the roll-up diameter of a shade;
  - the longest drop a system's cassette holds;
  - a tube's moment of inertia;
  - fabric and bottom-rail weights and loads;
  - a tube's deflection;
  - the per-tube drop and width limits of a system.

  Each calculation converts its inputs first and checks some of those
  conversions for the -1 sentinel. Which ones it checks varies from formula to
  formula.
- **Around the core:**
  - the measurement service, which inserts units and conversions and offers a
    checked conversion;
  - the weight helpers of the bottom-rail service, the roller-fabric service
    and the roller-fabric entity;
  - the calculator-service facade;
  - the start-up runner, which seeds 21 conversions outside production.

Modules:

- `Measurements`: the measurement value, the failure value, and the option and
  response types.
- `Numerics`: pi, rounding, division, and the library square and fourth roots.
  The roots are passed in as a `MathLib` record, constrained by a `Valid()`
  predicate.
- `MeasurementConverter`: the conversion table and `Convert`.
- `MeasurementService`: inserting into the table, as functions on the table
  and as a `Service` class whose fields the insert methods update.
- `Catalog`: the shade system, fabric, tube and bottom-rail records.
- `RollerTube`: the tube defaults and the wall thickness.
- `ShadeCalculator`: the calculator's formulas, its operations, and their
  properties.
- `BottomRailService`, `RollerFabricService` and `RollerFabric`: the three
  weight helpers.
- `CalculatorService`: the facade's lookups and error responses.
- `Application`: the seeded catalog and conversions, the table the seeding
  builds, and the start-up runner.
- `SeedProperties`: what the seeded table means for the calculator.

Java `double` arithmetic is modelled as exact real arithmetic. The Java sentinel
test `getValue() != -1` becomes `!m.Failed()`, which tests the value only, as
the source does. A Java `null` unit name is modelled as the empty name `NoUnit`.
It behaves like any other label, and the seeding never registers it.

## Model

| member | source | states |
|---|---|---|
| MeasurementConverter.Convert | src/main/java/com/vertilux/shadeCalculator/utils/MeasurementConverter.java:31-51 | An unregistered source or target gives the failure value. Equal registered units give the input back. A stored conversion multiplies the value by its factor and labels the result with the target. Different units without a stored conversion fail. Every result is the failure value or carries the target unit. |
| MeasurementConverter.ConvertSucceedsIff | src/main/java/com/vertilux/shadeCalculator/utils/MeasurementConverter.java:34-48 | With the empty name unregistered, a conversion succeeds exactly when both names are registered and either they are equal or a direct conversion is stored. |
| MeasurementConverter.ConvertIdentityIff | src/main/java/com/vertilux/shadeCalculator/utils/MeasurementConverter.java:37-48 | Converting to a measurement's own unit returns it exactly when that unit is registered, or when it already is the failure value. |
| MeasurementConverter.FailurePersists | src/main/java/com/vertilux/shadeCalculator/utils/MeasurementConverter.java:32-36 | With the empty name unregistered, converting the failure value gives the failure value. |
| MeasurementConverter.RoundTrip | src/main/java/com/vertilux/shadeCalculator/utils/MeasurementConverter.java:38-44 | Two stored conversions with reciprocal factors undo each other. |
| MeasurementConverter.ConvertScales | src/main/java/com/vertilux/shadeCalculator/utils/MeasurementConverter.java:41 | A successful conversion is linear in the value. |
| MeasurementConverter.NeverComposes | src/main/java/com/vertilux/shadeCalculator/utils/MeasurementConverter.java:38-44 | A stored chain from -> via -> to without a direct conversion still fails: the converter does one lookup and never chains. |
| MeasurementConverter.ConvertMonotonic | src/main/java/com/vertilux/shadeCalculator/utils/MeasurementConverter.java:41 | With non-negative factors, conversion keeps the order of two values in the same unit. |
| MeasurementConverter.ConvertNonNegative | src/main/java/com/vertilux/shadeCalculator/utils/MeasurementConverter.java:41 | With non-negative factors, a successful conversion of a non-negative value is non-negative. |
| MeasurementService.UnitSaved | src/main/java/com/vertilux/shadeCalculator/services/MeasurementService.java:222-233 | Saving a unit registers exactly that name, is idempotent, and leaves every conversion alone. |
| MeasurementService.ConversionSaved | src/main/java/com/vertilux/shadeCalculator/services/MeasurementService.java:136-171 | After a save request both names are registered and the pair is stored, with its old factor if it was already stored and otherwise the requested one. No other pair is added, removed or changed. |
| MeasurementService.SaveConversionResponse | src/main/java/com/vertilux/shadeCalculator/services/MeasurementService.java:152-167 | The answer is the "Conversion already exists" error exactly when the pair was stored before. Otherwise it is the stored conversion with the requested factor. |
| MeasurementService.ConvertResponse | src/main/java/com/vertilux/shadeCalculator/services/MeasurementService.java:196-215 | The answer is the "One or more units do not exist" error exactly when either name is unregistered. Otherwise it is the converter's result, which is the failure value or carries the requested unit. |
| MeasurementService.SaveConversionIdempotent | src/main/java/com/vertilux/shadeCalculator/services/MeasurementService.java:152-156 | Saving a pair a second time, with any factor, changes nothing and answers the duplicate error. The first factor wins. |
| MeasurementService.SaveConversionNoReverse | src/main/java/com/vertilux/shadeCalculator/services/MeasurementService.java:158-167 | Saving from -> to never stores to -> from. |
| MeasurementService.SaveConversionCount | src/main/java/com/vertilux/shadeCalculator/services/MeasurementService.java:152-167 | A new pair adds exactly one conversion, and a stored pair adds none. |
| MeasurementService.SaveConversionValid | src/main/java/com/vertilux/shadeCalculator/services/MeasurementService.java:139-150 | Saving keeps every stored conversion between registered units. |
| MeasurementService.Service.SaveUnit | src/main/java/com/vertilux/shadeCalculator/services/MeasurementService.java:222-233 | Returns the name, and the service's table becomes `UnitSaved` of the old table. |
| MeasurementService.Service.SaveConversion | src/main/java/com/vertilux/shadeCalculator/services/MeasurementService.java:136-171 | The answer is `SaveConversionResponse` of the old table, and the new table is `ConversionSaved` of the old one. |
| RollerTube.Build | src/main/java/com/vertilux/shadeCalculator/models/rollerShade/RollerTube.java:47-64 | A tube built without material constants gets 70 GPa and 2.7 g/cm^3, and keeps its name and diameters. |
| RollerTube.Thickness | src/main/java/com/vertilux/shadeCalculator/models/rollerShade/RollerTube.java:72-87 | The thickness is in the outer diameter's unit. With equal units, thickness plus inner diameter is the outer diameter. With different units the converted inner diameter is used, and a failed conversion gives -1. |
| RollerTube.ThicknessIgnoresTable | src/main/java/com/vertilux/shadeCalculator/models/rollerShade/RollerTube.java:74-75 | With both diameters in one unit, the thickness does not depend on the conversion table. |
| RollerTube.ThicknessBounds | src/main/java/com/vertilux/shadeCalculator/models/rollerShade/RollerTube.java:74-75 | For 0 <= inner <= outer in one unit, the thickness lies between 0 and the outer diameter. |
| RollerTube.ThicknessMixedUnits | src/main/java/com/vertilux/shadeCalculator/models/rollerShade/RollerTube.java:76-81 | In mixed units the thickness equals that of the tube with its inner diameter already converted. |
| ShadeCalculator.RollUp | src/main/java/com/vertilux/shadeCalculator/utils/ShadeCalculator.java:34-49 | The roll-up is in the drop's unit. It is -1 when both the diameter and the thickness conversions fail. When either succeeds, it is `RollDiameter` of the two converted values, the failed one entering as -1. |
| ShadeCalculator.RollSquare | src/main/java/com/vertilux/shadeCalculator/utils/ShadeCalculator.java:34-60 | The radicand D^2 + 4 t drop / pi is D^2 for a zero thickness or drop, and never below D^2 when thickness and drop have the same sign. |
| ShadeCalculator.RollDiameter | src/main/java/com/vertilux/shadeCalculator/utils/ShadeCalculator.java:40-42 | For a valid square root and a non-negative radicand D^2 + 4 t L / pi, the roll diameter is non-negative and its square is that radicand. |
| ShadeCalculator.RollDiameterWindsFabric | src/main/java/com/vertilux/shadeCalculator/utils/ShadeCalculator.java:40-42 | The roll diameter R is at least the tube's D, and the annulus pi (R^2 - D^2) / 4 has the area thickness * drop. |
| ShadeCalculator.RollDiameterZeroThickness | src/main/java/com/vertilux/shadeCalculator/utils/ShadeCalculator.java:40-42 | With a fabric of no thickness the roll diameter is the tube's diameter. |
| ShadeCalculator.RollDiameterMonotonic | src/main/java/com/vertilux/shadeCalculator/utils/ShadeCalculator.java:40-42 | A longer drop never gives a smaller roll. |
| ShadeCalculator.RollUpWindsFabric | src/main/java/com/vertilux/shadeCalculator/utils/ShadeCalculator.java:34-49 | When both conversions succeed, the roll-up winds the fabric: R >= D and pi (R^2 - D^2) / 4 = thickness * drop. |
| ShadeCalculator.RollUpZeroThickness | src/main/java/com/vertilux/shadeCalculator/utils/ShadeCalculator.java:34-49 | With a zero converted thickness, the roll-up is the converted tube diameter. |
| ShadeCalculator.RollUpMonotonic | src/main/java/com/vertilux/shadeCalculator/utils/ShadeCalculator.java:34-49 | The roll-up grows with the drop. |
| ShadeCalculator.RollUpUsesFailedThickness | src/main/java/com/vertilux/shadeCalculator/utils/ShadeCalculator.java:39-42 | Because the guard joins its two checks with "or", a failed thickness enters the formula as -1. |
| ShadeCalculator.MaxDrop | src/main/java/com/vertilux/shadeCalculator/utils/ShadeCalculator.java:58-76 | The maximum drop is in mm. It is -1 when any of the three conversions to mm fails, and otherwise `DropForRoll` of the converted roll diameter, tube diameter and thickness. |
| ShadeCalculator.DropForRoll | src/main/java/com/vertilux/shadeCalculator/utils/ShadeCalculator.java:66-69 | For a non-zero thickness, the drop fills the annulus: thickness * drop = pi (R^2 - D^2) / 4. A zero thickness gives 0, where Java would divide by zero. |
| ShadeCalculator.DropForRollCoversRoll | src/main/java/com/vertilux/shadeCalculator/utils/ShadeCalculator.java:66-69 | Wound on the tube, the drop for a roll covers exactly R^2. |
| ShadeCalculator.RollDiameterOfDropForRoll | src/main/java/com/vertilux/shadeCalculator/utils/ShadeCalculator.java:40-42 | The roll-diameter formula inverts the drop formula: winding the drop for a roll gives the roll back. |
| ShadeCalculator.MaxDropFillsRoll | src/main/java/com/vertilux/shadeCalculator/utils/ShadeCalculator.java:58-76 | When all conversions succeed, the maximum drop fills the annulus between the tube and the cassette's largest roll. |
| ShadeCalculator.RollUpOfMaxDrop | src/main/java/com/vertilux/shadeCalculator/utils/ShadeCalculator.java:34-76 | When all three inputs convert to mm, the roll is no smaller than the tube and the thickness is positive, rolling up the maximum drop gives back the largest roll diameter in mm. |
| ShadeCalculator.MomentOfInertia | src/main/java/com/vertilux/shadeCalculator/utils/ShadeCalculator.java:86-108 | The moment is in mm^4. It is -1 when the inner diameter does not convert, and otherwise `TubeMoment` of the converted diameters, whether or not the outer diameter converted. |
| ShadeCalculator.TubeMoment | src/main/java/com/vertilux/shadeCalculator/utils/ShadeCalculator.java:93-100 | The formula vanishes when the outer diameter equals the inner one or twice it: the inner diameter is the base term. |
| ShadeCalculator.TubeMomentPositiveIff | src/main/java/com/vertilux/shadeCalculator/utils/ShadeCalculator.java:93-100 | For a positive inner diameter, the formula is positive exactly when inner < outer < 2 * inner. |
| ShadeCalculator.MomentPositiveIff | src/main/java/com/vertilux/shadeCalculator/utils/ShadeCalculator.java:86-108 | The same, for the converted diameters of a tube. |
| ShadeCalculator.TotalFabricWeight | src/main/java/com/vertilux/shadeCalculator/utils/ShadeCalculator.java:296-311 | The result is the failure value when the weight does not convert to the unit per m^2 or a length does not convert to m. Otherwise it is weight * width * drop in the requested unit. |
| ShadeCalculator.TotalFabricWeightSymmetric | src/main/java/com/vertilux/shadeCalculator/utils/ShadeCalculator.java:296-311 | The fabric weight does not depend on which side is the width. |
| ShadeCalculator.Contains | src/main/java/com/vertilux/shadeCalculator/utils/ShadeCalculator.java:328 | Java's `String.contains`: the part is no longer than the string, and occurs at its start or further on. |
| ShadeCalculator.WeightPerUnitTarget | src/main/java/com/vertilux/shadeCalculator/utils/ShadeCalculator.java:328-333 | The target unit repeats the weight unit ("g/g/m", or "g/g/m^2" for a per-area weight). It is never the intended weight-per-length unit. |
| ShadeCalculator.WeightPerUnit | src/main/java/com/vertilux/shadeCalculator/utils/ShadeCalculator.java:325-347 | The result fails when either conversion fails. Otherwise its value is the converted weight times the converted length, in the weight unit, or in weight unit per length unit for a per-area weight. |
| ShadeCalculator.WeightPerUnitScales | src/main/java/com/vertilux/shadeCalculator/utils/ShadeCalculator.java:325-347 | A length k times as long, in the same unit, gives k times the product. |
| ShadeCalculator.WeightPerUnitMonotonicInLength | src/main/java/com/vertilux/shadeCalculator/utils/ShadeCalculator.java:325-347 | With non-negative factors and weight, a longer length never gives a smaller product, and the product is non-negative. |
| ShadeCalculator.TotalFabricWeightMonotonicInWidth | src/main/java/com/vertilux/shadeCalculator/utils/ShadeCalculator.java:296-311 | With non-negative factors, weight and drop, a wider panel never weighs less, and its weight is non-negative. |
| ShadeCalculator.TotalLoad | src/main/java/com/vertilux/shadeCalculator/utils/ShadeCalculator.java:119-145 | The load fails when the drop or the width does not convert to m, or when either weight does not convert to N. Otherwise it is the fabric weight in N plus the rail weight in N. |
| ShadeCalculator.FabricLoadMonotonic | src/main/java/com/vertilux/shadeCalculator/utils/ShadeCalculator.java:127-129 | With non-negative factors, weight and drop, the fabric's share of the load in N never shrinks with the width and is non-negative. |
| ShadeCalculator.RailLoadMonotonic | src/main/java/com/vertilux/shadeCalculator/utils/ShadeCalculator.java:130-132 | With non-negative factors and rail weight, the rail's share of the load in N never shrinks with the width and is non-negative. |
| ShadeCalculator.TotalLoadMonotonicInWidth | src/main/java/com/vertilux/shadeCalculator/utils/ShadeCalculator.java:119-145 | With non-negative factors, weights and drop, a wider shade never gets a smaller load, and a computed load is non-negative. |
| ShadeCalculator.DeflectionMonotonicInLoad | src/main/java/com/vertilux/shadeCalculator/utils/ShadeCalculator.java:173 | With positive stiffness, a heavier load never deflects less. |
| ShadeCalculator.DeflectionMonotonicInLength | src/main/java/com/vertilux/shadeCalculator/utils/ShadeCalculator.java:173 | With positive stiffness and a non-negative load, a longer tube never deflects less. |
| ShadeCalculator.BeamDeflection | src/main/java/com/vertilux/shadeCalculator/utils/ShadeCalculator.java:173 | For a non-zero stiffness, deflection * 384 E I = 5 w l^3. Zero load or zero length gives no deflection. |
| ShadeCalculator.DeflectionAntitoneInLength | src/main/java/com/vertilux/shadeCalculator/utils/ShadeCalculator.java:173 | With positive stiffness and a non-positive load, such as the failure value -1, a longer tube never deflects more. |
| ShadeCalculator.TubeDeflection | src/main/java/com/vertilux/shadeCalculator/utils/ShadeCalculator.java:156-183 | A failed width or modulus gives the failure value converted to the output unit. Otherwise the result is the beam formula in mm, for the total load's value (-1 when it failed) and the moment of inertia's value, converted to the output unit. |
| ShadeCalculator.TubeDeflectionMonotonicInWidth | src/main/java/com/vertilux/shadeCalculator/utils/ShadeCalculator.java:156-183 | With non-negative factors, weights and drop, positive stiffness and computed loads, a wider shade never deflects its tube less. |
| ShadeCalculator.TubeDeflectionReversesOnFailedLoad | src/main/java/com/vertilux/shadeCalculator/utils/ShadeCalculator.java:156-183 | When the load fails it enters the formula as -1, and then a wider shade never deflects its tube more. |
| ShadeCalculator.LimitedDrop | src/main/java/com/vertilux/shadeCalculator/utils/ShadeCalculator.java:228-238 | A failed maximum drop is passed on unchanged. Otherwise the drop is converted to m and replaced by 3 m when it exceeds 3. |
| ShadeCalculator.SpanAtMaxDeflection | src/main/java/com/vertilux/shadeCalculator/utils/ShadeCalculator.java:255-256 | For a valid fourth root, a non-zero load and a non-negative radicand, the width is non-negative and solves 5 W L^4 = 2.99 * 384 E I. |
| ShadeCalculator.SpanDeflectsByMaxDeflection | src/main/java/com/vertilux/shadeCalculator/utils/ShadeCalculator.java:246-256 | At that width, the beam formula gives the 2.99 mm deflection limit. |
| ShadeCalculator.MaxWidthMm | src/main/java/com/vertilux/shadeCalculator/utils/ShadeCalculator.java:240-257 | The maximum width is -1 unless both weights convert to g/mm. Otherwise it is `SpanAtMaxDeflection` for their summed load in N and the tube's E and I. |
| ShadeCalculator.MaxWidthLoad | src/main/java/com/vertilux/shadeCalculator/utils/ShadeCalculator.java:245-253 | The load W is the fabric's and the rail's weights in g/mm, summed, read as g and multiplied by the stored g-to-N factor. Without that stored conversion it is -1. |
| ShadeCalculator.MaxWidthDeflectsByMaxDeflection | src/main/java/com/vertilux/shadeCalculator/utils/ShadeCalculator.java:240-257 | For a positive load and stiffness, the tube under that load per mm over the maximum width deflects by exactly 2.99 mm. |
| ShadeCalculator.RoundMeasurement | src/main/java/com/vertilux/shadeCalculator/utils/ShadeCalculator.java:280-285 | Rounding keeps the unit, moves the value by at most 0.005, and gives a whole number of hundredths. |
| ShadeCalculator.RoundMeasurementIdempotent | src/main/java/com/vertilux/shadeCalculator/utils/ShadeCalculator.java:280-285 | Rounding twice is rounding once. |
| ShadeCalculator.GetSystemLimit | src/main/java/com/vertilux/shadeCalculator/utils/ShadeCalculator.java:218-273 | The reported drop is the limited drop converted to the requested unit and rounded. The reported width is the maximum width (-1 when the maximum drop fails) converted from mm and rounded. The tube's name and the 2.99 mm deflection are reported too. |
| ShadeCalculator.ReportedDropWithinLimit | src/main/java/com/vertilux/shadeCalculator/utils/ShadeCalculator.java:229-238 | With positive stored factors, the reported drop in m never exceeds 3. |
| ShadeCalculator.FailedMaxDropIsConverted | src/main/java/com/vertilux/shadeCalculator/utils/ShadeCalculator.java:260-265 | A failed maximum drop still goes through the final conversion: drop and width are -1 mm converted to the requested unit, then rounded. |
| ShadeCalculator.GetAllSystemLimits | src/main/java/com/vertilux/shadeCalculator/utils/ShadeCalculator.java:191-204 | One limit per tube, in the given order, each being `GetSystemLimit` of that tube. |
| BottomRailService.WeightKg | src/main/java/com/vertilux/shadeCalculator/services/BottomRailService.java:161-174 | The weight is the failure value unless the rail's weight converts to kg/m and the width to m. Then it is their product in kg. |
| BottomRailService.WeightKgScales | src/main/java/com/vertilux/shadeCalculator/services/BottomRailService.java:161-174 | A rail k times as wide weighs k times as much. |
| BottomRailService.WeightKgNonNegative | src/main/java/com/vertilux/shadeCalculator/services/BottomRailService.java:161-174 | Non-negative converted inputs give a non-negative weight in kg. |
| RollerFabricService.WeightKg | src/main/java/com/vertilux/shadeCalculator/services/RollerFabricService.java:165-178 | The weight is the failure value unless the weight converts to kg/m2 and both lengths to m. Then it is their product in kg. |
| RollerFabricService.WeightKgSymmetric | src/main/java/com/vertilux/shadeCalculator/services/RollerFabricService.java:165-178 | Width and drop may be swapped. |
| RollerFabricService.WeightKgNonNegative | src/main/java/com/vertilux/shadeCalculator/services/RollerFabricService.java:165-178 | Non-negative converted inputs give a non-negative weight in kg. |
| RollerFabric.WeightKg | src/main/java/com/vertilux/shadeCalculator/models/rollerShade/RollerFabric.java:41-55 | The weight is the failure value unless the weight converts to kg/m and both lengths to m. Then it is their product in kg. |
| RollerFabric.WeightKgNeedsPerLengthWeight | src/main/java/com/vertilux/shadeCalculator/models/rollerShade/RollerFabric.java:44 | A fabric whose weight has no stored conversion to kg/m never gets a weight. |
| RollerFabric.WeightKgNonNegative | src/main/java/com/vertilux/shadeCalculator/models/rollerShade/RollerFabric.java:41-55 | Non-negative converted inputs give a non-negative weight in kg. |
| CalculatorService.GetRollUp | src/main/java/com/vertilux/shadeCalculator/services/CalculatorService.java:42-58 | Always answers data: the roll-up in the requested unit, or the unconverted roll-up when that conversion fails. |
| CalculatorService.GetRollUpKeepsRollUp | src/main/java/com/vertilux/shadeCalculator/services/CalculatorService.java:49-53 | The fallback never turns a computed roll-up into a failure. The answer is in the requested unit or in the drop's. |
| CalculatorService.GetSystemLimit | src/main/java/com/vertilux/shadeCalculator/services/CalculatorService.java:65-89 | The not-found error comes exactly when the system or the fabric is missing. Otherwise the answer names the system and the fabric, with one `GetSystemLimit` per tube in order. |
| CalculatorService.GetTubeDeflection | src/main/java/com/vertilux/shadeCalculator/services/CalculatorService.java:96-111 | The not-found error comes exactly when the fabric or the tube is missing. Otherwise the answer is the tube's deflection. |
| Application.SaveAll | src/main/java/com/vertilux/shadeCalculator/ShadeCalculatorBackendApplication.java:385 | Saving a list of conversions never loses a registered unit or a stored pair. |
| Application.SaveAllUnits | src/main/java/com/vertilux/shadeCalculator/ShadeCalculatorBackendApplication.java:385 | Saving a list of conversions registers exactly the old units plus every unit named in the list. |
| Application.SaveAllKeys | src/main/java/com/vertilux/shadeCalculator/ShadeCalculatorBackendApplication.java:385 | Saving a list stores exactly the old pairs plus the listed ones, and keeps every old factor. |
| Application.PrefixDistinct | src/main/java/com/vertilux/shadeCalculator/ShadeCalculatorBackendApplication.java:274-383 | A prefix of a list of distinct pairs is distinct, and does not contain the next pair. |
| Application.SaveAllRates | src/main/java/com/vertilux/shadeCalculator/ShadeCalculatorBackendApplication.java:385 | Distinct, previously unstored pairs are stored with their requested factors. |
| Application.SaveAllCount | src/main/java/com/vertilux/shadeCalculator/ShadeCalculatorBackendApplication.java:385 | Distinct, previously unstored pairs add one conversion each. |
| Application.SeedKeysDistinct | src/main/java/com/vertilux/shadeCalculator/ShadeCalculatorBackendApplication.java:274-383 | The 21 seeded conversions are for 21 different pairs. |
| Application.SeedTableCount | src/main/java/com/vertilux/shadeCalculator/ShadeCalculatorBackendApplication.java:272-386 | Seeding an empty database stores 21 conversions. |
| Application.SeedTableEdges | src/main/java/com/vertilux/shadeCalculator/ShadeCalculatorBackendApplication.java:272-386 | Seeding an empty database stores exactly the seeded pairs, each with its listed factor. |
| Application.SeedConversionsUseSeedUnits | src/main/java/com/vertilux/shadeCalculator/ShadeCalculatorBackendApplication.java:274-383 | Every seeded conversion names units of the 16-name list. |
| Application.SeedNamesRegistered | src/main/java/com/vertilux/shadeCalculator/ShadeCalculatorBackendApplication.java:272-386 | Both names of each seeded conversion are registered by the seeding. |
| Application.SeedTableUnitsSound | src/main/java/com/vertilux/shadeCalculator/ShadeCalculatorBackendApplication.java:272-386 | The seeding registers no name outside the 16-name list. |
| Application.SeedTableUnitsComplete | src/main/java/com/vertilux/shadeCalculator/ShadeCalculatorBackendApplication.java:272-386 | The seeding registers every name of the 16-name list. |
| Application.SeedTableUnits | src/main/java/com/vertilux/shadeCalculator/ShadeCalculatorBackendApplication.java:272-386 | The registered names are exactly the 16 names. |
| Application.SeedEdge | src/main/java/com/vertilux/shadeCalculator/ShadeCalculatorBackendApplication.java:274-383 | Each seeded conversion is stored with its factor. |
| Application.NotSeeded | src/main/java/com/vertilux/shadeCalculator/ShadeCalculatorBackendApplication.java:274-385 | A pair that no seeded conversion names is not stored. |
| Application.CreateConversions | src/main/java/com/vertilux/shadeCalculator/ShadeCalculatorBackendApplication.java:272-386 | The service's table becomes the old table with the 21 conversions saved in order. |
| Application.Seeds | src/main/java/com/vertilux/shadeCalculator/ShadeCalculatorBackendApplication.java:32-43 | Seeding runs exactly when the mode is missing or is any string other than "production". |
| Application.Run | src/main/java/com/vertilux/shadeCalculator/ShadeCalculatorBackendApplication.java:23-47 | Unless the mode is exactly "production", the conversions are seeded. In production the table is unchanged. |
| SeedProperties.NotASeedPair | src/main/java/com/vertilux/shadeCalculator/ShadeCalculatorBackendApplication.java:274-383 | A pair outside the 21 seeded pairs has no stored conversion. |
| SeedProperties.SeedMetricRoundTrips | src/main/java/com/vertilux/shadeCalculator/ShadeCalculatorBackendApplication.java:275-294 | m to mm and back, mm to m and back, and cm to m and back are exact. |
| SeedProperties.SeedImperialRoundTripsInexact | src/main/java/com/vertilux/shadeCalculator/ShadeCalculatorBackendApplication.java:295-314 | 1 m to ft and back gives 1.000000032 m, and 1 m to in and back gives 1.00000054 m. |
| SeedProperties.SeedNotComposed | src/main/java/com/vertilux/shadeCalculator/utils/MeasurementConverter.java:38-44 | With the seeded table, cm converts to m and m to mm, but cm does not convert to mm. |
| SeedProperties.SeedNotInverted | src/main/java/com/vertilux/shadeCalculator/utils/MeasurementConverter.java:38-44 | With the seeded table, kg converts to N (times 9.81), but N does not convert to kg. |
| SeedProperties.SeedFailurePersists | src/main/java/com/vertilux/shadeCalculator/utils/MeasurementConverter.java:32-36 | With the seeded table, the failure value stays a failure through every conversion. |
| SeedProperties.SeedDefaultModulus | src/main/java/com/vertilux/shadeCalculator/models/rollerShade/RollerTube.java:47-52 | The default modulus of 70 GPa converts to 70000 N/mm2. |
| SeedProperties.SeedTotalLoadFails | src/main/java/com/vertilux/shadeCalculator/utils/ShadeCalculator.java:119-145 | With the seeded table, "kg/m^2" is never registered, so every total load is the failure value. |
| SeedProperties.SeedMaxWidthFails | src/main/java/com/vertilux/shadeCalculator/utils/ShadeCalculator.java:240-256 | With the seeded table, the doubled units "g/g/m" and "g/g/m^2" are unregistered, so the maximum width is -1 mm before the final conversion. |
| SeedProperties.SeedReportedWidthIsFailure | src/main/java/com/vertilux/shadeCalculator/utils/ShadeCalculator.java:260-268 | Every reported width is -1 mm converted to the requested unit, then rounded. |
| SeedProperties.SeedReportedWidth | src/main/java/com/vertilux/shadeCalculator/utils/ShadeCalculator.java:260-268 | The reported width is -1 in mm and -0.04 in inches. |
| SeedProperties.SeedTubesWellFormed | src/main/java/com/vertilux/shadeCalculator/ShadeCalculatorBackendApplication.java:87-210 | Every seeded tube is in mm with 0 < inner < outer < 2 * inner and the default modulus of `RollerTube.Build`. |
| SeedProperties.SeedTubeMomentPositive | src/main/java/com/vertilux/shadeCalculator/utils/ShadeCalculator.java:86-108 | Every seeded tube has a positive moment of inertia. |
| SeedProperties.FailedLoadDeflectsUpwards | src/main/java/com/vertilux/shadeCalculator/utils/ShadeCalculator.java:173 | The beam formula with the failed load -1 gives a negative deflection for a positive width, modulus and moment. |
| SeedProperties.SeedDeflectionNegative | src/main/java/com/vertilux/shadeCalculator/utils/ShadeCalculator.java:156-183 | A seeded tube of positive width in mm reports a negative deflection, because the failed load enters the formula unchecked. |
| SeedProperties.SeedFactorsNonNegative | src/main/java/com/vertilux/shadeCalculator/ShadeCalculatorBackendApplication.java:272-386 | Every seeded conversion factor is non-negative. |
| SeedProperties.SeedDeflectionShrinksWithWidth | src/main/java/com/vertilux/shadeCalculator/utils/ShadeCalculator.java:156-183 | With the seeded table, a seeded tube's reported deflection never grows with the width, because the load always fails. |
| SeedProperties.SeedRollerFabricWeightFails | src/main/java/com/vertilux/shadeCalculator/models/rollerShade/RollerFabric.java:41-55 | The entity's weight helper never weighs a seeded fabric, because nothing converts g/m2 to kg/m. |
| SeedProperties.SeedRollerFabricServiceWeight | src/main/java/com/vertilux/shadeCalculator/services/RollerFabricService.java:165-178 | The service's helper does weigh them: 1 m by 2 m of the 210 g/m2 fabric weighs 0.42 kg. |
| SeedProperties.SeedBottomRailWeight | src/main/java/com/vertilux/shadeCalculator/services/BottomRailService.java:161-174 | A 2000 mm rail of 1.15 kg/m weighs 2.3 kg. |
| SeedProperties.SeedDropClamped | src/main/java/com/vertilux/shadeCalculator/utils/ShadeCalculator.java:228-238 | In the 65 mm cassette, the 32 mm tube holds more than 3 m of the 0.3 mm fabric, so the drop is limited to, and reported as, 3 m. |
| Numerics.Quotient | src/main/java/com/vertilux/shadeCalculator/utils/ShadeCalculator.java:66-69 | For a non-zero divisor, the quotient times the divisor is the dividend. |
| Numerics.Round | src/main/java/com/vertilux/shadeCalculator/utils/ShadeCalculator.java:282 | `Math.round` gives the integer within one half of its argument, rounding halves up. |
| Numerics.RoundHundredths | src/main/java/com/vertilux/shadeCalculator/utils/ShadeCalculator.java:282 | The result is within 0.005 of the input and is a whole number of hundredths. |
| Numerics.RoundHundredthsIdempotent | src/main/java/com/vertilux/shadeCalculator/utils/ShadeCalculator.java:282 | Rounding to hundredths twice is rounding once. |

## Left out

- The conversion repositories and JPA: the unit and conversion repositories become the `units` set and the `edges` map of a `Table`, or the fields of `MeasurementService.Service`.
  - Lookups that find a unit by name become set membership.
  - The conversion lookup (`findByFromAndTo`) becomes a map lookup keyed by the ordered pair.
  - Saving becomes an update of the set or the map.
- Null units: Java's `null` unit name is the empty name `NoUnit`. The model has no separate null value. This is faithful where the unit is only looked up in a repository. It is not faithful where Java calls a method on the unit itself, which throws a `NullPointerException` for a null unit while the model returns a value:
- RollerTube.Thickness: the entity calls `equals` on the outer diameter's unit (`models/rollerShade/RollerTube.java` line 74). For a null outer unit the model instead compares "" with the inner unit, and gives outer minus inner when both are "".
- ShadeCalculator.WeightPerUnit: it calls `contains("^2")` on the weight's unit (`utils/ShadeCalculator.java` line 328), so a fabric or rail weight with a null unit throws inside the total load and the maximum width. In the model, `Contains("", "^2")` is false, the conversion to the doubled unit fails, and the result is the failure value. `ShadeCalculator.TotalLoad` and `ShadeCalculator.MaxWidthMm` then go on with -1. `SeedProperties.SeedTotalLoadFails` and `SeedProperties.SeedMaxWidthFails` cover such weights too, where Java would throw instead.
- Floating point: `double` arithmetic is exact real arithmetic.
  - Rounding error, NaN and the infinities are not modelled.
  - A division by zero yields 0 in `Numerics.Quotient`, where Java yields an infinity or NaN. This affects the maximum drop for a zero thickness and the width and deflection for a zero stiffness or load.
- Numerics.Round: `Math.round` returns a `long`, which saturates at `Long.MIN_VALUE` and `Long.MAX_VALUE` for arguments beyond that range. The model's integer is unbounded and does not saturate.
- ShadeCalculator.MaxDeflection: the `float` 2.99f is widened to `double` in the source. The model uses the real 2.99 and ignores the widening error.
- `Math.sqrt` and `Math.pow(x, 1/4)`: these are library calls. They are passed in as the `MathLib` record, and the lemmas assume its `Valid()` predicate: a non-negative root whose square, or fourth power, is the argument. Results for negative arguments (NaN in Java) are left unconstrained.
- Two unit repositories become one set. The measurement service looks units up in `MeasurementRepo` (`services/MeasurementService.java` lines 139-140, 199-200 and 223), and the converter looks them up in `UnitRepo` (`utils/MeasurementConverter.java` lines 34-35). The model assumes both read the same stored units, so a unit the service registers is one the converter sees. A deployment where the two repositories disagree is not modelled.
- Logging, the Spring wiring and the web controllers are not part of this model. Neither are the response-factory helpers, beyond the `Data`/`Errors` response.
- Environment: `System.getenv("DEV_MODE")` is the `devMode` parameter of `Application.Run`.
- Seeding of the catalog: the seeded systems, tubes, fabrics and bottom rail are constants (`Application.SeedSystems` and the others). Their repositories' save calls and the catalog CRUD services are not modelled. Only the conversions go through the modelled service.
- Application.SeedTubes: the seeding's tube service builds a `Tube` entity that has no diameters, modulus or density (`services/TubeService.java` lines 143-150, `models/rollerShade/Tube.java` lines 15-22), and the calculator reads `TubeCollection`, whose modulus has no default. The model takes the seeded tubes to be `RollerTube` records with that entity's defaults of 70 GPa and 2.7 g/cm^3 (`models/rollerShade/RollerTube.java` lines 47-52). `SeedProperties.SeedDefaultModulus`, `SeedTubeMomentPositive`, `SeedDeflectionNegative` and `SeedDeflectionShrinksWithWidth` rest on that reading.
- CalculatorService.GetSystemLimit: the calculator service's code passes the calculator fewer arguments than the calculator takes. The model passes the bottom rail, the tubes and the output unit as parameters. The request's tube name is not used.
- CalculatorService.GetTubeDeflection: the bottom rail and the output unit are parameters, for the same reason.
- Conversion request field: the conversion request's `rate` is the stored conversion's `factor`. The seeding's repository method name `findByFromUnitAndToUnit` is taken to mean the converter's `findByFromAndTo`.
- MeasurementService.ConvertResponse is a function of the service's table (`Service.Snapshot()`) rather than a method, since it changes nothing.
- MeasurementService: the delete and list operations on conversions and units are plain CRUD. They are not modelled.
- Concurrency and transactions of the service are not modelled.
- CalculatorService.GetSystemLimit: the response carries the fabric record itself rather than its response view (`RollerFabricResponse`), and the JSON mapping of responses is not modelled.
- MeasurementService.ConvertResponse: the service's code hands the converter the unit record it found. The model passes that record's name, which is what the converter's signature takes.
