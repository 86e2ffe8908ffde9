/** The calculator facade: it looks the catalog records up, runs the
    calculator and wraps the result in a response. */
module CalculatorService {
  import opened Measurements
  import opened Numerics
  import opened MeasurementConverter
  import opened Catalog
  import opened ShadeCalculator

  /** A roll-up request. */
  datatype RollUpRequest = RollUpRequest(drop: Measurement, tubeOuterDiameter: Measurement,
                                         fabricThickness: Measurement)

  /** A system-limit request, naming the catalog records. */
  datatype SystemLimitRequest = SystemLimitRequest(systemName: string, fabricName: string, tubeName: string)

  /** A deflection request: a fabric and a tube by key, and the shade's size. */
  datatype ShadeTemplate = ShadeTemplate(fabricId: string, tubeId: string, width: Measurement, drop: Measurement)

  /** The limits of every tube in a system with a fabric. */
  datatype SystemLimitResponse = SystemLimitResponse(systemName: string, fabric: Fabric, limits: seq<SystemLimit>)

  const NotFound: string := "Fabric, tube or system not found"

  /** The roll-up converted to `unit`, or, when that conversion yields -1, the
      roll-up as computed, in the drop's unit. */
  function GetRollUp(lib: MathLib, t: Table, unit: Unit, request: RollUpRequest): (r: Response<Measurement>)
    ensures r.Data?
    ensures var rollUp := RollUp(lib, t, request.drop, request.tubeOuterDiameter, request.fabricThickness);
            var converted := Convert(t, rollUp, unit);
            (!converted.Failed() ==> r.data == converted) && (converted.Failed() ==> r.data == rollUp)
  {
    var rollUp := RollUp(lib, t, request.drop, request.tubeOuterDiameter, request.fabricThickness);
    var converted := Convert(t, rollUp, unit);
    Data(if !converted.Failed() then converted else rollUp)
  }

  /** The fallback never turns a computed roll-up into a failure, and the
      answer is in the requested unit or else in the drop's. */
  lemma GetRollUpKeepsRollUp(lib: MathLib, t: Table, unit: Unit, request: RollUpRequest)
    ensures var rollUp := RollUp(lib, t, request.drop, request.tubeOuterDiameter, request.fabricThickness);
            var answer := GetRollUp(lib, t, unit, request).data;
            (!rollUp.Failed() ==> !answer.Failed()) &&
            (answer.unit == unit || answer.unit == request.drop.unit)
  {
  }

  /** The limits of every tube for the requested system and fabric, or an error
      without any calculation when either is missing. Systems and fabrics are
      looked up by name; the tubes and the bottom rail are given. */
  method GetSystemLimit(lib: MathLib, t: Table, unit: Unit, request: SystemLimitRequest,
                        systems: map<string, ShadeSystem>, fabrics: map<string, Fabric>,
                        rail: BottomRail, tubes: seq<Tube>) returns (r: Response<SystemLimitResponse>)
    ensures r.Errors? <==> request.systemName !in systems || request.fabricName !in fabrics
    ensures r.Errors? ==> r.errors == [NotFound]
    ensures r.Data? ==>
              var system, fabric := systems[request.systemName], fabrics[request.fabricName];
              && r.data.systemName == system.name
              && r.data.fabric == fabric
              && |r.data.limits| == |tubes|
              && forall i | 0 <= i < |tubes| ::
                   r.data.limits[i] == ShadeCalculator.GetSystemLimit(lib, t, unit, system, fabric, tubes[i], rail)
  {
    if request.fabricName !in fabrics || request.systemName !in systems {
      return Errors([NotFound]);
    }
    var system, fabric := systems[request.systemName], fabrics[request.fabricName];
    var limits := GetAllSystemLimits(lib, t, unit, system, fabric, rail, tubes);
    r := Data(SystemLimitResponse(system.name, fabric, limits));
  }

  /** The deflection of the requested tube under the requested fabric, or an
      error when either is missing. Fabrics are looked up by name, tubes by
      key; the bottom rail and the output unit are given. */
  function GetTubeDeflection(t: Table, template: ShadeTemplate, fabrics: map<string, Fabric>,
                             tubes: map<string, Tube>, rail: BottomRail, unit: Unit): (r: Response<Measurement>)
    ensures r.Errors? <==> template.fabricId !in fabrics || template.tubeId !in tubes
    ensures r.Errors? ==> r.errors == [NotFound]
    ensures r.Data? ==>
              r.data == TubeDeflection(t, fabrics[template.fabricId], rail, tubes[template.tubeId],
                                       template.width, template.drop, unit)
  {
    if template.fabricId !in fabrics || template.tubeId !in tubes then
      Errors([NotFound])
    else
      Data(TubeDeflection(t, fabrics[template.fabricId], rail, tubes[template.tubeId],
                          template.width, template.drop, unit))
  }
}
