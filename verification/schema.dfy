/** The `parameter_type` and `my_data` tables of every record kind: the
    schema that drives the generic marshaller. Each table is plain data. */
module Schema {
  import opened Wrappers

  /** The record classes of the package. `Results`, `Color` and
      `DatasetParameters` are not property records themselves but appear as
      nested kinds in other tables. */
  datatype Kind =
    | Analysis | TimeIncrements | Results | Context
    | Material | MaterialStressStrain | MaterialHydraulicFunction
    | Function | Reinforcement | Dataset | DatasetParameters | Color

  /** What a table entry declares: a scalar type constructor, `dict`,
      `list`, a package class (a nested record), or Python `None`. */
  datatype FieldKind = Int | Float | Str | Bool | Dict | List | Nested(kind: Kind) | Untyped

  /** The entries whose type constructor `__getitem__` applies to the stored
      value (`func in [dict, int, str, float, bool]`). */
  predicate Converts(f: FieldKind)
  {
    f.Int? || f.Float? || f.Str? || f.Bool? || f.Dict?
  }

  predicate IsScalar(f: FieldKind)
  {
    f.Int? || f.Float? || f.Str? || f.Bool?
  }

  type Table = map<string, FieldKind>

  /** `parameter_type.get(tag)`: Python `None` both for a tag the table does
      not mention and for one it declares as `None`. */
  function TypeOf(t: Table, tag: string): (r: Option<FieldKind>)
    ensures r.None? <==> tag !in t || t[tag] == Untyped
    ensures r.Some? ==> r.value == t[tag] && r.value != Untyped
  {
    if tag in t && t[tag] != Untyped then Some(t[tag]) else None
  }

  /** The `parameter_type` table of each kind. */
  function ParameterTypes(k: Kind): Table
  {
    match k
    case Analysis => map[
      "ID" := Int, "Name" := Str, "Kind" := Str, "Description" := Str,
      "ParentID" := Int, "Method" := Str, "GeometryId" := Int,
      "Geometry" := Untyped, "Context" := Untyped,
      "ExcludeInitDeformation" := Bool, "Results" := Nested(Results),
      "TimeIncrements" := Nested(TimeIncrements), "ComputedPhysics" := Dict]
    case TimeIncrements => map[
      "Duration" := Float, "IncrementOption" := Str, "IncrementCount" := Int,
      "InitialIncrementSize" := Float, "TimeSteps" := List]
    case Context => map[
      "AnalysisID" := Int, "GeometryUsesMaterials" := Dict,
      "HydraulicBCDistribution" := Dict]
    case MaterialStressStrain => map[
      "ResidualWCPercent" := Float, "GeologicalStrengthIndex" := Float,
      "ResponseType" := Str, "UnitWeight" := Float, "CohesionPrime" := Float,
      "PhiPrime" := Float, "Rf" := Float, "OCRatio" := Float,
      "ConsolLambda" := Float, "OCKappa" := Float, "InitVoidRatio" := Float,
      "YieldSurfaceShape" := Float, "LimitOfAnisotropy" := Float,
      "YoungsPrimeModulus" := Float, "EffectivePoissonsRatio" := Float,
      "JointEffectiveCohesion" := Float, "IntactRockParam" := Float]
    case MaterialHydraulicFunction => map[
      "KSat" := Float, "VolWC" := Float, "Beta" := Float,
      "KFnNum" := Int, "VolWCFnNum" := Int,
      "KFn" := Nested(Function), "VolWCFn" := Nested(Function)]
    case Material => map[
      "ID" := Int, "Name" := Str, "Color" := Nested(Color),
      "SeepModel" := Str, "SlopeModel" := Str, "StressModel" := Str,
      "Hydraulic" := Nested(MaterialHydraulicFunction),
      "StressStrain" := Nested(MaterialStressStrain)]
    case Function => map[
      "ID" := Int, "Name" := Str, "Points" := List, "Function" := Str,
      "Estimate" := Str, "Types" := List, "FunctionParameter" := Dict,
      "FunctionType" := Str]
    case Reinforcement => map[
      "Name" := Str, "Type" := Str, "ID" := Int, "Color" := Nested(Color),
      "ShearForce" := Float, "ShearReductionFactor" := Float,
      "Spacing" := Float, "BondLength" := Float, "BondDiameter" := Float,
      "PulloutReductionFactor" := Float,
      "ReinforcementForceReductionFactor" := Float,
      "TensileCapacity" := Float, "PulloutResistance" := Float,
      "ForceDistribution" := Str, "FofSDependent" := Bool,
      "CalculatedPulloutResistance" := Bool, "SurfaceAreaFactor" := Float,
      "ReinfForceVsDistanceFnNum" := Int, "ForceOrientation" := Float]
    case Dataset => map[
      "ID" := Int, "Name" := Str, "FilePath" := Str, "CsvID" := Int,
      "Parameters" := Nested(DatasetParameters), "NumRows" := Int]
    case Results => map[]
    case DatasetParameters => map[]
    case Color => map[]
  }

  /** The `my_data` list of each kind: fields that live only in the Python
      object and are never written back. */
  function MyData(k: Kind): set<string>
  {
    match k
    case Analysis => {"Geometry", "Context", "Results"}
    case MaterialHydraulicFunction => {"KFn", "VolWCFn"}
    case Function => {"Types", "FunctionParameter", "FunctionType"}
    case Dataset => {"Data"}
    case _ => {}
  }
}
