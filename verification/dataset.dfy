/** `DatasetParameters`: the column names of a dataset, kept as the texts
    of its `Parameter` children. */
module Datasets {
  import opened Wrappers
  import opened Xml
  import opened Values
  import Text

  /** The constructor: the children's texts, in document order (the child
      tags are not looked at). */
  function ReadParams(e: Element): (r: Record)
    ensures r.ParamsRec? && |r.params| == |e.children|
    ensures forall i :: 0 <= i < |e.children| ==> r.params[i] == e.children[i].text
  {
    ParamsRec(seq(|e.children|, i requires 0 <= i < |e.children| => e.children[i].text))
  }

  /** One `Parameter` leaf per name. */
  function ParamLeaves(ps: seq<Option<string>>): (r: seq<Element>)
    ensures |r| == |ps|
    ensures forall i :: 0 <= i < |ps| ==> r[i] == Leaf("Parameter", ps[i])
  {
    seq(|ps|, i requires 0 <= i < |ps| => Leaf("Parameter", ps[i]))
  }

  /** `__write__` into the element created for the field `tag`: `Len` is
      the count, then one `Parameter` child per name, in order. */
  function WriteParams(tag: string, ps: seq<Option<string>>): Element
  {
    Counted(tag, ParamLeaves(ps))
  }

  /** The parameter list survives a write and a read. */
  lemma ParamsRoundTrip(tag: string, ps: seq<Option<string>>)
    ensures ReadParams(WriteParams(tag, ps)) == ParamsRec(ps)
    ensures IntAttr(WriteParams(tag, ps), "Len") == Ok(|ps|)
  {
    Text.IntStrRoundTrip(|ps|);
  }

  /** All parameters are strings. */
  predicate AllPresent(ps: seq<Option<string>>)
  {
    forall i :: 0 <= i < |ps| ==> ps[i].Some?
  }

  function Present(ps: seq<Option<string>>): (r: seq<string>)
    requires AllPresent(ps)
    ensures |r| == |ps| && forall i :: 0 <= i < |ps| ==> Some(r[i]) == ps[i]
  {
    seq(|ps|, i requires 0 <= i < |ps| => ps[i].value)
  }

  /** `__str__`: the names joined with commas; TypeError when one of them
      is None (an empty `Parameter` element). */
  function ParamsString(ps: seq<Option<string>>): (r: Result<string>)
    ensures r.Ok? <==> AllPresent(ps)
  {
    if AllPresent(ps) then Ok(Text.Join(Present(ps), ",")) else Err(TypeError("sequence item: expected str instance, NoneType found"))
  }

  /** Splitting the string form on commas gives back the parameters, when
      there is at least one and none contains a comma. */
  lemma ParamsStringSplits(ps: seq<string>)
    requires |ps| >= 1 && forall i :: 0 <= i < |ps| ==> ',' !in ps[i]
    ensures ParamsString(seq(|ps|, i requires 0 <= i < |ps| => Some(ps[i]))) == Ok(Text.Join(ps, ","))
    ensures Text.Split(Text.Join(ps, ","), ',') == ps
  {
    var os := seq(|ps|, i requires 0 <= i < |ps| => Some(ps[i]));
    assert Present(os) == ps;
    Text.SplitJoin(ps, ',');
  }

  /** The keys of `Dataset.dataset_parameters`: the column kinds GeoStudio
      accepts. */
  const ParameterNames: set<string> := {"AirTemperature", "PotEvapotranspiration", "PrecipitationRainfall", "Time", "WaterFlux"}
}
