/**
 * The decoded project specification. Python dicts are modelled as sequences of
 * entries in insertion order, which is the order the generator iterates them in.
 */
module Spec {
  import opened Results

  /** One entry of a model's field mapping: attribute name and its type expression, kept verbatim. */
  datatype Field = Field(name: string, typeExpr: string)

  /** One entry of `models_spec`: a model name and its field mapping. */
  datatype Model = Model(name: string, fields: seq<Field>)

  /** One entry of `endpoints_spec`: an endpoint name and its attribute mapping (expected to hold `path`). */
  datatype Endpoint = Endpoint(name: string, details: seq<(string, string)>)

  /** The whole request: names plus the two decoded mappings. */
  datatype Specification = Specification(
    projectName: string,
    appName: string,
    models: seq<Model>,
    endpoints: seq<Endpoint>)

  /** `list(models_spec.keys())` */
  function ModelNames(models: seq<Model>): (names: seq<string>)
    ensures |names| == |models|
    ensures forall i :: 0 <= i < |models| ==> names[i] == models[i].name
  {
    if models == [] then [] else [models[0].name] + ModelNames(models[1..])
  }

  /** `d[key]` on a dict: the value stored under `key`, or None where Python raises KeyError. */
  function Lookup(d: seq<(string, string)>, key: string): (r: Option<string>)
    ensures r.Some? <==> exists i :: 0 <= i < |d| && d[i].0 == key
    ensures r.Some? ==> exists i :: 0 <= i < |d| && d[i] == (key, r.value)
  {
    if d == [] then None
    else if d[0].0 == key then Some(d[0].1)
    else
      var r := Lookup(d[1..], key);
      assert forall i :: 0 < i < |d| ==> d[i] == d[1..][i - 1];
      r
  }
}
