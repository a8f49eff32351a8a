/**
 * The ingest API's capability argument specification and its validation
 * hook (ingestmodels/capabilityschema.go): an argument is exactly one of
 * boolean, numeric or text.
 */
module CapabilitySchema {
  import opened Common

  datatype BooleanArgumentSpec = BooleanArgumentSpec(default: Option<bool>)
  datatype NumericArgumentSpec = NumericArgumentSpec(min: real, max: real, default: Option<real>)
  datatype TextArgumentSpec = TextArgumentSpec(default: Option<string>, min: Option<int>, max: Option<int>)

  datatype ArgumentSpec = ArgumentSpec(name: string, boolean: Option<BooleanArgumentSpec>,
                                       numeric: Option<NumericArgumentSpec>, text: Option<TextArgumentSpec>)

  const OneOfMessage := "Argument spec must have one and only one of boolean, numeric, or text defined"

  /** Exactly one of the three kinds is given. */
  predicate ExactlyOneKind(spec: ArgumentSpec) {
    (spec.boolean.Some? && spec.numeric.None? && spec.text.None?)
    || (spec.boolean.None? && spec.numeric.Some? && spec.text.None?)
    || (spec.boolean.None? && spec.numeric.None? && spec.text.Some?)
  }

  /**
   * IngestArgumentSpec.Resolve: no errors when exactly one kind is given;
   * otherwise (none, two or three) exactly one 400 error with the fixed
   * message. Name, bounds and defaults play no part.
   */
  method Resolve(spec: ArgumentSpec) returns (errs: seq<HttpError>)
    ensures errs == [] <==> ExactlyOneKind(spec)
    ensures errs != [] ==> errs == [BadRequest(OneOfMessage)]
  {
    var count := 0;
    if spec.boolean.Some? {
      count := count + 1;
    }
    if spec.numeric.Some? {
      count := count + 1;
    }
    if spec.text.Some? {
      count := count + 1;
    }
    if count != 1 {
      return [BadRequest(OneOfMessage)];
    }
    return [];
  }

  /** Specs given the same kinds are judged alike, whatever else they hold. */
  lemma VerdictDependsOnKindsOnly(a: ArgumentSpec, b: ArgumentSpec)
    requires a.boolean.Some? == b.boolean.Some? && a.numeric.Some? == b.numeric.Some? && a.text.Some? == b.text.Some?
    ensures ExactlyOneKind(a) <==> ExactlyOneKind(b)
  {
  }
}
