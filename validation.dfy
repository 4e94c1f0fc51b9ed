/**
  What a Mongoose schema reports when `Model.create` rejects a document: one
  violation per failing path, collected into a `ValidationError` whose message
  the routes pass back as `{ error: message }`.
 */
module Validation {
  import opened Wrappers
  import opened Text

  datatype Violation =
    | Required(path: string)
    | BelowMin(path: string, value: int, min: int)
    | AboveMax(path: string, value: int, max: int)

  /** A `required: true` String path: present and not the empty string. */
  predicate RequiredString(f: Option<string>)
  {
    f.Some? && f.value != ""
  }

  /** The default message of each built-in validator. */
  function Describe(v: Violation): string
  {
    match v
    case Required(p) => "Path `" + p + "` is required."
    case BelowMin(p, x, m) =>
      "Path `" + p + "` (" + IntToString(x) + ") is less than minimum allowed value (" + IntToString(m) + ")."
    case AboveMax(p, x, m) =>
      "Path `" + p + "` (" + IntToString(x) + ") is more than maximum allowed value (" + IntToString(m) + ")."
  }

  function JoinViolations(vs: seq<Violation>): string
  {
    if vs == [] then ""
    else if |vs| == 1 then vs[0].path + ": " + Describe(vs[0])
    else vs[0].path + ": " + Describe(vs[0]) + ", " + JoinViolations(vs[1..])
  }

  /** `ValidationError.message` for the model named `model`. */
  function ValidationMessage(model: string, vs: seq<Violation>): string
  {
    model + " validation failed: " + JoinViolations(vs)
  }
}
