/** A parameter override attached to a request spec: the name of a declared
    parameter and the value that replaces its example value. The type is
    defined outside request.rs; the model keeps only the pair that its
    constructor `ParamReplacement::new(name, val)` receives. */
module Param {

  datatype ParamReplacement = ParamReplacement(name: string, value: string)

  /** `ParamReplacement::new`, assumed to store both strings as given, without
      validation (its definition is not part of this model). */
  function NewReplacement(name: string, value: string): (p: ParamReplacement)
    ensures p.name == name && p.value == value
  {
    ParamReplacement(name, value)
  }
}
