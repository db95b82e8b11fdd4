/** ReusableObjectValidator: a reusable object needs a reference, and an
  * overriding value only makes sense for a reference to a parameter. */
module ReusableObjectValidator {
  import opened Wrappers
  import opened Strings
  import opened Model
  import opened ValidationResults

  const Where := "reusableObject"

  const ReferenceMandatory := "reference: is mandatory"
  const ValueParametersOnly := "value: is applicable for parameter object references only"

  /** A runtime-expression reference (`$…`) that does not point at parameters. */
  predicate NamesNonParameter(reference: string) {
    StartsWith(reference, "$") && !HasSubstring(reference, ".parameters.")
  }

  /** ReusableObjectValidator.validate. */
  function Check(obj: ReusableObject): Report {
    var referenced := if obj.reference.None? then Empty.AddError(Where, ReferenceMandatory) else Empty;
    if !IsEmpty(obj.value) && obj.reference.Some? && NamesNonParameter(obj.reference.value) then
      referenced.AddError(Where, ValueParametersOnly)
    else referenced
  }

  method Validate(obj: ReusableObject) returns (result: ValidationResult)
    ensures fresh(result) && result.Contents() == Check(obj)
  {
    result := new ValidationResult();
    if obj.reference.None? {
      result.AddError(Where, ReferenceMandatory);
    }
    if !IsEmpty(obj.value) {
      if obj.reference.Some? {
        var referenceAsString := obj.reference.value;
        if StartsWith(referenceAsString, "$") && !HasSubstring(referenceAsString, ".parameters.") {
          result.AddError(Where, ValueParametersOnly);
        }
      }
    }
  }

  /** The result is invalid exactly when the reference is missing or a value
    * overrides a `$…` reference that does not name a parameter; an empty
    * value is never looked at, and a `#/…` reference is always accepted. */
  lemma ReusableObjectRules(obj: ReusableObject)
    ensures Check(obj).invalid <==>
      obj.reference.None? || (!IsEmpty(obj.value) && NamesNonParameter(obj.reference.value))
    ensures IsEmpty(obj.value) ==>
      Check(obj).errors == (if obj.reference.None? then [Location(Where, ReferenceMandatory)] else [])
    ensures obj.reference.Some? && StartsWith(obj.reference.value, "#/") ==> Check(obj) == Empty
    ensures Check(obj).warnings == [] && Check(obj).unique == [] && Check(obj).invalidTypes == []
  {
    if obj.reference.Some? && StartsWith(obj.reference.value, "#/") {
      StartsWithFirst(obj.reference.value, "#/");
      StartsWithFirst(obj.reference.value, "$");
    }
  }

  /** Concretely: a value is accepted with `$components.parameters.p` and
    * rejected with `$steps.s`. */
  lemma ParameterReferencesOnly()
    ensures !Check(ReusableObject(Some("$components.parameters.p"), Some("v"))).invalid
    ensures Check(ReusableObject(Some("$steps.s"), Some("v"))).invalid
  {
    var p := "$components.parameters.p";
    assert OccursAt(p, ".parameters.", 11);
  }
}
