/** PayloadReplacementObjectValidator: a replacement needs a target and a value. */
module PayloadReplacementValidator {
  import opened Wrappers
  import opened Strings
  import opened Model
  import opened ValidationResults
  import opened Validator

  const Where := "payloadReplacementObject"

  const TargetMandatory := "target: is mandatory"
  const ValueMandatory := "value: is mandatory"

  /** PayloadReplacementObjectValidator.validate. */
  function Check(p: PayloadReplacement, doc: Document, hooks: Hooks): Report {
    var targeted := if IsEmpty(p.target) then Empty.AddError(Where, TargetMandatory) else Empty;
    var valued := if p.value.None? then targeted.AddError(Where, ValueMandatory) else targeted;
    WithExtensions(valued, p.extensions, doc, hooks)
  }

  method Validate(p: PayloadReplacement, doc: Document, hooks: Hooks) returns (result: ValidationResult)
    ensures fresh(result) && result.Contents() == Check(p, doc, hooks)
  {
    result := new ValidationResult();
    if IsEmpty(p.target) {
      result.AddError(Where, TargetMandatory);
    }
    if p.value.None? {
      result.AddError(Where, ValueMandatory);
    }
    if |p.extensions| > 0 {
      var extensions := new ValidationResult.Of(hooks.extensions(p.extensions, doc));
      result.Merge(extensions);
    }
  }

  /** A missing target or value is an error; with both and no extensions the
    * result is valid and has no entries at all. */
  lemma PayloadReplacementRules(p: PayloadReplacement, doc: Document, hooks: Hooks)
    ensures IsEmpty(p.target) ==> Location(Where, TargetMandatory) in Check(p, doc, hooks).errors
    ensures p.value.None? ==> Location(Where, ValueMandatory) in Check(p, doc, hooks).errors
    ensures (IsEmpty(p.target) || p.value.None?) ==> Check(p, doc, hooks).invalid
    ensures (!IsEmpty(p.target) && p.value.Some? && |p.extensions| == 0) ==> Check(p, doc, hooks) == Empty
    ensures |p.extensions| > 0 ==> Check(p, doc, hooks).errors[|Check(p, doc, hooks).errors| - |hooks.extensions(p.extensions, doc).errors|..]
                                   == hooks.extensions(p.extensions, doc).errors
  {
  }
}
