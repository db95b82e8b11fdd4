/** ParameterValidator: a parameter needs a name and a value, and inside a
  * step that calls another workflow it also needs its location (`in`).
  * It refuses to run without a context. */
module ParameterValidator {
  import opened Wrappers
  import opened Strings
  import opened Model
  import opened ValidationResults
  import opened Validator

  const Where := "parameter"

  const ContextMissing := "Validation context for parameter must not be null"
  const NameMandatory := "name: is mandatory"
  const ValueMandatory := "value: is mandatory"
  const InMandatory := "in: is mandatory when step in context defines a workflowId"

  /** A step context whose step calls a workflow demands `in`. */
  predicate NeedsIn(p: Parameter, context: Context) {
    context.StepContext? && p.pin.None? && context.step.workflowId.Some?
  }

  /** The name, the value and `in`, before the extensions. */
  function Fields(p: Parameter, context: Context): Report {
    var named := if IsEmpty(p.name) then Empty.AddError(Where, NameMandatory) else Empty;
    var valued := if p.value.None? then named.AddError(Where, ValueMandatory) else named;
    if NeedsIn(p, context) then valued.AddError(Where, InMandatory) else valued
  }

  /** ParameterValidator.validate. */
  function Check(p: Parameter, context: Context, doc: Document, hooks: Hooks): Result<Report> {
    if context.NoContext? then Err(IllegalState(ContextMissing))
    else Ok(WithExtensions(Fields(p, context), p.extensions, doc, hooks))
  }

  method Validate(p: Parameter, context: Context, doc: Document, hooks: Hooks) returns (r: Result<ValidationResult>)
    ensures Outcome(r, Check(p, context, doc, hooks)) && (r.Ok? ==> fresh(r.value))
  {
    if context.NoContext? {
      return Err(IllegalState(ContextMissing));
    }
    var result := new ValidationResult();
    if IsEmpty(p.name) {
      result.AddError(Where, NameMandatory);
    }
    if p.value.None? {
      result.AddError(Where, ValueMandatory);
    }
    if context.StepContext? && p.pin.None? && context.step.workflowId.Some? {
      result.AddError(Where, InMandatory);
    }
    if |p.extensions| > 0 {
      var extensions := new ValidationResult.Of(hooks.extensions(p.extensions, doc));
      result.Merge(extensions);
    }
    return Ok(result);
  }

  /** Without a context the validator throws; with one, a missing name or
    * value is an error, and so is a missing `in` exactly when the context is
    * a step that calls a workflow. */
  lemma ParameterRules(p: Parameter, context: Context, doc: Document, hooks: Hooks)
    ensures Check(p, context, doc, hooks).Err? <==> context.NoContext?
    ensures Check(p, context, doc, hooks).Ok? ==>
      (IsEmpty(p.name) ==> Location(Where, NameMandatory) in Check(p, context, doc, hooks).value.errors)
      && (p.value.None? ==> Location(Where, ValueMandatory) in Check(p, context, doc, hooks).value.errors)
      && (NeedsIn(p, context) ==> Location(Where, InMandatory) in Check(p, context, doc, hooks).value.errors)
  {
    if !context.NoContext? {
      var fields := Fields(p, context);
      var checked := WithExtensions(fields, p.extensions, doc, hooks);
      ExtendsKeeps(fields, checked, Location(Where, NameMandatory));
      ExtendsKeeps(fields, checked, Location(Where, ValueMandatory));
      ExtendsKeeps(fields, checked, Location(Where, InMandatory));
    }
  }

  /** `in` is only demanded inside a step that calls a workflow: a complete
    * parameter without extensions is clean anywhere else, with or without
    * `in`. */
  lemma InOnlyForWorkflowSteps(p: Parameter, context: Context, doc: Document, hooks: Hooks)
    requires !context.NoContext? && !IsEmpty(p.name) && p.value.Some? && |p.extensions| == 0
    ensures Check(p, context, doc, hooks) == (if NeedsIn(p, context) then Ok(Empty.AddError(Where, InMandatory)) else Ok(Empty))
  {
  }
}
