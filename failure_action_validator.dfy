/** FailureActionValidator: a failure action needs a name and a type.  A
  * GOTO or RETRY names at most one target (GOTO exactly one), which must
  * exist; only RETRY may carry retry settings, and they must not be
  * negative; an END has no target.  Its criteria are validated too. */
module FailureActionValidator {
  import opened Wrappers
  import opened Strings
  import opened Model
  import opened ValidationResults
  import opened Validator
  import CriterionValidator

  const Where := "failureObject"

  // ----- the messages it records ---------------------------------------------

  const NameMandatory := "name: is mandatory"
  const TypeMandatory := "type: is mandatory"
  const GotoNeedsTarget := "goto: requires one of 'workflowId' or 'stepId' to be set"
  const GotoExclusive := "goto: mutually excludes 'workflowId' and 'stepId' to be set"
  const RetryAfterNegative := "retryAfter: must be non-negative"
  const RetryLimitNegative := "retryLimit: must be non-negative integer"
  const RetryAfterOnRetryOnly := "retryAfter: allowed on 'retry' only"
  const RetryLimitOnRetryOnly := "retryLimit: allowed on 'retry' only"
  const EndHasTarget := "type.end: must not have 'workflowId' nor 'stepId'"

  function WorkflowNotFound(id: string): string {
    "workflow: '" + id + "' was not found"
  }

  function StepNotFound(id: string): string {
    "stepId: '" + id + "' was not found"
  }

  function NoParentWorkflow(id: string): string {
    "stepId: '" + id + "' has no parent workflow"
  }

  // ----- the sections of validate ----------------------------------------------

  /** A missing name and a missing type are each an error of their own, and
    * nothing else is recorded. */
  function Basics(fa: FailureAction): (r: Report)
    ensures r.invalid <==> IsEmpty(fa.name) || fa.atype.None?
    ensures (Location(Where, NameMandatory) in r.errors) == IsEmpty(fa.name)
    ensures (Location(Where, TypeMandatory) in r.errors) == fa.atype.None?
    ensures r.invalidTypes == [] && r.warnings == [] && r.unique == []
  {
    var named := if IsEmpty(fa.name) then Empty.AddError(Where, NameMandatory) else Empty;
    if fa.atype.None? then named.AddError(Where, TypeMandatory) else named
  }

  /** How many of workflowId and stepId are set. */
  function TargetCount(fa: FailureAction): nat {
    (if fa.workflowId.Some? then 1 else 0) + (if fa.stepId.Some? then 1 else 0)
  }

  /** A GOTO needs a target; neither kind may have two. */
  function Counted(r: Report, fa: FailureAction): (res: Report)
    ensures Extends(r, res)
  {
    if TargetCount(fa) == 0 && fa.atype == Some(FailureGoto) then r.AddError(Where, GotoNeedsTarget)
    else if TargetCount(fa) > 1 then r.AddError(Where, GotoExclusive)
    else r
  }

  /** A workflowId must name a workflow of the document. */
  function WorkflowTarget(r: Report, fa: FailureAction, doc: Document): (res: Result<Report>)
    ensures res.Ok? ==> Extends(r, res.value)
  {
    if fa.workflowId.None? then Ok(r)
    else
      var exists_ :- WorkflowIdIn(doc.workflows, fa.workflowId.value);
      Ok(if !exists_ then r.AddError(Where, WorkflowNotFound(fa.workflowId.value)) else r)
  }

  /** Inside a step, a stepId must name a step of the workflow holding that step. */
  function StepTarget(r: Report, fa: FailureAction, context: Context, doc: Document): (res: Result<Report>)
    ensures res.Ok? ==> Extends(r, res.value)
  {
    if fa.stepId.None? || !context.StepContext? then Ok(r)
    else
      match ParentWorkflow(doc.workflows, context.step)
        case None => Ok(r.AddError(Where, NoParentWorkflow(fa.stepId.value)))
        case Some(parent) =>
          var exists_ :- StepIdIn(parent.steps, fa.stepId.value);
          Ok(if !exists_ then r.AddError(Where, StepNotFound(fa.stepId.value)) else r)
  }

  /** Retry settings: non-negative on a RETRY, absent on anything else. */
  function RetrySettings(r: Report, fa: FailureAction): (res: Report)
    ensures Extends(r, res)
  {
    if fa.atype == Some(FailureRetry) then
      var after := if fa.retryAfter.Some? && fa.retryAfter.value < 0 then r.AddError(Where, RetryAfterNegative) else r;
      if fa.retryLimit.Some? && fa.retryLimit.value < 0 then after.AddError(Where, RetryLimitNegative) else after
    else
      var after := if fa.retryAfter.Some? then r.AddError(Where, RetryAfterOnRetryOnly) else r;
      if fa.retryLimit.Some? then after.AddError(Where, RetryLimitOnRetryOnly) else after
  }

  /** The GOTO / RETRY branch. */
  function Jump(r: Report, fa: FailureAction, context: Context, doc: Document): (res: Result<Report>)
    ensures res.Ok? ==> Extends(r, res.value)
  {
    var counted := Counted(r, fa);
    var toWorkflow :- WorkflowTarget(counted, fa, doc);
    var toStep :- StepTarget(toWorkflow, fa, context, doc);
    ExtendsTrans(r, counted, toWorkflow);
    Ok(RetrySettings(toStep, fa))
  }

  /** The END branch: no target and no retry settings. */
  function Ended(r: Report, fa: FailureAction): (res: Report)
    ensures Extends(r, res)
  {
    var targeted := if fa.workflowId.Some? || fa.stepId.Some? then r.AddError(Where, EndHasTarget) else r;
    RetrySettings(targeted, fa)
  }

  function Typed(r: Report, fa: FailureAction, context: Context, doc: Document): (res: Result<Report>)
    ensures res.Ok? ==> Extends(r, res.value)
  {
    match fa.atype
      case None => Ok(r)
      case Some(FailureEnd) => Ok(Ended(r, fa))
      case Some(_) => Jump(r, fa, context, doc)
  }

  function Criteria(r: Report, fa: FailureAction, doc: Document, hooks: Hooks): (res: Result<Report>)
    ensures res.Ok? ==> Extends(r, res.value)
  {
    if fa.criteria.None? then Ok(r)
    else
      var walked := MergeEach(r, fa.criteria.value, CriterionValidator.Checker(doc, hooks));
      if walked.Ok? then MergeEachKeeps(r, fa.criteria.value, CriterionValidator.Checker(doc, hooks)); walked
      else walked
  }

  /** The criteria, then the extensions. */
  function CriteriaAndExtensions(r: Report, fa: FailureAction, doc: Document, hooks: Hooks): (res: Result<Report>)
    ensures res.Ok? ==> Extends(r, res.value)
  {
    var judged :- Criteria(r, fa, doc, hooks);
    ExtendsTrans(r, judged, WithExtensions(judged, fa.extensions, doc, hooks));
    Ok(WithExtensions(judged, fa.extensions, doc, hooks))
  }

  /** FailureActionValidator.validate. */
  function Check(fa: FailureAction, context: Context, doc: Document, hooks: Hooks): Result<Report> {
    var typed :- Typed(Basics(fa), fa, context, doc);
    CriteriaAndExtensions(typed, fa, doc, hooks)
  }

  // ----- the validator -----------------------------------------------------------------

  method Validate(fa: FailureAction, context: Context, doc: Document, hooks: Hooks) returns (r: Result<ValidationResult>)
    ensures Outcome(r, Check(fa, context, doc, hooks)) && (r.Ok? ==> fresh(r.value))
  {
    var result := new ValidationResult();
    if IsEmpty(fa.name) {
      result.AddError(Where, NameMandatory);
    }
    if fa.atype.None? {
      result.AddError(Where, TypeMandatory);
    }
    var thrown := ValidateTyped(result, fa, context, doc);
    if thrown.Some? {
      return Err(thrown.value);
    }
    thrown := ValidateCriteriaAndExtensions(result, fa, doc, hooks);
    if thrown.Some? {
      return Err(thrown.value);
    }
    return Ok(result);
  }

  method ValidateCriteriaAndExtensions(result: ValidationResult, fa: FailureAction, doc: Document, hooks: Hooks)
    returns (thrown: Option<Failure>)
    modifies result
    ensures CriteriaAndExtensions(old(result.Contents()), fa, doc, hooks)
         == if thrown.Some? then Err(thrown.value) else Ok(result.Contents())
  {
    if fa.criteria.Some? {
      thrown := ValidateCriteria(result, fa.criteria.value, doc, hooks);
      if thrown.Some? {
        return;
      }
    }
    if |fa.extensions| > 0 {
      var extensions := new ValidationResult.Of(hooks.extensions(fa.extensions, doc));
      result.Merge(extensions);
    }
    return None;
  }

  method ValidateTyped(result: ValidationResult, fa: FailureAction, context: Context, doc: Document)
    returns (thrown: Option<Failure>)
    modifies result
    ensures Typed(old(result.Contents()), fa, context, doc)
         == if thrown.Some? then Err(thrown.value) else Ok(result.Contents())
  {
    thrown := None;
    if fa.atype == Some(FailureGoto) || fa.atype == Some(FailureRetry) {
      thrown := ValidateJump(result, fa, context, doc);
    } else if fa.atype == Some(FailureEnd) {
      if fa.workflowId.Some? || fa.stepId.Some? {
        result.AddError(Where, EndHasTarget);
      }
      ValidateRetrySettings(result, fa);
    }
  }

  method ValidateJump(result: ValidationResult, fa: FailureAction, context: Context, doc: Document)
    returns (thrown: Option<Failure>)
    modifies result
    ensures Jump(old(result.Contents()), fa, context, doc)
         == if thrown.Some? then Err(thrown.value) else Ok(result.Contents())
  {
    var countSet := 0;
    if fa.workflowId.Some? {
      countSet := countSet + 1;
    }
    if fa.stepId.Some? {
      countSet := countSet + 1;
    }
    if countSet == 0 && fa.atype == Some(FailureGoto) {
      result.AddError(Where, GotoNeedsTarget);
    } else if countSet > 1 {
      result.AddError(Where, GotoExclusive);
    }
    thrown := ValidateWorkflowTarget(result, fa, doc);
    if thrown.Some? {
      return;
    }
    thrown := ValidateStepTarget(result, fa, context, doc);
    if thrown.Some? {
      return;
    }
    ValidateRetrySettings(result, fa);
  }

  method ValidateWorkflowTarget(result: ValidationResult, fa: FailureAction, doc: Document)
    returns (thrown: Option<Failure>)
    modifies result
    ensures WorkflowTarget(old(result.Contents()), fa, doc)
         == if thrown.Some? then Err(thrown.value) else Ok(result.Contents())
  {
    if fa.workflowId.Some? {
      var workflowExists := WorkflowIdIn(doc.workflows, fa.workflowId.value);
      if workflowExists.Err? {
        return Some(workflowExists.error);
      }
      if !workflowExists.value {
        result.AddError(Where, WorkflowNotFound(fa.workflowId.value));
      }
    }
    return None;
  }

  method ValidateStepTarget(result: ValidationResult, fa: FailureAction, context: Context, doc: Document)
    returns (thrown: Option<Failure>)
    modifies result
    ensures StepTarget(old(result.Contents()), fa, context, doc)
         == if thrown.Some? then Err(thrown.value) else Ok(result.Contents())
  {
    if fa.stepId.Some? && context.StepContext? {
      var parentWorkflow := FindParentWorkflow(context.step, doc);
      if parentWorkflow.Some? {
        var stepExists := StepIdIn(parentWorkflow.value.steps, fa.stepId.value);
        if stepExists.Err? {
          return Some(stepExists.error);
        }
        if !stepExists.value {
          result.AddError(Where, StepNotFound(fa.stepId.value));
        }
      } else {
        result.AddError(Where, NoParentWorkflow(fa.stepId.value));
      }
    }
    return None;
  }

  method ValidateRetrySettings(result: ValidationResult, fa: FailureAction)
    modifies result
    ensures result.Contents() == RetrySettings(old(result.Contents()), fa)
  {
    if fa.atype == Some(FailureRetry) {
      if fa.retryAfter.Some? && fa.retryAfter.value < 0 {
        result.AddError(Where, RetryAfterNegative);
      }
      if fa.retryLimit.Some? && fa.retryLimit.value < 0 {
        result.AddError(Where, RetryLimitNegative);
      }
    } else {
      if fa.retryAfter.Some? {
        result.AddError(Where, RetryAfterOnRetryOnly);
      }
      if fa.retryLimit.Some? {
        result.AddError(Where, RetryLimitOnRetryOnly);
      }
    }
  }

  /** `criteria.forEach(c -> result.merge(criterionValidator.validate(c, …)))`. */
  method ValidateCriteria(result: ValidationResult, criteria: seq<Criterion>, doc: Document, hooks: Hooks)
    returns (thrown: Option<Failure>)
    modifies result
    ensures MergeEach(old(result.Contents()), criteria, CriterionValidator.Checker(doc, hooks))
         == if thrown.Some? then Err(thrown.value) else Ok(result.Contents())
  {
    ghost var start := result.Contents();
    var i := 0;
    while i < |criteria|
      invariant 0 <= i <= |criteria|
      invariant MergeEach(start, criteria[..i], CriterionValidator.Checker(doc, hooks)) == Ok(result.Contents())
    {
      var sub := CriterionValidator.Validate(criteria[i], doc, hooks);
      MergeEachStep(start, criteria, CriterionValidator.Checker(doc, hooks), i);
      if sub.Err? {
        MergeEachStops(start, criteria, CriterionValidator.Checker(doc, hooks), i + 1);
        return Some(sub.error);
      }
      result.Merge(sub.value);
      i := i + 1;
    }
    assert criteria[..i] == criteria;
    return None;
  }

  // ----- what validate promises ----------------------------------------------------

  /** The target rules of GOTO and RETRY: a GOTO without target and any
    * action with both targets are errors, as is a negative retry setting
    * on a RETRY and any retry setting on a GOTO. */
  lemma JumpRules(fa: FailureAction, context: Context, doc: Document, hooks: Hooks)
    requires fa.atype == Some(FailureGoto) || fa.atype == Some(FailureRetry)
    requires Check(fa, context, doc, hooks).Ok?
    ensures fa.atype == Some(FailureGoto) && fa.workflowId.None? && fa.stepId.None? ==>
      Location(Where, GotoNeedsTarget) in Check(fa, context, doc, hooks).value.errors
    ensures fa.workflowId.Some? && fa.stepId.Some? ==>
      Location(Where, GotoExclusive) in Check(fa, context, doc, hooks).value.errors
    ensures fa.atype == Some(FailureRetry) && fa.retryLimit.Some? && fa.retryLimit.value < 0 ==>
      Location(Where, RetryLimitNegative) in Check(fa, context, doc, hooks).value.errors
    ensures fa.atype == Some(FailureRetry) && fa.retryAfter.Some? && fa.retryAfter.value < 0 ==>
      Location(Where, RetryAfterNegative) in Check(fa, context, doc, hooks).value.errors
    ensures fa.atype == Some(FailureGoto) && fa.retryAfter.Some? ==>
      Location(Where, RetryAfterOnRetryOnly) in Check(fa, context, doc, hooks).value.errors
    ensures fa.atype == Some(FailureGoto) && fa.retryLimit.Some? ==>
      Location(Where, RetryLimitOnRetryOnly) in Check(fa, context, doc, hooks).value.errors
  {
    var basics := Basics(fa);
    var counted := Counted(basics, fa);
    var toWorkflow := WorkflowTarget(counted, fa, doc).value;
    var toStep := StepTarget(toWorkflow, fa, context, doc).value;
    var retried := RetrySettings(toStep, fa);
    var typed := Typed(basics, fa, context, doc).value;
    assert typed == retried;
    var done := Check(fa, context, doc, hooks).value;
    var judged := Criteria(typed, fa, doc, hooks).value;
    ExtendsTrans(typed, judged, done);
    ExtendsTrans(toWorkflow, toStep, retried);
    ExtendsTrans(counted, toWorkflow, retried);
    ExtendsTrans(counted, retried, done);
    ExtendsTrans(toStep, retried, done);
    ExtendsKeeps(counted, done, Location(Where, GotoNeedsTarget));
    ExtendsKeeps(counted, done, Location(Where, GotoExclusive));
    RetryListed(toStep, fa);
    ExtendsKeeps(retried, done, Location(Where, RetryLimitNegative));
    ExtendsKeeps(retried, done, Location(Where, RetryAfterNegative));
    ExtendsKeeps(retried, done, Location(Where, RetryAfterOnRetryOnly));
    ExtendsKeeps(retried, done, Location(Where, RetryLimitOnRetryOnly));
  }

  lemma RetryListed(r: Report, fa: FailureAction)
    ensures fa.atype == Some(FailureRetry) && fa.retryLimit.Some? && fa.retryLimit.value < 0 ==>
      Location(Where, RetryLimitNegative) in RetrySettings(r, fa).errors
    ensures fa.atype == Some(FailureRetry) && fa.retryAfter.Some? && fa.retryAfter.value < 0 ==>
      Location(Where, RetryAfterNegative) in RetrySettings(r, fa).errors
    ensures fa.atype != Some(FailureRetry) && fa.retryAfter.Some? ==>
      Location(Where, RetryAfterOnRetryOnly) in RetrySettings(r, fa).errors
    ensures fa.atype != Some(FailureRetry) && fa.retryLimit.Some? ==>
      Location(Where, RetryLimitOnRetryOnly) in RetrySettings(r, fa).errors
  {
    if fa.atype != Some(FailureRetry) && fa.retryAfter.Some? {
      var after := r.AddError(Where, RetryAfterOnRetryOnly);
      OperationsExtend(after, Where, RetryLimitOnRetryOnly, "", Empty);
      ExtendsKeeps(after, RetrySettings(r, fa), Location(Where, RetryAfterOnRetryOnly));
    }
    if fa.atype == Some(FailureRetry) && fa.retryAfter.Some? && fa.retryAfter.value < 0 {
      var after := r.AddError(Where, RetryAfterNegative);
      OperationsExtend(after, Where, RetryLimitNegative, "", Empty);
      ExtendsKeeps(after, RetrySettings(r, fa), Location(Where, RetryAfterNegative));
    }
  }

  /** Targets that exist: the workflow a workflowId names is looked up among
    * the document's workflows, a stepId among the steps of the workflow
    * holding the step in context; a missing one is reported, and a lookup
    * that meets an id-less entry first throws. */
  lemma TargetLookups(r: Report, fa: FailureAction, context: Context, doc: Document)
    ensures fa.workflowId.Some? ==>
      WorkflowTarget(r, fa, doc) ==
        match WorkflowIdIn(doc.workflows, fa.workflowId.value)
          case Err(e) => Err(e)
          case Ok(found) => Ok(if found then r else r.AddError(Where, WorkflowNotFound(fa.workflowId.value)))
    ensures fa.stepId.Some? && context.StepContext? && ParentWorkflow(doc.workflows, context.step).None? ==>
      StepTarget(r, fa, context, doc) == Ok(r.AddError(Where, NoParentWorkflow(fa.stepId.value)))
    ensures (fa.stepId.Some? && context.StepContext? && ParentWorkflow(doc.workflows, context.step).Some?
             && (forall s :: s in ParentWorkflow(doc.workflows, context.step).value.steps ==> s.stepId.Some?)) ==>
      StepTarget(r, fa, context, doc).Ok?
    ensures fa.stepId.None? || !context.StepContext? ==> StepTarget(r, fa, context, doc) == Ok(r)
  {
  }

  /** An END never throws on its own fields: it reports a target and any
    * retry setting. */
  lemma EndRules(fa: FailureAction, context: Context, doc: Document, hooks: Hooks)
    requires fa.atype == Some(FailureEnd)
    ensures Typed(Basics(fa), fa, context, doc).Ok?
    ensures (fa.workflowId.Some? || fa.stepId.Some?) ==>
      Location(Where, EndHasTarget) in Typed(Basics(fa), fa, context, doc).value.errors
    ensures fa.retryAfter.Some? ==>
      Location(Where, RetryAfterOnRetryOnly) in Typed(Basics(fa), fa, context, doc).value.errors
    ensures fa.retryLimit.Some? ==>
      Location(Where, RetryLimitOnRetryOnly) in Typed(Basics(fa), fa, context, doc).value.errors
  {
    var basics := Basics(fa);
    var targeted := if fa.workflowId.Some? || fa.stepId.Some? then basics.AddError(Where, EndHasTarget) else basics;
    if fa.workflowId.Some? || fa.stepId.Some? {
      ExtendsKeeps(targeted, Ended(basics, fa), Location(Where, EndHasTarget));
    }
    RetryListed(targeted, fa);
  }

  /** The first criterion whose validation throws makes the whole action throw. */
  lemma CriterionThrows(fa: FailureAction, context: Context, doc: Document, hooks: Hooks, i: nat)
    requires fa.criteria.Some? && i < |fa.criteria.value|
    requires Typed(Basics(fa), fa, context, doc).Ok?
    requires MergeEach(Typed(Basics(fa), fa, context, doc).value, fa.criteria.value[..i], CriterionValidator.Checker(doc, hooks)).Ok?
    requires CriterionValidator.Check(fa.criteria.value[i], doc, hooks).Err?
    ensures Check(fa, context, doc, hooks) == Err(CriterionValidator.Check(fa.criteria.value[i], doc, hooks).error)
  {
    var typed := Typed(Basics(fa), fa, context, doc).value;
    MergeEachStep(typed, fa.criteria.value, CriterionValidator.Checker(doc, hooks), i);
    MergeEachStops(typed, fa.criteria.value, CriterionValidator.Checker(doc, hooks), i + 1);
  }
}
