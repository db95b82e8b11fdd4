/** StepValidator: a step needs an id unique within its workflow, exactly
  * one of operationId, operationPath and workflowId (and that target must
  * exist), lists of actions and parameters without duplicates, output names
  * of the component-key form, and it hands its request body, criteria,
  * actions and parameters to their own validators with the step as
  * context. */
module StepValidator {
  import opened Wrappers
  import opened Strings
  import opened Model
  import opened ValidationResults
  import opened Validator
  import RequestBodyValidator
  import CriterionValidator
  import FailureActionValidator
  import ParameterValidator

  const Where := "step"

  // ----- the messages it records ---------------------------------------------

  const StepIdMandatory := "stepId: is mandatory"
  const OnSuccessDuplicates := "onSuccess must not contain duplicates"
  const OnFailureDuplicates := "onFailure must not contain duplicates"
  const ParametersDuplicates := "parameters: must not contain duplicates"

  function StepIdFormat(id: string): string {
    "stepId: does not comply to [A-Za-z0-9_\\-]+: " + id
  }

  function NotUnique(id: Option<string>, workflowId: Option<string>): string {
    "stepId: '" + Shown(id) + "' must be unique within workflow " + Shown(workflowId)
  }

  function NoParent(id: Option<string>): string {
    "stepId: '" + Shown(id) + "' has no parent workflow"
  }

  function TargetMissing(id: Option<string>): string {
    "step " + Shown(id) + " requires one of 'operationId', 'operationPath' or 'workflowId'"
  }

  function TargetsExclusive(id: Option<string>): string {
    "step " + Shown(id) + " fields 'operationId', 'operationPath' and 'workflowId' are mutually exclusive"
  }

  function OperationIdNotFound(id: Option<string>): string {
    "operationId: was not found for step " + Shown(id)
  }

  function OperationPathNotFound(id: Option<string>): string {
    "operationPath: was not found for step " + Shown(id)
  }

  function WorkflowIdNotFound(id: Option<string>): string {
    "workflowId: was not found for step " + Shown(id)
  }

  function OutputKeysInvalid(id: Option<string>): string {
    "output keys of step " + Shown(id) + " must comply to ^[a-zA-Z0-9\\.\\-_]+$"
  }

  // ----- the stepId format -------------------------------------------------------

  /** The class `[A-Za-z0-9_\\-]` the source writes: the doubled backslash
    * escapes a backslash, which the class then admits. */
  predicate StepIdCharAsWritten(c: char) {
    NameChar(c) || c == '\\'
  }

  predicate IsRecommendedStepIdAsWritten(id: string) {
    |id| > 0 && forall i :: 0 <= i < |id| ==> StepIdCharAsWritten(id[i])
  }

  /** The pattern as written lets a backslash through without the warning
    * its own message announces. */
  lemma AsWrittenAcceptsBackslash()
    ensures IsRecommendedStepIdAsWritten("a\\b")
    ensures !IsRecommendedName("a\\b")
  {
    assert !NameChar("a\\b"[1]);
  }

  /** The format the message names, which this model checks: no backslash, and
    * never stricter than the pattern as written. */
  lemma RecommendedStepIdRefusesBackslash(id: string)
    ensures IsRecommendedName(id) ==> forall i :: 0 <= i < |id| ==> id[i] != '\\'
    ensures IsRecommendedName(id) ==> IsRecommendedStepIdAsWritten(id)
  {
  }

  // ----- duplicates ---------------------------------------------------------------

  /** `xs.stream().distinct().count() != xs.size()`. */
  predicate HasDuplicates<T(==)>(xs: seq<T>) {
    |set x | x in xs| != |xs|
  }

  lemma {:induction false} DistinctCount<T>(xs: seq<T>)
    ensures |set x | x in xs| <= |xs|
    ensures |set x | x in xs| == |xs| <==> forall i, j :: 0 <= i < j < |xs| ==> xs[i] != xs[j]
    decreases |xs|
  {
    if |xs| > 0 {
      var n := |xs| - 1;
      var init := xs[..n];
      var last := xs[n];
      DistinctCount(init);
      assert xs == init + [last];
      assert (set x | x in xs) == (set x | x in init) + {last};
      if last in init {
        var k :| 0 <= k < |init| && init[k] == last;
        assert xs[k] == xs[n];
      } else {
        assert |set x | x in xs| == |set x | x in init| + 1;
        forall i, j | 0 <= i < j < |xs| && (forall i', j' :: 0 <= i' < j' < |init| ==> init[i'] != init[j'])
          ensures xs[i] != xs[j]
        {
          if j == n {
            assert xs[i] == init[i];
          } else {
            assert xs[i] == init[i] && xs[j] == init[j];
          }
        }
        if forall i, j :: 0 <= i < j < |xs| ==> xs[i] != xs[j] {
          forall i', j' | 0 <= i' < j' < |init| ensures init[i'] != init[j'] {
            assert init[i'] == xs[i'] && init[j'] == xs[j'];
          }
        }
      }
    }
  }

  /** The count the source compares finds exactly two equal entries. */
  lemma DuplicatesIff<T>(xs: seq<T>)
    ensures HasDuplicates(xs) <==> exists i, j :: 0 <= i < j < |xs| && xs[i] == xs[j]
  {
    DistinctCount(xs);
  }

  // ----- lookups ------------------------------------------------------------------

  /** `s.getStepId().equals(id)` counted over the steps: every step is
    * visited, and one without an id is a NullPointerException. */
  function StepIdCount(steps: seq<Step>, id: Option<string>): (r: Result<nat>)
    ensures r.Err? <==> exists s :: s in steps && s.stepId.None?
    ensures r.Err? ==> r.error == NullReference("stepId")
    decreases |steps|
  {
    if |steps| == 0 then Ok(0)
    else if steps[0].stepId.None? then Err(NullReference("stepId"))
    else
      var rest :- StepIdCount(steps[1..], id);
      Ok((if steps[0].stepId == id then 1 else 0) + rest)
  }

  lemma StepIdCountRules(steps: seq<Step>, id: Option<string>)
    requires StepIdCount(steps, id).Ok?
    ensures StepIdCount(steps, id).value >= 1 <==> exists i :: 0 <= i < |steps| && steps[i].stepId == id
    ensures StepIdCount(steps, id).value >= 2 <==>
      exists i, j :: 0 <= i < j < |steps| && steps[i].stepId == id && steps[j].stepId == id
  {
    StepIdCountOnce(steps, id);
    StepIdCountTwice(steps, id);
  }

  lemma {:induction false} StepIdCountOnce(steps: seq<Step>, id: Option<string>)
    requires StepIdCount(steps, id).Ok?
    ensures StepIdCount(steps, id).value >= 1 <==> exists i :: 0 <= i < |steps| && steps[i].stepId == id
    decreases |steps|
  {
    if |steps| > 0 {
      var rest := steps[1..];
      StepIdCountOnce(rest, id);
      if exists i :: 0 <= i < |steps| && steps[i].stepId == id {
        var i :| 0 <= i < |steps| && steps[i].stepId == id;
        if i > 0 {
          assert rest[i - 1].stepId == id;
        }
      }
      if StepIdCount(steps, id).value >= 1 && steps[0].stepId != id {
        var i :| 0 <= i < |rest| && rest[i].stepId == id;
        assert steps[i + 1].stepId == id;
      }
    }
  }

  lemma StepIdCountTwice(steps: seq<Step>, id: Option<string>)
    requires StepIdCount(steps, id).Ok?
    ensures StepIdCount(steps, id).value >= 2 <==>
      exists i, j :: 0 <= i < j < |steps| && steps[i].stepId == id && steps[j].stepId == id
  {
    if exists i, j :: 0 <= i < j < |steps| && steps[i].stepId == id && steps[j].stepId == id {
      var i, j :| 0 <= i < j < |steps| && steps[i].stepId == id && steps[j].stepId == id;
      TwoCounted(steps, id, i, j);
    }
    if StepIdCount(steps, id).value >= 2 {
      CountedTwo(steps, id);
    }
  }

  /** Two steps with the id count at least twice. */
  lemma {:induction false} TwoCounted(steps: seq<Step>, id: Option<string>, i: nat, j: nat)
    requires StepIdCount(steps, id).Ok?
    requires i < j < |steps| && steps[i].stepId == id && steps[j].stepId == id
    ensures StepIdCount(steps, id).value >= 2
    decreases |steps|
  {
    var rest := steps[1..];
    assert rest[j - 1].stepId == id;
    if i > 0 {
      TwoCounted(rest, id, i - 1, j - 1);
    } else {
      StepIdCountOnce(rest, id);
    }
  }

  /** A count of at least two names two distinct steps with the id. */
  lemma {:induction false} CountedTwo(steps: seq<Step>, id: Option<string>)
    requires StepIdCount(steps, id).Ok? && StepIdCount(steps, id).value >= 2
    ensures exists i, j :: 0 <= i < j < |steps| && steps[i].stepId == id && steps[j].stepId == id
    decreases |steps|
  {
    var rest := steps[1..];
    if steps[0].stepId == id {
      StepIdCountOnce(rest, id);
      var j :| 0 <= j < |rest| && rest[j].stepId == id;
      assert steps[0].stepId == id && steps[j + 1].stepId == id;
    } else {
      CountedTwo(rest, id);
      var i, j :| 0 <= i < j < |rest| && rest[i].stepId == id && rest[j].stepId == id;
      assert steps[i + 1].stepId == id && steps[j + 1].stepId == id;
    }
  }

  /** `anyMatch(x -> s.contains(x))` over texts that may be null: the first
    * one contained decides, and a null met before it is a
    * NullPointerException. */
  function AnyContained(s: string, subs: seq<Option<string>>, what: string): (r: Result<bool>)
    ensures r == Ok(true) ==> exists k :: 0 <= k < |subs| && subs[k].Some? && HasSubstring(s, subs[k].value)
    ensures r == Ok(false) ==> forall k :: 0 <= k < |subs| ==> subs[k].Some? && !HasSubstring(s, subs[k].value)
    ensures r.Err? ==> r.error == NullReference(what) && exists k :: 0 <= k < |subs| && subs[k].None?
    decreases |subs|
  {
    if |subs| == 0 then Ok(false)
    else if subs[0].None? then Err(NullReference(what))
    else if HasSubstring(s, subs[0].value) then Ok(true)
    else AnyContained(s, subs[1..], what)
  }

  function WorkflowIds(ws: seq<Workflow>): seq<Option<string>> {
    seq(|ws|, k requires 0 <= k < |ws| => ws[k].workflowId)
  }

  /** validateOperationId: some OpenAPI source description has an operation
    * whose id the step's operationId contains. */
  function OperationIdFound(operationId: string, sds: seq<SourceDescription>): (r: Result<bool>)
    ensures r == Ok(true) ==> exists i :: (0 <= i < |sds| && sds[i].stype == Some(OpenApiSource)
      && sds[i].referencedOpenApi.Some?
      && AnyContained(operationId, sds[i].referencedOpenApi.value.operationIds, "operationId") == Ok(true))
    ensures r == Ok(false) ==> forall i :: 0 <= i < |sds| && sds[i].stype == Some(OpenApiSource) ==>
      sds[i].referencedOpenApi.Some?
      && AnyContained(operationId, sds[i].referencedOpenApi.value.operationIds, "operationId") == Ok(false)
    decreases |sds|
  {
    if |sds| == 0 then Ok(false)
    else if sds[0].stype == Some(OpenApiSource) then
      if sds[0].referencedOpenApi.None? then Err(NullReference("referencedOpenAPI"))
      else
        var found :- AnyContained(operationId, sds[0].referencedOpenApi.value.operationIds, "operationId");
        if found then Ok(true) else OperationIdFound(operationId, sds[1..])
    else OperationIdFound(operationId, sds[1..])
  }

  /** The source description an operationPath is matched against: one whose
    * name the path contains, of type openapi, with its description loaded. */
  predicate Describes(path: string, sd: SourceDescription) {
    sd.name.Some? && HasSubstring(path, sd.name.value) && sd.stype == Some(OpenApiSource)
    && sd.referencedOpenApi.Some?
  }

  /** validateOperationPath: the first source description that describes the
    * path decides; a source description without a name is a
    * NullPointerException. */
  function OperationPathFound(path: string, sds: seq<SourceDescription>, hooks: Hooks): (r: Result<bool>)
    ensures r.Err? ==> exists i :: 0 <= i < |sds| && sds[i].name.None?
    ensures r == Ok(true) ==> exists i :: (0 <= i < |sds| && Describes(path, sds[i])
      && hooks.operationPathMatches(path, sds[i].referencedOpenApi.value))
    ensures (forall i :: 0 <= i < |sds| ==> sds[i].name.Some? && !Describes(path, sds[i])) ==> r == Ok(false)
    decreases |sds|
  {
    if |sds| == 0 then Ok(false)
    else if sds[0].name.None? then Err(NullReference("name"))
    else if !Describes(path, sds[0]) then OperationPathFound(path, sds[1..], hooks)
    else Ok(hooks.operationPathMatches(path, sds[0].referencedOpenApi.value))
  }

  /** The search stops at the first source description that describes the
    * path: a later one is never consulted. */
  lemma {:induction false} FirstDescriptionDecides(path: string, sds: seq<SourceDescription>, hooks: Hooks, i: nat)
    requires i < |sds| && Describes(path, sds[i])
    requires forall j :: 0 <= j < i ==> sds[j].name.Some? && !Describes(path, sds[j])
    ensures OperationPathFound(path, sds, hooks) == Ok(hooks.operationPathMatches(path, sds[i].referencedOpenApi.value))
    decreases i
  {
    if i > 0 {
      assert sds[1..][i - 1] == sds[i];
      FirstDescriptionDecides(path, sds[1..], hooks, i - 1);
    }
  }

  const SourceWorkflowPrefix := "$sourceDescriptions."

  /** The workflows of the Arazzo source descriptions: the first whose id the
    * step's workflowId contains decides. */
  function SourceWorkflowFound(workflowId: string, sds: seq<SourceDescription>): (r: Result<bool>)
    ensures r == Ok(true) ==> exists i :: (0 <= i < |sds| && sds[i].stype == Some(ArazzoSource)
      && sds[i].referencedArazzo.Some?
      && AnyContained(workflowId, WorkflowIds(sds[i].referencedArazzo.value.workflows), "workflowId") == Ok(true))
    ensures r == Ok(false) ==> forall i :: 0 <= i < |sds| && sds[i].stype == Some(ArazzoSource) ==>
      sds[i].referencedArazzo.Some?
      && AnyContained(workflowId, WorkflowIds(sds[i].referencedArazzo.value.workflows), "workflowId") == Ok(false)
    decreases |sds|
  {
    if |sds| == 0 then Ok(false)
    else if sds[0].stype != Some(ArazzoSource) then SourceWorkflowFound(workflowId, sds[1..])
    else if sds[0].referencedArazzo.None? then Err(NullReference("referencedArazzo"))
    else
      var found :- AnyContained(workflowId, WorkflowIds(sds[0].referencedArazzo.value.workflows), "workflowId");
      if found then Ok(true) else SourceWorkflowFound(workflowId, sds[1..])
  }

  /** validateWorkflowId: a `$sourceDescriptions.` reference is looked up in
    * the referenced Arazzo documents, anything else among this document's
    * workflows by equal id. */
  function WorkflowFound(workflowId: string, doc: Document): Result<bool> {
    if StartsWith(workflowId, SourceWorkflowPrefix) then SourceWorkflowFound(workflowId, doc.sourceDescriptions)
    else WorkflowIdIn(doc.workflows, workflowId)
  }

  /** The loop of validateOperationId. */
  method FindOperationId(operationId: string, doc: Document) returns (r: Result<bool>)
    ensures r == OperationIdFound(operationId, doc.sourceDescriptions)
  {
    var sds := doc.sourceDescriptions;
    for i := 0 to |sds|
      invariant OperationIdFound(operationId, sds) == OperationIdFound(operationId, sds[i..])
    {
      assert sds[i..][1..] == sds[i + 1..];
      if sds[i].stype == Some(OpenApiSource) {
        if sds[i].referencedOpenApi.None? {
          return Err(NullReference("referencedOpenAPI"));
        }
        var found := AnyContained(operationId, sds[i].referencedOpenApi.value.operationIds, "operationId");
        if found.Err? {
          return Err(found.error);
        }
        if found.value {
          return Ok(true);
        }
      }
    }
    return Ok(false);
  }

  /** The loop of validateOperationPath. */
  method FindOperationPath(path: string, doc: Document, hooks: Hooks) returns (r: Result<bool>)
    ensures r == OperationPathFound(path, doc.sourceDescriptions, hooks)
  {
    var sds := doc.sourceDescriptions;
    for i := 0 to |sds|
      invariant OperationPathFound(path, sds, hooks) == OperationPathFound(path, sds[i..], hooks)
    {
      assert sds[i..][1..] == sds[i + 1..];
      if sds[i].name.None? {
        return Err(NullReference("name"));
      }
      if !HasSubstring(path, sds[i].name.value) {
        continue;
      }
      if sds[i].stype != Some(OpenApiSource) {
        continue;
      }
      if sds[i].referencedOpenApi.Some? {
        return Ok(hooks.operationPathMatches(path, sds[i].referencedOpenApi.value));
      }
    }
    return Ok(false);
  }

  // ----- the sections of validate ----------------------------------------------

  /** The stepId: mandatory, and only a warning when it uses other characters. */
  function Identified(r: Report, step: Step): (res: Report)
    ensures Extends(r, res)
  {
    if IsEmpty(step.stepId) then r.AddError(Where, StepIdMandatory)
    else if !IsRecommendedName(step.stepId.value) then r.AddWarning(Where, StepIdFormat(step.stepId.value))
    else r
  }

  /** The step must belong to a workflow and its id must occur once there. */
  function Parented(r: Report, step: Step, doc: Document): (res: Result<Report>)
    ensures res.Ok? ==> Extends(r, res.value)
  {
    var parent := ParentWorkflow(doc.workflows, step);
    if parent.None? then Ok(r.AddError(Where, NoParent(step.stepId)))
    else
      var count :- StepIdCount(parent.value.steps, step.stepId);
      if count != 1 then Ok(r.AddError(Where, NotUnique(step.stepId, parent.value.workflowId))) else Ok(r)
  }

  /** How many of operationId, operationPath and workflowId are set. */
  function TargetCount(step: Step): nat {
    (if IsEmpty(step.operationId) then 0 else 1)
    + (if IsEmpty(step.operationPath) then 0 else 1)
    + (if IsEmpty(step.workflowId) then 0 else 1)
  }

  function Targeted(r: Report, step: Step): (res: Report)
    ensures Extends(r, res)
  {
    var n := TargetCount(step);
    if n == 0 then r.AddError("", TargetMissing(step.stepId))
    else if n > 1 then r.AddError("", TargetsExclusive(step.stepId))
    else r
  }

  function Header(r: Report, step: Step, doc: Document): (res: Result<Report>)
    ensures res.Ok? ==> Extends(r, res.value)
  {
    var identified := Identified(r, step);
    var parented :- Parented(identified, step, doc);
    ExtendsTrans(r, identified, parented);
    ExtendsTrans(r, parented, Targeted(parented, step));
    Ok(Targeted(parented, step))
  }

  function OperationIdChecked(r: Report, step: Step, doc: Document): (res: Result<Report>)
    ensures res.Ok? ==> Extends(r, res.value)
  {
    if IsEmpty(step.operationId) then Ok(r)
    else
      var found :- OperationIdFound(step.operationId.value, doc.sourceDescriptions);
      if found then Ok(r) else Ok(r.AddError(Where, OperationIdNotFound(step.stepId)))
  }

  function OperationPathChecked(r: Report, step: Step, doc: Document, hooks: Hooks): (res: Result<Report>)
    ensures res.Ok? ==> Extends(r, res.value)
  {
    if IsEmpty(step.operationPath) then Ok(r)
    else
      var found :- OperationPathFound(step.operationPath.value, doc.sourceDescriptions, hooks);
      if found then Ok(r) else Ok(r.AddError(Where, OperationPathNotFound(step.stepId)))
  }

  function WorkflowIdChecked(r: Report, step: Step, doc: Document): (res: Result<Report>)
    ensures res.Ok? ==> Extends(r, res.value)
  {
    if IsEmpty(step.workflowId) then Ok(r)
    else
      var found :- WorkflowFound(step.workflowId.value, doc);
      if found then Ok(r) else Ok(r.AddError(Where, WorkflowIdNotFound(step.stepId)))
  }

  /** The three targets must exist. */
  function Lookups(r: Report, step: Step, doc: Document, hooks: Hooks): (res: Result<Report>)
    ensures res.Ok? ==> Extends(r, res.value)
  {
    var a :- OperationIdChecked(r, step, doc);
    var b :- OperationPathChecked(a, step, doc, hooks);
    var c :- WorkflowIdChecked(b, step, doc);
    ExtendsTrans(r, a, b);
    ExtendsTrans(r, b, c);
    Ok(c)
  }

  function Bodied(r: Report, step: Step, doc: Document, hooks: Hooks): (res: Report)
    ensures Extends(r, res)
  {
    if step.requestBody.Some? then r.Merge(RequestBodyValidator.Check(step.requestBody.value, doc, hooks))
    else r
  }

  function Criteria(r: Report, step: Step, doc: Document, hooks: Hooks): (res: Result<Report>)
    ensures res.Ok? ==> Extends(r, res.value)
  {
    if step.successCriteria.None? then Ok(r)
    else
      var walked := MergeEach(r, step.successCriteria.value, CriterionValidator.Checker(doc, hooks));
      if walked.Ok? then MergeEachKeeps(r, step.successCriteria.value, CriterionValidator.Checker(doc, hooks)); walked
      else walked
  }

  /** The success action validator, with the step as context. */
  function SuccessCheck(step: Step, doc: Document, hooks: Hooks): SuccessAction -> Result<Report> {
    a => hooks.successAction(a, StepContext(step), doc)
  }

  function FailureCheck(step: Step, doc: Document, hooks: Hooks): FailureAction -> Result<Report> {
    a => FailureActionValidator.Check(a, StepContext(step), doc, hooks)
  }

  function ParameterCheck(step: Step, doc: Document, hooks: Hooks): Parameter -> Result<Report> {
    p => ParameterValidator.Check(p, StepContext(step), doc, hooks)
  }

  function Succeeded(r: Report, step: Step, doc: Document, hooks: Hooks): (res: Result<Report>)
    ensures res.Ok? ==> Extends(r, res.value)
  {
    if step.onSuccess.None? then Ok(r)
    else
      var actions := step.onSuccess.value;
      var checked := if HasDuplicates(actions) then r.AddError(Where, OnSuccessDuplicates) else r;
      var walked := MergeEach(checked, actions, SuccessCheck(step, doc, hooks));
      if walked.Ok? then
        MergeEachKeeps(checked, actions, SuccessCheck(step, doc, hooks));
        ExtendsTrans(r, checked, walked.value);
        walked
      else walked
  }

  function Failed(r: Report, step: Step, doc: Document, hooks: Hooks): (res: Result<Report>)
    ensures res.Ok? ==> Extends(r, res.value)
  {
    if step.onFailure.None? then Ok(r)
    else
      var actions := step.onFailure.value;
      var checked := if HasDuplicates(actions) then r.AddError(Where, OnFailureDuplicates) else r;
      var walked := MergeEach(checked, actions, FailureCheck(step, doc, hooks));
      if walked.Ok? then
        MergeEachKeeps(checked, actions, FailureCheck(step, doc, hooks));
        ExtendsTrans(r, checked, walked.value);
        walked
      else walked
  }

  predicate OutputKeysValid(outputs: Outputs) {
    forall k :: 0 <= k < |outputs| ==> IsComponentKey(outputs[k].0)
  }

  function OutputsChecked(r: Report, step: Step): (res: Report)
    ensures Extends(r, res)
  {
    if step.outputs.Some? && !OutputKeysValid(step.outputs.value) then r.AddError("", OutputKeysInvalid(step.stepId))
    else r
  }

  function Parametrised(r: Report, step: Step, doc: Document, hooks: Hooks): (res: Result<Report>)
    ensures res.Ok? ==> Extends(r, res.value)
  {
    if step.parameters.None? then Ok(r)
    else
      var parameters := step.parameters.value;
      var checked := if HasDuplicates(parameters) then r.AddError(Where, ParametersDuplicates) else r;
      var walked := MergeEach(checked, parameters, ParameterCheck(step, doc, hooks));
      if walked.Ok? then
        MergeEachKeeps(checked, parameters, ParameterCheck(step, doc, hooks));
        ExtendsTrans(r, checked, walked.value);
        walked
      else walked
  }

  /** Outputs, parameters and extensions: the last part of validate. */
  function Finish(r: Report, step: Step, doc: Document, hooks: Hooks): (res: Result<Report>)
    ensures res.Ok? ==> Extends(r, res.value)
  {
    var outputs := OutputsChecked(r, step);
    var parametrised :- Parametrised(outputs, step, doc, hooks);
    var done := WithExtensions(parametrised, step.extensions, doc, hooks);
    ExtendsTrans(r, outputs, parametrised);
    ExtendsTrans(r, parametrised, done);
    Ok(done)
  }

  function AfterSuccess(r: Report, step: Step, doc: Document, hooks: Hooks): (res: Result<Report>)
    ensures res.Ok? ==> Extends(r, res.value)
  {
    var failed :- Failed(r, step, doc, hooks);
    var finished :- Finish(failed, step, doc, hooks);
    ExtendsTrans(r, failed, finished);
    Ok(finished)
  }

  function Actions(r: Report, step: Step, doc: Document, hooks: Hooks): (res: Result<Report>)
    ensures res.Ok? ==> Extends(r, res.value)
  {
    var succeeded :- Succeeded(r, step, doc, hooks);
    var rest :- AfterSuccess(succeeded, step, doc, hooks);
    ExtendsTrans(r, succeeded, rest);
    Ok(rest)
  }

  /** Everything handed to other validators, in the order of validate. */
  function Nested(r: Report, step: Step, doc: Document, hooks: Hooks): (res: Result<Report>)
    ensures res.Ok? ==> Extends(r, res.value)
  {
    var bodied := Bodied(r, step, doc, hooks);
    var criteria :- Criteria(bodied, step, doc, hooks);
    var rest :- Actions(criteria, step, doc, hooks);
    ExtendsTrans(r, bodied, criteria);
    ExtendsTrans(r, criteria, rest);
    Ok(rest)
  }

  /** StepValidator.validate. */
  function Check(step: Step, doc: Document, hooks: Hooks): Result<Report> {
    var header :- Header(Empty, step, doc);
    var looked :- Lookups(header, step, doc, hooks);
    Nested(looked, step, doc, hooks)
  }

  // ----- the method --------------------------------------------------------------

  method Validate(step: Step, doc: Document, hooks: Hooks) returns (r: Result<ValidationResult>)
    ensures Outcome(r, Check(step, doc, hooks)) && (r.Ok? ==> fresh(r.value))
  {
    var result := new ValidationResult();
    var thrown := ValidateHeader(result, step, doc);
    if thrown.Some? {
      return Err(thrown.value);
    }
    thrown := ValidateLookups(result, step, doc, hooks);
    if thrown.Some? {
      return Err(thrown.value);
    }
    thrown := ValidateNested(result, step, doc, hooks);
    if thrown.Some? {
      return Err(thrown.value);
    }
    return Ok(result);
  }

  method ValidateHeader(result: ValidationResult, step: Step, doc: Document) returns (thrown: Option<Failure>)
    modifies result
    ensures Header(old(result.Contents()), step, doc) == if thrown.Some? then Err(thrown.value) else Ok(result.Contents())
  {
    if IsEmpty(step.stepId) {
      result.AddError(Where, StepIdMandatory);
    } else if !IsRecommendedName(step.stepId.value) {
      result.AddWarning(Where, StepIdFormat(step.stepId.value));
    }
    thrown := ValidateParent(result, step, doc);
    if thrown.Some? {
      return;
    }
    ValidateTargets(result, step);
  }

  method ValidateParent(result: ValidationResult, step: Step, doc: Document) returns (thrown: Option<Failure>)
    modifies result
    ensures Parented(old(result.Contents()), step, doc) == if thrown.Some? then Err(thrown.value) else Ok(result.Contents())
  {
    var parent := FindParentWorkflow(step, doc);
    if parent.None? {
      result.AddError(Where, NoParent(step.stepId));
      return None;
    }
    var count := StepIdCount(parent.value.steps, step.stepId);
    if count.Err? {
      return Some(count.error);
    }
    if count.value != 1 {
      result.AddError(Where, NotUnique(step.stepId, parent.value.workflowId));
    }
    return None;
  }

  method ValidateTargets(result: ValidationResult, step: Step)
    modifies result
    ensures result.Contents() == Targeted(old(result.Contents()), step)
  {
    var countSet := 0;
    if !IsEmpty(step.operationId) {
      countSet := countSet + 1;
    }
    if !IsEmpty(step.operationPath) {
      countSet := countSet + 1;
    }
    if !IsEmpty(step.workflowId) {
      countSet := countSet + 1;
    }
    if countSet == 0 {
      result.AddError("", TargetMissing(step.stepId));
    } else if countSet > 1 {
      result.AddError("", TargetsExclusive(step.stepId));
    }
  }

  method ValidateLookups(result: ValidationResult, step: Step, doc: Document, hooks: Hooks) returns (thrown: Option<Failure>)
    modifies result
    ensures Lookups(old(result.Contents()), step, doc, hooks) == if thrown.Some? then Err(thrown.value) else Ok(result.Contents())
  {
    thrown := ValidateOperationId(result, step, doc);
    if thrown.Some? {
      return;
    }
    thrown := ValidateOperationPath(result, step, doc, hooks);
    if thrown.Some? {
      return;
    }
    thrown := ValidateWorkflowId(result, step, doc);
  }

  method ValidateOperationId(result: ValidationResult, step: Step, doc: Document) returns (thrown: Option<Failure>)
    modifies result
    ensures OperationIdChecked(old(result.Contents()), step, doc) == if thrown.Some? then Err(thrown.value) else Ok(result.Contents())
  {
    if !IsEmpty(step.operationId) {
      var found := FindOperationId(step.operationId.value, doc);
      if found.Err? {
        return Some(found.error);
      }
      if !found.value {
        result.AddError(Where, OperationIdNotFound(step.stepId));
      }
    }
    return None;
  }

  method ValidateOperationPath(result: ValidationResult, step: Step, doc: Document, hooks: Hooks) returns (thrown: Option<Failure>)
    modifies result
    ensures OperationPathChecked(old(result.Contents()), step, doc, hooks) == if thrown.Some? then Err(thrown.value) else Ok(result.Contents())
  {
    if !IsEmpty(step.operationPath) {
      var found := FindOperationPath(step.operationPath.value, doc, hooks);
      if found.Err? {
        return Some(found.error);
      }
      if !found.value {
        result.AddError(Where, OperationPathNotFound(step.stepId));
      }
    }
    return None;
  }

  method ValidateWorkflowId(result: ValidationResult, step: Step, doc: Document) returns (thrown: Option<Failure>)
    modifies result
    ensures WorkflowIdChecked(old(result.Contents()), step, doc) == if thrown.Some? then Err(thrown.value) else Ok(result.Contents())
  {
    if !IsEmpty(step.workflowId) {
      var found := WorkflowFound(step.workflowId.value, doc);
      if found.Err? {
        return Some(found.error);
      }
      if !found.value {
        result.AddError(Where, WorkflowIdNotFound(step.stepId));
      }
    }
    return None;
  }

  method ValidateNested(result: ValidationResult, step: Step, doc: Document, hooks: Hooks) returns (thrown: Option<Failure>)
    modifies result
    ensures Nested(old(result.Contents()), step, doc, hooks) == if thrown.Some? then Err(thrown.value) else Ok(result.Contents())
  {
    if step.requestBody.Some? {
      var body := RequestBodyValidator.Validate(step.requestBody.value, doc, hooks);
      result.Merge(body);
    }
    thrown := ValidateCriteria(result, step, doc, hooks);
    if thrown.Some? {
      return;
    }
    thrown := ValidateActions(result, step, doc, hooks);
  }

  method ValidateActions(result: ValidationResult, step: Step, doc: Document, hooks: Hooks) returns (thrown: Option<Failure>)
    modifies result
    ensures Actions(old(result.Contents()), step, doc, hooks) == if thrown.Some? then Err(thrown.value) else Ok(result.Contents())
  {
    thrown := ValidateSuccessActions(result, step, doc, hooks);
    if thrown.Some? {
      return;
    }
    thrown := ValidateFailureActions(result, step, doc, hooks);
    if thrown.Some? {
      return;
    }
    thrown := ValidateFinish(result, step, doc, hooks);
  }

  method ValidateFinish(result: ValidationResult, step: Step, doc: Document, hooks: Hooks) returns (thrown: Option<Failure>)
    modifies result
    ensures Finish(old(result.Contents()), step, doc, hooks) == if thrown.Some? then Err(thrown.value) else Ok(result.Contents())
  {
    if step.outputs.Some? && !OutputKeysValid(step.outputs.value) {
      result.AddError("", OutputKeysInvalid(step.stepId));
    }
    thrown := ValidateParameters(result, step, doc, hooks);
    if thrown.Some? {
      return;
    }
    if |step.extensions| > 0 {
      var extensions := new ValidationResult.Of(hooks.extensions(step.extensions, doc));
      result.Merge(extensions);
    }
  }

  method ValidateCriteria(result: ValidationResult, step: Step, doc: Document, hooks: Hooks) returns (thrown: Option<Failure>)
    modifies result
    ensures Criteria(old(result.Contents()), step, doc, hooks) == if thrown.Some? then Err(thrown.value) else Ok(result.Contents())
  {
    if step.successCriteria.None? {
      return None;
    }
    var criteria := step.successCriteria.value;
    ghost var start := result.Contents();
    for i := 0 to |criteria|
      invariant MergeEach(start, criteria[..i], CriterionValidator.Checker(doc, hooks)) == Ok(result.Contents())
    {
      MergeEachStep(start, criteria, CriterionValidator.Checker(doc, hooks), i);
      var sub := CriterionValidator.Validate(criteria[i], doc, hooks);
      if sub.Err? {
        MergeEachStops(start, criteria, CriterionValidator.Checker(doc, hooks), i + 1);
        return Some(sub.error);
      }
      result.Merge(sub.value);
    }
    assert criteria[..|criteria|] == criteria;
    return None;
  }

  method ValidateSuccessActions(result: ValidationResult, step: Step, doc: Document, hooks: Hooks) returns (thrown: Option<Failure>)
    modifies result
    ensures Succeeded(old(result.Contents()), step, doc, hooks) == if thrown.Some? then Err(thrown.value) else Ok(result.Contents())
  {
    if step.onSuccess.None? {
      return None;
    }
    var actions := step.onSuccess.value;
    if HasDuplicates(actions) {
      result.AddError(Where, OnSuccessDuplicates);
    }
    ghost var start := result.Contents();
    for i := 0 to |actions|
      invariant MergeEach(start, actions[..i], SuccessCheck(step, doc, hooks)) == Ok(result.Contents())
    {
      MergeEachStep(start, actions, SuccessCheck(step, doc, hooks), i);
      var sub := hooks.successAction(actions[i], StepContext(step), doc);
      if sub.Err? {
        MergeEachStops(start, actions, SuccessCheck(step, doc, hooks), i + 1);
        return Some(sub.error);
      }
      var validated := new ValidationResult.Of(sub.value);
      result.Merge(validated);
    }
    assert actions[..|actions|] == actions;
    return None;
  }

  method ValidateFailureActions(result: ValidationResult, step: Step, doc: Document, hooks: Hooks) returns (thrown: Option<Failure>)
    modifies result
    ensures Failed(old(result.Contents()), step, doc, hooks) == if thrown.Some? then Err(thrown.value) else Ok(result.Contents())
  {
    if step.onFailure.None? {
      return None;
    }
    var actions := step.onFailure.value;
    if HasDuplicates(actions) {
      result.AddError(Where, OnFailureDuplicates);
    }
    ghost var start := result.Contents();
    for i := 0 to |actions|
      invariant MergeEach(start, actions[..i], FailureCheck(step, doc, hooks)) == Ok(result.Contents())
    {
      MergeEachStep(start, actions, FailureCheck(step, doc, hooks), i);
      var sub := FailureActionValidator.Validate(actions[i], StepContext(step), doc, hooks);
      if sub.Err? {
        MergeEachStops(start, actions, FailureCheck(step, doc, hooks), i + 1);
        return Some(sub.error);
      }
      result.Merge(sub.value);
    }
    assert actions[..|actions|] == actions;
    return None;
  }

  method ValidateParameters(result: ValidationResult, step: Step, doc: Document, hooks: Hooks) returns (thrown: Option<Failure>)
    modifies result
    ensures Parametrised(old(result.Contents()), step, doc, hooks) == if thrown.Some? then Err(thrown.value) else Ok(result.Contents())
  {
    if step.parameters.None? {
      return None;
    }
    var parameters := step.parameters.value;
    if HasDuplicates(parameters) {
      result.AddError(Where, ParametersDuplicates);
    }
    ghost var start := result.Contents();
    for i := 0 to |parameters|
      invariant MergeEach(start, parameters[..i], ParameterCheck(step, doc, hooks)) == Ok(result.Contents())
    {
      MergeEachStep(start, parameters, ParameterCheck(step, doc, hooks), i);
      var sub := ParameterValidator.Validate(parameters[i], StepContext(step), doc, hooks);
      if sub.Err? {
        MergeEachStops(start, parameters, ParameterCheck(step, doc, hooks), i + 1);
        return Some(sub.error);
      }
      result.Merge(sub.value);
    }
    assert parameters[..|parameters|] == parameters;
    return None;
  }

  // ----- what validate promises ----------------------------------------------------

  /** An empty stepId is an error; one outside the recommended characters is
    * only a warning. */
  lemma StepIdRules(step: Step, doc: Document, hooks: Hooks)
    requires Check(step, doc, hooks).Ok?
    ensures IsEmpty(step.stepId) ==> Location(Where, StepIdMandatory) in Check(step, doc, hooks).value.errors
    ensures !IsEmpty(step.stepId) && !IsRecommendedName(step.stepId.value) ==>
      Location(Where, StepIdFormat(step.stepId.value)) in Check(step, doc, hooks).value.warnings
  {
    var identified := Identified(Empty, step);
    var parented := Parented(identified, step, doc).value;
    var header := Header(Empty, step, doc).value;
    var looked := Lookups(header, step, doc, hooks).value;
    var done := Check(step, doc, hooks).value;
    ExtendsTrans(identified, parented, header);
    ExtendsTrans(identified, header, looked);
    ExtendsTrans(identified, looked, done);
    ExtendsKeeps(identified, done, Location(Where, StepIdMandatory));
    if !IsEmpty(step.stepId) {
      ExtendsKeeps(identified, done, Location(Where, StepIdFormat(step.stepId.value)));
    }
  }

  /** What the header finds is kept to the end of validate. */
  lemma HeaderKept(step: Step, doc: Document, hooks: Hooks)
    requires Check(step, doc, hooks).Ok?
    ensures Parented(Identified(Empty, step), step, doc).Ok?
    ensures Extends(Parented(Identified(Empty, step), step, doc).value, Check(step, doc, hooks).value)
    ensures Extends(Header(Empty, step, doc).value, Check(step, doc, hooks).value)
  {
    var parented := Parented(Identified(Empty, step), step, doc).value;
    var header := Header(Empty, step, doc).value;
    var looked := Lookups(header, step, doc, hooks).value;
    var done := Check(step, doc, hooks).value;
    ExtendsTrans(header, looked, done);
    ExtendsTrans(parented, header, done);
  }

  /** A step outside every workflow is an error. */
  lemma NoParentRule(step: Step, doc: Document, hooks: Hooks)
    requires Check(step, doc, hooks).Ok? && ParentWorkflow(doc.workflows, step).None?
    ensures Location(Where, NoParent(step.stepId)) in Check(step, doc, hooks).value.errors
  {
    HeaderKept(step, doc, hooks);
    var parented := Parented(Identified(Empty, step), step, doc).value;
    ExtendsKeeps(parented, Check(step, doc, hooks).value, Location(Where, NoParent(step.stepId)));
  }

  /** A step of the parent workflow without an id throws. */
  lemma MissingIdThrows(step: Step, doc: Document, hooks: Hooks)
    requires ParentWorkflow(doc.workflows, step).Some?
    requires exists s :: s in ParentWorkflow(doc.workflows, step).value.steps && s.stepId.None?
    ensures Check(step, doc, hooks) == Err(NullReference("stepId"))
  {
  }

  /** Two steps of the parent workflow sharing the step's id are an error. */
  lemma SharedIdRule(step: Step, doc: Document, hooks: Hooks, i: nat, j: nat)
    requires Check(step, doc, hooks).Ok? && ParentWorkflow(doc.workflows, step).Some?
    requires i < j < |ParentWorkflow(doc.workflows, step).value.steps|
    requires ParentWorkflow(doc.workflows, step).value.steps[i].stepId == step.stepId
    requires ParentWorkflow(doc.workflows, step).value.steps[j].stepId == step.stepId
    ensures Location(Where, NotUnique(step.stepId, ParentWorkflow(doc.workflows, step).value.workflowId))
      in Check(step, doc, hooks).value.errors
  {
    var parent := ParentWorkflow(doc.workflows, step).value;
    StepIdCountRules(parent.steps, step.stepId);
    HeaderKept(step, doc, hooks);
    var parented := Parented(Identified(Empty, step), step, doc).value;
    var notUnique := NotUnique(step.stepId, parent.workflowId);
    ExtendsKeeps(parented, Check(step, doc, hooks).value, Location(Where, notUnique));
  }

  /** An id no other step of the parent workflow shares passes. */
  lemma OwnIdPasses(step: Step, doc: Document, r: Report)
    requires ParentWorkflow(doc.workflows, step).Some?
    requires StepIdCount(ParentWorkflow(doc.workflows, step).value.steps, step.stepId).Ok?
    requires !(exists i, j :: 0 <= i < j < |ParentWorkflow(doc.workflows, step).value.steps|
                 && ParentWorkflow(doc.workflows, step).value.steps[i].stepId == step.stepId
                 && ParentWorkflow(doc.workflows, step).value.steps[j].stepId == step.stepId)
    ensures Parented(r, step, doc) == Ok(r)
  {
    var steps := ParentWorkflow(doc.workflows, step).value.steps;
    StepIdCountRules(steps, step.stepId);
    var k :| 0 <= k < |steps| && steps[k] == step;
    assert steps[k].stepId == step.stepId;
  }

  /** The header reports a step with no target or with several. */
  lemma HeaderTargets(r: Report, step: Step, doc: Document)
    requires Header(r, step, doc).Ok?
    ensures TargetCount(step) == 0 ==> Location("", TargetMissing(step.stepId)) in Header(r, step, doc).value.errors
    ensures TargetCount(step) > 1 ==> Location("", TargetsExclusive(step.stepId)) in Header(r, step, doc).value.errors
  {
  }

  /** Exactly one of operationId, operationPath and workflowId must be set. */
  lemma TargetRules(step: Step, doc: Document, hooks: Hooks)
    requires Check(step, doc, hooks).Ok?
    ensures TargetCount(step) == 0 ==> Location("", TargetMissing(step.stepId)) in Check(step, doc, hooks).value.errors
    ensures TargetCount(step) > 1 ==> Location("", TargetsExclusive(step.stepId)) in Check(step, doc, hooks).value.errors
  {
    HeaderKept(step, doc, hooks);
    HeaderTargets(Empty, step, doc);
    var header := Header(Empty, step, doc).value;
    ExtendsKeeps(header, Check(step, doc, hooks).value, Location("", TargetMissing(step.stepId)));
    ExtendsKeeps(header, Check(step, doc, hooks).value, Location("", TargetsExclusive(step.stepId)));
  }

  /** One target set adds nothing. */
  lemma SingleTargetPasses(step: Step, r: Report)
    ensures TargetCount(step) == 1 <==> Targeted(r, step) == r
  {
    var n := TargetCount(step);
    if n == 0 {
      var t := r.AddError("", TargetMissing(step.stepId));
      assert |t.errors| == |r.errors| + 1;
    } else if n > 1 {
      var t := r.AddError("", TargetsExclusive(step.stepId));
      assert |t.errors| == |r.errors| + 1;
    }
  }

  /** A target that is set but cannot be found is an error. */
  lemma LookupRules(step: Step, doc: Document, hooks: Hooks)
    requires Check(step, doc, hooks).Ok?
    ensures !IsEmpty(step.operationId) && OperationIdFound(step.operationId.value, doc.sourceDescriptions) == Ok(false) ==>
      Location(Where, OperationIdNotFound(step.stepId)) in Check(step, doc, hooks).value.errors
    ensures !IsEmpty(step.operationPath) && OperationPathFound(step.operationPath.value, doc.sourceDescriptions, hooks) == Ok(false) ==>
      Location(Where, OperationPathNotFound(step.stepId)) in Check(step, doc, hooks).value.errors
    ensures !IsEmpty(step.workflowId) && WorkflowFound(step.workflowId.value, doc) == Ok(false) ==>
      Location(Where, WorkflowIdNotFound(step.stepId)) in Check(step, doc, hooks).value.errors
  {
    var header := Header(Empty, step, doc).value;
    var a := OperationIdChecked(header, step, doc).value;
    var b := OperationPathChecked(a, step, doc, hooks).value;
    var c := WorkflowIdChecked(b, step, doc).value;
    var done := Check(step, doc, hooks).value;
    ExtendsTrans(a, b, c);
    ExtendsTrans(a, c, done);
    ExtendsTrans(b, c, done);
    ExtendsKeeps(a, done, Location(Where, OperationIdNotFound(step.stepId)));
    ExtendsKeeps(b, done, Location(Where, OperationPathNotFound(step.stepId)));
    ExtendsKeeps(c, done, Location(Where, WorkflowIdNotFound(step.stepId)));
  }

  /** A lookup that throws ends validate with its exception. */
  lemma LookupThrows(step: Step, doc: Document, hooks: Hooks)
    requires Header(Empty, step, doc).Ok?
    ensures !IsEmpty(step.operationId) && OperationIdFound(step.operationId.value, doc.sourceDescriptions).Err? ==>
      Check(step, doc, hooks) == Err(OperationIdFound(step.operationId.value, doc.sourceDescriptions).error)
  {
  }

  /** Repeated success actions are an error, and so are repeated failure
    * actions. */
  lemma ActionRules(step: Step, doc: Document, hooks: Hooks)
    requires Check(step, doc, hooks).Ok?
    ensures step.onSuccess.Some? && HasDuplicates(step.onSuccess.value) ==>
      Location(Where, OnSuccessDuplicates) in Check(step, doc, hooks).value.errors
    ensures step.onFailure.Some? && HasDuplicates(step.onFailure.value) ==>
      Location(Where, OnFailureDuplicates) in Check(step, doc, hooks).value.errors
  {
    var header := Header(Empty, step, doc).value;
    var looked := Lookups(header, step, doc, hooks).value;
    var criteria := Criteria(Bodied(looked, step, doc, hooks), step, doc, hooks).value;
    var succeeded := Succeeded(criteria, step, doc, hooks).value;
    var failed := Failed(succeeded, step, doc, hooks).value;
    var done := Check(step, doc, hooks).value;
    assert done == AfterSuccess(succeeded, step, doc, hooks).value;
    assert done == Finish(failed, step, doc, hooks).value;
    ExtendsTrans(succeeded, failed, done);
    if step.onSuccess.Some? && HasDuplicates(step.onSuccess.value) {
      var checked := criteria.AddError(Where, OnSuccessDuplicates);
      MergeEachKeeps(checked, step.onSuccess.value, SuccessCheck(step, doc, hooks));
      ExtendsTrans(checked, succeeded, done);
      ExtendsKeeps(checked, done, Location(Where, OnSuccessDuplicates));
    }
    if step.onFailure.Some? && HasDuplicates(step.onFailure.value) {
      var checked := succeeded.AddError(Where, OnFailureDuplicates);
      MergeEachKeeps(checked, step.onFailure.value, FailureCheck(step, doc, hooks));
      ExtendsTrans(checked, failed, done);
      ExtendsKeeps(checked, done, Location(Where, OnFailureDuplicates));
    }
  }

  /** With the step as context the parameter validator never throws. */
  lemma {:induction false} StepParametersNeverThrow(r: Report, parameters: seq<Parameter>, step: Step, doc: Document, hooks: Hooks)
    ensures MergeEach(r, parameters, ParameterCheck(step, doc, hooks)).Ok?
    decreases |parameters|
  {
    if |parameters| > 0 {
      StepParametersNeverThrow(r, parameters[..|parameters| - 1], step, doc, hooks);
      ParameterValidator.ParameterRules(parameters[|parameters| - 1], StepContext(step), doc, hooks);
    }
  }

  /** Badly formed output names are an error, and so are repeated
    * parameters; a parameter without `in` is an error when the step calls a
    * workflow. */
  lemma FinishRules(step: Step, doc: Document, hooks: Hooks, i: nat)
    requires Check(step, doc, hooks).Ok?
    ensures step.outputs.Some? && !OutputKeysValid(step.outputs.value) ==>
      Location("", OutputKeysInvalid(step.stepId)) in Check(step, doc, hooks).value.errors
    ensures step.parameters.Some? && HasDuplicates(step.parameters.value) ==>
      Location(Where, ParametersDuplicates) in Check(step, doc, hooks).value.errors
    ensures (step.parameters.Some? && i < |step.parameters.value| && step.parameters.value[i].pin.None?
             && step.workflowId.Some?) ==>
      Location(ParameterValidator.Where, ParameterValidator.InMandatory) in Check(step, doc, hooks).value.errors
  {
    var header := Header(Empty, step, doc).value;
    var looked := Lookups(header, step, doc, hooks).value;
    var criteria := Criteria(Bodied(looked, step, doc, hooks), step, doc, hooks).value;
    var succeeded := Succeeded(criteria, step, doc, hooks).value;
    var failed := Failed(succeeded, step, doc, hooks).value;
    var outputs := OutputsChecked(failed, step);
    var parametrised := Parametrised(outputs, step, doc, hooks).value;
    var done := Check(step, doc, hooks).value;
    assert done == AfterSuccess(succeeded, step, doc, hooks).value;
    assert done == Finish(failed, step, doc, hooks).value;
    assert done == WithExtensions(parametrised, step.extensions, doc, hooks);
    ExtendsTrans(outputs, parametrised, done);
    ExtendsKeeps(outputs, done, Location("", OutputKeysInvalid(step.stepId)));
    if step.parameters.Some? {
      var parameters := step.parameters.value;
      var checked := if HasDuplicates(parameters) then outputs.AddError(Where, ParametersDuplicates) else outputs;
      MergeEachKeeps(checked, parameters, ParameterCheck(step, doc, hooks));
      ExtendsTrans(checked, parametrised, done);
      ExtendsKeeps(checked, done, Location(Where, ParametersDuplicates));
      if i < |parameters| && parameters[i].pin.None? && step.workflowId.Some? {
        var x := Location(ParameterValidator.Where, ParameterValidator.InMandatory);
        ParameterValidator.ParameterRules(parameters[i], StepContext(step), doc, hooks);
        MergeEachIncludes(checked, parameters, ParameterCheck(step, doc, hooks), i, x);
        ExtendsKeeps(parametrised, done, x);
      }
    }
  }
}
