/** What every validator shares: the context it is handed, the checks it
  * delegates to code outside this model, and the way a validator method's
  * outcome is tied to its specification. */
module Validator {
  import opened Wrappers
  import opened Model
  import opened ValidationResults

  /** The `C context` argument: null, a Step (the only class a validator
    * inspects with instanceof), or any other part of the document. */
  datatype Context = NoContext | StepContext(step: Step) | PartContext

  /** Validators and library checks outside this model, as functions of
    * what they are handed.  WorkflowValidator, SuccessActionValidator,
    * CriterionExpressionTypeObjectValidator and ExtensionsValidator are not
    * part of this model; neither are IOUtils.isValidFileOrUrl, the regex, JSONPath
    * and XPath compilers, nor JsonPointerOperationComparator. */
  datatype Hooks = Hooks(
    extensions: (Extensions, Document) -> Report,
    successAction: (SuccessAction, Context, Document) -> Result<Report>,
    workflow: (Workflow, Document) -> Result<Report>,
    expressionType: (Option<ExpressionType>, Criterion, Document) -> Result<Report>,
    fileOrUrlValid: string -> bool,
    regexCompiles: string -> bool,
    jsonPathCompiles: string -> bool,
    xpathCompiles: string -> bool,
    operationPathMatches: (string, OpenApi) -> bool)

  /** `if (extensions non-empty) result.merge(new ExtensionsValidator().validate(…))`. */
  function WithExtensions(r: Report, e: Extensions, doc: Document, hooks: Hooks): (res: Report)
    ensures Extends(r, res)
  {
    if |e| > 0 then r.Merge(hooks.extensions(e, doc)) else r
  }

  /** A validator method returned what its specification says: the same
    * exception, or a result holding the specified entries. */
  ghost predicate Outcome(r: Result<ValidationResult>, expected: Result<Report>)
    reads if r.Ok? then {r.value} else {}
  {
    (r.Ok? <==> expected.Ok?)
    && (r.Ok? ==> r.value.Contents() == expected.value)
    && (r.Err? ==> r.error == expected.error)
  }

  /** `xs.forEach(x -> result.merge(validate(x)))`: the results merged in
    * order; the first exception ends the walk. */
  function MergeEach<T>(acc: Report, xs: seq<T>, check: T -> Result<Report>): Result<Report>
    decreases |xs|
  {
    if |xs| == 0 then Ok(acc)
    else
      var before :- MergeEach(acc, xs[..|xs| - 1], check);
      var last :- check(xs[|xs| - 1]);
      Ok(before.Merge(last))
  }

  /** The same walk over validators that cannot throw. */
  function MergeAll<T>(acc: Report, xs: seq<T>, check: T -> Report): Report
    decreases |xs|
  {
    if |xs| == 0 then acc
    else MergeAll(acc, xs[..|xs| - 1], check).Merge(check(xs[|xs| - 1]))
  }

  lemma MergeEachStep<T>(acc: Report, xs: seq<T>, check: T -> Result<Report>, i: nat)
    requires i < |xs|
    ensures MergeEach(acc, xs[..i + 1], check)
         == (match MergeEach(acc, xs[..i], check)
               case Err(e) => Err(e)
               case Ok(before) =>
                 match check(xs[i])
                   case Err(e) => Err(e)
                   case Ok(last) => Ok(before.Merge(last)))
  {
    assert xs[..i + 1][..i] == xs[..i];
  }

  /** An exception part-way through ends the whole walk with it. */
  lemma {:induction false} MergeEachStops<T>(acc: Report, xs: seq<T>, check: T -> Result<Report>, i: nat)
    requires i <= |xs| && MergeEach(acc, xs[..i], check).Err?
    ensures MergeEach(acc, xs, check) == MergeEach(acc, xs[..i], check)
    decreases |xs| - i
  {
    if i < |xs| {
      MergeEachStep(acc, xs, check, i);
      MergeEachStops(acc, xs, check, i + 1);
    } else {
      assert xs[..i] == xs;
    }
  }

  lemma MergeAllStep<T>(acc: Report, xs: seq<T>, check: T -> Report, i: nat)
    requires i < |xs|
    ensures MergeAll(acc, xs[..i + 1], check) == MergeAll(acc, xs[..i], check).Merge(check(xs[i]))
  {
    assert xs[..i + 1][..i] == xs[..i];
  }

  /** Merging never clears the flag: a walk that starts invalid ends invalid,
    * and one element that comes back invalid makes the whole walk invalid. */
  lemma {:induction false} MergeEachInvalid<T>(acc: Report, xs: seq<T>, check: T -> Result<Report>, i: nat)
    requires MergeEach(acc, xs, check).Ok?
    ensures acc.invalid ==> MergeEach(acc, xs, check).value.invalid
    ensures i < |xs| && check(xs[i]).Ok? && check(xs[i]).value.invalid ==> MergeEach(acc, xs, check).value.invalid
    decreases |xs|
  {
    if |xs| > 0 {
      var init := xs[..|xs| - 1];
      MergeEachInvalid(acc, init, check, i);
      if i < |xs| - 1 {
        assert init[i] == xs[i];
      }
    }
  }

  /** The same for walks that cannot throw. */
  lemma {:induction false} MergeAllInvalid<T>(acc: Report, xs: seq<T>, check: T -> Report, i: nat)
    ensures acc.invalid ==> MergeAll(acc, xs, check).invalid
    ensures i < |xs| && check(xs[i]).invalid ==> MergeAll(acc, xs, check).invalid
    decreases |xs|
  {
    if |xs| > 0 {
      var init := xs[..|xs| - 1];
      MergeAllInvalid(acc, init, check, i);
      if i < |xs| - 1 {
        assert init[i] == xs[i];
      }
    }
  }

  /** The entries found before a walk are kept, in front. */
  lemma {:induction false} MergeEachKeeps<T>(acc: Report, xs: seq<T>, check: T -> Result<Report>)
    requires MergeEach(acc, xs, check).Ok?
    ensures Extends(acc, MergeEach(acc, xs, check).value)
    decreases |xs|
  {
    if |xs| > 0 {
      var init := xs[..|xs| - 1];
      MergeEachKeeps(acc, init, check);
      var before := MergeEach(acc, init, check).value;
      OperationsExtend(before, "", "", "", check(xs[|xs| - 1]).value);
      ExtendsTrans(acc, before, MergeEach(acc, xs, check).value);
    }
  }

  /** An error one element reports reaches the result of the walk. */
  lemma {:induction false} MergeEachIncludes<T>(acc: Report, xs: seq<T>, check: T -> Result<Report>, i: nat, x: Location)
    requires MergeEach(acc, xs, check).Ok? && i < |xs|
    ensures check(xs[i]).Ok?
    ensures x in check(xs[i]).value.errors ==> x in MergeEach(acc, xs, check).value.errors
    decreases |xs|
  {
    var init := xs[..|xs| - 1];
    var before := MergeEach(acc, init, check).value;
    var last := check(xs[|xs| - 1]).value;
    if i < |xs| - 1 {
      assert init[i] == xs[i];
      MergeEachIncludes(acc, init, check, i, x);
      OperationsExtend(before, "", "", "", last);
      ExtendsKeeps(before, before.Merge(last), x);
    }
  }

  /** The same for walks that cannot throw. */
  lemma {:induction false} MergeAllKeeps<T>(acc: Report, xs: seq<T>, check: T -> Report)
    ensures Extends(acc, MergeAll(acc, xs, check))
    decreases |xs|
  {
    if |xs| > 0 {
      var init := xs[..|xs| - 1];
      MergeAllKeeps(acc, init, check);
      var before := MergeAll(acc, init, check);
      OperationsExtend(before, "", "", "", check(xs[|xs| - 1]));
      ExtendsTrans(acc, before, MergeAll(acc, xs, check));
    }
  }

  // ----- texts several validators share -------------------------------------

  predicate NameChar(c: char) {
    ('A' <= c <= 'Z') || ('a' <= c <= 'z') || ('0' <= c <= '9') || c == '_' || c == '-'
  }

  /** `^[A-Za-z0-9_\-]+$`, the form Arazzo recommends for names and ids. */
  predicate IsRecommendedName(name: string) {
    |name| > 0 && forall i :: 0 <= i < |name| ==> NameChar(name[i])
  }

  /** `"%s".formatted(x)` for a String that may be null. */
  function Shown(s: Option<string>): string {
    if s.Some? then s.value else "null"
  }

  // ----- lookups several validators share ------------------------------------

  /** findParentWorkflow: the first workflow whose steps contain the step. */
  function ParentWorkflow(ws: seq<Workflow>, step: Step): (r: Option<Workflow>)
    ensures r.Some? ==> r.value in ws && step in r.value.steps
    ensures r.None? <==> forall w :: w in ws ==> step !in w.steps
  {
    if |ws| == 0 then None
    else if step in ws[0].steps then Some(ws[0])
    else ParentWorkflow(ws[1..], step)
  }

  /** The loop of findParentWorkflow. */
  method FindParentWorkflow(step: Step, doc: Document) returns (parent: Option<Workflow>)
    ensures parent == ParentWorkflow(doc.workflows, step)
  {
    var workflows := doc.workflows;
    for i := 0 to |workflows|
      invariant ParentWorkflow(workflows, step) == ParentWorkflow(workflows[i..], step)
    {
      assert workflows[i..][1..] == workflows[i + 1..];
      if step in workflows[i].steps {
        return Some(workflows[i]);
      }
    }
    return None;
  }

  /** `workflows.stream().anyMatch(wf -> wf.getWorkflowId().equals(id))`: a
    * workflow without id met before a match is a NullPointerException. */
  function WorkflowIdIn(ws: seq<Workflow>, id: string): (r: Result<bool>)
    ensures r == Ok(true) ==> exists w :: w in ws && w.workflowId == Some(id)
    ensures r == Ok(false) ==> forall w :: w in ws ==> w.workflowId != Some(id)
    ensures (forall w :: w in ws ==> w.workflowId.Some?) ==> r.Ok?
  {
    if |ws| == 0 then Ok(false)
    else if ws[0].workflowId.None? then Err(NullReference("workflowId"))
    else if ws[0].workflowId.value == id then Ok(true)
    else WorkflowIdIn(ws[1..], id)
  }

  /** `steps.stream().anyMatch(s -> s.getStepId().equals(id))`, likewise. */
  function StepIdIn(steps: seq<Step>, id: string): (r: Result<bool>)
    ensures r == Ok(true) ==> exists s :: s in steps && s.stepId == Some(id)
    ensures r == Ok(false) ==> forall s :: s in steps ==> s.stepId != Some(id)
    ensures (forall s :: s in steps ==> s.stepId.Some?) ==> r.Ok?
  {
    if |steps| == 0 then Ok(false)
    else if steps[0].stepId.None? then Err(NullReference("stepId"))
    else if steps[0].stepId.value == id then Ok(true)
    else StepIdIn(steps[1..], id)
  }
}
