/** WorkflowExecutor: the state machine that runs the steps of one workflow.
  *
  * A cursor walks the steps.  A step that names a workflow runs that
  * workflow of the referenced Arazzo document in a nested executor and the
  * cursor moves on by one; any other step goes to the step executor, and
  * the outcome is judged against the workflow's own success or failure
  * actions followed by the one the step executor picked.  GOTO moves the
  * cursor or hands over to another workflow, END stops the loop, RETRY
  * counts, waits and returns to the failed step.  When the loop is over the
  * workflow outputs are resolved and published in the shared memo.
  *
  * The functions first specify a run on a `World` (the memo, the number of
  * requests sent and the waits asked for); the class below is the executor
  * object, whose methods work on the shared provider and the transport and
  * are proved to agree with them.  GOTO can send the cursor round forever,
  * so every turn of the loop spends one unit of `fuel`. */
module WorkflowExecution {
  import opened Wrappers
  import opened Strings
  import opened Values
  import opened Model
  import opened ExpressionCache
  import opened SpecResolver
  import opened StepExecutor

  /** What an executor is built from: the document, the inputs, and the
    * library calls of the resolvers. */
  datatype Engine = Engine(o: Oracles, doc: Document, inputs: Value)

  /** The resolver's view of the executor's document. */
  function EnvFor(e: Engine): Env {
    EnvOf(e.o, e.doc, e.inputs)
  }

  /** What a run changes: the shared memo, the requests sent so far and the
    * waits asked for. */
  datatype World = World(cache: Cache, calls: nat, waits: seq<int>)

  /** A result together with the world as it is afterwards. */
  datatype Run<T> = Run(res: Result<T>, world: World)

  /** The transport's answer to the n-th request, made for a step. */
  type Respond = (Step, nat) -> Result<Snapshot>

  /** ExecutionDecision: the step to go to, if any, and whether to stop. */
  datatype Decision = Decision(nextStepIndex: Option<nat>, mustEnd: bool)

  /** The retry counters of one run, keyed by step id (null included). */
  type Counters = map<Option<string>, int>

  /** Map.getOrDefault(stepId, 0). */
  function CountOf(counters: Counters, stepId: Option<string>): int {
    if stepId in counters then counters[stepId] else 0
  }

  const Sequential := Decision(None, false)
  const Ending := Decision(None, true)

  function StepNotFound(stepId: string): Failure {
    IllegalState("Step not found: stepId='" + stepId + "'")
  }

  function WorkflowNotFound(workflowId: string): Failure {
    IllegalState("Workflow not found: workflowId='" + workflowId + "'")
  }

  function RetryLimitReached(a: FailureAction): Failure {
    Interrupt("Reached retry limit failure action '" + NullText(a.name) + "'")
  }

  const NoHandling := Interrupt("No handling for unsuccessful operation")

  // ----- lookups ----------------------------------------------------------------------

  /** findStepIndexById from index i: the first step whose id equals the
    * target; String.equals on a step without an id throws. */
  function StepIndexFrom(steps: seq<Step>, stepId: Option<string>, i: nat): (r: Result<nat>)
    requires i <= |steps|
    ensures r.Ok? ==> i <= r.value < |steps| && steps[r.value].stepId.Some? && steps[r.value].stepId == stepId
    ensures r.Ok? ==> forall j :: i <= j < r.value ==> steps[j].stepId.Some? && steps[j].stepId != stepId
    ensures r.Err? ==>
      (r.error == StepNotFound(NullText(stepId)) && forall j :: i <= j < |steps| ==> steps[j].stepId.Some? && steps[j].stepId != stepId)
      || (r.error == NullReference("stepId") && exists j :: i <= j < |steps| && steps[j].stepId.None?)
    decreases |steps| - i
  {
    if i == |steps| then Err(StepNotFound(NullText(stepId)))
    else if steps[i].stepId.None? then Err(NullReference("stepId"))
    else if steps[i].stepId == stepId then Ok(i)
    else StepIndexFrom(steps, stepId, i + 1)
  }

  /** handleGotoStepAction: the cursor goes to the step with exactly that id. */
  function GotoStep(steps: seq<Step>, stepId: string): (r: Result<Decision>)
    ensures r.Ok? ==> !r.value.mustEnd && r.value.nextStepIndex.Some? && r.value.nextStepIndex.value < |steps|
    ensures r.Ok? ==> steps[r.value.nextStepIndex.value].stepId == Some(stepId)
    ensures r.Ok? ==> forall j :: 0 <= j < r.value.nextStepIndex.value ==> steps[j].stepId.Some? && steps[j].stepId != Some(stepId)
    ensures r == Err(StepNotFound(stepId)) ==> forall j :: 0 <= j < |steps| ==> steps[j].stepId != Some(stepId)
    ensures r.Err? ==> r.error == StepNotFound(stepId) || r.error == NullReference("stepId")
  {
    var index := StepIndexFrom(steps, Some(stepId), 0);
    if index.Err? then Err(index.error) else Ok(Decision(Some(index.value), false))
  }

  /** findWorkflowByWorkflowId from index i: the first workflow whose id is
    * part of the reference; a workflow without an id throws. */
  function WorkflowIndexFrom(workflows: seq<Workflow>, workflowId: string, i: nat): (r: Result<nat>)
    requires i <= |workflows|
    ensures r.Ok? ==> (i <= r.value < |workflows| && workflows[r.value].workflowId.Some?
      && HasSubstring(workflowId, workflows[r.value].workflowId.value))
    ensures r.Ok? ==> forall j :: i <= j < r.value ==>
      workflows[j].workflowId.Some? && !HasSubstring(workflowId, workflows[j].workflowId.value)
    ensures r == Err(WorkflowNotFound(workflowId)) ==> forall j :: i <= j < |workflows| ==>
      workflows[j].workflowId.Some? && !HasSubstring(workflowId, workflows[j].workflowId.value)
    decreases |workflows| - i
  {
    if i == |workflows| then Err(WorkflowNotFound(workflowId))
    else if workflows[i].workflowId.None? then Err(NullReference("workflowId"))
    else if HasSubstring(workflowId, workflows[i].workflowId.value) then Ok(i)
    else WorkflowIndexFrom(workflows, workflowId, i + 1)
  }

  /** The step a pre-retry reference names: the first whose id is part of
    * the reference; a step without an id throws. */
  function ReferencedStepFrom(steps: seq<Step>, reference: string, i: nat): (r: Result<nat>)
    requires i <= |steps|
    ensures r.Ok? ==> (i <= r.value < |steps| && steps[r.value].stepId.Some?
      && HasSubstring(reference, steps[r.value].stepId.value))
    ensures r.Ok? ==> forall j :: i <= j < r.value ==>
      steps[j].stepId.Some? && !HasSubstring(reference, steps[j].stepId.value)
    decreases |steps| - i
  {
    if i == |steps| then Err(StepNotFound(reference))
    else if steps[i].stepId.None? then Err(NullReference("stepId"))
    else if HasSubstring(reference, steps[i].stepId.value) then Ok(i)
    else ReferencedStepFrom(steps, reference, i + 1)
  }

  // ----- candidate actions -------------------------------------------------------------

  /** collectSuccessActions: the workflow's actions, then the step's chosen one. */
  function CollectSuccess(wf: Workflow, result: ExecutionResult): (r: seq<SuccessAction>)
    ensures |r| == |wf.successActions.GetOr([])| + (if result.successAction.Some? then 1 else 0)
    ensures forall i :: 0 <= i < |wf.successActions.GetOr([])| ==> r[i] == wf.successActions.GetOr([])[i]
    ensures result.successAction.Some? ==> r[|r| - 1] == result.successAction.value
  {
    wf.successActions.GetOr([]) + (if result.successAction.Some? then [result.successAction.value] else [])
  }

  /** collectFailureActions: the workflow's actions, then the step's chosen one. */
  function CollectFailure(wf: Workflow, result: ExecutionResult): (r: seq<FailureAction>)
    ensures |r| == |wf.failureActions.GetOr([])| + (if result.failureAction.Some? then 1 else 0)
    ensures forall i :: 0 <= i < |wf.failureActions.GetOr([])| ==> r[i] == wf.failureActions.GetOr([])[i]
    ensures result.failureAction.Some? ==> r[|r| - 1] == result.failureAction.value
  {
    wf.failureActions.GetOr([]) + (if result.failureAction.Some? then [result.failureAction.value] else [])
  }

  /** A success action that settles the decision: all but a GOTO with no target. */
  predicate SuccessDecides(a: SuccessAction) {
    a.atype != Some(SuccessGoto) || a.stepId.Some? || a.workflowId.Some?
  }

  /** A failure action that settles the decision: all but a GOTO with no target. */
  predicate FailureDecides(a: FailureAction) {
    a.atype != Some(FailureGoto) || a.stepId.Some? || a.workflowId.Some?
  }

  // ----- effects on the world ------------------------------------------------------------

  /** executeStep of the step executor, on the world. */
  function StepIn(e: Engine, respond: Respond, fuel: nat, w: World, step: Step): Run<ExecutionResult> {
    var out := RunStep(EnvFor(e), e.doc.sourceDescriptions, fuel, w.cache, step, respond(step, w.calls));
    var calls := if Sends(EnvFor(e), e.doc.sourceDescriptions, fuel, w.cache, step) then w.calls + 1 else w.calls;
    Run(out.res, World(out.cache, calls, w.waits))
  }

  /** doWait: Thread.sleep rejects a negative time; the wait is recorded. */
  function Wait(w: World, seconds: int): Run<()> {
    if seconds < 0 then Run(Err(IllegalArgument("timeout value is negative")), w)
    else Run(Ok(()), w.(waits := w.waits + [seconds]))
  }

  /** handleRetryAction: wait, then go back to the step with the given id. */
  function RetryWait(w: World, wf: Workflow, stepId: Option<string>, seconds: int): Run<Decision> {
    var waited := Wait(w, seconds);
    if waited.res.Err? then Run(Err(waited.res.error), waited.world)
    else
      var index := StepIndexFrom(wf.steps, stepId, 0);
      if index.Err? then Run(Err(index.error), waited.world)
      else Run(Ok(Decision(Some(index.value), false)), waited.world)
  }

  /** A run whose result is dropped, keeping only its failure. */
  function Discard<T>(r: Run<T>): Run<()> {
    if r.res.Err? then Run(Err(r.res.error), r.world) else Run(Ok(()), r.world)
  }

  function CounterLevel(counters: Option<Counters>): nat {
    if counters.Some? then 1 else 0
  }

  // ----- the run -------------------------------------------------------------------------
  // The functions below call each other the way the executor's methods do.
  // Every turn of the loop spends one unit of fuel; the pre-retry step
  // reference runs with no retry counters and so cannot reach a RETRY again.

  /** The while loop of executeWorkflow from the given cursor. */
  function Loop(e: Engine, respond: Respond, fuel: nat, w: World, wf: Workflow, cursor: nat, counters: Counters)
    : Run<()>
    decreases fuel, 0, 0, 0
  {
    if cursor >= |wf.steps| then Run(Ok(()), w)
    else if fuel == 0 then Run(Err(OutOfFuel), w)
    else
      var f := fuel - 1;
      var step := wf.steps[cursor];
      if step.workflowId.Some? then
        var d := Delegate(e, respond, f, w, step.workflowId.value);
        if d.res.Err? then d else Loop(e, respond, f, d.world, wf, cursor + 1, counters)
      else
        var s := StepIn(e, respond, f, w, step);
        if s.res.Err? then Run(Err(s.res.error), s.world)
        else
          var h := HandleResult(e, respond, f, s.world, wf, step, s.res.value, Some(counters));
          if h.res.Err? then Run(Err(h.res.error), h.world)
          else if h.res.value.0.mustEnd then Run(Ok(()), h.world)
          else Loop(e, respond, f, h.world, wf, Advance(cursor, h.res.value.0), h.res.value.1.GetOr(counters))
  }

  /** The cursor after a decision that does not end the run. */
  function Advance(cursor: nat, d: Decision): nat {
    if d.nextStepIndex.None? then cursor + 1 else d.nextStepIndex.value
  }

  /** executeWorkflow: the loop from the first step with no retries counted,
    * then the workflow outputs. */
  function ExecWorkflow(e: Engine, respond: Respond, fuel: nat, w: World, wf: Workflow): Run<()>
    decreases fuel, 0, 1, 0
  {
    Finish(e, fuel, Loop(e, respond, fuel, w, wf, 0, map[]), wf)
  }

  /** What follows the loop: the outputs, unless the loop failed. */
  function Finish(e: Engine, fuel: nat, loop: Run<()>, wf: Workflow): Run<()> {
    if loop.res.Err? then loop else WorkflowOutputs(e, fuel, loop.world, wf)
  }

  /** handleWorkflowIdExecutionReference: run a workflow of this document. */
  function RunWorkflowById(e: Engine, respond: Respond, fuel: nat, w: World, workflowId: string): Run<()>
    decreases fuel, 0, 2, 0
  {
    var index := WorkflowIndexFrom(e.doc.workflows, workflowId, 0);
    if index.Err? then Run(Err(index.error), w)
    else ExecWorkflow(e, respond, fuel, w, e.doc.workflows[index.value])
  }

  /** executeToReferencedWorkflow: a new executor for the referenced Arazzo
    * document runs the workflow there, sharing the memo. */
  function Delegate(e: Engine, respond: Respond, fuel: nat, w: World, workflowId: string): Run<()>
    decreases fuel, 0, 2, 0
  {
    var sd := RelevantSourceDescription(e.doc.sourceDescriptions, workflowId, WorkflowNotFound(workflowId));
    if sd.Err? then Run(Err(sd.error), w)
    else if sd.value.referencedArazzo.None? then Run(Err(NullReference("referencedArazzo")), w)
    else
      var other := sd.value.referencedArazzo.value;
      var index := WorkflowIndexFrom(other.workflows, workflowId, 0);
      if index.Err? then Run(Err(index.error), w)
      else ExecWorkflow(Engine(e.o, other, e.inputs), respond, fuel, w, other.workflows[index.value])
  }

  /** handleSuccessActions from the i-th candidate on. */
  function HandleSuccessFrom(e: Engine, respond: Respond, fuel: nat, w: World, wf: Workflow, actions: seq<SuccessAction>, i: nat)
    : Run<Decision>
    requires i <= |actions|
    decreases fuel, 0, 3, |actions| - i
  {
    if i == |actions| then Run(Ok(Sequential), w)
    else
      var a := actions[i];
      if a.atype.None? then Run(Err(NullReference("type")), w)
      else if a.atype == Some(SuccessEnd) then Run(Ok(Ending), w)
      else if a.stepId.Some? then Run(GotoStep(wf.steps, a.stepId.value), w)
      else if a.workflowId.Some? then
        var run := RunWorkflowById(e, respond, fuel, w, a.workflowId.value);
        if run.res.Err? then Run(Err(run.res.error), run.world) else Run(Ok(Ending), run.world)
      else HandleSuccessFrom(e, respond, fuel, w, wf, actions, i + 1)
  }

  /** The RETRY case of handleFailureActions. */
  function Retry(e: Engine, respond: Respond, fuel: nat, w: World, wf: Workflow, step: Step, a: FailureAction,
                 counters: Option<Counters>)
    : Run<(Decision, Option<Counters>)>
    decreases fuel, CounterLevel(counters), 3, 0
  {
    if counters.None? then Run(Err(NullReference("retryCounters")), w)
    else
      var count := CountOf(counters.value, step.stepId);
      if a.retryLimit.None? then Run(Err(NullReference("retryLimit")), w)
      else if count >= a.retryLimit.value then Run(Err(RetryLimitReached(a)), w)
      else if a.retryAfter.None? then Run(Err(NullReference("retryAfter")), w)
      else
        var counted := counters.value[step.stepId := count + 1];
        var pre :=
          if a.stepId.Some? then Discard(StepRef(e, respond, fuel, w, wf, a.stepId.value))
          else if a.workflowId.Some? then RunWorkflowById(e, respond, fuel, w, a.workflowId.value)
          else Run(Ok(()), w);
        if pre.res.Err? then Run(Err(pre.res.error), pre.world)
        else
          var back := RetryWait(pre.world, wf, step.stepId, a.retryAfter.value);
          if back.res.Err? then Run(Err(back.res.error), back.world)
          else Run(Ok((back.res.value, Some(counted))), back.world)
  }

  /** handleFailureActions from the i-th candidate on. */
  function HandleFailureFrom(e: Engine, respond: Respond, fuel: nat, w: World, wf: Workflow, step: Step,
                             actions: seq<FailureAction>, i: nat, counters: Option<Counters>)
    : Run<(Decision, Option<Counters>)>
    requires i <= |actions|
    decreases fuel, CounterLevel(counters), 4, |actions| - i
  {
    if i == |actions| then Run(Ok((Sequential, counters)), w)
    else
      var a := actions[i];
      if a.atype.None? then Run(Err(NullReference("type")), w)
      else if a.atype == Some(FailureEnd) then Run(Ok((Ending, counters)), w)
      else if a.atype == Some(FailureRetry) then Retry(e, respond, fuel, w, wf, step, a, counters)
      else if a.stepId.Some? then
        var goto := GotoStep(wf.steps, a.stepId.value);
        if goto.Err? then Run(Err(goto.error), w) else Run(Ok((goto.value, counters)), w)
      else if a.workflowId.Some? then
        var run := RunWorkflowById(e, respond, fuel, w, a.workflowId.value);
        if run.res.Err? then Run(Err(run.res.error), run.world) else Run(Ok((Ending, counters)), run.world)
      else HandleFailureFrom(e, respond, fuel, w, wf, step, actions, i + 1, counters)
  }

  /** handleExecutionResultActions: success actions on success, failure
    * actions otherwise, and an error when a failure has none. */
  function HandleResult(e: Engine, respond: Respond, fuel: nat, w: World, wf: Workflow, step: Step,
                        result: ExecutionResult, counters: Option<Counters>)
    : Run<(Decision, Option<Counters>)>
    decreases fuel, CounterLevel(counters), 5, 0
  {
    if result.successful then
      var s := HandleSuccessFrom(e, respond, fuel, w, wf, CollectSuccess(wf, result), 0);
      if s.res.Err? then Run(Err(s.res.error), s.world) else Run(Ok((s.res.value, counters)), s.world)
    else
      var actions := CollectFailure(wf, result);
      if |actions| == 0 then Run(Err(NoHandling), w)
      else HandleFailureFrom(e, respond, fuel, w, wf, step, actions, 0, counters)
  }

  /** handleStepIdExecutionReference: run the referenced step and judge its
    * outcome without retry counters. */
  function StepRef(e: Engine, respond: Respond, fuel: nat, w: World, wf: Workflow, reference: string)
    : Run<(Decision, Option<Counters>)>
    decreases fuel, 0, 6, 0
  {
    var index := ReferencedStepFrom(wf.steps, reference, 0);
    if index.Err? then Run(Err(index.error), w)
    else
      var refStep := wf.steps[index.value];
      var s := StepIn(e, respond, fuel, w, refStep);
      if s.res.Err? then Run(Err(s.res.error), s.world)
      else HandleResult(e, respond, fuel, s.world, wf, refStep, s.res.value, None)
  }

  // ----- workflow outputs ---------------------------------------------------------------

  function WorkflowOutputKey(workflowId: Option<string>, key: string): string {
    "$workflows." + NullText(workflowId) + ".outputs." + key
  }

  /** handleOutputs, first half: every output template-resolved, in order,
    * into the map of results (a later equal key overwrites an earlier one). */
  function ResolveOutputs(env: Env, fuel: nat, cache: Cache, outs: Outputs, i: nat, acc: map<string, string>)
    : Out<map<string, string>>
    requires i <= |outs|
    decreases |outs| - i
  {
    if i == |outs| then Out(Ok(acc), cache)
    else
      var resolved := ResolveText(env, fuel, cache, outs[i].1);
      if resolved.res.Err? then Out(Err(resolved.res.error), resolved.cache)
      else ResolveOutputs(env, fuel, resolved.cache, outs, i + 1, acc[outs[i].0 := resolved.res.value])
  }

  /** Different keys are published under different names. */
  lemma OutputKeyDiffers(workflowId: Option<string>, k1: string, k2: string)
    requires k1 != k2
    ensures WorkflowOutputKey(workflowId, k1) != WorkflowOutputKey(workflowId, k2)
  {
    var prefix := "$workflows." + NullText(workflowId) + ".outputs.";
    assert WorkflowOutputKey(workflowId, k1)[|prefix|..] == k1;
    assert WorkflowOutputKey(workflowId, k2)[|prefix|..] == k2;
  }

  /** addResolvedOutputs from the i-th output on: each result written under
    * `$workflows.<id>.outputs.<key>`.  The results are a map, so the order
    * of the writes does not matter; they are made in the outputs' order. */
  function Publish(cache: Cache, workflowId: Option<string>, results: map<string, string>, outs: Outputs, i: nat): Cache
    requires i <= |outs|
    requires forall j :: 0 <= j < |outs| ==> outs[j].0 in results
    decreases |outs| - i
  {
    if i == |outs| then cache
    else Publish(cache[WorkflowOutputKey(workflowId, outs[i].0) := Str(results[outs[i].0])], workflowId, results, outs, i + 1)
  }

  /** handleOutputs: nothing without outputs; otherwise resolve all of them,
    * then publish all of them. */
  function WorkflowOutputs(e: Engine, fuel: nat, w: World, wf: Workflow): Run<()> {
    if wf.outputs.None? then Run(Ok(()), w)
    else
      var resolved := ResolveOutputs(EnvFor(e), fuel, w.cache, wf.outputs.value, 0, map[]);
      if resolved.res.Err? then Run(Err(resolved.res.error), w.(cache := resolved.cache))
      else
        ResolvedKeys(EnvFor(e), fuel, w.cache, wf.outputs.value, 0, map[]);
        Run(Ok(()), w.(cache := Publish(resolved.cache, wf.workflowId, resolved.res.value, wf.outputs.value, 0)))
  }

  // ----- properties of a run ------------------------------------------------------------

  /** Actions that do not decide are passed over: the outcome is that of the
    * first one that does, or the sequential decision when none does. */
  lemma {:induction false} FirstDecidingSuccessWins(e: Engine, respond: Respond, fuel: nat, w: World, wf: Workflow,
                                                    actions: seq<SuccessAction>, i: nat, k: nat)
    requires i <= k <= |actions|
    requires forall j :: i <= j < k ==> !SuccessDecides(actions[j])
    ensures HandleSuccessFrom(e, respond, fuel, w, wf, actions, i) == HandleSuccessFrom(e, respond, fuel, w, wf, actions, k)
    ensures k == |actions| ==> HandleSuccessFrom(e, respond, fuel, w, wf, actions, i) == Run(Ok(Sequential), w)
    decreases k - i
  {
    if i < k {
      assert !SuccessDecides(actions[i]);
      FirstDecidingSuccessWins(e, respond, fuel, w, wf, actions, i + 1, k);
    }
  }

  /** The same for failure actions: the first that decides settles the step. */
  lemma {:induction false} FirstDecidingFailureWins(e: Engine, respond: Respond, fuel: nat, w: World, wf: Workflow, step: Step,
                                                    actions: seq<FailureAction>, i: nat, k: nat, counters: Option<Counters>)
    requires i <= k <= |actions|
    requires forall j :: i <= j < k ==> !FailureDecides(actions[j])
    ensures HandleFailureFrom(e, respond, fuel, w, wf, step, actions, i, counters)
         == HandleFailureFrom(e, respond, fuel, w, wf, step, actions, k, counters)
    ensures k == |actions| ==>
      HandleFailureFrom(e, respond, fuel, w, wf, step, actions, i, counters) == Run(Ok((Sequential, counters)), w)
    decreases k - i
  {
    if i < k {
      assert !FailureDecides(actions[i]);
      FirstDecidingFailureWins(e, respond, fuel, w, wf, step, actions, i + 1, k, counters);
    }
  }

  /** What a deciding success action does: END ends, GOTO a step jumps to
    * that step, GOTO a workflow runs it and then ends. */
  lemma SuccessDecision(e: Engine, respond: Respond, fuel: nat, w: World, wf: Workflow, actions: seq<SuccessAction>, i: nat)
    requires i < |actions| && actions[i].atype.Some?
    ensures var a := actions[i]; var r := HandleSuccessFrom(e, respond, fuel, w, wf, actions, i);
      && (a.atype == Some(SuccessEnd) ==> r == Run(Ok(Ending), w))
      && (a.atype == Some(SuccessGoto) && a.stepId.Some? ==> r == Run(GotoStep(wf.steps, a.stepId.value), w))
      && (a.atype == Some(SuccessGoto) && a.stepId.None? && a.workflowId.Some? ==>
            r.world == RunWorkflowById(e, respond, fuel, w, a.workflowId.value).world
            && (r.res.Ok? ==> r.res == Ok(Ending)))
  {
  }

  /** A failed step with no failure action at either level is an error. */
  lemma NoHandlingWithoutFailureActions(e: Engine, respond: Respond, fuel: nat, w: World, wf: Workflow, step: Step,
                                        result: ExecutionResult, counters: Option<Counters>)
    requires !result.successful && wf.failureActions.GetOr([]) == [] && result.failureAction.None?
    ensures HandleResult(e, respond, fuel, w, wf, step, result, counters) == Run(Err(NoHandling), w)
  {
  }

  /** RETRY: past the limit it is an error; otherwise the counter of the step
    * goes up by one, no further than the limit, and the cursor goes back to
    * the failed step, whatever the pre-retry reference decided. */
  lemma RetryOutcome(e: Engine, respond: Respond, fuel: nat, w: World, wf: Workflow, step: Step, a: FailureAction,
                     counters: Option<Counters>)
    ensures var r := Retry(e, respond, fuel, w, wf, step, a, counters);
      && (counters.Some? && a.retryLimit.Some? && CountOf(counters.value, step.stepId) >= a.retryLimit.value ==>
            r == Run(Err(RetryLimitReached(a)), w))
      && (r.res.Ok? ==>
            && counters.Some? && a.retryLimit.Some?
            && CountOf(counters.value, step.stepId) + 1 <= a.retryLimit.value
            && r.res.value.1 == Some(counters.value[step.stepId := CountOf(counters.value, step.stepId) + 1])
            && StepIndexFrom(wf.steps, step.stepId, 0).Ok?
            && r.res.value.0 == Decision(Some(StepIndexFrom(wf.steps, step.stepId, 0).value), false))
  {
  }

  /** How one judgement changes the retry counters: not at all, or by one
    * for the judged step under a RETRY action whose limit allowed it. */
  predicate CountedOnce(before: Counters, after: Counters, stepId: Option<string>, actions: seq<FailureAction>, i: nat) {
    after == before
    || (after == before[stepId := CountOf(before, stepId) + 1]
        && exists j :: i <= j < |actions| && actions[j].atype == Some(FailureRetry) && actions[j].retryLimit.Some?
                        && CountOf(before, stepId) < actions[j].retryLimit.value)
  }

  lemma {:induction false} FailureCountsOnce(e: Engine, respond: Respond, fuel: nat, w: World, wf: Workflow, step: Step,
                                             actions: seq<FailureAction>, i: nat, counters: Counters)
    requires i <= |actions|
    ensures var r := HandleFailureFrom(e, respond, fuel, w, wf, step, actions, i, Some(counters));
      r.res.Ok? ==> r.res.value.1.Some? && CountedOnce(counters, r.res.value.1.value, step.stepId, actions, i)
    decreases |actions| - i
  {
    if i < |actions| {
      var a := actions[i];
      if a.atype == Some(FailureRetry) {
        RetryOutcome(e, respond, fuel, w, wf, step, a, Some(counters));
      } else if a.atype == Some(FailureGoto) && a.stepId.None? && a.workflowId.None? {
        FailureCountsOnce(e, respond, fuel, w, wf, step, actions, i + 1, counters);
        var rest := HandleFailureFrom(e, respond, fuel, w, wf, step, actions, i + 1, Some(counters));
        assert HandleFailureFrom(e, respond, fuel, w, wf, step, actions, i, Some(counters)) == rest;
        if rest.res.Ok? && rest.res.value.1.value != counters {
          var j :| i + 1 <= j < |actions| && actions[j].atype == Some(FailureRetry) && actions[j].retryLimit.Some?
                   && CountOf(counters, step.stepId) < actions[j].retryLimit.value;
          assert i <= j;
        }
      } else {
        if a.atype.Some? {
          match a.atype.value
            case FailureEnd =>
            case FailureGoto =>
        }
      }
    }
  }

  /** The retry counters of a run are never reset: a judgement leaves them
    * as they were or counts one more retry of the judged step, allowed by
    * the limit of a RETRY action among its candidates. */
  lemma RetryCountersGrow(e: Engine, respond: Respond, fuel: nat, w: World, wf: Workflow, step: Step,
                          result: ExecutionResult, counters: Counters)
    ensures var r := HandleResult(e, respond, fuel, w, wf, step, result, Some(counters));
      r.res.Ok? ==> (r.res.value.1.Some?
        && CountedOnce(counters, r.res.value.1.value, step.stepId, CollectFailure(wf, result), 0))
  {
    if !result.successful && |CollectFailure(wf, result)| > 0 {
      FailureCountsOnce(e, respond, fuel, w, wf, step, CollectFailure(wf, result), 0, counters);
    }
  }

  /** Two output keys with the same published name are the same key. */
  lemma OutputKeySame(workflowId: Option<string>, k1: string, k2: string)
    requires WorkflowOutputKey(workflowId, k1) == WorkflowOutputKey(workflowId, k2)
    ensures k1 == k2
  {
    if k1 != k2 {
      OutputKeyDiffers(workflowId, k1, k2);
    }
  }

  /** After publishing, each output's name holds its result; every other
    * entry of the memo is as it was. */
  lemma {:induction false} PublishedValues(cache: Cache, workflowId: Option<string>, results: map<string, string>, outs: Outputs, i: nat)
    requires i <= |outs|
    requires forall j :: 0 <= j < |outs| ==> outs[j].0 in results
    ensures forall j :: i <= j < |outs| ==>
      WorkflowOutputKey(workflowId, outs[j].0) in Publish(cache, workflowId, results, outs, i)
      && Publish(cache, workflowId, results, outs, i)[WorkflowOutputKey(workflowId, outs[j].0)] == Str(results[outs[j].0])
    ensures forall x :: x in cache && (forall j :: i <= j < |outs| ==> x != WorkflowOutputKey(workflowId, outs[j].0)) ==>
      x in Publish(cache, workflowId, results, outs, i) && Publish(cache, workflowId, results, outs, i)[x] == cache[x]
    decreases |outs| - i
  {
    if i < |outs| {
      var name := WorkflowOutputKey(workflowId, outs[i].0);
      var next := cache[name := Str(results[outs[i].0])];
      PublishedValues(next, workflowId, results, outs, i + 1);
      var published := Publish(cache, workflowId, results, outs, i);
      assert published == Publish(next, workflowId, results, outs, i + 1);
      if exists j :: i + 1 <= j < |outs| && name == WorkflowOutputKey(workflowId, outs[j].0) {
        var j :| i + 1 <= j < |outs| && name == WorkflowOutputKey(workflowId, outs[j].0);
        OutputKeySame(workflowId, outs[i].0, outs[j].0);
      }
      assert published[name] == Str(results[outs[i].0]);
      forall j | i <= j < |outs|
        ensures name == WorkflowOutputKey(workflowId, outs[j].0) ==> published[name] == Str(results[outs[j].0])
      {
        if name == WorkflowOutputKey(workflowId, outs[j].0) {
          OutputKeySame(workflowId, outs[i].0, outs[j].0);
        }
      }
    }
  }

  /** handleOutputs: once every output resolved, each is readable under its
    * `$workflows.<id>.outputs.<key>` name; without outputs nothing changes. */
  lemma WorkflowOutputsPublished(e: Engine, fuel: nat, w: World, wf: Workflow)
    ensures wf.outputs.None? ==> WorkflowOutputs(e, fuel, w, wf) == Run(Ok(()), w)
    ensures wf.outputs.Some? && WorkflowOutputs(e, fuel, w, wf).res.Ok? ==>
      var resolved := ResolveOutputs(EnvFor(e), fuel, w.cache, wf.outputs.value, 0, map[]);
      var outs := wf.outputs.value;
      var cache := WorkflowOutputs(e, fuel, w, wf).world.cache;
      && resolved.res.Ok?
      && (forall j :: 0 <= j < |outs| ==> (outs[j].0 in resolved.res.value
            && WorkflowOutputKey(wf.workflowId, outs[j].0) in cache
            && cache[WorkflowOutputKey(wf.workflowId, outs[j].0)] == Str(resolved.res.value[outs[j].0])))
      && (forall x :: x in resolved.cache && (forall j :: 0 <= j < |outs| ==> x != WorkflowOutputKey(wf.workflowId, outs[j].0)) ==>
            x in cache && cache[x] == resolved.cache[x])
  {
    if wf.outputs.Some? {
      var resolved := ResolveOutputs(EnvFor(e), fuel, w.cache, wf.outputs.value, 0, map[]);
      ResolvedKeys(EnvFor(e), fuel, w.cache, wf.outputs.value, 0, map[]);
      if resolved.res.Ok? {
        PublishedValues(resolved.cache, wf.workflowId, resolved.res.value, wf.outputs.value, 0);
      }
    }
  }

  // ----- the executor object ---------------------------------------------------------

  /** The executor of one document.  Its resolver takes the provider from
    * the holder, so every executor of a run, nested ones included, writes
    * the same memo. */
  class WorkflowExecutor {
    const engine: Engine
    const holder: ProviderHolder
    const resolver: SpecExpressionResolver
    const stepExecutor: RestAssuredStepExecutor

    /** The parts agree with the document and share the holder's provider. */
    ghost predicate Valid()
      reads this, holder
    {
      resolver.env == EnvFor(engine)
      && stepExecutor.resolver == resolver
      && stepExecutor.sourceDescriptions == engine.doc.sourceDescriptions
      && holder.instance == resolver.provider
    }

    /** The world as the shared provider and the transport show it. */
    function Now(host: Host): World
      reads resolver.provider, host
    {
      World(resolver.provider.resolved, host.calls, host.waits)
    }

    constructor(o: Oracles, doc: Document, inputs: Value, holder: ProviderHolder)
      modifies holder
      ensures engine == Engine(o, doc, inputs) && this.holder == holder && Valid()
      ensures old(holder.instance) != null ==> resolver.provider == old(holder.instance)
      ensures old(holder.instance) != null ==> unchanged(old(holder.instance))
    {
      engine := Engine(o, doc, inputs);
      this.holder := holder;
      var r := new SpecExpressionResolver(o, doc, inputs, holder);
      resolver := r;
      stepExecutor := new RestAssuredStepExecutor(doc.sourceDescriptions, r);
    }

    /** executeWorkflow: the loop over the step cursor, then the outputs. */
    method ExecuteWorkflow(fuel: nat, wf: Workflow, host: Host) returns (r: Result<()>)
      requires Valid()
      modifies resolver.provider, host, holder
      ensures Run(r, Now(host)) == ExecWorkflow(engine, host.respond, fuel, old(Now(host)), wf)
      ensures holder.instance == old(holder.instance)
      decreases fuel, 0, 1, 0
    {
      ghost var loopRun := Loop(engine, host.respond, fuel, Now(host), wf, 0, map[]);
      ghost var target := Finish(engine, fuel, loopRun, wf);
      assert target == ExecWorkflow(engine, host.respond, fuel, Now(host), wf);
      var counters: Counters := map[];
      var cursor: nat := 0;
      var f: nat := fuel;
      var ended := false;
      while cursor < |wf.steps| && !ended
        invariant f <= fuel
        invariant holder.instance == old(holder.instance) == resolver.provider
        invariant ended ==> loopRun == Run(Ok(()), Now(host))
        invariant !ended ==> loopRun == Loop(engine, host.respond, f, Now(host), wf, cursor, counters)
        decreases f, if ended then 0 else 1
      {
        if f == 0 {
          return Err(OutOfFuel);
        }
        ghost var before := Now(host);
        var turn := ExecuteTurn(f, wf, cursor, counters, host);
        assert turn.Ok? && !turn.value.0 ==>
          loopRun == Loop(engine, host.respond, f - 1, Now(host), wf, turn.value.1, turn.value.2);
        f := f - 1;
        if turn.Err? {
          return Err(turn.error);
        }
        if turn.value.0 {
          ended := true;
        } else {
          cursor, counters := turn.value.1, turn.value.2;
        }
      }
      assert loopRun == Run(Ok(()), Now(host));
      r := HandleOutputs(fuel, wf, host);
    }

    /** One turn of executeWorkflow's loop at the cursor: a nested workflow run
      * and the next step, or the step, its result and the actions it leads
      * to.  The outcome says whether the run ends, and otherwise the new
      * cursor and retry counters. */
    method ExecuteTurn(fuel: nat, wf: Workflow, cursor: nat, counters: Counters, host: Host)
      returns (r: Result<(bool, nat, Counters)>)
      requires Valid() && cursor < |wf.steps| && fuel > 0
      modifies resolver.provider, host, holder
      ensures holder.instance == old(holder.instance)
      ensures r.Err? ==>
        Loop(engine, host.respond, fuel, old(Now(host)), wf, cursor, counters) == Run(Err(r.error), Now(host))
      ensures r.Ok? && r.value.0 ==>
        Loop(engine, host.respond, fuel, old(Now(host)), wf, cursor, counters) == Run(Ok(()), Now(host))
      ensures r.Ok? && !r.value.0 ==>
        Loop(engine, host.respond, fuel, old(Now(host)), wf, cursor, counters) ==
          Loop(engine, host.respond, fuel - 1, Now(host), wf, r.value.1, r.value.2)
      decreases fuel, 0, 0, 1
    {
      var f := fuel - 1;
      var step := wf.steps[cursor];
      ghost var w := Now(host);
      if step.workflowId.Some? {
        var delegated := ExecuteToReferencedWorkflow(f, step.workflowId.value, host);
        assert Run(delegated, Now(host)) == Delegate(engine, host.respond, f, w, step.workflowId.value);
        if delegated.Err? {
          return Err(delegated.error);
        }
        return Ok((false, cursor + 1, counters));
      }
      var result := stepExecutor.ExecuteStep(f, step, host);
      assert Run(result, Now(host)) == StepIn(engine, host.respond, f, w, step);
      if result.Err? {
        return Err(result.error);
      }
      var decision := HandleExecutionResultActions(f, wf, step, result.value, Some(counters), host);
      if decision.Err? {
        return Err(decision.error);
      }
      if decision.value.0.mustEnd {
        return Ok((true, cursor, counters));
      }
      r := Ok((false, Advance(cursor, decision.value.0), decision.value.1.GetOr(counters)));
    }

    /** handleExecutionResultActions. */
    method HandleExecutionResultActions(fuel: nat, wf: Workflow, step: Step, result: ExecutionResult,
                                        counters: Option<Counters>, host: Host)
      returns (r: Result<(Decision, Option<Counters>)>)
      requires Valid()
      modifies resolver.provider, host, holder
      ensures Run(r, Now(host)) == HandleResult(engine, host.respond, fuel, old(Now(host)), wf, step, result, counters)
      ensures holder.instance == old(holder.instance)
      decreases fuel, CounterLevel(counters), 5, 0
    {
      if result.successful {
        var decision := HandleSuccessActions(fuel, CollectSuccess(wf, result), wf, host);
        if decision.Err? {
          return Err(decision.error);
        }
        return Ok((decision.value, counters));
      }
      var actions := CollectFailure(wf, result);
      if |actions| == 0 {
        return Err(NoHandling);
      }
      r := HandleFailureActions(fuel, actions, step, wf, counters, host);
    }

    /** handleSuccessActions: the first action that decides, in list order. */
    method HandleSuccessActions(fuel: nat, actions: seq<SuccessAction>, wf: Workflow, host: Host)
      returns (r: Result<Decision>)
      requires Valid()
      modifies resolver.provider, host, holder
      ensures Run(r, Now(host)) == HandleSuccessFrom(engine, host.respond, fuel, old(Now(host)), wf, actions, 0)
      ensures holder.instance == old(holder.instance)
      decreases fuel, 0, 3, 0
    {
      var i := 0;
      while i < |actions|
        invariant 0 <= i <= |actions|
        invariant Now(host) == old(Now(host)) && holder.instance == old(holder.instance)
        invariant HandleSuccessFrom(engine, host.respond, fuel, Now(host), wf, actions, 0)
               == HandleSuccessFrom(engine, host.respond, fuel, Now(host), wf, actions, i)
      {
        var a := actions[i];
        if a.atype.None? {
          return Err(NullReference("type"));
        }
        if a.atype == Some(SuccessEnd) {
          return Ok(Ending);
        }
        if a.stepId.Some? {
          r := HandleGotoStepAction(a.stepId.value, wf);
          return;
        }
        if a.workflowId.Some? {
          var run := HandleWorkflowIdExecutionReference(fuel, a.workflowId.value, host);
          if run.Err? {
            return Err(run.error);
          }
          return Ok(Ending);
        }
        i := i + 1;
      }
      r := Ok(Sequential);
    }

    /** handleFailureActions: the first action that decides, in list order;
      * RETRY counts against the limit, runs the pre-retry reference, waits
      * and goes back to the failed step. */
    method HandleFailureActions(fuel: nat, actions: seq<FailureAction>, step: Step, wf: Workflow,
                                counters: Option<Counters>, host: Host)
      returns (r: Result<(Decision, Option<Counters>)>)
      requires Valid()
      modifies resolver.provider, host, holder
      ensures Run(r, Now(host)) == HandleFailureFrom(engine, host.respond, fuel, old(Now(host)), wf, step, actions, 0, counters)
      ensures holder.instance == old(holder.instance)
      decreases fuel, CounterLevel(counters), 4, 0
    {
      var i := 0;
      while i < |actions|
        invariant 0 <= i <= |actions|
        invariant Now(host) == old(Now(host)) && holder.instance == old(holder.instance)
        invariant HandleFailureFrom(engine, host.respond, fuel, Now(host), wf, step, actions, 0, counters)
               == HandleFailureFrom(engine, host.respond, fuel, Now(host), wf, step, actions, i, counters)
      {
        var a := actions[i];
        if a.atype.None? {
          return Err(NullReference("type"));
        }
        if a.atype == Some(FailureEnd) {
          return Ok((Ending, counters));
        }
        if a.atype == Some(FailureRetry) {
          r := HandleRetry(fuel, wf, step, a, counters, host);
          return;
        }
        if a.stepId.Some? {
          var goto := HandleGotoStepAction(a.stepId.value, wf);
          if goto.Err? {
            return Err(goto.error);
          }
          return Ok((goto.value, counters));
        }
        if a.workflowId.Some? {
          var run := HandleWorkflowIdExecutionReference(fuel, a.workflowId.value, host);
          if run.Err? {
            return Err(run.error);
          }
          return Ok((Ending, counters));
        }
        i := i + 1;
      }
      r := Ok((Sequential, counters));
    }

    /** The RETRY case of handleFailureActions. */
    method HandleRetry(fuel: nat, wf: Workflow, step: Step, a: FailureAction, counters: Option<Counters>, host: Host)
      returns (r: Result<(Decision, Option<Counters>)>)
      requires Valid()
      modifies resolver.provider, host, holder
      ensures Run(r, Now(host)) == Retry(engine, host.respond, fuel, old(Now(host)), wf, step, a, counters)
      ensures holder.instance == old(holder.instance)
      decreases fuel, CounterLevel(counters), 3, 0
    {
      if counters.None? {
        return Err(NullReference("retryCounters"));
      }
      var retryCount := CountOf(counters.value, step.stepId);
      if a.retryLimit.None? {
        return Err(NullReference("retryLimit"));
      }
      if retryCount >= a.retryLimit.value {
        return Err(RetryLimitReached(a));
      }
      retryCount := retryCount + 1;
      var counted := counters.value[step.stepId := retryCount];
      if a.retryAfter.None? {
        return Err(NullReference("retryAfter"));
      }
      if a.stepId.Some? {
        var refResult := HandleStepIdExecutionReference(fuel, wf, a.stepId.value, host);
        if refResult.Err? {
          return Err(refResult.error);
        }
      } else if a.workflowId.Some? {
        var run := HandleWorkflowIdExecutionReference(fuel, a.workflowId.value, host);
        if run.Err? {
          return Err(run.error);
        }
      }
      var back := HandleRetryAction(wf, step.stepId, a.retryAfter.value, host);
      if back.Err? {
        return Err(back.error);
      }
      r := Ok((back.value, Some(counted)));
    }

    /** handleRetryAction: doWait, then the index of the step to retry. */
    method HandleRetryAction(wf: Workflow, retryStepId: Option<string>, retryAfter: int, host: Host)
      returns (r: Result<Decision>)
      modifies host
      ensures Run(r, Now(host)) == RetryWait(old(Now(host)), wf, retryStepId, retryAfter)
    {
      var waited := host.Sleep(retryAfter);
      if waited.Err? {
        return Err(waited.error);
      }
      var index := FindStepIndexById(wf, retryStepId);
      if index.Err? {
        return Err(index.error);
      }
      r := Ok(Decision(Some(index.value), false));
    }

    /** handleGotoStepAction. */
    method HandleGotoStepAction(stepId: string, wf: Workflow) returns (r: Result<Decision>)
      ensures r == GotoStep(wf.steps, stepId)
    {
      var index := FindStepIndexById(wf, Some(stepId));
      if index.Err? {
        return Err(index.error);
      }
      r := Ok(Decision(Some(index.value), false));
    }

    /** findStepIndexById: the search loop over the steps. */
    method FindStepIndexById(wf: Workflow, stepId: Option<string>) returns (r: Result<nat>)
      ensures r == StepIndexFrom(wf.steps, stepId, 0)
    {
      var i := 0;
      while i < |wf.steps|
        invariant 0 <= i <= |wf.steps|
        invariant StepIndexFrom(wf.steps, stepId, 0) == StepIndexFrom(wf.steps, stepId, i)
      {
        if wf.steps[i].stepId.None? {
          return Err(NullReference("stepId"));
        }
        if wf.steps[i].stepId == stepId {
          return Ok(i);
        }
        i := i + 1;
      }
      r := Err(StepNotFound(NullText(stepId)));
    }

    /** handleStepIdExecutionReference: the referenced step is executed and
      * its outcome judged with no retry counters. */
    method HandleStepIdExecutionReference(fuel: nat, wf: Workflow, reference: string, host: Host)
      returns (r: Result<(Decision, Option<Counters>)>)
      requires Valid()
      modifies resolver.provider, host, holder
      ensures Run(r, Now(host)) == StepRef(engine, host.respond, fuel, old(Now(host)), wf, reference)
      ensures holder.instance == old(holder.instance)
      decreases fuel, 0, 6, 0
    {
      var index := ReferencedStepFrom(wf.steps, reference, 0);
      if index.Err? {
        return Err(index.error);
      }
      var refStep := wf.steps[index.value];
      var result := stepExecutor.ExecuteStep(fuel, refStep, host);
      if result.Err? {
        return Err(result.error);
      }
      r := HandleExecutionResultActions(fuel, wf, refStep, result.value, None, host);
    }

    /** handleWorkflowIdExecutionReference: a workflow of this document, run
      * by this executor. */
    method HandleWorkflowIdExecutionReference(fuel: nat, workflowId: string, host: Host) returns (r: Result<()>)
      requires Valid()
      modifies resolver.provider, host, holder
      ensures Run(r, Now(host)) == RunWorkflowById(engine, host.respond, fuel, old(Now(host)), workflowId)
      ensures holder.instance == old(holder.instance)
      decreases fuel, 0, 2, 0
    {
      var index := WorkflowIndexFrom(engine.doc.workflows, workflowId, 0);
      if index.Err? {
        return Err(index.error);
      }
      r := ExecuteWorkflow(fuel, engine.doc.workflows[index.value], host);
    }

    /** executeToReferencedWorkflow: a new executor for the referenced
      * document; it finds the same provider in the holder. */
    method ExecuteToReferencedWorkflow(fuel: nat, workflowId: string, host: Host) returns (r: Result<()>)
      requires Valid()
      modifies resolver.provider, host, holder
      ensures Run(r, Now(host)) == Delegate(engine, host.respond, fuel, old(Now(host)), workflowId)
      ensures holder.instance == old(holder.instance)
      decreases fuel, 0, 2, 0
    {
      var sd := RelevantSourceDescription(engine.doc.sourceDescriptions, workflowId, WorkflowNotFound(workflowId));
      if sd.Err? {
        return Err(sd.error);
      }
      if sd.value.referencedArazzo.None? {
        return Err(NullReference("referencedArazzo"));
      }
      var other := sd.value.referencedArazzo.value;
      var index := WorkflowIndexFrom(other.workflows, workflowId, 0);
      if index.Err? {
        return Err(index.error);
      }
      var nested := new WorkflowExecutor(engine.o, other, engine.inputs, holder);
      assert nested.Now(host) == Now(host);
      r := nested.ExecuteWorkflow(fuel, other.workflows[index.value], host);
      assert nested.Now(host) == Now(host);
    }

    /** handleOutputs and addResolvedOutputs: every output resolved as a
      * template, then every result published. */
    method HandleOutputs(fuel: nat, wf: Workflow, host: Host) returns (r: Result<()>)
      requires Valid()
      modifies resolver.provider
      ensures Run(r, Now(host)) == WorkflowOutputs(engine, fuel, old(Now(host)), wf)
    {
      if wf.outputs.None? {
        return Ok(());
      }
      var outs := wf.outputs.value;
      var resolvedOutputs: map<string, string> := map[];
      var i := 0;
      while i < |outs|
        invariant 0 <= i <= |outs|
        invariant ResolveOutputs(EnvFor(engine), fuel, old(resolver.provider.resolved), outs, 0, map[])
               == ResolveOutputs(EnvFor(engine), fuel, resolver.provider.resolved, outs, i, resolvedOutputs)
      {
        var resolved := resolver.ResolveString(fuel, outs[i].1);
        if resolved.Err? {
          return Err(resolved.error);
        }
        resolvedOutputs := resolvedOutputs[outs[i].0 := resolved.value];
        i := i + 1;
      }
      ResolvedKeys(EnvFor(engine), fuel, old(resolver.provider.resolved), outs, 0, map[]);
      ghost var base := resolver.provider.resolved;
      i := 0;
      while i < |outs|
        invariant 0 <= i <= |outs|
        invariant Publish(base, wf.workflowId, resolvedOutputs, outs, 0)
               == Publish(resolver.provider.resolved, wf.workflowId, resolvedOutputs, outs, i)
      {
        resolver.provider.AddResolved(WorkflowOutputKey(wf.workflowId, outs[i].0), Str(resolvedOutputs[outs[i].0]));
        i := i + 1;
      }
      r := Ok(());
    }
  }

  /** Every output's key is among the results. */
  lemma {:induction false} ResolvedKeys(env: Env, fuel: nat, cache: Cache, outs: Outputs, i: nat, acc: map<string, string>)
    requires i <= |outs|
    requires forall j :: 0 <= j < i ==> outs[j].0 in acc
    ensures ResolveOutputs(env, fuel, cache, outs, i, acc).res.Ok? ==>
      forall j :: 0 <= j < |outs| ==> outs[j].0 in ResolveOutputs(env, fuel, cache, outs, i, acc).res.value
    decreases |outs| - i
  {
    if i < |outs| {
      var resolved := ResolveText(env, fuel, cache, outs[i].1);
      if resolved.res.Ok? {
        ResolvedKeys(env, fuel, resolved.cache, outs, i + 1, acc[outs[i].0 := resolved.res.value]);
      }
    }
  }
}
