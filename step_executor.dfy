/** RestAssuredStepExecutor: what happens around one HTTP call of a step.
  * The success criteria are judged against the exchange, the step's own
  * success or failure action is singled out, a `Retry-After` header is
  * applied to a chosen RETRY action, and on success the step's outputs are
  * resolved and published in the shared memo.  The request is built with
  * its parameter values and payload resolved in that memo; sending it and
  * the network are the transport (`Host`), a parameter of the model. */
module StepExecutor {
  import opened Wrappers
  import opened Strings
  import opened Json
  import opened Values
  import opened Model
  import opened ExpressionCache
  import opened SpecResolver
  import opened CriterionEvaluator

  // ----- the success criteria ------------------------------------------------------

  /** How one criterion is judged in a given memo: evalCriterion in a context. */
  type Judge = (Cache, Criterion) -> Out<bool>

  function JudgeIn(env: Env, fuel: nat, context: Context): Judge {
    (c: Cache, x: Criterion) => EvalCriterion(env, fuel, c, x, context)
  }

  /** Stream.allMatch: left to right, each criterion in the memo its
    * predecessors left, stopping at the first that fails or throws. */
  function AllHold(judge: Judge, cache: Cache, cs: seq<Criterion>): Out<bool>
    decreases |cs|
  {
    if |cs| == 0 then Out(Ok(true), cache)
    else
      var first := judge(cache, cs[0]);
      if first.res.Err? || !first.res.value then first
      else AllHold(judge, first.cache, cs[1..])
  }

  /** The verdict on criterion k, in the memo the criteria before it left. */
  function VerdictAt(judge: Judge, cache: Cache, cs: seq<Criterion>, k: nat): Result<bool>
    requires k < |cs|
  {
    judge(AllHold(judge, cache, cs[..k]).cache, cs[k]).res
  }

  /** evaluateSuccessCriteria: a step without a criteria list throws. */
  function EvaluateSuccessCriteria(env: Env, fuel: nat, cache: Cache, step: Step, context: Context): Out<bool> {
    if step.successCriteria.None? then Out(Err(NullReference("successCriteria")), cache)
    else AllHold(JudgeIn(env, fuel, context), cache, step.successCriteria.value)
  }

  /** shouldExecuteAction: an action without a criteria list throws. */
  function ShouldExecute(env: Env, fuel: nat, cache: Cache, criteria: Option<seq<Criterion>>, context: Context): Out<bool> {
    if criteria.None? then Out(Err(NullReference("criteria")), cache)
    else AllHold(JudgeIn(env, fuel, context), cache, criteria.value)
  }

  // ----- picking the step's action -------------------------------------------------

  /** How one action's criteria list is checked in a given memo. */
  type Check = (Cache, Option<seq<Criterion>>) -> Out<bool>

  function CheckIn(env: Env, fuel: nat, context: Context): Check {
    (c: Cache, criteria: Option<seq<Criterion>>) => ShouldExecute(env, fuel, c, criteria, context)
  }

  /** filter(shouldExecuteAction).findFirst() over the actions' criteria
    * lists: the index of the first action whose criteria all hold. */
  function FirstFitting(check: Check, cache: Cache, criteria: seq<Option<seq<Criterion>>>): (r: Out<Option<nat>>)
    ensures r.res.Ok? && r.res.value.Some? ==> r.res.value.value < |criteria|
    decreases |criteria|
  {
    if |criteria| == 0 then Out(Ok(None), cache)
    else
      var first := check(cache, criteria[0]);
      if first.res.Err? then Out(Err(first.res.error), first.cache)
      else if first.res.value then Out(Ok(Some(0)), first.cache)
      else Shift(FirstFitting(check, first.cache, criteria[1..]), 1)
  }

  /** An index found in a later part of the list, counted from its start. */
  function Shift(o: Out<Option<nat>>, n: nat): Out<Option<nat>> {
    if o.res.Ok? && o.res.value.Some? then Out(Ok(Some(o.res.value.value + n)), o.cache) else o
  }

  /** The check of action k, in the memo the checks before it left. */
  function CheckAt(check: Check, cache: Cache, criteria: seq<Option<seq<Criterion>>>, k: nat): Result<bool>
    requires k < |criteria|
  {
    check(FirstFitting(check, cache, criteria[..k]).cache, criteria[k]).res
  }

  function SuccessCriteriaOf(actions: seq<SuccessAction>): (r: seq<Option<seq<Criterion>>>)
    ensures |r| == |actions| && forall i :: 0 <= i < |actions| ==> r[i] == actions[i].criteria
  {
    seq(|actions|, i requires 0 <= i < |actions| => actions[i].criteria)
  }

  function FailureCriteriaOf(actions: seq<FailureAction>): (r: seq<Option<seq<Criterion>>>)
    ensures |r| == |actions| && forall i :: 0 <= i < |actions| ==> r[i] == actions[i].criteria
  {
    seq(|actions|, i requires 0 <= i < |actions| => actions[i].criteria)
  }

  /** "%s" of a possibly null string. */
  function NullText(s: Option<string>): string {
    if s.Some? then s.value else "null"
  }

  function SuccessNotSatisfied(step: Step): Failure {
    IllegalState("Success action criteria not satisfied: stepId='" + NullText(step.stepId) + "'")
  }

  function FailureNotSatisfied(step: Step): Failure {
    IllegalState("Failure action criteria not satisfied: stepId='" + NullText(step.stepId) + "'")
  }

  /** findFittingSuccessAction: none without `onSuccess`, otherwise the first
    * fitting action, and an error when none fits. */
  function FindFittingSuccessAction(env: Env, fuel: nat, cache: Cache, step: Step, context: Context)
    : (r: Out<Option<SuccessAction>>)
    ensures step.onSuccess.None? ==> r == Out(Ok(None), cache)
    ensures r.res.Ok? && step.onSuccess.Some? ==> r.res.value.Some? && r.res.value.value in step.onSuccess.value
  {
    if step.onSuccess.None? then Out(Ok(None), cache)
    else
      var actions := step.onSuccess.value;
      var found := FirstFitting(CheckIn(env, fuel, context), cache, SuccessCriteriaOf(actions));
      if found.res.Err? then Out(Err(found.res.error), found.cache)
      else if found.res.value.None? then Out(Err(SuccessNotSatisfied(step)), found.cache)
      else Out(Ok(Some(actions[found.res.value.value])), found.cache)
  }

  // ----- Retry-After -----------------------------------------------------------------

  predicate AllDigits(s: string) {
    forall i :: 0 <= i < |s| ==> IsDigit(s[i])
  }

  /** `new BigDecimal(text).longValue()` for a plain decimal: an optional sign,
    * digits with at most one `.` among them and at least one digit; the
    * fraction is cut off.  None marks the NumberFormatException. */
  function DecimalWhole(s: string): Option<int> {
    var signed := |s| > 0 && (s[0] == '-' || s[0] == '+');
    var body := if signed then s[1..] else s;
    var dot := IndexOf(body, ".", 0);
    var whole := if dot == -1 then body else body[..dot];
    var fraction := if dot == -1 then "" else body[dot + 1..];
    if (whole == "" && fraction == "") || !AllDigits(whole) || !AllDigits(fraction) then None
    else Some(if signed && s[0] == '-' then -(DigitsValue(whole) as int) else DigitsValue(whole))
  }

  function NotANumber(text: string): Failure {
    Foreign("NumberFormatException: " + text)
  }

  /** The override of a chosen RETRY action by the latest response's
    * `Retry-After` header; any other action, or no header, leaves it as it is. */
  function ApplyRetryAfter(a: FailureAction, snapshot: Snapshot): (r: Result<FailureAction>)
    ensures r.Ok? ==> r.value == a.(retryAfter := r.value.retryAfter)
    ensures r.Ok? && r.value != a ==> a.atype == Some(FailureRetry) && HeaderValue(snapshot.responseHeaders, "Retry-After").Some?
    ensures r.Err? ==> a.atype == Some(FailureRetry)
  {
    if a.atype != Some(FailureRetry) then Ok(a)
    else
      match HeaderValue(snapshot.responseHeaders, "Retry-After")
        case None => Ok(a)
        case Some(h) =>
          match DecimalWhole(h)
            case None => Err(NotANumber(h))
            case Some(n) => Ok(a.(retryAfter := Some(n)))
  }

  /** findFittingFailureAction: the same first-match rule over `onFailure`,
    * followed by the Retry-After override. */
  function FindFittingFailureAction(env: Env, fuel: nat, cache: Cache, step: Step, snapshot: Snapshot)
    : (r: Out<Option<FailureAction>>)
    ensures step.onFailure.None? ==> r == Out(Ok(None), cache)
    ensures r.res.Ok? && step.onFailure.Some? ==> r.res.value.Some?
  {
    if step.onFailure.None? then Out(Ok(None), cache)
    else
      var actions := step.onFailure.value;
      var found := FirstFitting(CheckIn(env, fuel, Http(snapshot)), cache, FailureCriteriaOf(actions));
      if found.res.Err? then Out(Err(found.res.error), found.cache)
      else if found.res.value.None? then Out(Err(FailureNotSatisfied(step)), found.cache)
      else
        match ApplyRetryAfter(actions[found.res.value.value], snapshot)
          case Err(e) => Out(Err(e), found.cache)
          case Ok(a) => Out(Ok(Some(a)), found.cache)
  }

  // ----- the outcome of a response -----------------------------------------------------

  /** What the step executor hands back to the workflow executor. */
  datatype ExecutionResult = ExecutionResult(
    successful: bool,
    successAction: Option<SuccessAction>,
    failureAction: Option<FailureAction>)

  /** handleResponse(step, response, context). */
  function HandleResponse(env: Env, fuel: nat, cache: Cache, step: Step, snapshot: Snapshot)
    : (r: Out<ExecutionResult>)
    ensures r.res.Ok? ==> (r.res.value.successful <==> EvaluateSuccessCriteria(env, fuel, cache, step, Http(snapshot)).res == Ok(true))
    ensures r.res.Ok? && r.res.value.successAction.Some? ==> r.res.value.successful
    ensures r.res.Ok? && r.res.value.failureAction.Some? ==> !r.res.value.successful
  {
    var success := EvaluateSuccessCriteria(env, fuel, cache, step, Http(snapshot));
    if success.res.Err? then Out(Err(success.res.error), success.cache)
    else if success.res.value then
      var chosen := FindFittingSuccessAction(env, fuel, success.cache, step, Http(snapshot));
      if chosen.res.Err? then Out(Err(chosen.res.error), chosen.cache)
      else Out(Ok(ExecutionResult(true, chosen.res.value, None)), chosen.cache)
    else
      var chosen := FindFittingFailureAction(env, fuel, success.cache, step, snapshot);
      if chosen.res.Err? then Out(Err(chosen.res.error), chosen.cache)
      else Out(Ok(ExecutionResult(false, None, chosen.res.value)), chosen.cache)
  }

  // ----- step outputs ----------------------------------------------------------------

  function OutputKey(stepId: Option<string>, key: string): string {
    "$steps." + NullText(stepId) + ".outputs." + key
  }

  const OutputNull := IllegalState("Resolved output must not be null at this point")

  /** The outputs from the i-th on: each resolved in the HTTP context and
    * published under its `$steps.<stepId>.outputs.<key>` name. */
  function PublishFrom(env: Env, fuel: nat, cache: Cache, stepId: Option<string>, outs: Outputs, i: nat, context: Context)
    : Out<()>
    requires i <= |outs|
    decreases |outs| - i
  {
    if i == |outs| then Out(Ok(()), cache)
    else
      var resolved := Resolve(env, fuel, cache, outs[i].1, context);
      if resolved.res.Err? then Out(Err(resolved.res.error), resolved.cache)
      else if resolved.res.value.Null? then Out(Err(OutputNull), resolved.cache)
      else PublishFrom(env, fuel, resolved.cache[OutputKey(stepId, outs[i].0) := resolved.res.value], stepId, outs, i + 1, context)
  }

  /** handleOutputs: nothing to do without outputs. */
  function StepOutputs(env: Env, fuel: nat, cache: Cache, step: Step, context: Context): Out<()> {
    if step.outputs.None? then Out(Ok(()), cache)
    else PublishFrom(env, fuel, cache, step.stepId, step.outputs.value, 0, context)
  }

  // ----- the source description and the server ----------------------------------------

  predicate NameIn(sd: SourceDescription, identifier: string) {
    sd.name.Some? && HasSubstring(identifier, sd.name.value)
  }

  predicate NameNotIn(sd: SourceDescription, identifier: string) {
    sd.name.Some? && !HasSubstring(identifier, sd.name.value)
  }

  /** The first source description from k whose name occurs in the
    * identifier; a null name before a match throws. */
  function FirstNameContained(sds: seq<SourceDescription>, identifier: string, k: nat): (r: Result<Option<nat>>)
    requires k <= |sds|
    ensures r.Ok? && r.value.Some? ==> k <= r.value.value < |sds| && NameIn(sds[r.value.value], identifier)
    ensures r.Ok? && r.value.Some? ==> forall j :: k <= j < r.value.value ==> NameNotIn(sds[j], identifier)
    ensures r.Ok? && r.value.None? ==> forall j :: k <= j < |sds| ==> NameNotIn(sds[j], identifier)
    ensures r.Err? ==> exists j :: k <= j < |sds| && sds[j].name.None?
    decreases |sds| - k
  {
    if k == |sds| then Ok(None)
    else if sds[k].name.None? then Err(NullReference("name"))
    else if HasSubstring(identifier, sds[k].name.value) then Ok(Some(k))
    else FirstNameContained(sds, identifier, k + 1)
  }

  /** findRelevantSourceDescriptionByIdentifier: the only description, or the
    * first whose name is part of the identifier. */
  function RelevantSourceDescription(sds: seq<SourceDescription>, identifier: string, notFound: Failure)
    : (r: Result<SourceDescription>)
    ensures |sds| == 1 ==> r == Ok(sds[0])
    ensures r.Ok? ==> r.value in sds
  {
    if |sds| == 0 then Err(IndexOutOfBounds("sourceDescriptions"))
    else if |sds| == 1 then Ok(sds[0])
    else
      match FirstNameContained(sds, identifier, 0)
        case Err(e) => Err(e)
        case Ok(None) => Err(notFound)
        case Ok(Some(i)) => Ok(sds[i])
  }

  function SourceNotFound(identifier: string): Failure {
    IllegalState("Source Description not found: identifier='" + identifier + "'")
  }

  /** The source description a step's operation lives in, looked up by its
    * operationId or else its operationPath before the request is made. */
  function SourceCheck(sds: seq<SourceDescription>, step: Step): Result<()> {
    var target := if step.operationId.Some? then step.operationId else step.operationPath;
    if target.None? then Ok(())
    else
      match RelevantSourceDescription(sds, target.value, SourceNotFound(target.value))
        case Err(e) => Err(e)
        case Ok(_) => Ok(())
  }

  /** The run of ASCII digits that ends the text. */
  function TrailingDigits(s: string): (t: nat)
    ensures t <= |s|
    ensures forall i :: |s| - t <= i < |s| ==> IsDigit(s[i])
    ensures t < |s| ==> !IsDigit(s[|s| - t - 1])
    decreases |s|
  {
    if |s| == 0 || !IsDigit(s[|s| - 1]) then 0 else TrailingDigits(s[..|s| - 1]) + 1
  }

  predicate NoLineTerminator(s: string) {
    forall i :: 0 <= i < |s| ==> !IsLineTerminator(s[i])
  }

  /** String.matches(".*:\\d{1,5}"), computed from the trailing digits. */
  predicate MatchesPortSuffix(url: string) {
    var t := TrailingDigits(url);
    1 <= t <= 5 && t < |url| && url[|url| - t - 1] == ':' && NoLineTerminator(url[..|url| - t - 1])
  }

  /** The same pattern read off the regular expression: a colon at some p
    * with no line terminator before it and one to five digits after it. */
  predicate PortSuffix(url: string) {
    exists p :: 0 <= p && |url| - 6 <= p <= |url| - 2 && url[p] == ':'
      && (forall i :: p < i < |url| ==> IsDigit(url[i]))
      && NoLineTerminator(url[..p])
  }

  /** The localhost fallback: a localhost URL without a port gets `:8080`. */
  function WithFallbackPort(url: string): string {
    if Contains(url, "localhost") && !MatchesPortSuffix(url) then url + ":8080" else url
  }

  /** findServerUrl: the first server of the referenced OpenAPI description. */
  function FindServerUrl(sd: SourceDescription): (r: Result<string>)
    ensures sd.referencedOpenApi.Some? && |sd.referencedOpenApi.value.serverUrls| > 0 ==>
      r == Ok(WithFallbackPort(sd.referencedOpenApi.value.serverUrls[0]))
    ensures r.Ok? ==> sd.referencedOpenApi.Some? && |sd.referencedOpenApi.value.serverUrls| > 0
  {
    if sd.referencedOpenApi.None? then Err(NullReference("referencedOpenAPI"))
    else if |sd.referencedOpenApi.value.serverUrls| == 0 then Err(IndexOutOfBounds("servers"))
    else Ok(WithFallbackPort(sd.referencedOpenApi.value.serverUrls[0]))
  }

  // ----- building the request --------------------------------------------------------

  /** A parameter map handed to RestAssured, keyed by the parameter's name;
    * like the HashMap it models, it takes a null name as a key. */
  type ParamMap = map<Option<string>, Value>

  /** What buildRequest hands to RestAssured. */
  datatype Request = Request(
    baseUri: string,
    query: ParamMap,
    headers: ParamMap,
    cookies: ParamMap,
    pathParams: ParamMap,
    body: Option<string>)

  /** Object.toString of a value read by getAnyType or getPlayload: a String
    * is its own text, an Integer its digits, a Boolean `true` or `false`,
    * and a JSON node its JSON text. */
  function ValueText(o: Oracles, j: Json): string {
    match j
      case JStr(s) => s
      case JNum(n) => IntToString(n)
      case JBool(b) => if b then "true" else "false"
      case _ => o.writeJson(j)
  }

  /** The message of the IllegalStateException Collectors.toMap throws on a
    * key it has seen before. */
  function DuplicateKey(o: Oracles, name: Option<string>, earlier: Value, later: Value): string {
    "Duplicate key " + (if name.Some? then name.value else "null")
    + " (attempted merging values " + Show(o, earlier) + " and " + Show(o, later) + ")"
  }

  /** One `Collectors.toMap(Parameter::getName, resolveExpression(getValue().toString(), null))`
    * over the parameters in `location`, from the i-th on.  A parameter's value
    * is resolved, and the memo written, before its name is checked; a missing
    * value or a null resolution throws, and so does a name met before. */
  function ParameterMapFrom(env: Env, fuel: nat, cache: Cache, ps: seq<Parameter>, location: ParameterIn,
                            i: nat, acc: ParamMap): Out<ParamMap>
    requires i <= |ps|
    decreases |ps| - i
  {
    if i == |ps| then Out(Ok(acc), cache)
    else if ps[i].pin != Some(location) then ParameterMapFrom(env, fuel, cache, ps, location, i + 1, acc)
    else if ps[i].value.None? then Out(Err(NullReference("value")), cache)
    else
      var resolved := Resolve(env, fuel, cache, ValueText(env.o, ps[i].value.value), NoContext);
      if resolved.res.Err? then Out(Err(resolved.res.error), resolved.cache)
      else if resolved.res.value.Null? then Out(Err(NullReference("toMap value")), resolved.cache)
      else if ps[i].name in acc then
        Out(Err(Foreign(DuplicateKey(env.o, ps[i].name, acc[ps[i].name], resolved.res.value))), resolved.cache)
      else ParameterMapFrom(env, fuel, resolved.cache, ps, location, i + 1, acc[ps[i].name := resolved.res.value])
  }

  /** The query, header, cookie and path maps, built in that order; a step
    * without parameters has four empty maps. */
  function ParameterMaps(env: Env, fuel: nat, cache: Cache, step: Step): Out<(ParamMap, ParamMap, ParamMap, ParamMap)> {
    if step.parameters.None? then Out(Ok((map[], map[], map[], map[])), cache)
    else
      var ps := step.parameters.value;
      var query := ParameterMapFrom(env, fuel, cache, ps, InQuery, 0, map[]);
      if query.res.Err? then Out(Err(query.res.error), query.cache)
      else
        var headers := ParameterMapFrom(env, fuel, query.cache, ps, InHeader, 0, map[]);
        if headers.res.Err? then Out(Err(headers.res.error), headers.cache)
        else
          var cookies := ParameterMapFrom(env, fuel, headers.cache, ps, InCookie, 0, map[]);
          if cookies.res.Err? then Out(Err(cookies.res.error), cookies.cache)
          else
            var path := ParameterMapFrom(env, fuel, cookies.cache, ps, InPath, 0, map[]);
            if path.res.Err? then Out(Err(path.res.error), path.cache)
            else Out(Ok((query.res.value, headers.res.value, cookies.res.value, path.res.value)), path.cache)
  }

  /** The payload replacements from the k-th on, applied in order: a target
    * starting with `$` is a JsonPath that receives the value resolved as a
    * string, any other target an XPath that receives the value's text. */
  function ReplaceFrom(env: Env, fuel: nat, cache: Cache, rs: seq<PayloadReplacement>, k: nat, payload: string): Out<string>
    requires k <= |rs|
    decreases |rs| - k
  {
    if k == |rs| then Out(Ok(payload), cache)
    else if rs[k].target.None? then Out(Err(NullReference("target")), cache)
    else if StartsWith(rs[k].target.value, "$") then
      if rs[k].value.None? then Out(Err(NullReference("value")), cache)
      else
        var resolved := ResolveText(env, fuel, cache, ValueText(env.o, rs[k].value.value));
        if resolved.res.Err? then Out(Err(resolved.res.error), resolved.cache)
        else
          match env.o.jsonPathSet(payload, rs[k].target.value, resolved.res.value)
            case None => Out(Err(Foreign("JsonPath.set")), resolved.cache)
            case Some(replaced) => ReplaceFrom(env, fuel, resolved.cache, rs, k + 1, replaced)
    else
      var text := if rs[k].value.Some? then Some(ValueText(env.o, rs[k].value.value)) else None;
      match env.o.xpathSet(payload, rs[k].target.value, text)
        case Err(e) => Out(Err(e), cache)
        case Ok(replaced) => ReplaceFrom(env, fuel, cache, rs, k + 1, replaced)
  }

  /** The body of the request: the payload's text resolved as a string, then
    * its replacements applied. */
  function PayloadFor(env: Env, fuel: nat, cache: Cache, body: RequestBody): Out<string> {
    if body.payload.None? then Out(Err(NullReference("payload")), cache)
    else
      var resolved := ResolveText(env, fuel, cache, ValueText(env.o, body.payload.value));
      if resolved.res.Err? || body.replacements.None? then resolved
      else ReplaceFrom(env, fuel, resolved.cache, body.replacements.value, 0, resolved.res.value)
  }

  /** findServerUrl of the source description executeStep found; a step with
    * neither an operationId nor an operationPath has none. */
  function ServerUrlFor(sds: seq<SourceDescription>, step: Step): Result<string> {
    var target := if step.operationId.Some? then step.operationId else step.operationPath;
    if target.None? then Err(NullReference("sourceDescription"))
    else
      match RelevantSourceDescription(sds, target.value, SourceNotFound(target.value))
        case Err(e) => Err(e)
        case Ok(sd) => FindServerUrl(sd)
  }

  /** buildRequest: the base URI, the four parameter maps and the body, with
    * every resolution written into the memo as it happens. */
  function RequestFor(env: Env, sds: seq<SourceDescription>, fuel: nat, cache: Cache, step: Step): Out<Request> {
    match ServerUrlFor(sds, step)
      case Err(e) => Out(Err(e), cache)
      case Ok(url) =>
        var maps := ParameterMaps(env, fuel, cache, step);
        if maps.res.Err? then Out(Err(maps.res.error), maps.cache)
        else
          var m := maps.res.value;
          if step.requestBody.None? then Out(Ok(Request(url, m.0, m.1, m.2, m.3, None)), maps.cache)
          else
            var body := PayloadFor(env, fuel, maps.cache, step.requestBody.value);
            if body.res.Err? then Out(Err(body.res.error), body.cache)
            else Out(Ok(Request(url, m.0, m.1, m.2, m.3, Some(body.res.value))), body.cache)
  }

  /** The request goes out: its source description is found and it was built. */
  predicate Sends(env: Env, sds: seq<SourceDescription>, fuel: nat, cache: Cache, step: Step) {
    SourceCheck(sds, step).Ok? && RequestFor(env, sds, fuel, cache, step).res.Ok?
  }

  // ----- one step -------------------------------------------------------------------

  /** executeStep, given the transport's reply: the source description is
    * looked up, the request built in the memo, the reply judged in the memo
    * the build left, and the outputs published on success only. */
  function RunStep(env: Env, sds: seq<SourceDescription>, fuel: nat, cache: Cache, step: Step, reply: Result<Snapshot>)
    : Out<ExecutionResult>
  {
    var checked := SourceCheck(sds, step);
    if checked.Err? then Out(Err(checked.error), cache)
    else
      var built := RequestFor(env, sds, fuel, cache, step);
      if built.res.Err? then Out(Err(built.res.error), built.cache)
      else if reply.Err? then Out(Err(reply.error), built.cache)
      else
        var handled := HandleResponse(env, fuel, built.cache, step, reply.value);
        if handled.res.Err? || !handled.res.value.successful then handled
        else
          var published := StepOutputs(env, fuel, handled.cache, step, Http(reply.value));
          if published.res.Err? then Out(Err(published.res.error), published.cache)
          else Out(handled.res, published.cache)
  }

  // ----- properties: the criteria ------------------------------------------------------

  /** With the first criterion holding, the prefixes of the rest start from its memo. */
  lemma AllHoldPrefixTail(judge: Judge, cache: Cache, cs: seq<Criterion>, k: nat)
    requires 1 <= k <= |cs|
    requires judge(cache, cs[0]).res == Ok(true)
    ensures AllHold(judge, cache, cs[..k]) == AllHold(judge, judge(cache, cs[0]).cache, cs[1..][..k - 1])
  {
    assert cs[..k][0] == cs[0];
    assert cs[..k][1..] == cs[1..][..k - 1];
  }

  /** The criteria all hold exactly when every criterion, judged in the memo
    * the ones before it left, comes out true. */
  lemma {:induction false} AllHoldIff(judge: Judge, cache: Cache, cs: seq<Criterion>)
    ensures AllHold(judge, cache, cs).res == Ok(true) <==>
      forall k :: 0 <= k < |cs| ==> VerdictAt(judge, cache, cs, k) == Ok(true)
    decreases |cs|
  {
    if |cs| > 0 {
      var first := judge(cache, cs[0]);
      assert cs[..0] == [];
      assert VerdictAt(judge, cache, cs, 0) == first.res;
      if first.res == Ok(true) {
        var tail := cs[1..];
        AllHoldIff(judge, first.cache, tail);
        forall k | 0 <= k < |tail|
          ensures VerdictAt(judge, cache, cs, k + 1) == VerdictAt(judge, first.cache, tail, k)
        {
          AllHoldPrefixTail(judge, cache, cs, k + 1);
        }
        if forall k :: 0 <= k < |cs| ==> VerdictAt(judge, cache, cs, k) == Ok(true) {
          forall k | 0 <= k < |tail| ensures VerdictAt(judge, first.cache, tail, k) == Ok(true) {
            assert VerdictAt(judge, cache, cs, k + 1) == Ok(true);
          }
        }
        if forall k :: 0 <= k < |tail| ==> VerdictAt(judge, first.cache, tail, k) == Ok(true) {
          forall k | 0 <= k < |cs| ensures VerdictAt(judge, cache, cs, k) == Ok(true) {
            if k > 0 {
              var kk := k - 1;
              assert VerdictAt(judge, first.cache, tail, kk) == Ok(true);
            }
          }
        }
      }
    }
  }

  /** The evaluation stops at the first criterion that does not hold: its
    * verdict, in the memo it was judged in, is the whole answer, and the
    * criteria after it are never judged. */
  lemma {:induction false} AllHoldStopsAt(judge: Judge, cache: Cache, cs: seq<Criterion>, k: nat)
    requires k < |cs|
    requires forall j :: 0 <= j < k ==> VerdictAt(judge, cache, cs, j) == Ok(true)
    requires VerdictAt(judge, cache, cs, k) != Ok(true)
    ensures AllHold(judge, cache, cs) == judge(AllHold(judge, cache, cs[..k]).cache, cs[k])
    decreases k
  {
    var first := judge(cache, cs[0]);
    assert cs[..0] == [];
    if k > 0 {
      assert VerdictAt(judge, cache, cs, 0) == Ok(true);
      var tail := cs[1..];
      forall j | 0 <= j <= k - 1
        ensures VerdictAt(judge, first.cache, tail, j) == VerdictAt(judge, cache, cs, j + 1)
      {
        AllHoldPrefixTail(judge, cache, cs, j + 1);
      }
      var km := k - 1;
      AllHoldStopsAt(judge, first.cache, tail, km);
      AllHoldPrefixTail(judge, cache, cs, k);
    }
  }

  // ----- properties: first match wins -------------------------------------------------

  /** With the first action not fitting, the prefixes of the rest start from its memo. */
  lemma FirstFittingPrefixTail(check: Check, cache: Cache, criteria: seq<Option<seq<Criterion>>>, k: nat)
    requires 1 <= k <= |criteria|
    requires check(cache, criteria[0]).res == Ok(false)
    ensures FirstFitting(check, cache, criteria[..k]).cache
         == FirstFitting(check, check(cache, criteria[0]).cache, criteria[1..][..k - 1]).cache
  {
    assert criteria[..k][0] == criteria[0];
    assert criteria[..k][1..] == criteria[1..][..k - 1];
  }

  /** No action fits exactly when every check, in the memo the checks before
    * it left, comes out false. */
  lemma {:induction false} NoneFitsIff(check: Check, cache: Cache, criteria: seq<Option<seq<Criterion>>>)
    ensures FirstFitting(check, cache, criteria).res == Ok(None) <==>
      forall j :: 0 <= j < |criteria| ==> CheckAt(check, cache, criteria, j) == Ok(false)
    decreases |criteria|
  {
    if |criteria| > 0 {
      var first := check(cache, criteria[0]);
      assert criteria[..0] == [];
      assert CheckAt(check, cache, criteria, 0) == first.res;
      if first.res == Ok(false) {
        var tail := criteria[1..];
        NoneFitsIff(check, first.cache, tail);
        TailChecks(check, cache, criteria);
        if forall j :: 0 <= j < |criteria| ==> CheckAt(check, cache, criteria, j) == Ok(false) {
          forall j | 0 <= j < |tail| ensures CheckAt(check, first.cache, tail, j) == Ok(false) {
            assert CheckAt(check, cache, criteria, j + 1) == Ok(false);
          }
        }
        if forall j :: 0 <= j < |tail| ==> CheckAt(check, first.cache, tail, j) == Ok(false) {
          forall j | 0 <= j < |criteria| ensures CheckAt(check, cache, criteria, j) == Ok(false) {
            if j > 0 {
              var jj := j - 1;
              assert CheckAt(check, first.cache, tail, jj) == Ok(false);
            }
          }
        }
      }
    }
  }

  /** After a first action that does not fit, the checks of the others are
    * those of the rest of the list from the memo that check left. */
  lemma TailChecks(check: Check, cache: Cache, criteria: seq<Option<seq<Criterion>>>)
    requires |criteria| > 0 && check(cache, criteria[0]).res == Ok(false)
    ensures forall j :: 0 <= j < |criteria| - 1 ==>
      CheckAt(check, cache, criteria, j + 1) == CheckAt(check, check(cache, criteria[0]).cache, criteria[1..], j)
  {
    forall j | 0 <= j < |criteria| - 1
      ensures CheckAt(check, cache, criteria, j + 1) == CheckAt(check, check(cache, criteria[0]).cache, criteria[1..], j)
    {
      FirstFittingPrefixTail(check, cache, criteria, j + 1);
    }
  }

  /** The action chosen is the k-th exactly when every action before it was
    * checked and did not fit and the k-th one fits. */
  lemma {:induction false} FirstMatchWins(check: Check, cache: Cache, criteria: seq<Option<seq<Criterion>>>, k: nat)
    ensures FirstFitting(check, cache, criteria).res == Ok(Some(k)) <==>
      k < |criteria| && CheckAt(check, cache, criteria, k) == Ok(true) &&
      forall j :: 0 <= j < k ==> CheckAt(check, cache, criteria, j) == Ok(false)
    decreases |criteria|
  {
    if |criteria| > 0 {
      var first := check(cache, criteria[0]);
      assert criteria[..0] == [];
      assert CheckAt(check, cache, criteria, 0) == first.res;
      if first.res == Ok(false) && 0 < k < |criteria| {
        var tail := criteria[1..];
        var km := k - 1;
        FirstMatchWins(check, first.cache, tail, km);
        TailChecks(check, cache, criteria);
        if forall j :: 0 <= j < k ==> CheckAt(check, cache, criteria, j) == Ok(false) {
          forall j | 0 <= j < km ensures CheckAt(check, first.cache, tail, j) == Ok(false) {
            assert CheckAt(check, cache, criteria, j + 1) == Ok(false);
          }
        }
        if forall j :: 0 <= j < km ==> CheckAt(check, first.cache, tail, j) == Ok(false) {
          forall j | 0 <= j < k ensures CheckAt(check, cache, criteria, j) == Ok(false) {
            if j > 0 {
              var jj := j - 1;
              assert CheckAt(check, first.cache, tail, jj) == Ok(false);
            }
          }
        }
      }
    }
  }

  /** With nothing fitting, success and failure selection both raise their error. */
  lemma NothingFits(env: Env, fuel: nat, cache: Cache, step: Step, snapshot: Snapshot)
    requires step.onSuccess.Some? && step.onFailure.Some?
    requires forall j :: 0 <= j < |step.onSuccess.value| ==>
      CheckAt(CheckIn(env, fuel, Http(snapshot)), cache, SuccessCriteriaOf(step.onSuccess.value), j) == Ok(false)
    requires forall j :: 0 <= j < |step.onFailure.value| ==>
      CheckAt(CheckIn(env, fuel, Http(snapshot)), cache, FailureCriteriaOf(step.onFailure.value), j) == Ok(false)
    ensures FindFittingSuccessAction(env, fuel, cache, step, Http(snapshot)).res == Err(SuccessNotSatisfied(step))
    ensures FindFittingFailureAction(env, fuel, cache, step, snapshot).res == Err(FailureNotSatisfied(step))
  {
    NoneFitsIff(CheckIn(env, fuel, Http(snapshot)), cache, SuccessCriteriaOf(step.onSuccess.value));
    NoneFitsIff(CheckIn(env, fuel, Http(snapshot)), cache, FailureCriteriaOf(step.onFailure.value));
  }

  // ----- properties: Retry-After ------------------------------------------------------

  lemma NoDot(d: string)
    requires AllDigits(d)
    ensures IndexOf(d, ".", 0) == -1
  {
    forall i | 0 <= i < |d| ensures !OccursAt(d, ".", i) {
      assert IsDigit(d[i]);
      if i + 1 <= |d| {
        assert d[i..i + 1][0] == d[i];
      }
    }
  }

  /** A whole number of seconds written as Long.toString writes it is read back as itself. */
  lemma DecimalWholeOfInt(n: int)
    ensures DecimalWhole(IntToString(n)) == Some(n)
  {
    if n < 0 {
      var d := NatToString(-n);
      assert ("-" + d)[1..] == d;
      NoDot(d);
      DigitsValueNatToString(-n);
    } else {
      var d := NatToString(n);
      assert d[0] != '-' && d[0] != '+' by { assert IsDigit(d[0]); }
      NoDot(d);
      DigitsValueNatToString(n);
    }
  }

  /** A chosen RETRY action takes the seconds of the response's Retry-After header. */
  lemma RetryAfterApplied(a: FailureAction, snapshot: Snapshot, n: int)
    requires a.atype == Some(FailureRetry)
    requires HeaderValue(snapshot.responseHeaders, "Retry-After") == Some(IntToString(n))
    ensures ApplyRetryAfter(a, snapshot) == Ok(a.(retryAfter := Some(n)))
  {
    DecimalWholeOfInt(n);
  }

  // ----- properties: the server URL ---------------------------------------------------

  /** A run of exactly k digits at the end, after a non-digit. */
  lemma {:induction false} TrailingDigitsExact(s: string, k: nat)
    requires k < |s| && !IsDigit(s[|s| - k - 1])
    requires forall i :: |s| - k <= i < |s| ==> IsDigit(s[i])
    ensures TrailingDigits(s) == k
    decreases k
  {
    if k > 0 {
      var shorter := s[..|s| - 1];
      assert IsDigit(s[|s| - 1]);
      assert shorter[|shorter| - (k - 1) - 1] == s[|s| - k - 1];
      TrailingDigitsExact(shorter, k - 1);
    }
  }

  /** The computed match is the regular expression's. */
  lemma MatchesPortSuffixIff(url: string)
    ensures MatchesPortSuffix(url) <==> PortSuffix(url)
  {
    var t := TrailingDigits(url);
    if MatchesPortSuffix(url) {
      var p := |url| - t - 1;
      assert url[p] == ':';
    }
    if PortSuffix(url) {
      var p :| 0 <= p && |url| - 6 <= p <= |url| - 2 && url[p] == ':'
        && (forall i :: p < i < |url| ==> IsDigit(url[i])) && NoLineTerminator(url[..p]);
      TrailingDigitsExact(url, |url| - p - 1);
    }
  }

  /** After the fallback a localhost URL always ends in a port, and a second
    * application changes nothing. */
  lemma FallbackPort(url: string)
    requires NoLineTerminator(url) && Contains(url, "localhost")
    ensures PortSuffix(WithFallbackPort(url))
    ensures WithFallbackPort(WithFallbackPort(url)) == WithFallbackPort(url)
  {
    var u := url + ":8080";
    assert u[|url|] == ':';
    assert u[..|url|] == url;
    assert PortSuffix(u);
    MatchesPortSuffixIff(url);
    MatchesPortSuffixIff(u);
  }

  // ----- properties: outputs -------------------------------------------------------------

  /** Publishing keeps every memo entry and, when it succeeds, leaves an entry
    * under every output's `$steps.<stepId>.outputs.<key>` name. */
  lemma {:induction false} PublishKeepsKeys(env: Env, fuel: nat, cache: Cache, stepId: Option<string>, outs: Outputs,
                                            i: nat, context: Context)
    requires i <= |outs|
    ensures var r := PublishFrom(env, fuel, cache, stepId, outs, i, context);
      cache.Keys <= r.cache.Keys &&
      (r.res.Ok? ==> forall j :: i <= j < |outs| ==> OutputKey(stepId, outs[j].0) in r.cache)
    decreases |outs| - i
  {
    if i < |outs| {
      ResolveKeepsKeys(env, fuel, cache, outs[i].1, context);
      var resolved := Resolve(env, fuel, cache, outs[i].1, context);
      if resolved.res.Ok? && !resolved.res.value.Null? {
        var next := resolved.cache[OutputKey(stepId, outs[i].0) := resolved.res.value];
        PublishKeepsKeys(env, fuel, next, stepId, outs, i + 1, context);
      }
    }
  }

  /** Outputs are published only for a successful step: a failed step leaves
    * the memo as the criteria and action checks left it, and a successful one
    * has every output published. */
  lemma OutputsOnlyOnSuccess(env: Env, sds: seq<SourceDescription>, fuel: nat, cache: Cache, step: Step, s: Snapshot)
    requires SourceCheck(sds, step).Ok?
    ensures var r := RunStep(env, sds, fuel, cache, step, Ok(s));
      r.res.Ok? && !r.res.value.successful ==>
        r.cache == HandleResponse(env, fuel, RequestFor(env, sds, fuel, cache, step).cache, step, s).cache
    ensures var r := RunStep(env, sds, fuel, cache, step, Ok(s));
      r.res.Ok? && r.res.value.successful && step.outputs.Some? ==>
        forall j :: 0 <= j < |step.outputs.value| ==> OutputKey(step.stepId, step.outputs.value[j].0) in r.cache
  {
    var built := RequestFor(env, sds, fuel, cache, step);
    if built.res.Ok? {
      var handled := HandleResponse(env, fuel, built.cache, step, s);
      if handled.res.Ok? && handled.res.value.successful && step.outputs.Some? {
        PublishKeepsKeys(env, fuel, handled.cache, step.stepId, step.outputs.value, 0, Http(s));
      }
    }
  }

  // ----- properties: building the request -----------------------------------------------

  /** The names of the parameters in `location` among the first n. */
  function NamesIn(ps: seq<Parameter>, location: ParameterIn, n: nat): set<Option<string>>
    requires n <= |ps|
  {
    set k | 0 <= k < n && ps[k].pin == Some(location) :: ps[k].name
  }

  /** No two parameters in `location` among the first n share a name: none
    * repeats the name of one before it. */
  predicate DistinctIn(ps: seq<Parameter>, location: ParameterIn, n: nat)
    requires n <= |ps|
  {
    forall k :: 0 <= k < n && ps[k].pin == Some(location) ==> ps[k].name !in NamesIn(ps, location, k)
  }

  /** The names in `location` grow by one parameter at a time. */
  lemma NamesInNext(ps: seq<Parameter>, location: ParameterIn, i: nat)
    requires i < |ps|
    ensures NamesIn(ps, location, i + 1)
         == NamesIn(ps, location, i) + (if ps[i].pin == Some(location) then {ps[i].name} else {})
    ensures forall j :: 0 <= j < i && ps[j].pin == Some(location) ==> ps[j].name in NamesIn(ps, location, i)
  {
    var later := NamesIn(ps, location, i + 1);
    var earlier := NamesIn(ps, location, i);
    forall n | n in later
      ensures n in earlier || (ps[i].pin == Some(location) && n == ps[i].name)
    {
      var k :| 0 <= k < i + 1 && ps[k].pin == Some(location) && ps[k].name == n;
      if k < i {
        assert n in earlier;
      }
    }
    if ps[i].pin == Some(location) {
      assert ps[i].name in later;
    }
  }

  /** A parameter whose name is new keeps the names distinct. */
  lemma DistinctNext(ps: seq<Parameter>, location: ParameterIn, i: nat)
    requires i < |ps| && DistinctIn(ps, location, i)
    requires ps[i].pin == Some(location) ==> ps[i].name !in NamesIn(ps, location, i)
    ensures DistinctIn(ps, location, i + 1)
  {
    NamesInNext(ps, location, i);
  }

  /** A built parameter map holds exactly the names of the parameters in its
    * location, each with a non-null value.  Built or not, the memo keeps
    * every entry it had. */
  lemma {:induction false} ParameterMapFromKeys(env: Env, fuel: nat, cache: Cache, ps: seq<Parameter>,
                                                location: ParameterIn, i: nat, acc: ParamMap)
    requires i <= |ps|
    requires acc.Keys == NamesIn(ps, location, i)
    requires forall n :: n in acc ==> !acc[n].Null?
    ensures var out := ParameterMapFrom(env, fuel, cache, ps, location, i, acc);
      cache.Keys <= out.cache.Keys &&
      (out.res.Ok? ==>
        out.res.value.Keys == NamesIn(ps, location, |ps|) && forall n :: n in out.res.value ==> !out.res.value[n].Null?)
    decreases |ps| - i
  {
    if i < |ps| {
      NamesInNext(ps, location, i);
      if ps[i].pin != Some(location) {
        ParameterMapFromKeys(env, fuel, cache, ps, location, i + 1, acc);
      } else if ps[i].value.Some? {
        var text := ValueText(env.o, ps[i].value.value);
        ResolveKeepsKeys(env, fuel, cache, text, NoContext);
        var resolved := Resolve(env, fuel, cache, text, NoContext);
        if resolved.res.Ok? && !resolved.res.value.Null? && ps[i].name !in acc {
          ParameterMapFromKeys(env, fuel, resolved.cache, ps, location, i + 1, acc[ps[i].name := resolved.res.value]);
        }
      }
    }
  }

  /** toMap rejects a repeated name: a parameter map is built only when no
    * two parameters in its location share a name. */
  lemma {:induction false} ParameterMapDistinct(env: Env, fuel: nat, cache: Cache, ps: seq<Parameter>,
                                                location: ParameterIn, i: nat, acc: ParamMap)
    requires i <= |ps|
    requires acc.Keys == NamesIn(ps, location, i) && DistinctIn(ps, location, i)
    ensures ParameterMapFrom(env, fuel, cache, ps, location, i, acc).res.Ok? ==> DistinctIn(ps, location, |ps|)
    decreases |ps| - i
  {
    if i < |ps| {
      NamesInNext(ps, location, i);
      if ps[i].pin != Some(location) {
        DistinctNext(ps, location, i);
        ParameterMapDistinct(env, fuel, cache, ps, location, i + 1, acc);
      } else if ps[i].value.Some? {
        var resolved := Resolve(env, fuel, cache, ValueText(env.o, ps[i].value.value), NoContext);
        if resolved.res.Ok? && !resolved.res.value.Null? && ps[i].name !in acc {
          DistinctNext(ps, location, i);
          ParameterMapDistinct(env, fuel, resolved.cache, ps, location, i + 1, acc[ps[i].name := resolved.res.value]);
        }
      }
    }
  }

  /** Applying replacements keeps every memo entry. */
  lemma {:induction false} ReplaceKeepsKeys(env: Env, fuel: nat, cache: Cache, rs: seq<PayloadReplacement>, k: nat,
                                            payload: string)
    requires k <= |rs|
    ensures cache.Keys <= ReplaceFrom(env, fuel, cache, rs, k, payload).cache.Keys
    decreases |rs| - k
  {
    if k < |rs| && rs[k].target.Some? {
      if StartsWith(rs[k].target.value, "$") {
        if rs[k].value.Some? {
          var text := ValueText(env.o, rs[k].value.value);
          ResolveTextKeepsKeys(env, fuel, cache, text);
          var resolved := ResolveText(env, fuel, cache, text);
          if resolved.res.Ok? {
            match env.o.jsonPathSet(payload, rs[k].target.value, resolved.res.value)
              case None =>
              case Some(replaced) => ReplaceKeepsKeys(env, fuel, resolved.cache, rs, k + 1, replaced);
          }
        }
      } else {
        var text := if rs[k].value.Some? then Some(ValueText(env.o, rs[k].value.value)) else None;
        match env.o.xpathSet(payload, rs[k].target.value, text)
          case Err(_) =>
          case Ok(replaced) => ReplaceKeepsKeys(env, fuel, cache, rs, k + 1, replaced);
      }
    }
  }

  /** Resolving the payload keeps every memo entry. */
  lemma PayloadKeepsKeys(env: Env, fuel: nat, cache: Cache, body: RequestBody)
    ensures cache.Keys <= PayloadFor(env, fuel, cache, body).cache.Keys
  {
    if body.payload.Some? {
      var text := ValueText(env.o, body.payload.value);
      ResolveTextKeepsKeys(env, fuel, cache, text);
      var resolved := ResolveText(env, fuel, cache, text);
      if resolved.res.Ok? && body.replacements.Some? {
        ReplaceKeepsKeys(env, fuel, resolved.cache, body.replacements.value, 0, resolved.res.value);
      }
    }
  }

  /** A built request has the source description's server URL as its base,
    * in each location's map exactly the names of the parameters there (no
    * entry at all without parameters), and a body exactly when the step has
    * one.  Built or not, the memo keeps every entry it had. */
  lemma RequestBuilt(env: Env, sds: seq<SourceDescription>, fuel: nat, cache: Cache, step: Step)
    ensures cache.Keys <= RequestFor(env, sds, fuel, cache, step).cache.Keys
    ensures var r := RequestFor(env, sds, fuel, cache, step).res;
      r.Ok? ==>
        ServerUrlFor(sds, step) == Ok(r.value.baseUri) &&
        (r.value.body.Some? <==> step.requestBody.Some?) &&
        (step.parameters.None? ==>
          r.value.query == map[] && r.value.headers == map[] && r.value.cookies == map[] && r.value.pathParams == map[]) &&
        (step.parameters.Some? ==>
          var ps := step.parameters.value;
          r.value.query.Keys == NamesIn(ps, InQuery, |ps|) && r.value.headers.Keys == NamesIn(ps, InHeader, |ps|) &&
          r.value.cookies.Keys == NamesIn(ps, InCookie, |ps|) && r.value.pathParams.Keys == NamesIn(ps, InPath, |ps|))
  {
    if ServerUrlFor(sds, step).Ok? {
      var maps := ParameterMaps(env, fuel, cache, step);
      if step.parameters.Some? {
        var ps := step.parameters.value;
        ParameterMapFromKeys(env, fuel, cache, ps, InQuery, 0, map[]);
        var query := ParameterMapFrom(env, fuel, cache, ps, InQuery, 0, map[]);
        if query.res.Ok? {
          ParameterMapFromKeys(env, fuel, query.cache, ps, InHeader, 0, map[]);
          var headers := ParameterMapFrom(env, fuel, query.cache, ps, InHeader, 0, map[]);
          if headers.res.Ok? {
            ParameterMapFromKeys(env, fuel, headers.cache, ps, InCookie, 0, map[]);
            var cookies := ParameterMapFrom(env, fuel, headers.cache, ps, InCookie, 0, map[]);
            if cookies.res.Ok? {
              ParameterMapFromKeys(env, fuel, cookies.cache, ps, InPath, 0, map[]);
            }
          }
        }
      }
      if maps.res.Ok? && step.requestBody.Some? {
        PayloadKeepsKeys(env, fuel, maps.cache, step.requestBody.value);
      }
    }
  }

  /** The memo write of a parameter value survives the build: a step whose
    * one parameter is a query parameter naming an expression that resolves
    * to a non-null value of another text finds that expression in the memo
    * the build leaves; without a body the request carries just that value. */
  lemma QueryValueRemembered(env: Env, sds: seq<SourceDescription>, fuel: nat, cache: Cache, step: Step, e: string)
    requires ServerUrlFor(sds, step).Ok?
    requires step.parameters.Some? && |step.parameters.value| == 1
    requires step.parameters.value[0].pin == Some(InQuery) && step.parameters.value[0].value == Some(JStr(e))
    requires SpecPrefixed(e)
    requires var out := Resolve(env, fuel, cache, e, NoContext);
      out.res.Ok? && !out.res.value.Null? && !EqualsIgnoreCase(e, Show(env.o, out.res.value))
    ensures e in RequestFor(env, sds, fuel, cache, step).cache
    ensures var out := Resolve(env, fuel, cache, e, NoContext);
      step.requestBody.None? ==>
        RequestFor(env, sds, fuel, cache, step) ==
        Out(Ok(Request(ServerUrlFor(sds, step).value, map[step.parameters.value[0].name := out.res.value],
                       map[], map[], map[], None)), out.cache)
  {
    var out := Resolve(env, fuel, cache, e, NoContext);
    ResolvedIsRemembered(env, fuel, cache, e, NoContext);
    assert e in out.cache;
    var ps := step.parameters.value;
    assert ParameterMapFrom(env, fuel, cache, ps, InQuery, 0, map[]) == Out(Ok(map[ps[0].name := out.res.value]), out.cache);
    assert ParameterMapFrom(env, fuel, out.cache, ps, InHeader, 0, map[]) == Out(Ok(map[]), out.cache);
    assert ParameterMapFrom(env, fuel, out.cache, ps, InCookie, 0, map[]) == Out(Ok(map[]), out.cache);
    assert ParameterMapFrom(env, fuel, out.cache, ps, InPath, 0, map[]) == Out(Ok(map[]), out.cache);
    var maps := ParameterMaps(env, fuel, cache, step);
    if step.requestBody.Some? {
      PayloadKeepsKeys(env, fuel, maps.cache, step.requestBody.value);
    }
  }

  /** Up to the reply, the step keeps what building its request wrote: a
    * request that cannot be built fails the step with the build's error
    * whatever the transport would answer, a failed transport fails it with
    * the transport's error, and either way no memo entry is lost. */
  lemma BuildBeforeReply(env: Env, sds: seq<SourceDescription>, fuel: nat, cache: Cache, step: Step,
                         reply: Result<Snapshot>)
    requires SourceCheck(sds, step).Ok?
    ensures var built := RequestFor(env, sds, fuel, cache, step);
      var r := RunStep(env, sds, fuel, cache, step, reply);
      (built.res.Err? ==> r == Out(Err(built.res.error), built.cache)) &&
      (built.res.Ok? && reply.Err? ==> r == Out(Err(reply.error), built.cache)) &&
      (built.res.Err? || reply.Err? ==> cache.Keys <= r.cache.Keys)
  {
    RequestBuilt(env, sds, fuel, cache, step);
  }

  // ----- properties: the source description ----------------------------------------------

  /** One description is always chosen; among several, none matching is the error given. */
  lemma SourceDescriptionNotFound(sds: seq<SourceDescription>, identifier: string, notFound: Failure)
    requires |sds| > 1
    requires forall j :: 0 <= j < |sds| ==> NameNotIn(sds[j], identifier)
    ensures RelevantSourceDescription(sds, identifier, notFound) == Err(notFound)
  {
    assert forall j :: 0 <= j < |sds| ==> sds[j].name.Some? && !NameIn(sds[j], identifier);
  }

  // ----- the transport ---------------------------------------------------------------

  /** The HTTP side of the interpreter: a request for a step is answered as a
    * function of the step and of how many requests came before it; the
    * waits a RETRY asks for are recorded instead of slept. */
  class Host {
    const respond: (Step, nat) -> Result<Snapshot>
    var calls: nat
    var waits: seq<int>

    constructor(respond: (Step, nat) -> Result<Snapshot>)
      ensures this.respond == respond && calls == 0 && waits == []
    {
      this.respond := respond;
      calls := 0;
      waits := [];
    }

    /** makeRequest: the built request goes out as the next call. */
    method Send(step: Step) returns (r: Result<Snapshot>)
      modifies this
      ensures r == respond(step, old(calls))
      ensures calls == old(calls) + 1 && waits == old(waits)
    {
      r := respond(step, calls);
      calls := calls + 1;
    }

    /** doWait: Thread.sleep rejects a negative time. */
    method Sleep(seconds: int) returns (r: Result<()>)
      modifies this
      ensures seconds < 0 ==> r == Err(IllegalArgument("timeout value is negative")) && waits == old(waits)
      ensures seconds >= 0 ==> r == Ok(()) && waits == old(waits) + [seconds]
      ensures calls == old(calls)
    {
      if seconds < 0 {
        return Err(IllegalArgument("timeout value is negative"));
      }
      waits := waits + [seconds];
      r := Ok(());
    }
  }

  // ----- the executor object ---------------------------------------------------------

  class RestAssuredStepExecutor {
    const sourceDescriptions: seq<SourceDescription>
    const resolver: SpecExpressionResolver

    constructor(sourceDescriptions: seq<SourceDescription>, resolver: SpecExpressionResolver)
      ensures this.sourceDescriptions == sourceDescriptions && this.resolver == resolver
    {
      this.sourceDescriptions := sourceDescriptions;
      this.resolver := resolver;
    }

    /** handleOutputs: the forEach over the outputs, writing the shared provider. */
    method HandleOutputs(fuel: nat, step: Step, context: Context) returns (r: Result<()>)
      modifies resolver.provider
      ensures Out(r, resolver.provider.resolved) == StepOutputs(resolver.env, fuel, old(resolver.provider.resolved), step, context)
    {
      if step.outputs.None? {
        return Ok(());
      }
      var outs := step.outputs.value;
      var i := 0;
      while i < |outs|
        invariant 0 <= i <= |outs|
        invariant StepOutputs(resolver.env, fuel, old(resolver.provider.resolved), step, context)
               == PublishFrom(resolver.env, fuel, resolver.provider.resolved, step.stepId, outs, i, context)
      {
        var resolved := resolver.ResolveExpression(fuel, outs[i].1, context);
        if resolved.Err? {
          return Err(resolved.error);
        }
        if resolved.value.Null? {
          return Err(OutputNull);
        }
        resolver.provider.AddResolved(OutputKey(step.stepId, outs[i].0), resolved.value);
        i := i + 1;
      }
      r := Ok(());
    }

    /** One of buildRequest's four Collectors.toMap passes, writing the shared provider. */
    method CollectParameters(fuel: nat, ps: seq<Parameter>, location: ParameterIn) returns (r: Result<ParamMap>)
      modifies resolver.provider
      ensures Out(r, resolver.provider.resolved)
           == ParameterMapFrom(resolver.env, fuel, old(resolver.provider.resolved), ps, location, 0, map[])
    {
      var acc: ParamMap := map[];
      var i := 0;
      while i < |ps|
        invariant 0 <= i <= |ps|
        invariant ParameterMapFrom(resolver.env, fuel, old(resolver.provider.resolved), ps, location, 0, map[])
               == ParameterMapFrom(resolver.env, fuel, resolver.provider.resolved, ps, location, i, acc)
      {
        if ps[i].pin == Some(location) {
          if ps[i].value.None? {
            return Err(NullReference("value"));
          }
          var resolved := resolver.ResolveExpression(fuel, ValueText(resolver.env.o, ps[i].value.value), NoContext);
          if resolved.Err? {
            return Err(resolved.error);
          }
          if resolved.value.Null? {
            return Err(NullReference("toMap value"));
          }
          if ps[i].name in acc {
            return Err(Foreign(DuplicateKey(resolver.env.o, ps[i].name, acc[ps[i].name], resolved.value)));
          }
          acc := acc[ps[i].name := resolved.value];
        }
        i := i + 1;
      }
      r := Ok(acc);
    }

    /** The body: the payload resolved as a string, then each replacement applied in turn. */
    method ResolvePayload(fuel: nat, body: RequestBody) returns (r: Result<string>)
      modifies resolver.provider
      ensures Out(r, resolver.provider.resolved) == PayloadFor(resolver.env, fuel, old(resolver.provider.resolved), body)
    {
      if body.payload.None? {
        return Err(NullReference("payload"));
      }
      r := resolver.ResolveString(fuel, ValueText(resolver.env.o, body.payload.value));
      if r.Err? || body.replacements.None? {
        return;
      }
      var rs := body.replacements.value;
      var payload := r.value;
      var k := 0;
      while k < |rs|
        invariant 0 <= k <= |rs|
        invariant PayloadFor(resolver.env, fuel, old(resolver.provider.resolved), body)
               == ReplaceFrom(resolver.env, fuel, resolver.provider.resolved, rs, k, payload)
      {
        var target := rs[k].target;
        if target.None? {
          return Err(NullReference("target"));
        }
        if StartsWith(target.value, "$") {
          if rs[k].value.None? {
            return Err(NullReference("value"));
          }
          var resolved := resolver.ResolveString(fuel, ValueText(resolver.env.o, rs[k].value.value));
          if resolved.Err? {
            return Err(resolved.error);
          }
          var replaced := resolver.env.o.jsonPathSet(payload, target.value, resolved.value);
          if replaced.None? {
            return Err(Foreign("JsonPath.set"));
          }
          payload := replaced.value;
        } else {
          var text := if rs[k].value.Some? then Some(ValueText(resolver.env.o, rs[k].value.value)) else None;
          var replaced := resolver.env.o.xpathSet(payload, target.value, text);
          if replaced.Err? {
            return Err(replaced.error);
          }
          payload := replaced.value;
        }
        k := k + 1;
      }
      r := Ok(payload);
    }

    /** buildRequest: the base URI, then the query, header, cookie and path
      * maps, then the body, each resolution writing the shared provider. */
    method BuildRequest(fuel: nat, step: Step) returns (r: Result<Request>)
      modifies resolver.provider
      ensures Out(r, resolver.provider.resolved)
           == RequestFor(resolver.env, sourceDescriptions, fuel, old(resolver.provider.resolved), step)
    {
      var url := ServerUrlFor(sourceDescriptions, step);
      if url.Err? {
        return Err(url.error);
      }
      var query, headers, cookies, pathParams: ParamMap := map[], map[], map[], map[];
      if step.parameters.Some? {
        var ps := step.parameters.value;
        var q := CollectParameters(fuel, ps, InQuery);
        if q.Err? {
          return Err(q.error);
        }
        var h := CollectParameters(fuel, ps, InHeader);
        if h.Err? {
          return Err(h.error);
        }
        var c := CollectParameters(fuel, ps, InCookie);
        if c.Err? {
          return Err(c.error);
        }
        var p := CollectParameters(fuel, ps, InPath);
        if p.Err? {
          return Err(p.error);
        }
        query, headers, cookies, pathParams := q.value, h.value, c.value, p.value;
      }
      if step.requestBody.None? {
        return Ok(Request(url.value, query, headers, cookies, pathParams, None));
      }
      var body := ResolvePayload(fuel, step.requestBody.value);
      if body.Err? {
        return Err(body.error);
      }
      r := Ok(Request(url.value, query, headers, cookies, pathParams, Some(body.value)));
    }

    /** executeStep: the request goes out only once the source description is
      * known and the request is built. */
    method ExecuteStep(fuel: nat, step: Step, host: Host) returns (r: Result<ExecutionResult>)
      modifies resolver.provider, host
      ensures Out(r, resolver.provider.resolved)
           == RunStep(resolver.env, sourceDescriptions, fuel, old(resolver.provider.resolved), step,
                      host.respond(step, old(host.calls)))
      ensures host.calls == old(host.calls)
                          + (if Sends(resolver.env, sourceDescriptions, fuel, old(resolver.provider.resolved), step) then 1 else 0)
      ensures host.waits == old(host.waits)
    {
      var checked := SourceCheck(sourceDescriptions, step);
      if checked.Err? {
        return Err(checked.error);
      }
      var built := BuildRequest(fuel, step);
      if built.Err? {
        return Err(built.error);
      }
      var reply := host.Send(step);
      if reply.Err? {
        return Err(reply.error);
      }
      var handled := HandleResponse(resolver.env, fuel, resolver.provider.resolved, step, reply.value);
      resolver.provider.resolved := handled.cache;
      if handled.res.Err? {
        return Err(handled.res.error);
      }
      if handled.res.value.successful {
        var published := HandleOutputs(fuel, step, Http(reply.value));
        if published.Err? {
          return Err(published.error);
        }
      }
      r := handled.res;
    }
  }
}
