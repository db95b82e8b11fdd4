/** The Arazzo 1.0 document tree the interpreter works on.  A field the
  * Java model leaves null when the document omits it is an Option here,
  * except the lists `sourceDescriptions`, `workflows` and `steps`, which are
  * taken to be empty when the document has none. */
module Model {
  import opened Wrappers
  import opened Json

  /** Specification extensions (`x-…` keys) in document order. */
  type Extensions = seq<(string, Json)>

  datatype CriterionType = Simple | Regex | JsonPath | XPath

  /** The Criterion Expression Type Object (type and version of JSONPath/XPath). */
  datatype ExpressionType = ExpressionType(etype: Option<string>, version: Option<string>)

  datatype Criterion = Criterion(
    context: Option<string>,
    condition: Option<string>,
    ctype: Option<CriterionType>,
    expressionType: Option<ExpressionType>,
    extensions: Extensions)

  datatype SuccessActionType = SuccessGoto | SuccessEnd
  datatype FailureActionType = FailureGoto | FailureEnd | FailureRetry

  datatype SuccessAction = SuccessAction(
    name: Option<string>,
    atype: Option<SuccessActionType>,
    workflowId: Option<string>,
    stepId: Option<string>,
    criteria: Option<seq<Criterion>>,
    extensions: Extensions)

  /** `retryAfter` is a decimal number of seconds in the Java model; here a whole number. */
  datatype FailureAction = FailureAction(
    name: Option<string>,
    atype: Option<FailureActionType>,
    workflowId: Option<string>,
    stepId: Option<string>,
    retryAfter: Option<int>,
    retryLimit: Option<int>,
    criteria: Option<seq<Criterion>>,
    extensions: Extensions)

  datatype ParameterIn = InPath | InHeader | InQuery | InBody | InCookie

  datatype Parameter = Parameter(
    name: Option<string>,
    pin: Option<ParameterIn>,
    value: Option<Json>,
    reference: Option<string>,
    extensions: Extensions)

  datatype PayloadReplacement = PayloadReplacement(
    target: Option<string>,
    value: Option<Json>,
    extensions: Extensions)

  datatype RequestBody = RequestBody(
    contentType: Option<string>,
    payload: Option<Json>,
    replacements: Option<seq<PayloadReplacement>>,
    extensions: Extensions)

  /** A Reusable Object: a reference into components and an optional overriding value. */
  datatype ReusableObject = ReusableObject(reference: Option<string>, value: Option<string>)

  /** Outputs map a name to an expression string, in document order. */
  type Outputs = seq<(string, string)>

  datatype Step = Step(
    description: Option<string>,
    stepId: Option<string>,
    operationId: Option<string>,
    operationPath: Option<string>,
    workflowId: Option<string>,
    parameters: Option<seq<Parameter>>,
    requestBody: Option<RequestBody>,
    successCriteria: Option<seq<Criterion>>,
    onSuccess: Option<seq<SuccessAction>>,
    onFailure: Option<seq<FailureAction>>,
    outputs: Option<Outputs>,
    extensions: Extensions)

  datatype Workflow = Workflow(
    workflowId: Option<string>,
    summary: Option<string>,
    description: Option<string>,
    inputs: Option<Json>,
    dependsOn: Option<seq<string>>,
    steps: seq<Step>,
    successActions: Option<seq<SuccessAction>>,
    failureActions: Option<seq<FailureAction>>,
    outputs: Option<Outputs>,
    parameters: Option<seq<Parameter>>,
    extensions: Extensions)

  datatype SourceType = OpenApiSource | ArazzoSource

  /** What the interpreter reads from a referenced OpenAPI description: its
    * server URLs, and the operationId of every operation of every path item
    * in order (None for an operation without one). */
  datatype OpenApi = OpenApi(serverUrls: seq<string>, operationIds: seq<Option<string>>)

  datatype SourceDescription = SourceDescription(
    name: Option<string>,
    url: Option<string>,
    stype: Option<SourceType>,
    referencedArazzo: Option<Document>,
    referencedOpenApi: Option<OpenApi>,
    extensions: Extensions)

  datatype Info = Info(
    title: Option<string>,
    summary: Option<string>,
    description: Option<string>,
    version: Option<string>,
    extensions: Extensions)

  datatype Components = Components(
    inputs: Option<seq<(string, Json)>>,
    parameters: Option<seq<(string, Parameter)>>,
    successActions: Option<seq<(string, SuccessAction)>>,
    failureActions: Option<seq<(string, FailureAction)>>,
    extensions: Extensions)

  datatype Document = Document(
    arazzo: Option<string>,
    info: Option<Info>,
    sourceDescriptions: seq<SourceDescription>,
    workflows: seq<Workflow>,
    components: Option<Components>,
    extensions: Extensions)

  predicate KeyChar(c: char) {
    ('a' <= c <= 'z') || ('A' <= c <= 'Z') || ('0' <= c <= '9') || c == '.' || c == '-' || c == '_'
  }

  /** `^[a-zA-Z0-9.\-_]+$`, the form of component keys and output names. */
  predicate IsComponentKey(key: string) {
    |key| > 0 && forall i :: 0 <= i < |key| ==> KeyChar(key[i])
  }

  // ----- The JSON view ObjectMapper.convertValue gives of the model ---------
  // Null fields are kept as JSON null; enum constants are written by name.

  function OptStr(v: Option<string>): Json {
    if v.Some? then JStr(v.value) else JNull
  }

  function OptJson(v: Option<Json>): Json {
    if v.Some? then v.value else JNull
  }

  function OptInt(v: Option<int>): Json {
    if v.Some? then JNum(v.value) else JNull
  }

  function ExtensionsJson(e: Extensions): Json {
    JObj(e)
  }

  function OutputsJson(outs: Option<Outputs>): Json {
    if outs.None? then JNull
    else JObj(seq(|outs.value|, i requires 0 <= i < |outs.value| => (outs.value[i].0, JStr(outs.value[i].1))))
  }

  function CriterionTypeName(t: CriterionType): string {
    match t
      case Simple => "SIMPLE"
      case Regex => "REGEX"
      case JsonPath => "JSONPATH"
      case XPath => "XPATH"
  }

  function CriterionJson(c: Criterion): Json {
    JObj([("context", OptStr(c.context)),
          ("condition", OptStr(c.condition)),
          ("type", if c.ctype.Some? then JStr(CriterionTypeName(c.ctype.value)) else JNull),
          ("extensions", ExtensionsJson(c.extensions))])
  }

  function CriteriaJson(cs: Option<seq<Criterion>>): Json {
    if cs.None? then JNull
    else JArr(seq(|cs.value|, i requires 0 <= i < |cs.value| => CriterionJson(cs.value[i])))
  }

  function SuccessActionJson(a: SuccessAction): Json {
    JObj([("name", OptStr(a.name)),
          ("type", match a.atype
                     case Some(SuccessGoto) => JStr("GOTO")
                     case Some(SuccessEnd) => JStr("END")
                     case None => JNull),
          ("workflowId", OptStr(a.workflowId)),
          ("stepId", OptStr(a.stepId)),
          ("criteria", CriteriaJson(a.criteria)),
          ("extensions", ExtensionsJson(a.extensions))])
  }

  function FailureActionJson(a: FailureAction): Json {
    JObj([("name", OptStr(a.name)),
          ("type", match a.atype
                     case Some(FailureGoto) => JStr("GOTO")
                     case Some(FailureEnd) => JStr("END")
                     case Some(FailureRetry) => JStr("RETRY")
                     case None => JNull),
          ("workflowId", OptStr(a.workflowId)),
          ("stepId", OptStr(a.stepId)),
          ("retryAfter", OptInt(a.retryAfter)),
          ("retryLimit", OptInt(a.retryLimit)),
          ("criteria", CriteriaJson(a.criteria)),
          ("extensions", ExtensionsJson(a.extensions))])
  }

  function SuccessActionsJson(xs: Option<seq<SuccessAction>>): Json {
    if xs.None? then JNull
    else JArr(seq(|xs.value|, i requires 0 <= i < |xs.value| => SuccessActionJson(xs.value[i])))
  }

  function FailureActionsJson(xs: Option<seq<FailureAction>>): Json {
    if xs.None? then JNull
    else JArr(seq(|xs.value|, i requires 0 <= i < |xs.value| => FailureActionJson(xs.value[i])))
  }

  function ParameterInName(p: ParameterIn): string {
    match p
      case InPath => "PATH"
      case InHeader => "HEADER"
      case InQuery => "QUERY"
      case InBody => "BODY"
      case InCookie => "COOKIE"
  }

  function ParameterJson(p: Parameter): Json {
    JObj([("name", OptStr(p.name)),
          ("in", if p.pin.Some? then JStr(ParameterInName(p.pin.value)) else JNull),
          ("value", OptJson(p.value)),
          ("reference", OptStr(p.reference)),
          ("extensions", ExtensionsJson(p.extensions))])
  }

  function ParametersJson(xs: Option<seq<Parameter>>): Json {
    if xs.None? then JNull
    else JArr(seq(|xs.value|, i requires 0 <= i < |xs.value| => ParameterJson(xs.value[i])))
  }

  function RequestBodyJson(b: Option<RequestBody>): Json {
    if b.None? then JNull
    else
      var rb := b.value;
      JObj([("contentType", OptStr(rb.contentType)),
            ("payload", OptJson(rb.payload)),
            ("replacements",
              if rb.replacements.None? then JNull
              else JArr(seq(|rb.replacements.value|, i requires 0 <= i < |rb.replacements.value| =>
                      JObj([("target", OptStr(rb.replacements.value[i].target)),
                            ("value", OptJson(rb.replacements.value[i].value)),
                            ("extensions", ExtensionsJson(rb.replacements.value[i].extensions))])))),
            ("extensions", ExtensionsJson(rb.extensions))])
  }

  /** The step as the resolver searches it: an object carrying `stepId` and `outputs`. */
  function StepJson(s: Step): (r: Json)
    ensures Get(r, "stepId") == Some(OptStr(s.stepId))
  {
    var fields := [("description", OptStr(s.description)),
          ("stepId", OptStr(s.stepId)),
          ("operationId", OptStr(s.operationId)),
          ("operationPath", OptStr(s.operationPath)),
          ("workflowId", OptStr(s.workflowId)),
          ("parameters", ParametersJson(s.parameters)),
          ("requestBody", RequestBodyJson(s.requestBody)),
          ("successCriteria", CriteriaJson(s.successCriteria)),
          ("onSuccess", SuccessActionsJson(s.onSuccess)),
          ("onFailure", FailureActionsJson(s.onFailure)),
          ("outputs", OutputsJson(s.outputs)),
          ("extensions", ExtensionsJson(s.extensions))];
    assert Lookup(fields[1..], "stepId") == Some(OptStr(s.stepId));
    JObj(fields)
  }

  function StringsJson(xs: Option<seq<string>>): Json {
    if xs.None? then JNull
    else JArr(seq(|xs.value|, i requires 0 <= i < |xs.value| => JStr(xs.value[i])))
  }

  function StepsJson(steps: seq<Step>): (r: seq<Json>)
    ensures |r| == |steps| && forall i :: 0 <= i < |steps| ==> r[i] == StepJson(steps[i])
  {
    seq(|steps|, i requires 0 <= i < |steps| => StepJson(steps[i]))
  }

  function WorkflowJson(w: Workflow): (r: Json)
    ensures Get(r, "workflowId") == Some(OptStr(w.workflowId))
  {
    JObj([("workflowId", OptStr(w.workflowId)),
          ("summary", OptStr(w.summary)),
          ("description", OptStr(w.description)),
          ("inputs", OptJson(w.inputs)),
          ("dependsOn", StringsJson(w.dependsOn)),
          ("steps", JArr(StepsJson(w.steps))),
          ("successActions", SuccessActionsJson(w.successActions)),
          ("failureActions", FailureActionsJson(w.failureActions)),
          ("outputs", OutputsJson(w.outputs)),
          ("parameters", ParametersJson(w.parameters)),
          ("extensions", ExtensionsJson(w.extensions))])
  }

  function SourceDescriptionJson(d: SourceDescription): (r: Json)
    ensures Get(r, "name") == Some(OptStr(d.name))
  {
    JObj([("name", OptStr(d.name)),
          ("url", OptStr(d.url)),
          ("type", match d.stype
                     case Some(OpenApiSource) => JStr("OPENAPI")
                     case Some(ArazzoSource) => JStr("ARAZZO")
                     case None => JNull),
          ("extensions", ExtensionsJson(d.extensions))])
  }

  /** All steps of all workflows, in document order. */
  function AllSteps(ws: seq<Workflow>): seq<Step>
    decreases |ws|
  {
    if |ws| == 0 then [] else ws[0].steps + AllSteps(ws[1..])
  }
}
