/** The Arazzo 1.0 deserializer as functions.  Every reader takes the
  * ParseLog its ParseResult holds before it runs and gives back the log
  * after it, together with the value it builds, or the exception it throws.
  * The class in ArazzoDeserializers is proved to compute exactly these. */
module Deserialization {
  import opened Wrappers
  import opened Strings
  import opened Json
  import opened Model
  import opened ValidationResults
  import opened ParseResults
  import Values
  import ExpressionCache
  import ComponentsResolver

  // ----- The key sets of Arazzo 1.0 ----------------------------------------------

  const ReservedKeywords: seq<string> := ["x-oai-", "x-oas-"]
  const RootKeys: seq<string> := ["arazzo", "info", "sourceDescriptions", "workflows", "components", "extensions"]
  const InfoKeys: seq<string> := ["title", "summary", "description", "version", "extensions"]
  const SourceDescriptionKeys: seq<string> := ["name", "url", "type", "extensions"]
  const WorkflowKeys: seq<string> :=
    ["workflowId", "summary", "description", "inputs", "dependsOn", "steps", "successActions",
     "failureActions", "outputs", "parameters", "extensions"]
  const StepKeys: seq<string> :=
    ["description", "stepId", "operationId", "operationPath", "workflowId", "parameters",
     "requestBody", "successCriteria", "onSuccess", "onFailure", "outputs", "extensions"]
  const ComponentsKeys: seq<string> := ["inputs", "parameters", "successActions", "failureActions", "extensions"]
  const ParameterKeys: seq<string> := ["name", "in", "value", "extensions"]
  const SuccessActionKeys: seq<string> := ["name", "type", "workflowId", "stepId", "criteria", "extensions"]
  const FailureActionKeys: seq<string> :=
    ["name", "type", "workflowId", "stepId", "criteria", "retryAfter", "retryLimit", "extensions"]
  const CriterionKeys: seq<string> := ["context", "condition", "type", "version", "extensions"]
  const RequestBodyKeys: seq<string> := ["contentType", "payload", "replacements", "extensions"]
  const PayloadReplacementKeys: seq<string> := ["target", "value", "extensions"]
  const ReusableObjectKeys: seq<string> := ["reference", "value"]

  // ----- What a reader works on and gives back ---------------------------------

  /** An ObjectNode: the readers below are only ever handed objects. */
  type ObjectNode = j: Json | j.JObj? witness JObj([])

  /** The log after a reader, and what it built. */
  datatype Parsed<T> = Parsed(log: ParseLog, value: T)

  /** The same, for readers that also grow the deserializer's set of workflow ids. */
  datatype Tracked<T> = Tracked(log: ParseLog, ids: set<string>, value: T)

  /** What reading needs besides the node: the ParseResult's options, and what
    * the components reference resolver works with (its oracles, the
    * expression cache and the `components` node it was created for). */
  datatype Env = Env(
    options: Options,
    o: Values.Oracles,
    cache: ExpressionCache.Cache,
    components: Json)

  // ----- getKeys -----------------------------------------------------------------

  /** A LinkedHashSet filled in order: each name once, at its first occurrence. */
  function Dedup(xs: seq<string>): (r: seq<string>)
    ensures forall k :: k in r <==> k in xs
    ensures forall i, j :: 0 <= i < j < |r| ==> r[i] != r[j]
    decreases |xs|
  {
    if |xs| == 0 then []
    else
      var init := xs[..|xs| - 1];
      var x := xs[|xs| - 1];
      assert xs == init + [x];
      var d := Dedup(init);
      if x in d then d else d + [x]
  }

  /** getKeys: the field names of the node, each once, in document order. */
  function GetKeys(node: Json): (r: seq<string>)
    ensures forall k :: k in r <==> k in FieldNames(node)
    ensures forall i, j :: 0 <= i < j < |r| ==> r[i] != r[j]
  {
    Dedup(FieldNames(node))
  }

  /** For an object whose field names are already distinct (as Jackson's are)
    * the keys are exactly its field names, in order. */
  lemma {:induction false} DedupOfDistinct(xs: seq<string>)
    requires forall i, j :: 0 <= i < j < |xs| ==> xs[i] != xs[j]
    ensures Dedup(xs) == xs
    decreases |xs|
  {
    if |xs| > 0 {
      var init := xs[..|xs| - 1];
      DedupOfDistinct(init);
      assert xs[|xs| - 1] !in init;
      assert xs == init + [xs[|xs| - 1]];
    }
  }

  /** Every key of a node names one of its fields. */
  lemma KeysArePresent(node: Json, k: string)
    requires k in GetKeys(node)
    ensures Has(node, k)
  {
    var i :| 0 <= i < |FieldNames(node)| && FieldNames(node)[i] == k;
    assert node.fields[i].0 == k;
  }

  // ----- Reading one field ---------------------------------------------------------

  /** getString: a missing required key is missing and invalid, a missing
    * optional one is nothing; a container records an invalid type; JSON null
    * is no value; any other scalar gives its text. */
  function GetString(log: ParseLog, node: ObjectNode, key: string, required: bool, location: string): (r: Parsed<Option<string>>)
    ensures KeepsInvalid(log, r.log)
    ensures r.value.Some? <==> Has(node, key) && IsValueNode(Get(node, key).value) && !Get(node, key).value.JNull?
    ensures r.value.Some? ==> r.value.value == AsText(Get(node, key).value) && r.log == log
    ensures !Has(node, key) && required ==>
      r.log == log.Missing(location, key).Invalid() && r.log.invalid && Location(location, key) in r.log.missing
    ensures !Has(node, key) && !required ==> r.log == log
    ensures Has(node, key) && !IsValueNode(Get(node, key).value) ==>
      r.log == log.InvalidType(location, key, "string") && r.log.invalid == log.invalid
      && Find(r.log.invalidTypes, Location(location, key)) == Some("string")
    ensures Has(node, key) && Get(node, key).value.JNull? ==> r.log == log
  {
    match Get(node, key)
    case None => Parsed(if required then log.Missing(location, key).Invalid() else log, None)
    case Some(v) =>
      if !IsValueNode(v) then
        RecordingRules(log, location, key, "string");
        Parsed(log.InvalidType(location, key, "string"), None)
      else if v.JNull? then Parsed(log, None)
      else Parsed(log, Some(AsText(v)))
  }

  /** getString with the `uniqueValues` set: a value already in the set is
    * recorded as a repeated workflowId and the result turns invalid. */
  function GetUniqueString(log: ParseLog, ids: set<string>, node: ObjectNode, key: string, required: bool, location: string): (r: Tracked<Option<string>>)
    ensures KeepsInvalid(log, r.log)
    ensures r.value == GetString(log, node, key, required, location).value
    ensures r.value.Some? ==> r.ids == ids + {r.value.value}
    ensures r.value.None? ==> r.ids == ids
    ensures r.value.Some? && r.value.value in ids ==>
      r.log.invalid && r.log.unique == log.unique + [Location(location, "workflowId")]
    ensures r.value.Some? && r.value.value !in ids ==> r.log == log
  {
    var p := GetString(log, node, key, required, location);
    if p.value.Some? then
      if p.value.value in ids then Tracked(p.log.Unique(location, "workflowId").Invalid(), ids, p.value)
      else Tracked(p.log, ids + {p.value.value}, p.value)
    else Tracked(p.log, ids, p.value)
  }

  /** Whether a string read from the document is stored in the model: any
    * present string when empty strings are allowed, else only a non-blank one. */
  predicate Kept(options: Options, s: Option<string>) {
    (options.allowEmptyStrings && s.Some?) || (!options.allowEmptyStrings && IsNotBlank(s))
  }

  /** A string field: getString, then kept only when `Kept` says so. */
  function StringField(log: ParseLog, options: Options, node: ObjectNode, key: string, required: bool, location: string): (r: Parsed<Option<string>>)
    ensures KeepsInvalid(log, r.log)
    ensures r.log == GetString(log, node, key, required, location).log
    ensures r.value.Some? ==> r.value == GetString(log, node, key, required, location).value
    ensures r.value.Some? ==> options.allowEmptyStrings || !IsBlank(r.value.value)
    ensures GetString(log, node, key, required, location).value.Some? && r.value.None? ==>
      !options.allowEmptyStrings && IsBlank(GetString(log, node, key, required, location).value.value)
  {
    var p := GetString(log, node, key, required, location);
    Parsed(p.log, if Kept(options, p.value) then p.value else None)
  }

  /** getArray: a missing required key is missing and invalid; a value of
    * another type records an invalid type and never makes the result invalid. */
  function GetArray(log: ParseLog, node: ObjectNode, key: string, required: bool, location: string): (r: Parsed<Option<seq<Json>>>)
    ensures KeepsInvalid(log, r.log)
    ensures r.value.Some? <==> Has(node, key) && Get(node, key).value.JArr?
    ensures r.value.Some? ==> r.value.value == Get(node, key).value.items && r.log == log
    ensures !Has(node, key) ==> r.log == if required then log.Missing(location, key).Invalid() else log
    ensures Has(node, key) && !Get(node, key).value.JArr? ==>
      r.log == log.InvalidType(location, key, "array") && r.log.invalid == log.invalid
      && Find(r.log.invalidTypes, Location(location, key)) == Some("array")
  {
    match Get(node, key)
    case None => Parsed(if required then log.Missing(location, key).Invalid() else log, None)
    case Some(v) =>
      if v.JArr? then Parsed(log, Some(v.items))
      else
        RecordingRules(log, location, key, "array");
        Parsed(log.InvalidType(location, key, "array"), None)
  }

  /** getObject: a missing required key is missing and invalid; a value of
    * another type records an invalid type, and is invalid only when required. */
  function GetObject(log: ParseLog, node: ObjectNode, key: string, required: bool, location: string): (r: Parsed<Option<Json>>)
    ensures KeepsInvalid(log, r.log)
    ensures r.value.Some? <==> Has(node, key) && Get(node, key).value.JObj?
    ensures r.value.Some? ==> r.value == Get(node, key) && r.value.value.JObj? && r.log == log
    ensures !Has(node, key) ==> r.log == if required then log.Missing(location, key).Invalid() else log
    ensures Has(node, key) && !Get(node, key).value.JObj? ==>
      (r.log.invalid <==> log.invalid || required)
      && Find(r.log.invalidTypes, Location(location, key)) == Some("object")
  {
    match Get(node, key)
    case None => Parsed(if required then log.Missing(location, key).Invalid() else log, None)
    case Some(v) =>
      if v.JObj? then Parsed(log, Some(v))
      else
        RecordingRules(log, location, key, "object");
        var l := log.InvalidType(location, key, "object");
        Parsed(if required then l.Invalid() else l, None)
  }

  /** JsonNode.isInt(): the number fits a 32-bit int. */
  predicate IsInt(n: int) {
    -0x8000_0000 <= n < 0x8000_0000
  }

  /** getInteger: a number that fits an int; a container records an invalid type. */
  function GetInteger(log: ParseLog, node: ObjectNode, key: string, required: bool, location: string): (r: Parsed<Option<int>>)
    ensures KeepsInvalid(log, r.log)
    ensures r.value.Some? <==> Has(node, key) && Get(node, key).value.JNum? && IsInt(Get(node, key).value.n)
    ensures r.value.Some? ==> r.value.value == Get(node, key).value.n && r.log == log
    ensures !Has(node, key) ==> r.log == if required then log.Missing(location, key).Invalid() else log
    ensures Has(node, key) && !IsValueNode(Get(node, key).value) ==>
      r.log == log.InvalidType(location, key, "integer") && r.log.invalid == log.invalid
    ensures Has(node, key) && IsValueNode(Get(node, key).value) ==> r.log == log
  {
    match Get(node, key)
    case None => Parsed(if required then log.Missing(location, key).Invalid() else log, None)
    case Some(v) =>
      if v.JNum? then Parsed(log, if IsInt(v.n) then Some(v.n) else None)
      else if !IsValueNode(v) then Parsed(log.InvalidType(location, key, "integer"), None)
      else Parsed(log, None)
  }

  /** getBigDecimal: any number; a container records an invalid type. */
  function GetBigDecimal(log: ParseLog, node: ObjectNode, key: string, required: bool, location: string): (r: Parsed<Option<int>>)
    ensures KeepsInvalid(log, r.log)
    ensures r.value.Some? <==> Has(node, key) && Get(node, key).value.JNum?
    ensures r.value.Some? ==> r.value.value == Get(node, key).value.n && r.log == log
    ensures !Has(node, key) ==> r.log == if required then log.Missing(location, key).Invalid() else log
    ensures Has(node, key) && !IsValueNode(Get(node, key).value) ==>
      r.log == log.InvalidType(location, key, "double") && r.log.invalid == log.invalid
  {
    match Get(node, key)
    case None => Parsed(if required then log.Missing(location, key).Invalid() else log, None)
    case Some(v) =>
      if v.JNum? then Parsed(log, Some(v.n))
      else if !IsValueNode(v) then Parsed(log.InvalidType(location, key, "double"), None)
      else Parsed(log, None)
  }

  /** getBoolean: a boolean, or a string read by Boolean.parseBoolean. */
  function GetBoolean(log: ParseLog, node: ObjectNode, key: string, required: bool, location: string): (r: Parsed<Option<bool>>)
    ensures KeepsInvalid(log, r.log)
    ensures r.value.Some? <==> Has(node, key) && (Get(node, key).value.JBool? || Get(node, key).value.JStr?)
    ensures Has(node, key) && Get(node, key).value.JBool? ==> r.value == Some(Get(node, key).value.b)
    ensures Has(node, key) && Get(node, key).value.JStr? ==> r.value == Some(EqualsIgnoreCase(Get(node, key).value.s, "true"))
    ensures Has(node, key) ==> r.log == log
  {
    match Get(node, key)
    case None => Parsed(if required then log.Missing(location, key).Invalid() else log, None)
    case Some(v) =>
      if v.JBool? then Parsed(log, Some(v.b))
      else if v.JStr? then Parsed(log, Some(EqualsIgnoreCase(v.s, "true")))
      else Parsed(log, None)
  }

  /** getAnyType: reads the field with the reader its node type calls for.
    * Whatever the type, the result is the field itself and nothing is recorded. */
  function GetAnyType(log: ParseLog, node: ObjectNode, key: string, location: string): (r: Parsed<Option<Json>>)
    ensures r == Parsed(log, Get(node, key))
  {
    match Get(node, key)
    case None => Parsed(log, None)
    case Some(v) =>
      match v
      case JStr(_) =>
        var p := GetString(log, node, key, false, location);
        Parsed(p.log, if p.value.Some? then Some(JStr(p.value.value)) else None)
      case JNum(_) =>
        var i := GetInteger(log, node, key, false, location);
        if i.value.Some? then Parsed(i.log, Some(JNum(i.value.value)))
        else
          var d := GetBigDecimal(i.log, node, key, false, location);
          Parsed(d.log, if d.value.Some? then Some(JNum(d.value.value)) else None)
      case JObj(_) => GetObject(log, node, key, false, location)
      case JArr(_) =>
        var a := GetArray(log, node, key, false, location);
        Parsed(a.log, if a.value.Some? then Some(JArr(a.value.value)) else None)
      case JBool(_) =>
        var b := GetBoolean(log, node, key, false, location);
        Parsed(b.log, if b.value.Some? then Some(JBool(b.value.value)) else None)
      case JNull => Parsed(log, Some(v))
  }

  // ----- Unknown and reserved keys ----------------------------------------------

  /** A key that starts with one of the reserved prefixes. */
  predicate IsReserved(key: string) {
    exists i :: 0 <= i < |ReservedKeywords| && StartsWith(key, ReservedKeywords[i])
  }

  /** validateReservedKeywords: a reserved key is recorded unless the document's
    * author is the OpenAPI Initiative. */
  function ReservedCheck(log: ParseLog, options: Options, location: string, key: string): (r: ParseLog)
    ensures KeepsInvalid(log, r)
  {
    if !options.oaiAuthor && IsReserved(key) then log.Reserved(location, key) else log
  }

  /** The body of every key loop: an unknown key that is no extension is
    * extra, then the reserved check. */
  function KeyCheck(log: ParseLog, options: Options, allowed: seq<string>, location: string, key: string): (r: ParseLog)
    ensures KeepsInvalid(log, r)
  {
    var l := if key !in allowed && !StartsWith(key, "x-") then log.Extra(location, key) else log;
    ReservedCheck(l, options, location, key)
  }

  /** The key loop from the i-th key on. */
  function KeyChecks(log: ParseLog, options: Options, allowed: seq<string>, location: string, keys: seq<string>, i: nat): (r: ParseLog)
    ensures KeepsInvalid(log, r)
    requires i <= |keys|
    decreases |keys| - i
  {
    if i == |keys| then log
    else KeyChecks(KeyCheck(log, options, allowed, location, keys[i]), options, allowed, location, keys, i + 1)
  }

  function CheckKeys(log: ParseLog, options: Options, node: Json, allowed: seq<string>, location: string): (r: ParseLog)
    ensures KeepsInvalid(log, r)
  {
    KeyChecks(log, options, allowed, location, GetKeys(node), 0)
  }

  /** An unexpected key: not among the allowed ones and no extension. */
  predicate Unexpected(allowed: seq<string>, key: string) {
    key !in allowed && !StartsWith(key, "x-")
  }

  /** What the key loop records: every unexpected key as extra and every
    * reserved key as reserved (unless the author is the OpenAPI Initiative),
    * nothing else, and no other part of the log changes. */
  lemma {:induction false} KeyChecksRules(log: ParseLog, options: Options, allowed: seq<string>, location: string, keys: seq<string>, i: nat)
    requires i <= |keys|
    ensures var r := KeyChecks(log, options, allowed, location, keys, i);
      && r.invalid == log.invalid && r.invalidTypes == log.invalidTypes && r.missing == log.missing
      && r.warnings == log.warnings && r.unique == log.unique
      && (forall l :: l in log.extra ==> l in r.extra)
      && (forall l :: l in log.reserved ==> l in r.reserved)
      && (forall k :: k in keys[i..] && Unexpected(allowed, k) ==> Location(location, k) in r.extra)
      && (forall k :: k in keys[i..] && !options.oaiAuthor && IsReserved(k) ==> Location(location, k) in r.reserved)
      && (forall l :: l in r.extra ==>
            l in log.extra || (l.location == location && l.key in keys[i..] && Unexpected(allowed, l.key)))
      && (forall l :: l in r.reserved ==>
            l in log.reserved || (l.location == location && l.key in keys[i..] && !options.oaiAuthor && IsReserved(l.key)))
    decreases |keys| - i
  {
    if i < |keys| {
      var next := KeyCheck(log, options, allowed, location, keys[i]);
      KeyChecksRules(next, options, allowed, location, keys, i + 1);
      assert keys[i..] == [keys[i]] + keys[i + 1..];
    }
  }

  /** The same for a whole node: its unexpected keys end up extra, its reserved
    * keys reserved, and only the extra and reserved entries change. */
  lemma CheckKeysRules(log: ParseLog, options: Options, node: Json, allowed: seq<string>, location: string)
    ensures var r := CheckKeys(log, options, node, allowed, location);
      && r.invalid == log.invalid && r.invalidTypes == log.invalidTypes && r.missing == log.missing
      && r.warnings == log.warnings && r.unique == log.unique
      && (forall k :: k in FieldNames(node) && Unexpected(allowed, k) ==> Location(location, k) in r.extra)
      && (forall k :: k in FieldNames(node) && !options.oaiAuthor && IsReserved(k) ==> Location(location, k) in r.reserved)
      && (forall l :: l in r.extra ==>
            l in log.extra || (l.location == location && l.key in FieldNames(node) && Unexpected(allowed, l.key)))
      && (forall l :: l in r.reserved ==>
            l in log.reserved || (l.location == location && l.key in FieldNames(node) && !options.oaiAuthor && IsReserved(l.key)))
  {
    var keys := GetKeys(node);
    KeyChecksRules(log, options, allowed, location, keys, 0);
    assert keys[0..] == keys;
  }

  // ----- getExtensions ---------------------------------------------------------------

  /** tryDirectExtensions over the given keys: the `x-` fields with their values. */
  function DirectExtensions(node: Json, keys: seq<string>): (r: Extensions)
    ensures forall e :: e in r ==> StartsWith(e.0, "x-") && e.0 in keys && Get(node, e.0) == Some(e.1)
    ensures forall k :: k in keys && StartsWith(k, "x-") && Has(node, k) ==> (k, Get(node, k).value) in r
    ensures (forall i, j :: 0 <= i < j < |keys| ==> keys[i] != keys[j]) ==>
      forall i, j :: 0 <= i < j < |r| ==> r[i].0 != r[j].0
    decreases |keys|
  {
    if |keys| == 0 then []
    else
      var init := keys[..|keys| - 1];
      var k := keys[|keys| - 1];
      assert keys == init + [k];
      var d := DirectExtensions(node, init);
      if StartsWith(k, "x-") then
        match Get(node, k)
        case Some(v) => d + [(k, v)]
        case None => d
      else d
  }

  function TryDirect(node: Json): Extensions {
    DirectExtensions(node, GetKeys(node))
  }

  /** getExtensions: the node's own `x-` fields; when it has none, those of its
    * `extensions` object; an `extensions` value that is not an object cannot
    * be cast and throws. */
  function GetExtensions(node: ObjectNode): (r: Result<Extensions>)
    ensures TryDirect(node) != [] ==> r == Ok(TryDirect(node))
    ensures r.Err? <==> TryDirect(node) == [] && Has(node, "extensions") && !Get(node, "extensions").value.JObj?
    ensures r.Ok? && TryDirect(node) == [] ==>
      r.value == if Has(node, "extensions") then TryDirect(Get(node, "extensions").value) else []
  {
    var direct := TryDirect(node);
    if direct != [] then Ok(direct)
    else
      match Get(node, "extensions")
      case None => Ok([])
      case Some(e) => if e.JObj? then Ok(TryDirect(e)) else Err(Foreign("ClassCastException"))
  }

  /** What the extensions are: `x-` fields of the node or of its `extensions`
    * object, with their values, each name once. */
  lemma ExtensionsAreExtensionFields(node: ObjectNode)
    requires GetExtensions(node).Ok?
    ensures var r := GetExtensions(node).value;
      && (forall e :: e in r ==> StartsWith(e.0, "x-"))
      && (forall e :: e in r ==>
            (Get(node, e.0) == Some(e.1)
             || (Has(node, "extensions") && Get(Get(node, "extensions").value, e.0) == Some(e.1))))
      && (forall i, j :: 0 <= i < j < |r| ==> r[i].0 != r[j].0)
  {
  }

  // ----- Enum constants (valueOf of the upper-cased name) ------------------------

  function EnumFailure(enumClass: string, name: string): Failure {
    IllegalArgument("No enum constant de.leidenheit.core.model." + enumClass + "." + name)
  }

  function SuccessActionTypeName(t: SuccessActionType): string {
    match t
    case SuccessGoto => "GOTO"
    case SuccessEnd => "END"
  }

  function FailureActionTypeName(t: FailureActionType): string {
    match t
    case FailureGoto => "GOTO"
    case FailureEnd => "END"
    case FailureRetry => "RETRY"
  }

  function SourceTypeName(t: SourceType): string {
    match t
    case OpenApiSource => "OPENAPI"
    case ArazzoSource => "ARAZZO"
  }

  function CriterionTypeOf(name: string): (r: Result<CriterionType>)
    ensures (exists t :: CriterionTypeName(t) == name) ==> r.Ok?
    ensures r.Ok? ==> CriterionTypeName(r.value) == name
    ensures r.Err? ==> r.error == EnumFailure("Criterion.CriterionType", name)
  {
    if name == "SIMPLE" then Ok(Simple)
    else if name == "REGEX" then Ok(Regex)
    else if name == "JSONPATH" then Ok(JsonPath)
    else if name == "XPATH" then Ok(XPath)
    else Err(EnumFailure("Criterion.CriterionType", name))
  }

  function SuccessActionTypeOf(name: string): (r: Result<SuccessActionType>)
    ensures (exists t :: SuccessActionTypeName(t) == name) ==> r.Ok?
    ensures r.Ok? ==> SuccessActionTypeName(r.value) == name
    ensures r.Err? ==> r.error == EnumFailure("SuccessAction.SuccessActionType", name)
  {
    if name == "GOTO" then Ok(SuccessGoto)
    else if name == "END" then Ok(SuccessEnd)
    else Err(EnumFailure("SuccessAction.SuccessActionType", name))
  }

  function FailureActionTypeOf(name: string): (r: Result<FailureActionType>)
    ensures (exists t :: FailureActionTypeName(t) == name) ==> r.Ok?
    ensures r.Ok? ==> FailureActionTypeName(r.value) == name
    ensures r.Err? ==> r.error == EnumFailure("FailureAction.FailureActionType", name)
  {
    if name == "GOTO" then Ok(FailureGoto)
    else if name == "END" then Ok(FailureEnd)
    else if name == "RETRY" then Ok(FailureRetry)
    else Err(EnumFailure("FailureAction.FailureActionType", name))
  }

  function ParameterInOf(name: string): (r: Result<ParameterIn>)
    ensures (exists p :: ParameterInName(p) == name) ==> r.Ok?
    ensures r.Ok? ==> ParameterInName(r.value) == name
    ensures r.Err? ==> r.error == EnumFailure("Parameter.ParameterIn", name)
  {
    if name == "PATH" then Ok(InPath)
    else if name == "HEADER" then Ok(InHeader)
    else if name == "QUERY" then Ok(InQuery)
    else if name == "BODY" then Ok(InBody)
    else if name == "COOKIE" then Ok(InCookie)
    else Err(EnumFailure("Parameter.ParameterIn", name))
  }

  function SourceTypeOf(name: string): (r: Result<SourceType>)
    ensures (exists t :: SourceTypeName(t) == name) ==> r.Ok?
    ensures r.Ok? ==> SourceTypeName(r.value) == name
    ensures r.Err? ==> r.error == EnumFailure("SourceDescription.SourceDescriptionType", name)
  {
    if name == "OPENAPI" then Ok(OpenApiSource)
    else if name == "ARAZZO" then Ok(ArazzoSource)
    else Err(EnumFailure("SourceDescription.SourceDescriptionType", name))
  }

  // ----- Field groups shared by several readers --------------------------------

  /** An optional array field read as a list when present and not empty;
    * otherwise the field is null. */
  function CriteriaField(log: ParseLog, env: Env, node: ObjectNode, key: string, location: string): (r: Result<Parsed<Option<seq<Criterion>>>>)
    ensures r.Ok? ==> KeepsInvalid(log, r.value.log)
  {
    var items := GetArray(log, node, key, false, location);
    if items.value.Some? && |items.value.value| > 0 then
      var cs :- CriteriaFrom(items.log, env, items.value.value, location, 0, []);
      Ok(Parsed(cs.log, Some(cs.value)))
    else Ok(Parsed(items.log, None))
  }

  function SuccessActionsField(log: ParseLog, env: Env, node: ObjectNode, key: string, location: string): (r: Result<Parsed<Option<seq<SuccessAction>>>>)
    ensures r.Ok? ==> KeepsInvalid(log, r.value.log)
  {
    var items := GetArray(log, node, key, false, location);
    if items.value.Some? && |items.value.value| > 0 then
      var xs :- SuccessActionsFrom(items.log, env, items.value.value, 0, []);
      Ok(Parsed(xs.log, Some(xs.value)))
    else Ok(Parsed(items.log, None))
  }

  function FailureActionsField(log: ParseLog, env: Env, node: ObjectNode, key: string, location: string): (r: Result<Parsed<Option<seq<FailureAction>>>>)
    ensures r.Ok? ==> KeepsInvalid(log, r.value.log)
  {
    var items := GetArray(log, node, key, false, location);
    if items.value.Some? && |items.value.value| > 0 then
      var xs :- FailureActionsFrom(items.log, env, items.value.value, 0, []);
      Ok(Parsed(xs.log, Some(xs.value)))
    else Ok(Parsed(items.log, None))
  }

  function ParametersField(log: ParseLog, env: Env, node: ObjectNode, location: string): (r: Result<Parsed<Option<seq<Parameter>>>>)
    ensures r.Ok? ==> KeepsInvalid(log, r.value.log)
  {
    var items := GetArray(log, node, "parameters", false, location);
    if items.value.Some? && |items.value.value| > 0 then
      var xs :- ParametersFrom(items.log, env, items.value.value, 0, []);
      Ok(Parsed(xs.log, Some(xs.value)))
    else Ok(Parsed(items.log, None))
  }

  /** An optional `outputs` object read as its fields' text. */
  function OutputsField(log: ParseLog, node: ObjectNode, location: string): (r: Parsed<Option<Outputs>>)
    ensures KeepsInvalid(log, r.log)
  {
    var obj := GetObject(log, node, "outputs", false, location);
    Parsed(obj.log, if obj.value.Some? then Some(GetOutputs(obj.value.value)) else None)
  }

  // ----- Criterion ----------------------------------------------------------------

  /** getCriterion: a kept `type` names the criterion type; without one the
    * criterion is SIMPLE. */
  function GetCriterion(log: ParseLog, env: Env, node: ObjectNode, location: string): (r: Result<Parsed<Criterion>>)
    ensures r.Ok? ==> KeepsInvalid(log, r.value.log)
  {
    var condition := StringField(log, env.options, node, "condition", true, location);
    var context := StringField(condition.log, env.options, node, "context", false, location);
    var typeName := StringField(context.log, env.options, node, "type", false, location);
    var ctype :- if typeName.value.Some? then CriterionTypeOf(UpperAll(typeName.value.value)) else Ok(Simple);
    var extensions :- GetExtensions(node);
    Ok(Parsed(CheckKeys(typeName.log, env.options, node, CriterionKeys, location),
              Criterion(context.value, condition.value, Some(ctype), None, extensions)))
  }

  /** getCriteriaList from the i-th item on: object items become criteria. */
  function CriteriaFrom(log: ParseLog, env: Env, items: seq<Json>, location: string, i: nat, acc: seq<Criterion>): (r: Result<Parsed<seq<Criterion>>>)
    ensures r.Ok? ==> KeepsInvalid(log, r.value.log)
    requires i <= |items|
    decreases |items| - i
  {
    if i == |items| then Ok(Parsed(log, acc))
    else if items[i].JObj? then
      var c :- GetCriterion(log, env, items[i], location);
      CriteriaFrom(c.log, env, items, location, i + 1, acc + [c.value])
    else CriteriaFrom(log, env, items, location, i + 1, acc)
  }

  // ----- Success and failure actions ----------------------------------------------

  function GetSuccessAction(log: ParseLog, env: Env, node: ObjectNode, location: string): (r: Result<Parsed<SuccessAction>>)
    ensures r.Ok? ==> KeepsInvalid(log, r.value.log)
  {
    var name := StringField(log, env.options, node, "name", true, location);
    var typeName := StringField(name.log, env.options, node, "type", true, location);
    var atype :- if typeName.value.Some? then
        var t :- SuccessActionTypeOf(UpperAll(typeName.value.value)); Ok(Some(t))
      else Ok(None);
    var workflowId := StringField(typeName.log, env.options, node, "workflowId", false, location);
    var stepId := StringField(workflowId.log, env.options, node, "stepId", false, location);
    var criteria :- CriteriaField(stepId.log, env, node, "criteria", location);
    var extensions :- GetExtensions(node);
    Ok(Parsed(CheckKeys(criteria.log, env.options, node, SuccessActionKeys, location),
              SuccessAction(name.value, atype, workflowId.value, stepId.value, criteria.value, extensions)))
  }

  function GetFailureAction(log: ParseLog, env: Env, node: ObjectNode, location: string): (r: Result<Parsed<FailureAction>>)
    ensures r.Ok? ==> KeepsInvalid(log, r.value.log)
  {
    var name := StringField(log, env.options, node, "name", true, location);
    var typeName := StringField(name.log, env.options, node, "type", true, location);
    var atype :- if typeName.value.Some? then
        var t :- FailureActionTypeOf(UpperAll(typeName.value.value)); Ok(Some(t))
      else Ok(None);
    var workflowId := StringField(typeName.log, env.options, node, "workflowId", false, location);
    var stepId := StringField(workflowId.log, env.options, node, "stepId", false, location);
    var retryAfter := GetBigDecimal(stepId.log, node, "retryAfter", false, location);
    var retryLimit := GetInteger(retryAfter.log, node, "retryLimit", false, location);
    var criteria :- CriteriaField(retryLimit.log, env, node, "criteria", location);
    var extensions :- GetExtensions(node);
    Ok(Parsed(CheckKeys(criteria.log, env.options, node, FailureActionKeys, location),
              FailureAction(name.value, atype, workflowId.value, stepId.value, retryAfter.value, retryLimit.value,
                            criteria.value, extensions)))
  }

  /** getReusableObject: a reference and an optional value; no extensions. */
  function GetReusableObject(log: ParseLog, env: Env, node: ObjectNode, location: string): (r: Parsed<ReusableObject>)
    ensures KeepsInvalid(log, r.log)
  {
    var reference := StringField(log, env.options, node, "reference", true, location);
    var value := StringField(reference.log, env.options, node, "value", false, location);
    Parsed(CheckKeys(value.log, env.options, node, ReusableObjectKeys, location),
           ReusableObject(reference.value, value.value))
  }

  /** The component a reusable object refers to; a reusable object without a
    * kept reference dereferences null. */
  function ResolveReference(env: Env, reusable: ReusableObject): Result<Option<Json>> {
    if reusable.reference.None? then Err(NullReference("reference"))
    else ComponentsResolver.ComponentOf(env.o, env.cache, env.components, reusable.reference.value)
  }

  /** getSuccessActionList from the i-th item on: an object item is read itself,
    * or, when it has a `reference`, the component object it refers to is. */
  function SuccessActionsFrom(log: ParseLog, env: Env, items: seq<Json>, i: nat, acc: seq<SuccessAction>): (r: Result<Parsed<seq<SuccessAction>>>)
    ensures r.Ok? ==> KeepsInvalid(log, r.value.log)
    requires i <= |items|
    decreases |items| - i
  {
    if i == |items| then Ok(Parsed(log, acc))
    else if !items[i].JObj? then SuccessActionsFrom(log, env, items, i + 1, acc)
    else
      var a :- SuccessActionItem(log, env, items[i]);
      SuccessActionsFrom(a.log, env, items, i + 1, if a.value.Some? then acc + [a.value.value] else acc)
  }

  /** One object item of a success action list: a reference is dereferenced,
    * and yields nothing when it names no object. */
  function SuccessActionItem(log: ParseLog, env: Env, item: ObjectNode): (r: Result<Parsed<Option<SuccessAction>>>)
    ensures r.Ok? ==> KeepsInvalid(log, r.value.log)
  {
    if Has(item, "reference") then
      var reusable := GetReusableObject(log, env, item, "reusableObject");
      var resolved :- ResolveReference(env, reusable.value);
      if resolved.Some? && resolved.value.JObj? then
        var a :- GetSuccessAction(reusable.log, env, resolved.value, "successAction");
        Ok(Parsed(a.log, Some(a.value)))
      else Ok(Parsed(reusable.log, None))
    else
      var a :- GetSuccessAction(log, env, item, "successAction");
      Ok(Parsed(a.log, Some(a.value)))
  }

  function FailureActionsFrom(log: ParseLog, env: Env, items: seq<Json>, i: nat, acc: seq<FailureAction>): (r: Result<Parsed<seq<FailureAction>>>)
    ensures r.Ok? ==> KeepsInvalid(log, r.value.log)
    requires i <= |items|
    decreases |items| - i
  {
    if i == |items| then Ok(Parsed(log, acc))
    else if !items[i].JObj? then FailureActionsFrom(log, env, items, i + 1, acc)
    else
      var a :- FailureActionItem(log, env, items[i]);
      FailureActionsFrom(a.log, env, items, i + 1, if a.value.Some? then acc + [a.value.value] else acc)
  }

  function FailureActionItem(log: ParseLog, env: Env, item: ObjectNode): (r: Result<Parsed<Option<FailureAction>>>)
    ensures r.Ok? ==> KeepsInvalid(log, r.value.log)
  {
    if Has(item, "reference") then
      var reusable := GetReusableObject(log, env, item, "reusableObject");
      var resolved :- ResolveReference(env, reusable.value);
      if resolved.Some? && resolved.value.JObj? then
        var a :- GetFailureAction(reusable.log, env, resolved.value, "failureAction");
        Ok(Parsed(a.log, Some(a.value)))
      else Ok(Parsed(reusable.log, None))
    else
      var a :- GetFailureAction(log, env, item, "failureAction");
      Ok(Parsed(a.log, Some(a.value)))
  }

  // ----- Parameters ------------------------------------------------------------------

  /** getParameter: a parameter without a value records the value as missing,
    * without making the result invalid. */
  function GetParameter(log: ParseLog, env: Env, node: ObjectNode, location: string): (r: Result<Parsed<Parameter>>)
    ensures r.Ok? ==> KeepsInvalid(log, r.value.log)
  {
    var name := StringField(log, env.options, node, "name", true, location);
    var inName := StringField(name.log, env.options, node, "in", false, location);
    var pin :- if inName.value.Some? then
        var p :- ParameterInOf(UpperAll(inName.value.value)); Ok(Some(p))
      else Ok(None);
    var value := GetAnyType(inName.log, node, "value", location);
    var valueLog := if value.value.None? then value.log.Missing(location, "value") else value.log;
    var extensions :- GetExtensions(node);
    Ok(Parsed(CheckKeys(valueLog, env.options, node, ParameterKeys, location),
              Parameter(name.value, pin, value.value, None, extensions)))
  }

  /** A referenced parameter takes the reusable object's value when that is
    * neither null nor empty. */
  function Overridden(p: Parameter, reusable: ReusableObject): Parameter {
    if !IsEmpty(reusable.value) then p.(value := Some(JStr(reusable.value.value))) else p
  }

  /** getParameterList from the i-th item on. */
  function ParametersFrom(log: ParseLog, env: Env, items: seq<Json>, i: nat, acc: seq<Parameter>): (r: Result<Parsed<seq<Parameter>>>)
    ensures r.Ok? ==> KeepsInvalid(log, r.value.log)
    requires i <= |items|
    decreases |items| - i
  {
    if i == |items| then Ok(Parsed(log, acc))
    else if !items[i].JObj? then ParametersFrom(log, env, items, i + 1, acc)
    else
      var p :- ParameterItem(log, env, items[i]);
      ParametersFrom(p.log, env, items, i + 1, if p.value.Some? then acc + [p.value.value] else acc)
  }

  /** One object item of a parameter list: a referenced parameter takes the
    * reusable object's value when it has one. */
  function ParameterItem(log: ParseLog, env: Env, item: ObjectNode): (r: Result<Parsed<Option<Parameter>>>)
    ensures r.Ok? ==> KeepsInvalid(log, r.value.log)
  {
    if Has(item, "reference") then
      var reusable := GetReusableObject(log, env, item, "reusableObject");
      var resolved :- ResolveReference(env, reusable.value);
      if resolved.Some? && resolved.value.JObj? then
        var p :- GetParameter(reusable.log, env, resolved.value, "parameter");
        Ok(Parsed(p.log, Some(Overridden(p.value, reusable.value))))
      else Ok(Parsed(reusable.log, None))
    else
      var p :- GetParameter(log, env, item, "parameter");
      Ok(Parsed(p.log, Some(p.value)))
  }

  // ----- Request bodies ---------------------------------------------------------------

  /** getPlayload: a string gives its text, an object itself; anything else is
    * an invalid type and invalid. */
  function GetPayload(log: ParseLog, node: Json, location: string): (r: Parsed<Option<Json>>)
    ensures KeepsInvalid(log, r.log)
  {
    if node.JStr? then Parsed(log, Some(JStr(node.s)))
    else if node.JObj? then Parsed(log, Some(node))
    else Parsed(log.InvalidType(location, "payload: ", "string|object").Invalid(), None)
  }

  /** getPayloadReplacementObject: the value is kept as its text. */
  function GetPayloadReplacement(log: ParseLog, env: Env, node: ObjectNode, location: string): (r: Result<Parsed<PayloadReplacement>>)
    ensures r.Ok? ==> KeepsInvalid(log, r.value.log)
  {
    var target := StringField(log, env.options, node, "target", true, location);
    var value := if Has(node, "value") then Some(JStr(AsText(Get(node, "value").value))) else None;
    var extensions :- GetExtensions(node);
    Ok(Parsed(CheckKeys(target.log, env.options, node, PayloadReplacementKeys, location),
              PayloadReplacement(target.value, value, extensions)))
  }

  function PayloadReplacementsFrom(log: ParseLog, env: Env, items: seq<Json>, i: nat, acc: seq<PayloadReplacement>): (r: Result<Parsed<seq<PayloadReplacement>>>)
    ensures r.Ok? ==> KeepsInvalid(log, r.value.log)
    requires i <= |items|
    decreases |items| - i
  {
    if i == |items| then Ok(Parsed(log, acc))
    else if items[i].JObj? then
      var x :- GetPayloadReplacement(log, env, items[i], "payloadReplacementObject");
      PayloadReplacementsFrom(x.log, env, items, i + 1, acc + [x.value])
    else PayloadReplacementsFrom(log, env, items, i + 1, acc)
  }

  /** An optional `requestBody` object, read at location "requestBody". */
  function RequestBodyField(log: ParseLog, env: Env, node: ObjectNode, location: string): (r: Result<Parsed<Option<RequestBody>>>)
    ensures r.Ok? ==> KeepsInvalid(log, r.value.log)
  {
    var obj := GetObject(log, node, "requestBody", false, location);
    if obj.value.Some? then
      var b :- GetRequestBody(obj.log, env, obj.value.value, "requestBody");
      Ok(Parsed(b.log, Some(b.value)))
    else Ok(Parsed(obj.log, None))
  }

  /** getRequestBody: a `replacements` array is kept even when empty. */
  function GetRequestBody(log: ParseLog, env: Env, node: ObjectNode, location: string): (r: Result<Parsed<RequestBody>>)
    ensures r.Ok? ==> KeepsInvalid(log, r.value.log)
  {
    var contentType := StringField(log, env.options, node, "contentType", false, location);
    var payload := if Has(node, "payload") then GetPayload(contentType.log, Get(node, "payload").value, location)
                   else Parsed(contentType.log, None);
    var replacementsArray := GetArray(payload.log, node, "replacements", false, location);
    var replacements :- if replacementsArray.value.Some? then
        var xs :- PayloadReplacementsFrom(replacementsArray.log, env, replacementsArray.value.value, 0, []);
        Ok(Parsed(xs.log, Some(xs.value)))
      else Ok(Parsed(replacementsArray.log, None));
    var extensions :- GetExtensions(node);
    Ok(Parsed(CheckKeys(replacements.log, env.options, node, RequestBodyKeys, location),
              RequestBody(contentType.value, payload.value, replacements.value, extensions)))
  }

  // ----- Outputs and dependsOn --------------------------------------------------------

  /** getOutputs over the given keys: each field's text. */
  function OutputsOver(node: Json, keys: seq<string>): (r: Outputs)
    ensures forall e :: e in r ==> e.0 in keys && Has(node, e.0) && e.1 == AsText(Get(node, e.0).value)
    ensures forall k :: k in keys && Has(node, k) ==> (k, AsText(Get(node, k).value)) in r
    decreases |keys|
  {
    if |keys| == 0 then []
    else
      var init := keys[..|keys| - 1];
      var k := keys[|keys| - 1];
      assert keys == init + [k];
      var d := OutputsOver(node, init);
      match Get(node, k)
      case Some(v) => d + [(k, AsText(v))]
      case None => d
  }

  function GetOutputs(node: Json): Outputs {
    OutputsOver(node, GetKeys(node))
  }

  /** getDependsOnList: the string items, in order. */
  function DependsOn(items: seq<Json>): (r: seq<string>)
    ensures forall s :: s in r <==> JStr(s) in items
    decreases |items|
  {
    if |items| == 0 then []
    else
      var init := items[..|items| - 1];
      var x := items[|items| - 1];
      assert items == init + [x];
      if x.JStr? then DependsOn(init) + [x.s] else DependsOn(init)
  }

  // ----- Steps and workflows -----------------------------------------------------------

  function GetStep(log: ParseLog, env: Env, node: ObjectNode, location: string): (r: Result<Parsed<Step>>)
    ensures r.Ok? ==> KeepsInvalid(log, r.value.log)
  {
    var description := StringField(log, env.options, node, "description", false, location);
    var stepId := StringField(description.log, env.options, node, "stepId", true, location);
    var operationId := StringField(stepId.log, env.options, node, "operationId", false, location);
    var operationPath := StringField(operationId.log, env.options, node, "operationPath", false, location);
    var workflowId := StringField(operationPath.log, env.options, node, "workflowId", false, location);
    var parameters :- ParametersField(workflowId.log, env, node, location);
    var requestBody :- RequestBodyField(parameters.log, env, node, location);
    var criteria :- CriteriaField(requestBody.log, env, node, "successCriteria", location);
    var onSuccess :- SuccessActionsField(criteria.log, env, node, "onSuccess", location);
    var onFailure :- FailureActionsField(onSuccess.log, env, node, "onFailure", location);
    var outputs := OutputsField(onFailure.log, node, location);
    var extensions :- GetExtensions(node);
    Ok(Parsed(CheckKeys(outputs.log, env.options, node, StepKeys, location),
              Step(description.value, stepId.value, operationId.value, operationPath.value, workflowId.value,
                   parameters.value, requestBody.value, criteria.value, onSuccess.value, onFailure.value,
                   outputs.value, extensions)))
  }

  function StepsFrom(log: ParseLog, env: Env, items: seq<Json>, i: nat, acc: seq<Step>): (r: Result<Parsed<seq<Step>>>)
    ensures r.Ok? ==> KeepsInvalid(log, r.value.log)
    requires i <= |items|
    decreases |items| - i
  {
    if i == |items| then Ok(Parsed(log, acc))
    else if items[i].JObj? then
      var s :- GetStep(log, env, items[i], "step");
      StepsFrom(s.log, env, items, i + 1, acc + [s.value])
    else StepsFrom(log, env, items, i + 1, acc)
  }

  /** An optional `dependsOn` array: null when absent or empty. */
  function DependsOnField(log: ParseLog, node: ObjectNode, location: string): (r: Parsed<Option<seq<string>>>)
    ensures KeepsInvalid(log, r.log)
  {
    var items := GetArray(log, node, "dependsOn", false, location);
    Parsed(items.log, if items.value.Some? && |items.value.value| > 0 then Some(DependsOn(items.value.value)) else None)
  }

  /** The required `steps` array: an absent or empty one gives no steps. */
  function StepsField(log: ParseLog, env: Env, node: ObjectNode, location: string): (r: Result<Parsed<seq<Step>>>)
    ensures r.Ok? ==> KeepsInvalid(log, r.value.log)
  {
    var items := GetArray(log, node, "steps", true, location);
    if items.value.Some? && |items.value.value| > 0 then StepsFrom(items.log, env, items.value.value, 0, [])
    else Ok(Parsed(items.log, []))
  }

  /** getWorkflow: the workflowId is read against the set of ids seen so far. */
  function GetWorkflow(log: ParseLog, ids: set<string>, env: Env, node: ObjectNode, location: string): (r: Result<Tracked<Workflow>>)
    ensures r.Ok? ==> KeepsInvalid(log, r.value.log)
  {
    var id := GetUniqueString(log, ids, node, "workflowId", true, location);
    var summary := StringField(id.log, env.options, node, "summary", false, location);
    var description := StringField(summary.log, env.options, node, "description", false, location);
    var inputs := GetObject(description.log, node, "inputs", false, location);
    var dependsOn := DependsOnField(inputs.log, node, location);
    var steps :- StepsField(dependsOn.log, env, node, location);
    var successActions :- SuccessActionsField(steps.log, env, node, "successActions", location);
    var failureActions :- FailureActionsField(successActions.log, env, node, "failureActions", location);
    var outputs := OutputsField(failureActions.log, node, location);
    var parameters :- ParametersField(outputs.log, env, node, location);
    var extensions :- GetExtensions(node);
    Ok(Tracked(CheckKeys(parameters.log, env.options, node, WorkflowKeys, location), id.ids,
               Workflow(if Kept(env.options, id.value) then id.value else None, summary.value, description.value,
                        inputs.value, dependsOn.value, steps.value, successActions.value, failureActions.value,
                        outputs.value, parameters.value, extensions)))
  }

  function WorkflowsFrom(log: ParseLog, ids: set<string>, env: Env, items: seq<Json>, i: nat, acc: seq<Workflow>): (r: Result<Tracked<seq<Workflow>>>)
    ensures r.Ok? ==> KeepsInvalid(log, r.value.log)
    requires i <= |items|
    decreases |items| - i
  {
    if i == |items| then Ok(Tracked(log, ids, acc))
    else if items[i].JObj? then
      var w :- GetWorkflow(log, ids, env, items[i], "workflow");
      WorkflowsFrom(w.log, w.ids, env, items, i + 1, acc + [w.value])
    else WorkflowsFrom(log, ids, env, items, i + 1, acc)
  }

  // ----- Source descriptions and info ---------------------------------------------------

  /** getSourceDescription, with the url as written. */
  function GetSourceDescription(log: ParseLog, env: Env, node: ObjectNode, location: string): (r: Result<Parsed<SourceDescription>>)
    ensures r.Ok? ==> KeepsInvalid(log, r.value.log)
  {
    var name := StringField(log, env.options, node, "name", true, location);
    var typeName := StringField(name.log, env.options, node, "type", false, location);
    var stype :- if typeName.value.Some? then
        var t :- SourceTypeOf(UpperAll(typeName.value.value)); Ok(Some(t))
      else Ok(None);
    var url := StringField(typeName.log, env.options, node, "url", true, location);
    var extensions :- GetExtensions(node);
    Ok(Parsed(CheckKeys(url.log, env.options, node, SourceDescriptionKeys, location),
              SourceDescription(name.value, url.value, stype, None, None, extensions)))
  }

  function SourceDescriptionsFrom(log: ParseLog, env: Env, items: seq<Json>, i: nat, acc: seq<SourceDescription>): (r: Result<Parsed<seq<SourceDescription>>>)
    ensures r.Ok? ==> KeepsInvalid(log, r.value.log)
    requires i <= |items|
    decreases |items| - i
  {
    if i == |items| then Ok(Parsed(log, acc))
    else if items[i].JObj? then
      var d :- GetSourceDescription(log, env, items[i], "sourceDescription");
      SourceDescriptionsFrom(d.log, env, items, i + 1, acc + [d.value])
    else SourceDescriptionsFrom(log, env, items, i + 1, acc)
  }

  /** getInfo: the summary is kept only when it is not blank, whatever the options. */
  function GetInfo(log: ParseLog, env: Env, node: ObjectNode, location: string): (r: Result<Parsed<Info>>)
    ensures r.Ok? ==> KeepsInvalid(log, r.value.log)
  {
    var title := StringField(log, env.options, node, "title", true, location);
    var description := StringField(title.log, env.options, node, "description", false, location);
    var summary := GetString(description.log, node, "summary", false, location);
    var version := StringField(summary.log, env.options, node, "version", true, location);
    var extensions :- GetExtensions(node);
    Ok(Parsed(CheckKeys(version.log, env.options, node, InfoKeys, location),
              Info(title.value, if IsNotBlank(summary.value) then summary.value else None, description.value,
                   version.value, extensions)))
  }

  // ----- Components ------------------------------------------------------------------

  /** The pattern component keys must match, as the warnings quote it. */
  const KeyPattern: string := "^[a-zA-Z0-9\\.\\-_]+$"

  function NameWarning(name: string): string {
    "name: '" + name + "' does not adhere to regular expression " + KeyPattern
  }

  /** The schema warning, with the source's own wording ("not not adhere"). */
  function SchemaNameWarning(name: string): string {
    "schemaName: '" + name + "' not not adhere to regular expression " + KeyPattern
  }

  /** The warning a map key earns under components when it is no component key. */
  function KeyWarning(log: ParseLog, underComponents: bool, location: string, message: string, key: string): (r: ParseLog)
    ensures KeepsInvalid(log, r)
  {
    if underComponents && !IsComponentKey(key) then log.Warning(location, message) else log
  }

  /** getSchemas from the i-th key on: object values are kept, others are an invalid type. */
  function SchemasFrom(log: ParseLog, node: Json, location: string, underComponents: bool, keys: seq<string>, i: nat,
                       acc: seq<(string, Json)>): (r: Parsed<seq<(string, Json)>>)
    ensures KeepsInvalid(log, r.log)
    requires i <= |keys|
    decreases |keys| - i
  {
    if i == |keys| then Parsed(log, acc)
    else
      var k := keys[i];
      var l := KeyWarning(log, underComponents, location, SchemaNameWarning(k), k);
      var v := Get(node, k);
      if v.Some? && v.value.JObj? then SchemasFrom(l, node, location, underComponents, keys, i + 1, acc + [(k, v.value)])
      else SchemasFrom(l.InvalidType(location, k, "object"), node, location, underComponents, keys, i + 1, acc)
  }

  /** getParameters from the i-th key on: object values become named parameters. */
  function NamedParametersFrom(log: ParseLog, env: Env, node: Json, underComponents: bool, keys: seq<string>, i: nat,
                               acc: seq<(string, Parameter)>): (r: Result<Parsed<seq<(string, Parameter)>>>)
    ensures r.Ok? ==> KeepsInvalid(log, r.value.log)
    requires i <= |keys|
    decreases |keys| - i
  {
    if i == |keys| then Ok(Parsed(log, acc))
    else
      var k := keys[i];
      var e :- NamedParameterEntry(log, env, node, underComponents, k);
      NamedParametersFrom(e.log, env, node, underComponents, keys, i + 1, if e.value.Some? then acc + [(k, e.value.value)] else acc)
  }

  /** One key of the map: a name warning under components, then the entry
    * when its value is an object. */
  function NamedParameterEntry(log: ParseLog, env: Env, node: Json, underComponents: bool, k: string): (r: Result<Parsed<Option<Parameter>>>)
    ensures r.Ok? ==> KeepsInvalid(log, r.value.log)
  {
    var l := KeyWarning(log, underComponents, "parameter", NameWarning(k), k);
    var v := Get(node, k);
    if v.Some? && v.value.JObj? then
      var p :- GetParameter(l, env, v.value, "parameter");
      Ok(Parsed(p.log, Some(p.value)))
    else Ok(Parsed(l, None))
  }

  function NamedSuccessActionsFrom(log: ParseLog, env: Env, node: Json, underComponents: bool, keys: seq<string>, i: nat,
                                   acc: seq<(string, SuccessAction)>): (r: Result<Parsed<seq<(string, SuccessAction)>>>)
    ensures r.Ok? ==> KeepsInvalid(log, r.value.log)
    requires i <= |keys|
    decreases |keys| - i
  {
    if i == |keys| then Ok(Parsed(log, acc))
    else
      var k := keys[i];
      var e :- NamedSuccessActionEntry(log, env, node, underComponents, k);
      NamedSuccessActionsFrom(e.log, env, node, underComponents, keys, i + 1, if e.value.Some? then acc + [(k, e.value.value)] else acc)
  }

  /** One key of the map: a name warning under components, then the entry
    * when its value is an object. */
  function NamedSuccessActionEntry(log: ParseLog, env: Env, node: Json, underComponents: bool, k: string): (r: Result<Parsed<Option<SuccessAction>>>)
    ensures r.Ok? ==> KeepsInvalid(log, r.value.log)
  {
    var l := KeyWarning(log, underComponents, "successAction", NameWarning(k), k);
    var v := Get(node, k);
    if v.Some? && v.value.JObj? then
      var a :- GetSuccessAction(l, env, v.value, "successAction");
      Ok(Parsed(a.log, Some(a.value)))
    else Ok(Parsed(l, None))
  }

  function NamedFailureActionsFrom(log: ParseLog, env: Env, node: Json, underComponents: bool, keys: seq<string>, i: nat,
                                   acc: seq<(string, FailureAction)>): (r: Result<Parsed<seq<(string, FailureAction)>>>)
    ensures r.Ok? ==> KeepsInvalid(log, r.value.log)
    requires i <= |keys|
    decreases |keys| - i
  {
    if i == |keys| then Ok(Parsed(log, acc))
    else
      var k := keys[i];
      var e :- NamedFailureActionEntry(log, env, node, underComponents, k);
      NamedFailureActionsFrom(e.log, env, node, underComponents, keys, i + 1, if e.value.Some? then acc + [(k, e.value.value)] else acc)
  }

  /** One key of the map: a name warning under components, then the entry
    * when its value is an object. */
  function NamedFailureActionEntry(log: ParseLog, env: Env, node: Json, underComponents: bool, k: string): (r: Result<Parsed<Option<FailureAction>>>)
    ensures r.Ok? ==> KeepsInvalid(log, r.value.log)
  {
    var l := KeyWarning(log, underComponents, "failureAction", NameWarning(k), k);
    var v := Get(node, k);
    if v.Some? && v.value.JObj? then
      var a :- GetFailureAction(l, env, v.value, "failureAction");
      Ok(Parsed(a.log, Some(a.value)))
    else Ok(Parsed(l, None))
  }

  /** The components' `inputs` object: its object-valued entries as schemas. */
  function InputsField(log: ParseLog, node: ObjectNode, location: string): (r: Parsed<Option<seq<(string, Json)>>>)
    ensures KeepsInvalid(log, r.log)
  {
    var obj := GetObject(log, node, "inputs", false, location);
    if obj.value.Some? then
      var s := SchemasFrom(obj.log, obj.value.value, location + ".inputs", true, GetKeys(obj.value.value), 0, []);
      Parsed(s.log, Some(s.value))
    else Parsed(obj.log, None)
  }

  function NamedParametersField(log: ParseLog, env: Env, node: ObjectNode, location: string): (r: Result<Parsed<Option<seq<(string, Parameter)>>>>)
    ensures r.Ok? ==> KeepsInvalid(log, r.value.log)
  {
    var obj := GetObject(log, node, "parameters", false, location);
    if obj.value.Some? then
      var ps :- NamedParametersFrom(obj.log, env, obj.value.value, true, GetKeys(obj.value.value), 0, []);
      Ok(Parsed(ps.log, Some(ps.value)))
    else Ok(Parsed(obj.log, None))
  }

  function NamedSuccessActionsField(log: ParseLog, env: Env, node: ObjectNode, location: string): (r: Result<Parsed<Option<seq<(string, SuccessAction)>>>>)
    ensures r.Ok? ==> KeepsInvalid(log, r.value.log)
  {
    var obj := GetObject(log, node, "successActions", false, location);
    if obj.value.Some? then
      var xs :- NamedSuccessActionsFrom(obj.log, env, obj.value.value, true, GetKeys(obj.value.value), 0, []);
      Ok(Parsed(xs.log, Some(xs.value)))
    else Ok(Parsed(obj.log, None))
  }

  function NamedFailureActionsField(log: ParseLog, env: Env, node: ObjectNode, location: string): (r: Result<Parsed<Option<seq<(string, FailureAction)>>>>)
    ensures r.Ok? ==> KeepsInvalid(log, r.value.log)
  {
    var obj := GetObject(log, node, "failureActions", false, location);
    if obj.value.Some? then
      var xs :- NamedFailureActionsFrom(obj.log, env, obj.value.value, true, GetKeys(obj.value.value), 0, []);
      Ok(Parsed(xs.log, Some(xs.value)))
    else Ok(Parsed(obj.log, None))
  }

  function GetComponents(log: ParseLog, env: Env, node: ObjectNode, location: string): (r: Result<Parsed<Components>>)
    ensures r.Ok? ==> KeepsInvalid(log, r.value.log)
  {
    var inputs := InputsField(log, node, location);
    var parameters :- NamedParametersField(inputs.log, env, node, location);
    var successActions :- NamedSuccessActionsField(parameters.log, env, node, location);
    var failureActions :- NamedFailureActionsField(successActions.log, env, node, location);
    var extensions :- GetExtensions(node);
    Ok(Parsed(CheckKeys(failureActions.log, env.options, node, ComponentsKeys, location),
              Components(inputs.value, parameters.value, successActions.value, failureActions.value, extensions)))
  }

  // ----- parseRoot -------------------------------------------------------------------

  /** parseRoot: None (null) for a root that is no object, and for a document
    * whose `arazzo` version is absent or not 1.0.x. */
  function ParseRoot(log: ParseLog, ids: set<string>, env: Env, root: Json): (r: Result<Tracked<Option<Document>>>)
    ensures r.Ok? ==> KeepsInvalid(log, r.value.log)
  {
    if !root.JObj? then Ok(Tracked(log.InvalidType("arazzo", "arazzo", "object").Invalid(), ids, None))
    else
      var version := GetString(log, root, "arazzo", true, "arazzo");
      if version.value.None? || !StartsWith(version.value.value, "1.0") then Ok(Tracked(version.log, ids, None))
      else
        var doc :- ParseDocument(version.log, ids, env, root, version.value.value);
        Ok(Tracked(doc.log, doc.ids, Some(doc.value)))
  }

  /** The required `info` object, read at location "info". */
  function InfoField(log: ParseLog, env: Env, root: ObjectNode): (r: Result<Parsed<Option<Info>>>)
    ensures r.Ok? ==> KeepsInvalid(log, r.value.log)
  {
    var obj := GetObject(log, root, "info", true, "arazzo");
    if obj.value.Some? then
      var i :- GetInfo(obj.log, env, obj.value.value, "info");
      Ok(Parsed(i.log, Some(i.value)))
    else Ok(Parsed(obj.log, None))
  }

  /** The required `sourceDescriptions` array: absent or empty gives none. */
  function SourcesField(log: ParseLog, env: Env, root: ObjectNode): (r: Result<Parsed<seq<SourceDescription>>>)
    ensures r.Ok? ==> KeepsInvalid(log, r.value.log)
  {
    var items := GetArray(log, root, "sourceDescriptions", true, "arazzo");
    if items.value.Some? && |items.value.value| > 0 then SourceDescriptionsFrom(items.log, env, items.value.value, 0, [])
    else Ok(Parsed(items.log, []))
  }

  /** The required `workflows` array: absent or empty gives none. */
  function WorkflowsField(log: ParseLog, ids: set<string>, env: Env, root: ObjectNode): (r: Result<Tracked<seq<Workflow>>>)
    ensures r.Ok? ==> KeepsInvalid(log, r.value.log)
  {
    var items := GetArray(log, root, "workflows", true, "arazzo");
    if items.value.Some? && |items.value.value| > 0 then WorkflowsFrom(items.log, ids, env, items.value.value, 0, [])
    else Ok(Tracked(items.log, ids, []))
  }

  /** The optional `components` object, read at location "components". */
  function ComponentsField(log: ParseLog, env: Env, root: ObjectNode): (r: Result<Parsed<Option<Components>>>)
    ensures r.Ok? ==> KeepsInvalid(log, r.value.log)
  {
    var obj := GetObject(log, root, "components", false, "components");
    if obj.value.Some? then
      var c :- GetComponents(obj.log, env, obj.value.value, "components");
      Ok(Parsed(c.log, Some(c.value)))
    else Ok(Parsed(obj.log, None))
  }

  /** The rest of parseRoot, once the version is known to be 1.0.x. */
  function ParseDocument(log: ParseLog, ids: set<string>, env: Env, root: ObjectNode, version: string): (r: Result<Tracked<Document>>)
    ensures r.Ok? ==> KeepsInvalid(log, r.value.log)
    ensures r.Ok? ==> r.value.value.arazzo == Some(version)
  {
    var info :- InfoField(log, env, root);
    var sources :- SourcesField(info.log, env, root);
    var workflows :- WorkflowsField(sources.log, ids, env, root);
    var components :- ComponentsField(workflows.log, env, root);
    var extensions :- GetExtensions(root);
    Ok(Tracked(CheckKeys(components.log, env.options, root, RootKeys, "arazzo"), workflows.ids,
               Document(Some(version), info.value, sources.value, workflows.value, components.value, extensions)))
  }
}
